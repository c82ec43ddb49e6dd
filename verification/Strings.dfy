/**
  Searching, splitting and joining of strings, as the other modules need them.

  `Find` stops at the first occurrence of a character; `Split` cuts at every occurrence and gives
  at least one part; `Join` puts a separator between parts, and splitting undoes it when no part
  contains the separator.

  `Trim` takes blanks, that is spaces and tabs, off both ends; `IsSpace` and
  `Lower` are the C functions for the ASCII range.  What trimming and splitting leave has no
  separator and no outer blanks, which is why such parts survive printing and reading.
 */
module Strings {
  /** Index of the first `c`, or the length when there is none. */
  function Find(s: string, c: char): (k: nat)
    ensures k <= |s| && c !in s[..k] && (k < |s| ==> s[k] == c)
  {
    if s == "" || s[0] == c then 0 else 1 + Find(s[1..], c)
  }

  /** The parts between separators; at least one. */
  function Split(s: string, c: char): (parts: seq<string>)
    ensures |parts| >= 1
    decreases |s|
  {
    var k := Find(s, c);
    if k == |s| then [s] else [s[..k]] + Split(s[k + 1..], c)
  }

  /** The parts from `i` on, with a separator before each. */
  function Rest(parts: seq<string>, sep: string, i: nat): string
    requires i <= |parts|
    decreases |parts| - i
  {
    if i == |parts| then "" else sep + (parts[i] + Rest(parts, sep, i + 1))
  }

  function Join(parts: seq<string>, sep: string): string {
    if parts == [] then "" else parts[0] + Rest(parts, sep, 1)
  }

  /** A space or a tab. */
  predicate IsBlank(c: char) { c == ' ' || c == '\t' }

  function TrimLeft(s: string): (r: string)
    ensures |r| <= |s|
  {
    if s != "" && IsBlank(s[0]) then TrimLeft(s[1..]) else s
  }

  function TrimRight(s: string): (r: string)
    ensures |r| <= |s|
  {
    if s != "" && IsBlank(s[|s| - 1]) then TrimRight(s[..|s| - 1]) else s
  }

  function Trim(s: string): string { TrimRight(TrimLeft(s)) }

  predicate IsSpace(c: char) { c == ' ' || (9 as char) <= c <= (13 as char) }

  function Lower(c: char): char {
    if 'A' <= c <= 'Z' then c - 'A' + 'a' else c
  }

  predicate SameIgnoringCase(a: string, b: string) {
    |a| == |b| && forall i :: 0 <= i < |a| ==> Lower(a[i]) == Lower(b[i])
  }

  /** No blank at either end. */
  predicate Tight(s: string) {
    s == "" || (!IsBlank(s[0]) && !IsBlank(s[|s| - 1]))
  }

  predicate OneLine(s: string) {
    forall k :: 0 <= k < |s| ==> s[k] != '\n'
  }

  lemma AppendAssoc<T>(a: seq<T>, b: seq<T>, c: seq<T>)
    ensures a + (b + c) == (a + b) + c
  {
  }

  lemma Joined(a: string, b: string)
    ensures OneLine(a + b) <==> OneLine(a) && OneLine(b)
  {
    var all := a + b;
    assert forall k :: 0 <= k < |a| ==> all[k] == a[k];
    if OneLine(all) {
      forall k | 0 <= k < |b| ensures b[k] != '\n' {
        assert all[|a| + k] == b[k];
      }
    }
  }

  lemma Enclosed(open: string, s: string, close: string)
    ensures OneLine(open + (s + close)) <==> OneLine(open) && OneLine(s) && OneLine(close)
  {
    Joined(s, close);
    Joined(open, s + close);
  }

  lemma {:induction false} FindAfter(s: string, c: char, rest: string)
    requires c !in s
    ensures Find(s + ([c] + rest), c) == |s|
  {
    var all := s + ([c] + rest);
    if s != "" {
      assert all[1..] == s[1..] + ([c] + rest);
      FindAfter(s[1..], c, rest);
    }
  }

  lemma SplitFirst(first: string, c: char, rest: string)
    requires c !in first
    ensures Split(first + ([c] + rest), c) == [first] + Split(rest, c)
  {
    var all := first + ([c] + rest);
    FindAfter(first, c, rest);
    assert all[..|first|] == first && all[|first| + 1..] == rest;
  }

  lemma TrimPadded(s: string)
    requires Tight(s)
    ensures Trim(s) == s && Trim([' '] + s) == s && Trim(s + [' ']) == s && Trim([' '] + s + [' ']) == s
  {
    var left, right := [' '] + s, s + [' '];
    assert left[1..] == s && right[..|s|] == s;
    if s == "" {
      var both := [' '] + s + [' '];
      assert both[1..] == [' '] && [' '][1..] == "";
    } else {
      var both := [' '] + s + [' '];
      assert both[1..] == right;
    }
  }

  lemma SplitNothing(s: string, c: char)
    requires c !in s
    ensures Split(s, c) == [s]
  {
    assert Find(s, c) == |s|;
  }

  lemma {:induction false} RestLacks(parts: seq<string>, sep: string, i: nat, c: char)
    requires i <= |parts| && c !in sep && forall k :: i <= k < |parts| ==> c !in parts[k]
    ensures c !in Rest(parts, sep, i)
    decreases |parts| - i
  {
    if i < |parts| {
      RestLacks(parts, sep, i + 1, c);
    }
  }

  lemma JoinLacks(parts: seq<string>, sep: string, c: char)
    requires c !in sep && forall k :: 0 <= k < |parts| ==> c !in parts[k]
    ensures c !in Join(parts, sep)
  {
    if parts != [] {
      RestLacks(parts, sep, 1, c);
    }
  }

  lemma {:induction false} RestEnds(parts: seq<string>, sep: string, i: nat)
    requires i < |parts| && parts[|parts| - 1] != ""
    ensures var r, last := Rest(parts, sep, i), parts[|parts| - 1];
            r != "" && r[|r| - 1] == last[|last| - 1]
    decreases |parts| - i
  {
    if i + 1 < |parts| {
      RestEnds(parts, sep, i + 1);
    }
  }

  /** A joined list starts and ends as its first and last part do. */
  lemma JoinTight(parts: seq<string>, sep: string)
    requires parts != [] ==> parts[0] != "" && !IsBlank(parts[0][0])
    requires parts != [] ==> var last := parts[|parts| - 1]; last != "" && !IsBlank(last[|last| - 1])
    ensures Tight(Join(parts, sep)) && (parts != [] ==> Join(parts, sep) != "")
  {
    if |parts| > 1 {
      RestEnds(parts, sep, 1);
    }
  }

  ghost predicate IsTail(r: seq<string>, parts: seq<string>, i: nat) {
    |r| == |parts| - i && forall k :: i <= k < |parts| ==> r[k - i] == parts[k]
  }

  lemma TailStep(r: seq<string>, parts: seq<string>, i: nat)
    requires i < |parts| && IsTail(r, parts, i + 1)
    ensures IsTail([parts[i]] + r, parts, i)
  {
    var longer := [parts[i]] + r;
    forall k | i <= k < |parts| ensures longer[k - i] == parts[k] {
      if k > i {
        assert longer[k - i] == r[k - (i + 1)];
      }
    }
  }

  lemma TailDrop(head: string, r: seq<string>, parts: seq<string>, i: nat)
    requires i <= |parts| && IsTail([head] + r, parts, i)
    ensures i < |parts| && head == parts[i] && IsTail(r, parts, i + 1)
  {
    var longer := [head] + r;
    assert longer[i - i] == parts[i];
    forall k | i + 1 <= k < |parts| ensures r[k - (i + 1)] == parts[k] {
      assert longer[k - i] == parts[k];
    }
  }

  lemma {:induction false} SplitRest(parts: seq<string>, c: char, i: nat)
    requires i < |parts| && forall k :: 0 <= k < |parts| ==> c !in parts[k]
    ensures IsTail(Split(parts[i] + Rest(parts, [c], i + 1), c), parts, i)
    decreases |parts| - i
  {
    var first := parts[i];
    if i + 1 == |parts| {
      SplitNothing(first, c);
      assert first + Rest(parts, [c], i + 1) == first;
    } else {
      SplitRest(parts, c, i + 1);
      var rest := parts[i + 1] + Rest(parts, [c], i + 2);
      assert Rest(parts, [c], i + 1) == [c] + rest;
      SplitFirst(first, c, rest);
      TailStep(Split(rest, c), parts, i);
    }
  }

  lemma {:induction false} RestSnoc(parts: seq<string>, part: string, sep: string, i: nat)
    requires i <= |parts|
    ensures Rest(parts + [part], sep, i) == Rest(parts, sep, i) + (sep + part)
    decreases |parts| - i
  {
    var longer := parts + [part];
    if i == |parts| {
      assert longer[i] + Rest(longer, sep, i + 1) == part;
    } else {
      RestSnoc(parts, part, sep, i + 1);
      AppendAssoc(parts[i], Rest(parts, sep, i + 1), sep + part);
      AppendAssoc(sep, parts[i] + Rest(parts, sep, i + 1), sep + part);
    }
  }

  lemma JoinSnoc(parts: seq<string>, part: string, sep: string)
    ensures Join(parts + [part], sep) == if parts == [] then part else Join(parts, sep) + (sep + part)
  {
    var longer := parts + [part];
    if parts == [] {
      assert longer[0] + Rest(longer, sep, 1) == part;
    } else {
      RestSnoc(parts, part, sep, 1);
      AppendAssoc(parts[0], Rest(parts, sep, 1), sep + part);
    }
  }

  /** Splitting undoes joining. */
  lemma SplitJoin(parts: seq<string>, c: char)
    requires parts != [] && forall k :: 0 <= k < |parts| ==> c !in parts[k]
    ensures Split(Join(parts, [c]), c) == parts
  {
    SplitRest(parts, c, 0);
  }

  // ------------------------------------------------------------------
  // What trimming and splitting leave
  // ------------------------------------------------------------------

  lemma {:induction false} TrimLeftStarts(s: string)
    ensures TrimLeft(s) != "" ==> !IsBlank(TrimLeft(s)[0])
  {
    if s != "" && IsBlank(s[0]) {
      TrimLeftStarts(s[1..]);
    }
  }

  lemma {:induction false} TrimRightEnds(s: string)
    ensures var r := TrimRight(s); r <= s && (r != "" ==> !IsBlank(r[|r| - 1]))
  {
    if s != "" && IsBlank(s[|s| - 1]) {
      TrimRightEnds(s[..|s| - 1]);
    }
  }

  lemma TrimIsTight(s: string)
    ensures Tight(Trim(s))
  {
    TrimLeftStarts(s);
    TrimRightEnds(TrimLeft(s));
  }

  lemma {:induction false} TrimLeftLacks(s: string, c: char)
    requires c !in s
    ensures c !in TrimLeft(s)
  {
    if s != "" && IsBlank(s[0]) {
      TrimLeftLacks(s[1..], c);
    }
  }

  lemma TrimLacks(s: string, c: char)
    requires c !in s
    ensures c !in Trim(s)
  {
    TrimLeftLacks(s, c);
    TrimRightEnds(TrimLeft(s));
  }

  ghost predicate AllLack(parts: seq<string>, c: char) {
    forall k :: 0 <= k < |parts| ==> c !in parts[k]
  }

  /** No part contains the separator. */
  lemma {:induction false} SplitLacksSeparator(s: string, c: char)
    ensures AllLack(Split(s, c), c)
    decreases |s|
  {
    var k := Find(s, c);
    if k < |s| {
      SplitLacksSeparator(s[k + 1..], c);
    } else {
      assert s[..k] == s;
    }
  }

  lemma {:induction false} SplitLacks(s: string, c: char, d: char)
    requires d !in s
    ensures AllLack(Split(s, c), d)
    decreases |s|
  {
    var k := Find(s, c);
    if k < |s| {
      SplitLacks(s[k + 1..], c, d);
    }
  }

  /** The first and last part of a string without spaces at its ends start and end as it does. */
  lemma SplitStarts(s: string)
    requires s != "" && s[0] != ' '
    ensures var first := Split(s, ' ')[0]; first != "" && first[0] == s[0]
  {
  }

  function Last(parts: seq<string>): string
    requires parts != []
  {
    parts[|parts| - 1]
  }

  predicate EndsAs(a: string, b: string) { a != "" && b != "" && a[|a| - 1] == b[|b| - 1] }

  lemma LastBehind(head: string, tail: seq<string>)
    requires tail != []
    ensures Last([head] + tail) == Last(tail)
  {
  }

  lemma {:induction false} SplitEnds(s: string)
    requires s != "" && s[|s| - 1] != ' '
    ensures EndsAs(Last(Split(s, ' ')), s)
    decreases |s|
  {
    var k := Find(s, ' ');
    if k < |s| {
      var rest := s[k + 1..];
      assert EndsAs(rest, s);
      SplitEnds(rest);
      LastBehind(s[..k], Split(rest, ' '));
    }
  }
}
