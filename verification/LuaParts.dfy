/**
  Lua text in parts, code and strings (for `src/ipc/hyprland/generator.c`).

  Printing puts the strings in quotes.  A reader takes one line apart again: it reads each quoted
  string as Lua does and takes what stands between them for code.

  A line is not read at all if a string in it does not end or code in it breaks the line; that is
  also what happens to the first line of a text whose strings contain line feeds.
 */
module LuaParts {
  import opened Wrappers
  import opened Strings
  import opened LuaQuote

  /** Code is written as it is, a literal in quotes. */
  datatype Part = Code(text: string) | Lit(text: string)

  function Q(s: string): string { Quoted(Plain, s) }

  function PartText(p: Part): string { if p.Code? then p.text else Q(p.text) }

  function Print(parts: seq<Part>): string {
    if parts == [] then "" else PartText(parts[0]) + Print(parts[1..])
  }

  function Fixed(text: string): seq<Part> { [Code(text)] }

  function Filled(open: string, s: string, close: string): seq<Part> { [Code(open), Lit(s), Code(close)] }

  // ------------------------------------------------------------------
  // Reading a line
  // ------------------------------------------------------------------

  function Prepended(p: Part, rest: Option<seq<Part>>): Option<seq<Part>> {
    if rest.None? then None else Some([p] + rest.value)
  }

  /** The parts of a line: literals, and the code up to the next one; code does not break the line. */
  function Read(line: string): Option<seq<Part>>
    decreases |line|
  {
    if line == "" then Some([])
    else if line[0] == '"' then
      var r := ReadBody(line[1..]);
      if r.None? then None else Prepended(Lit(r.value.value), Read(r.value.rest))
    else
      var k := Find(line, '"');
      if '\n' in line[..k] then None else Prepended(Code(line[..k]), Read(line[k..]))
  }

  // ------------------------------------------------------------------
  // What reads back
  // ------------------------------------------------------------------

  /** No quote and no line feed. */
  predicate CleanCode(code: string) { forall k :: 0 <= k < |code| ==> code[k] != '"' && code[k] != '\n' }

  predicate PartOk(p: Part) { if p.Code? then CleanCode(p.text) else Safe(Plain, p.text) }

  predicate PartsOk(parts: seq<Part>) { forall k :: 0 <= k < |parts| ==> PartOk(parts[k]) }

  /** No empty code, and no code behind code. */
  predicate Apart(parts: seq<Part>) {
    && (forall k :: 0 <= k < |parts| && parts[k].Code? ==> parts[k].text != "")
    && (forall k :: 0 < k < |parts| && parts[k - 1].Code? ==> parts[k].Lit?)
  }

  /** Nothing, or a literal. */
  predicate StartsApart(text: string) { text == "" || text[0] == '"' }

  lemma ReadLit(s: string, rest: string)
    ensures Safe(Plain, s) ==> Read(Q(s) + rest) == Prepended(Lit(s), Read(rest))
    ensures !Safe(Plain, s) ==> Read(Q(s) + rest) == None
  {
    ReadsBackIff(Plain, s, rest);
  }

  lemma ReadCode(code: string, rest: string)
    requires code != "" && CleanCode(code) && StartsApart(rest)
    ensures Read(code + rest) == Prepended(Code(code), Read(rest))
  {
    var line := code + rest;
    assert Find(line, '"') == |code| by {
      if rest == "" {
        assert line == code;
      } else {
        assert rest == ['"'] + rest[1..];
        FindAfter(code, '"', rest[1..]);
      }
    }
    assert line[..|code|] == code && line[|code|..] == rest;
  }

  predicate CodesClean(parts: seq<Part>) { forall k :: 0 <= k < |parts| && parts[k].Code? ==> CleanCode(parts[k].text) }

  /** Code that is read is clean. */
  lemma {:induction false} ReadIsClean(line: string)
    ensures Read(line).Some? ==> CodesClean(Read(line).value)
    decreases |line|
  {
    if line != "" {
      if line[0] == '"' {
        if ReadBody(line[1..]).Some? {
          ReadIsClean(ReadBody(line[1..]).value.rest);
        }
      } else {
        ReadIsClean(line[Find(line, '"')..]);
      }
    }
  }

  lemma PrintStartsApart(parts: seq<Part>)
    requires parts == [] || parts[0].Lit?
    ensures StartsApart(Print(parts))
  {
  }

  /** Printed with clean code, the parts read back exactly if no literal has a line break;
      otherwise nothing can be read. */
  lemma {:induction false} PrintReadsBackIff(parts: seq<Part>)
    requires Apart(parts) && CodesClean(parts)
    ensures Read(Print(parts)) == if PartsOk(parts) then Some(parts) else None
  {
    if parts != [] {
      var rest := parts[1..];
      PrintReadsBackIff(rest);
      assert parts == [parts[0]] + rest;
      assert PartsOk(parts) <==> PartOk(parts[0]) && PartsOk(rest);
      if parts[0].Code? {
        PrintStartsApart(rest);
        ReadCode(parts[0].text, Print(rest));
      } else {
        ReadLit(parts[0].text, Print(rest));
      }
    }
  }

  lemma {:induction false} OkIsOneLine(parts: seq<Part>)
    requires PartsOk(parts)
    ensures '\n' !in Print(parts)
  {
    if parts != [] {
      OkIsOneLine(parts[1..]);
      assert PartOk(parts[0]);
      QLacksIff(parts[0].text);
    }
  }

  lemma OtherTexts(a: seq<Part>, b: seq<Part>)
    requires Apart(a) && PartsOk(a) && Apart(b) && PartsOk(b) && a != b
    ensures Print(a) != Print(b)
  {
    PrintReadsBackIff(a);
    PrintReadsBackIff(b);
  }

  // ------------------------------------------------------------------
  // Parts with a line feed in a literal
  // ------------------------------------------------------------------

  function FirstLine(text: string): string { text[..Find(text, '\n')] }

  lemma FirstLineBehind(a: string, rest: string)
    requires '\n' !in a && '\n' in rest
    ensures FirstLine(a + rest) == a + FirstLine(rest) && (rest[0] != '\n' ==> FirstLine(rest)[..1] == rest[..1])
  {
    var k := Find(rest, '\n');
    assert k < |rest| by {
      assert rest[..|rest|] == rest;
    }
    var tail := a + rest[..k];
    assert a + rest == tail + (['\n'] + rest[k + 1..]);
    FindAfter(tail, '\n', rest[k + 1..]);
  }

  lemma FirstLineEnds(first: string, behind: string)
    requires '\n' !in first
    ensures FirstLine(first + (['\n'] + behind)) == first
  {
    FindAfter(first, '\n', behind);
    assert (first + (['\n'] + behind))[..|first|] == first;
  }

  lemma CutAtBreak(s: string) returns (a: string, b: string)
    requires '\n' in s
    ensures '\n' !in a && s == a + (['\n'] + b)
  {
    var k := Find(s, '\n');
    assert k < |s| by {
      assert s[..|s|] == s;
    }
    a, b := s[..k], s[k + 1..];
  }

  lemma QuoteAssoc(a: string, b: string, rest: string)
    ensures (['"'] + ((a + (['\n'] + b)) + ['"'])) + rest == (['"'] + a) + (['\n'] + (b + (['"'] + rest)))
  {
  }

  lemma UnclosedLiteral(s: string)
    ensures Read(['"'] + EscapeFrom(Plain, s, 0)) == None
  {
    assert (['"'] + EscapeFrom(Plain, s, 0))[1..] == EscapeFrom(Plain, s, 0);
    UnclosedIsNone(s, 0);
  }

  lemma BrokenLiteral(s: string, rest: string)
    requires '\n' in s
    ensures Read(FirstLine(Q(s) + rest)) == None
  {
    var a, b := CutAtBreak(s);
    EscapeAtBreak(a, b);
    BrokenBetween(EscapeFrom(Plain, a, 0), EscapeFrom(Plain, b, 0), s, rest);
    EscapedLacksIff(a, 0);
    assert a[0..] == a;
    FirstLineEnds(['"'] + EscapeFrom(Plain, a, 0), EscapeFrom(Plain, b, 0) + (['"'] + rest));
    UnclosedLiteral(a);
  }

  lemma BrokenBetween(a: string, b: string, s: string, rest: string)
    requires EscapeFrom(Plain, s, 0) == a + (['\n'] + b)
    ensures Q(s) + rest == (['"'] + a) + (['\n'] + (b + (['"'] + rest)))
  {
    QuoteAssoc(a, b, rest);
  }

  lemma {:induction false} EscapedLacksIff(s: string, i: nat)
    requires i <= |s|
    ensures '\n' !in EscapeFrom(Plain, s, i) <==> '\n' !in s[i..]
    decreases |s| - i
  {
    if i < |s| {
      EscapedLacksIff(s, i + 1);
      assert s[i..] == [s[i]] + s[i + 1..];
    }
  }

  lemma QLacksIff(s: string)
    ensures '\n' !in Q(s) <==> '\n' !in s
  {
    EscapedLacksIff(s, 0);
    assert s[0..] == s;
  }

  /** If a literal breaks the line, its first piece is not even a line of parts. */
  lemma {:induction false} BrokenIsNone(parts: seq<Part>)
    requires Apart(parts) && CodesClean(parts) && '\n' in Print(parts)
    ensures Read(FirstLine(Print(parts))) == None
  {
    var p, rest := parts[0], parts[1..];
    QLacksIff(p.text);
    if '\n' in PartText(p) {
      BrokenLiteral(p.text, Print(rest));
    } else {
      assert parts == [p] + rest;
      BrokenIsNone(rest);
      FirstLineBehind(PartText(p), Print(rest));
      if p.Code? {
        PrintStartsApart(rest);
        ReadCode(p.text, FirstLine(Print(rest)));
      } else {
        ReadLit(p.text, FirstLine(Print(rest)));
      }
    }
  }

  // ------------------------------------------------------------------
  // Putting parts together
  // ------------------------------------------------------------------

  predicate Framed(parts: seq<Part>) { parts != [] && parts[0].Code? && parts[|parts| - 1].Code? }

  /** Starts and ends with code, and reads back exactly if its fields fit. */
  ghost predicate Reads(parts: seq<Part>, fits: bool) { Framed(parts) && Apart(parts) && (PartsOk(parts) <==> fits) }

  lemma CleanJoined(a: string, b: string)
    ensures CleanCode(a + b) <==> CleanCode(a) && CleanCode(b)
  {
    var all := a + b;
    assert forall k :: 0 <= k < |a| ==> all[k] == a[k];
    if CleanCode(all) {
      forall k | 0 <= k < |b| ensures b[k] != '"' && b[k] != '\n' {
        assert all[|a| + k] == b[k];
      }
    }
  }

  lemma FixedReads(text: string)
    requires text != ""
    ensures Reads(Fixed(text), CleanCode(text))
  {
    assert Fixed(text)[0] == Code(text);
  }

  lemma FilledReads(open: string, s: string, close: string)
    requires open != "" && close != "" && CleanCode(open) && CleanCode(close)
    ensures Reads(Filled(open, s, close), Safe(Plain, s))
  {
    var parts := Filled(open, s, close);
    assert parts[0] == Code(open) && parts[1] == Lit(s) && parts[2] == Code(close);
  }

  lemma BehindLiteral(start: seq<Part>, rest: seq<Part>)
    requires Apart(start) && Apart(rest) && start != [] && start[|start| - 1].Lit?
    ensures Apart(start + rest) && (PartsOk(start + rest) <==> PartsOk(start) && PartsOk(rest))
  {
    var parts := start + rest;
    assert forall k :: 0 <= k < |start| ==> parts[k] == start[k];
    assert forall k :: 0 <= k < |rest| ==> rest[k] == parts[k + |start|];
  }

  lemma CodesJoined(a: seq<Part>, b: seq<Part>)
    ensures CodesClean(a + b) <==> CodesClean(a) && CodesClean(b)
  {
    assert forall k :: 0 <= k < |a| ==> (a + b)[k] == a[k];
    assert forall k :: 0 <= k < |b| ==> b[k] == (a + b)[|a| + k];
  }

  lemma PrintFilled(open: string, s: string, close: string)
    ensures Print(Filled(open, s, close)) == open + (Q(s) + close)
  {
    var parts := Filled(open, s, close);
    assert parts[1..] == [Lit(s), Code(close)] && parts[1..][1..] == [Code(close)] && [Code(close)][1..] == [];
    assert Print([Code(close)]) == close + Print([]) == close;
    assert Print(parts[1..]) == Q(s) + Print([Code(close)]);
  }

  // ------------------------------------------------------------------
  // Text before and behind
  // ------------------------------------------------------------------

  function Front(s: string, parts: seq<Part>): seq<Part>
    requires parts != []
  {
    [Code(s + parts[0].text)] + parts[1..]
  }

  function Back(parts: seq<Part>, s: string): (r: seq<Part>)
    requires parts != []
    ensures |r| == |parts|
  {
    if |parts| == 1 then [Code(parts[0].text + s)] else [parts[0]] + Back(parts[1..], s)
  }

  lemma PrintFront(s: string, parts: seq<Part>)
    requires Framed(parts)
    ensures Print(Front(s, parts)) == s + Print(parts)
  {
    assert Front(s, parts)[1..] == parts[1..];
    AppendAssoc(s, parts[0].text, Print(parts[1..]));
  }

  lemma {:induction false} PrintBack(parts: seq<Part>, s: string)
    requires parts != [] && parts[|parts| - 1].Code?
    ensures Print(Back(parts, s)) == Print(parts) + s
  {
    if |parts| == 1 {
      assert parts[1..] == [] && Back(parts, s)[1..] == [];
      assert Print(parts) == parts[0].text;
    } else {
      PrintBack(parts[1..], s);
      assert Back(parts, s)[1..] == Back(parts[1..], s);
      AppendAssoc(PartText(parts[0]), Print(parts[1..]), s);
    }
  }

  lemma FrontReads(s: string, parts: seq<Part>, fits: bool)
    requires Reads(parts, fits) && CleanCode(s)
    ensures Reads(Front(s, parts), fits)
  {
    CleanJoined(s, parts[0].text);
    SameButHead(parts, Front(s, parts));
  }

  lemma SameButHead(a: seq<Part>, b: seq<Part>)
    requires a != [] && |a| == |b| && a[1..] == b[1..] && Apart(a) && a[0].Code? && b[0].Code? && b[0].text != ""
    requires PartOk(a[0]) <==> PartOk(b[0])
    ensures Apart(b) && (PartsOk(a) <==> PartsOk(b))
  {
    assert forall k :: 1 <= k < |a| ==> a[k] == a[1..][k - 1] && b[k] == a[1..][k - 1];
  }

  lemma {:induction false} BackIs(parts: seq<Part>, s: string)
    requires parts != []
    ensures var last := |parts| - 1; Back(parts, s) == parts[..last] + [Code(parts[last].text + s)]
  {
    if |parts| > 1 {
      BackIs(parts[1..], s);
    }
  }

  lemma BackReads(parts: seq<Part>, s: string, fits: bool)
    requires Reads(parts, fits) && CleanCode(s)
    ensures Reads(Back(parts, s), fits)
  {
    var last := |parts| - 1;
    BackIs(parts, s);
    CleanJoined(parts[last].text, s);
    SameButLast(parts, Back(parts, s));
  }

  lemma SameButLast(a: seq<Part>, b: seq<Part>)
    requires a != [] && |a| == |b| && Framed(a) && Apart(a)
    requires var last := |a| - 1;
             && (forall k :: 0 <= k < last ==> a[k] == b[k])
             && b[last].Code? && b[last].text != "" && (PartOk(a[last]) <==> PartOk(b[last]))
    ensures Framed(b) && Apart(b) && (PartsOk(a) <==> PartsOk(b))
  {
    assert PartsOk(b) ==> PartOk(b[|a| - 1]);
    assert PartsOk(a) ==> PartOk(a[|a| - 1]);
  }
}
