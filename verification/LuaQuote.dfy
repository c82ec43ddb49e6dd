/**
  Quoting for Lua: `lua_quote` (`src/ipc/hyprland/generator.c`) and `lua_escape_for_cmd`
  (`src/ipc/hyprland/client.c`), against a reader of double-quoted short literals as defined
  in section 3.1 of the Lua 5.4 Reference Manual.
 */
module LuaQuote {
  import opened Wrappers
  import opened Strings

  // ------------------------------------------------------------------
  // Reading a short literal
  // ------------------------------------------------------------------

  /** The string a literal stands for, and what follows the literal. */
  datatype Reading = Reading(value: string, rest: string)

  predicate IsDigit(c: char) { '0' <= c <= '9' }

  function DigitValue(c: char): nat
    requires IsDigit(c)
  {
    (c - '0') as nat
  }

  function HexValue(c: char): Option<nat> {
    if '0' <= c <= '9' then Some((c - '0') as nat)
    else if 'a' <= c <= 'f' then Some((c - 'a') as nat + 10)
    else if 'A' <= c <= 'F' then Some((c - 'A') as nat + 10)
    else None
  }

  function SkipSpace(t: string): (r: string)
    ensures |r| <= |t|
  {
    if t != "" && IsSpace(t[0]) then SkipSpace(t[1..]) else t
  }

  /** A decimal escape takes up to three digits. */
  function ReadDecimal(t: string, value: nat, digits: nat): (r: (nat, string))
    ensures |r.1| <= |t|
  {
    if digits < 3 && t != "" && IsDigit(t[0]) then ReadDecimal(t[1..], 10 * value + DigitValue(t[0]), digits + 1)
    else (value, t)
  }

  function SimpleEscape(c: char): Option<char> {
    match c
    case 'a' => Some(7 as char)
    case 'b' => Some(8 as char)
    case 't' => Some('\t')
    case 'n' => Some('\n')
    case 'v' => Some(11 as char)
    case 'f' => Some(12 as char)
    case 'r' => Some('\r')
    case '\\' => Some('\\')
    case '"' => Some('"')
    case '\'' => Some('\'')
    case _ => None
  }

  /** What the text after a backslash stands for; escapes by code point are not recognised. */
  function ReadEscape(t: string): (r: Option<Reading>)
    ensures r.Some? ==> |r.value.rest| < |t|
  {
    if t == "" then None
    else if SimpleEscape(t[0]).Some? then Some(Reading([SimpleEscape(t[0]).value], t[1..]))
    else if IsLineBreak(t[0]) then
      var pair := |t| > 1 && IsLineBreak(t[1]) && t[1] != t[0];
      Some(Reading("\n", if pair then t[2..] else t[1..]))
    else if t[0] == 'z' then Some(Reading("", SkipSpace(t[1..])))
    else if t[0] == 'x' then
      if |t| > 2 && HexValue(t[1]).Some? && HexValue(t[2]).Some?
      then Some(Reading([(16 * HexValue(t[1]).value + HexValue(t[2]).value) as char], t[3..]))
      else None
    else if IsDigit(t[0]) then
      var (value, rest) := ReadDecimal(t[1..], DigitValue(t[0]), 1);
      if value <= 255 then Some(Reading([value as char], rest)) else None
    else None
  }

  /** The literal after its opening quote, up to the closing one. */
  function ReadBody(t: string): (r: Option<Reading>)
    ensures r.Some? ==> |r.value.rest| < |t|
    decreases |t|
  {
    if t == "" || IsLineBreak(t[0]) then None
    else if t[0] == '"' then Some(Reading("", t[1..]))
    else
      var first := if t[0] == '\\' then ReadEscape(t[1..]) else Some(Reading([t[0]], t[1..]));
      if first.None? then None else Prepend(first.value.value, ReadBody(first.value.rest))
  }

  function Prepend(s: string, r: Option<Reading>): (p: Option<Reading>)
    ensures p.Some? <==> r.Some?
    ensures p.Some? ==> p.value.rest == r.value.rest
  {
    if r.None? then None
    else if s == "" then r
    else Some(Reading(s + r.value.value, r.value.rest))
  }

  function ReadLiteral(text: string): Option<Reading> {
    if text != "" && text[0] == '"' then ReadBody(text[1..]) else None
  }

  // ------------------------------------------------------------------
  // Writing one
  // ------------------------------------------------------------------

  /** `lua_quote` escapes quotes and backslashes; the command quoter also newlines and tabs. */
  datatype Quoter = Plain | Command

  function EscapeChar(q: Quoter, c: char): (r: string)
    ensures 1 <= |r| <= 2
  {
    if c == '"' || c == '\\' then ['\\', c]
    else if q.Command? && c == '\n' then ['\\', 'n']
    else if q.Command? && c == '\t' then ['\\', 't']
    else [c]
  }

  function EscapeFrom(q: Quoter, s: string, i: nat): (r: string)
    requires i <= |s|
    ensures |r| <= 2 * (|s| - i)
    decreases |s| - i
  {
    if i == |s| then "" else EscapeChar(q, s[i]) + EscapeFrom(q, s, i + 1)
  }

  function Quoted(q: Quoter, s: string): (r: string)
    ensures 2 <= |r| <= 2 * |s| + 2
  {
    ['"'] + (EscapeFrom(q, s, 0) + ['"'])
  }

  /** Line breaks that the quoter passes on as they are. */
  predicate Breaks(q: Quoter, c: char) { c == '\r' || (q.Plain? && c == '\n') }

  predicate Safe(q: Quoter, s: string) {
    forall k :: 0 <= k < |s| ==> !Breaks(q, s[k])
  }

  lemma SafeConcat(a: string, b: string)
    ensures Safe(Plain, a + b) <==> Safe(Plain, a) && Safe(Plain, b)
  {
    assert forall k :: 0 <= k < |a| ==> (a + b)[k] == a[k];
    forall k | 0 <= k < |b| ensures (a + b)[|a| + k] == b[k] {}
    if Safe(Plain, a + b) {
      forall k | 0 <= k < |b| ensures !Breaks(Plain, b[k]) {
        assert (a + b)[|a| + k] == b[k];
      }
    }
  }

  // ------------------------------------------------------------------
  // Reading what was written
  // ------------------------------------------------------------------

  lemma ReadEscapedPair(c: char, d: char, t: string)
    requires SimpleEscape(d) == Some(c)
    ensures ReadBody(['\\', d] + t) == Prepend([c], ReadBody(t))
  {
    var u := ['\\', d] + t;
    var v := [d] + t;
    assert u[0] == '\\' && u[1..] == v;
    assert v[0] == d && v[1..] == t;
    assert ReadEscape(v) == Some(Reading([c], t));
  }

  lemma ReadOneChar(q: Quoter, c: char, t: string)
    ensures Breaks(q, c) ==> ReadBody(EscapeChar(q, c) + t) == None
    ensures !Breaks(q, c) ==> ReadBody(EscapeChar(q, c) + t) == Prepend([c], ReadBody(t))
  {
    var e := EscapeChar(q, c);
    if |e| == 2 {
      ReadEscapedPair(c, e[1], t);
    } else {
      var u := [c] + t;
      assert u[0] == c && u[1..] == t;
    }
  }

  lemma {:induction false} ReadBodyOfEscaped(q: Quoter, s: string, i: nat, rest: string)
    requires i <= |s|
    ensures var r := ReadBody(EscapeFrom(q, s, i) + (['"'] + rest));
            if forall k :: i <= k < |s| ==> !Breaks(q, s[k]) then r == Some(Reading(s[i..], rest)) else r == None
    decreases |s| - i
  {
    var t := ['"'] + rest;
    if i == |s| {
      assert EscapeFrom(q, s, i) + t == t && t[1..] == rest;
    } else {
      ReadBodyOfEscaped(q, s, i + 1, rest);
      var tail := EscapeFrom(q, s, i + 1);
      AppendAssoc(EscapeChar(q, s[i]), tail, t);
      ReadOneChar(q, s[i], tail + t);
      assert [s[i]] + s[i + 1..] == s[i..];
    }
  }

  /** Main result: reading back a quoted string, whatever follows it, gives the string and stops
      at its last character, exactly if the quoter let no line break through. */
  lemma ReadsBackIff(q: Quoter, s: string, rest: string)
    ensures ReadLiteral(Quoted(q, s) + rest) == Some(Reading(s, rest)) <==> Safe(q, s)
    ensures !Safe(q, s) ==> ReadLiteral(Quoted(q, s) + rest) == None
  {
    ReadBodyOfEscaped(q, s, 0, rest);
    assert (Quoted(q, s) + rest)[1..] == EscapeFrom(q, s, 0) + (['"'] + rest);
    assert s[0..] == s;
  }

  /** What must not be in the string: a carriage return, and for the plain quoter a line feed. */
  lemma SafeIff(q: Quoter, s: string)
    ensures Safe(q, s) <==> '\r' !in s && (q.Plain? ==> '\n' !in s)
  {
  }

  // ------------------------------------------------------------------
  // Texts in pieces
  // ------------------------------------------------------------------

  /** The escaped text depends on the rest of the string only. */
  lemma {:induction false} EscapeOfRest(q: Quoter, s: string, i: nat, t: string, j: nat)
    requires i <= |s| && j <= |t| && s[i..] == t[j..]
    ensures EscapeFrom(q, s, i) == EscapeFrom(q, t, j)
    decreases |s| - i
  {
    if i < |s| {
      assert s[i] == s[i..][0] && t[j] == t[j..][0];
      assert s[i + 1..] == s[i..][1..] && t[j + 1..] == t[j..][1..];
      EscapeOfRest(q, s, i + 1, t, j + 1);
    }
  }

  lemma {:induction false} EscapeConcat(q: Quoter, a: string, b: string, i: nat)
    requires i <= |a|
    ensures EscapeFrom(q, a + b, i) == EscapeFrom(q, a, i) + EscapeFrom(q, b, 0)
    decreases |a| - i
  {
    if i == |a| {
      EscapeOfRest(q, a + b, |a|, b, 0);
    } else {
      EscapeConcat(q, a, b, i + 1);
      assert (a + b)[i] == a[i];
      AppendAssoc(EscapeChar(q, a[i]), EscapeFrom(q, a, i + 1), EscapeFrom(q, b, 0));
    }
  }

  lemma EscapeAtBreak(a: string, b: string)
    ensures EscapeFrom(Plain, a + (['\n'] + b), 0) == EscapeFrom(Plain, a, 0) + (['\n'] + EscapeFrom(Plain, b, 0))
  {
    var behind := ['\n'] + b;
    EscapeConcat(Plain, a, behind, 0);
    EscapeOfRest(Plain, behind, 1, b, 0);
    assert behind[0] == '\n';
  }

  /** Without a closing quote there is nothing to read. */
  lemma {:induction false} UnclosedIsNone(s: string, i: nat)
    requires i <= |s|
    ensures ReadBody(EscapeFrom(Plain, s, i)) == None
    decreases |s| - i
  {
    if i < |s| {
      UnclosedIsNone(s, i + 1);
      ReadOneChar(Plain, s[i], EscapeFrom(Plain, s, i + 1));
    }
  }

  // ------------------------------------------------------------------
  // The code
  // ------------------------------------------------------------------

  method PutChar(q: Quoter, buffer: array<char>, p: nat, c: char) returns (next: nat)
    requires p + 2 <= buffer.Length
    modifies buffer
    ensures next == p + |EscapeChar(q, c)|
    ensures buffer[..next] == old(buffer[..p]) + EscapeChar(q, c)
  {
    next := p;
    var kept := c;
    if c == '"' || c == '\\' {
      buffer[next] := '\\';
      next := next + 1;
    } else if q.Command? && c == '\n' {
      buffer[next] := '\\';
      next := next + 1;
      kept := 'n';
    } else if q.Command? && c == '\t' {
      buffer[next] := '\\';
      next := next + 1;
      kept := 't';
    }
    buffer[next] := kept;
    next := next + 1;
  }

  /** The opening quote and the escaped characters. */
  method EscapeInto(q: Quoter, s: string, buffer: array<char>) returns (p: nat)
    requires buffer.Length == 2 * |s| + 3
    modifies buffer
    ensures p <= 1 + 2 * |s| && buffer[..p] == ['"'] + EscapeFrom(q, s, 0)
  {
    buffer[0] := '"';
    p := 1;
    ghost var whole := ['"'] + EscapeFrom(q, s, 0);
    assert buffer[..1] == ['"'];
    for i := 0 to |s|
      invariant 1 <= p <= 1 + 2 * i
      invariant buffer[..p] + EscapeFrom(q, s, i) == whole
    {
      AppendAssoc(buffer[..p], EscapeChar(q, s[i]), EscapeFrom(q, s, i + 1));
      p := PutChar(q, buffer, p, s[i]);
    }
    assert buffer[..p] == whole;
  }

  method QuoteInto(q: Quoter, s: string, buffer: array<char>) returns (length: nat)
    requires buffer.Length == 2 * |s| + 3
    modifies buffer
    ensures length < buffer.Length && buffer[length] == NUL && buffer[..length] == Quoted(q, s)
  {
    var p := EscapeInto(q, s, buffer);
    buffer[p] := '"';
    buffer[p + 1] := NUL;
    length := p + 1;
    AppendAssoc(['"'], EscapeFrom(q, s, 0), ['"']);
  }

  /** Both quoters, into a buffer of 2 * len + 3; a missing string counts as an empty one. */
  method Quote(q: Quoter, s: Option<string>) returns (buffer: array<char>, length: nat)
    ensures length < buffer.Length && buffer[length] == NUL
    ensures buffer[..length] == Quoted(q, if s.Some? then s.value else "")
  {
    if s.None? || (q.Command? && s.value == "") {
      buffer := new char[] ['"', '"', NUL];
      length := 2;
      assert buffer[..length] == Quoted(q, "");
    } else {
      buffer := new char[2 * |s.value| + 3];
      length := QuoteInto(q, s.value, buffer);
    }
  }
}
