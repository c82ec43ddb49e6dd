/**
  Colour normalisation (`src/ipc/colors.c`).

  An input is a list of tokens; each is an angle, a colour in one of several forms, or nothing.
  Colours are brought into one form, which stands for itself when it is read again; the last angle
  counts.

  Another compositor wants another form, which is made from the input directly; the last part says
  when going through the first form makes a difference.
 */
module Colors {
  import opened Wrappers
  import opened Strings

  predicate IsHexDigit(c: char) { '0' <= c <= '9' || 'a' <= c <= 'f' || 'A' <= c <= 'F' }

  // ------------------------------------------------------------------
  // Tokens
  // ------------------------------------------------------------------

  predicate IsToken(t: string) {
    t != "" && forall k :: 0 <= k < |t| ==> !IsBlank(t[k])
  }

  /** Where the characters at the front that are not blank end. */
  function TokenEnd(s: string): (k: nat)
    ensures k <= |s| && (k < |s| ==> IsBlank(s[k])) && forall j :: 0 <= j < k ==> !IsBlank(s[j])
  {
    if s == "" || IsBlank(s[0]) then 0 else 1 + TokenEnd(s[1..])
  }

  function Tokens(s: string): (tokens: seq<string>)
    ensures forall k :: 0 <= k < |tokens| ==> IsToken(tokens[k])
    decreases |s|
  {
    if s == "" then []
    else if IsBlank(s[0]) then Tokens(s[1..])
    else
      var k := TokenEnd(s);
      [s[..k]] + Tokens(s[k..])
  }

  // ------------------------------------------------------------------
  // What becomes of a token
  // ------------------------------------------------------------------

  function StripHash(s: string): string { if s != "" && s[0] == '#' then s[1..] else s }

  /** The six colour digits, opaque unless two more follow; black for what is too short. */
  function HyprlandColor(s: string): string {
    if s == "" then "rgba(00000000)"
    else
      var c := StripHash(s);
      "rgba(" + (if |c| >= 6 then c[..6] else "000000") + (if |c| >= 8 then c[6..8] else "ff") + ")"
  }

  predicate IsAngle(t: string) { |t| > 3 && t[|t| - 3..] == "deg" }

  predicate IsWrapped(t: string) { "rgb(" <= t || "rgba(" <= t }

  predicate IsHex(t: string) {
    (t != "" && t[0] == '#') || ((|t| == 6 || |t| == 8) && forall k :: 0 <= k < |t| ==> IsHexDigit(t[k]))
  }

  /** The colour a token stands for; angles and unknown tokens stand for none. */
  function Color(t: string): Option<string> {
    if IsAngle(t) then None
    else if IsWrapped(t) then Some(t)
    else if IsHex(t) then Some(HyprlandColor(t))
    else None
  }

  function ColorsTo(tokens: seq<string>, n: nat): seq<string>
    requires n <= |tokens|
  {
    if n == 0 then []
    else if Color(tokens[n - 1]).Some? then ColorsTo(tokens, n - 1) + [Color(tokens[n - 1]).value]
    else ColorsTo(tokens, n - 1)
  }

  /** The last angle counts. */
  function AngleTo(tokens: seq<string>, n: nat): Option<string>
    requires n <= |tokens|
  {
    if n == 0 then None
    else if IsAngle(tokens[n - 1]) then Some(tokens[n - 1])
    else AngleTo(tokens, n - 1)
  }

  datatype Parsed = Parsed(colors: Option<string>, angle: Option<string>)

  function ParseTokens(tokens: seq<string>): Parsed {
    var colors := ColorsTo(tokens, |tokens|);
    Parsed(if colors == [] then None else Some(Join(colors, " ")), AngleTo(tokens, |tokens|))
  }

  function Parse(s: string): Parsed { ParseTokens(Tokens(s)) }

  // ------------------------------------------------------------------
  // Parsing the output again
  // ------------------------------------------------------------------

  /** A token that stands for itself. */
  predicate Fixed(t: string) { IsToken(t) && Color(t) == Some(t) }

  lemma HyprlandColorIsFixed(t: string)
    requires IsToken(t)
    ensures Fixed(HyprlandColor(t))
  {
    var c, out := StripHash(t), HyprlandColor(t);
    assert forall k :: 0 <= k < |c| ==> !IsBlank(c[k]);
    assert "rgba(" <= out && out[|out| - 1] == ')';
    assert out[|out| - 3..][2] == ')';
  }

  lemma ColorIsFixed(t: string)
    requires IsToken(t) && Color(t).Some?
    ensures Fixed(Color(t).value)
  {
    if !IsWrapped(t) {
      HyprlandColorIsFixed(t);
    }
  }

  lemma {:induction false} ColorsAreFixed(tokens: seq<string>, n: nat)
    requires n <= |tokens| && forall k :: 0 <= k < |tokens| ==> IsToken(tokens[k])
    ensures forall k :: 0 <= k < |ColorsTo(tokens, n)| ==> Fixed(ColorsTo(tokens, n)[k])
  {
    if n > 0 {
      ColorsAreFixed(tokens, n - 1);
      if Color(tokens[n - 1]).Some? {
        ColorIsFixed(tokens[n - 1]);
      }
    }
  }

  lemma OneMoreFixed(tokens: seq<string>, n: nat)
    requires n < |tokens| && Fixed(tokens[n])
    ensures ColorsTo(tokens, n + 1) == ColorsTo(tokens, n) + [tokens[n]] && AngleTo(tokens, n + 1) == AngleTo(tokens, n)
  {
  }

  lemma {:induction false} FixedTokensStay(tokens: seq<string>, n: nat)
    requires n <= |tokens| && forall k :: 0 <= k < n ==> Fixed(tokens[k])
    ensures ColorsTo(tokens, n) == tokens[..n] && AngleTo(tokens, n) == None
  {
    if n > 0 {
      assert tokens[..n] == tokens[..n - 1] + [tokens[n - 1]];
      FixedTokensStay(tokens, n - 1);
      OneMoreFixed(tokens, n - 1);
    }
  }

  lemma {:induction false} TokenEndAfter(t: string, rest: string)
    requires (forall k :: 0 <= k < |t| ==> !IsBlank(t[k])) && (rest == "" || IsBlank(rest[0]))
    ensures TokenEnd(t + rest) == |t|
  {
    if t == "" {
      assert t + rest == rest;
    } else {
      assert (t + rest)[1..] == t[1..] + rest;
      TokenEndAfter(t[1..], rest);
    }
  }

  lemma FirstToken(t: string, rest: string)
    requires IsToken(t) && (rest == "" || IsBlank(rest[0]))
    ensures Tokens(t + rest) == [t] + Tokens(rest)
  {
    var s := t + rest;
    assert s[0] == t[0];
    TokenEndAfter(t, rest);
    assert s[..|t|] == t && s[|t|..] == rest;
  }

  lemma AfterBlank(s: string)
    ensures Tokens(" " + s) == Tokens(s)
  {
    assert (" " + s)[1..] == s;
  }

  lemma {:induction false} TokensOfRest(parts: seq<string>, i: nat)
    requires i <= |parts| && forall k :: 0 <= k < |parts| ==> IsToken(parts[k])
    ensures IsTail(Tokens(Rest(parts, " ", i)), parts, i)
    decreases |parts| - i
  {
    if i < |parts| {
      TokensOfRest(parts, i + 1);
      var rest := Rest(parts, " ", i + 1);
      FirstToken(parts[i], rest);
      AfterBlank(parts[i] + rest);
      TailStep(Tokens(rest), parts, i);
    }
  }

  lemma TokensOfJoin(parts: seq<string>)
    requires forall k :: 0 <= k < |parts| ==> IsToken(parts[k])
    ensures Tokens(Join(parts, " ")) == parts
  {
    if parts != [] {
      TokensOfRest(parts, 1);
      FirstToken(parts[0], Rest(parts, " ", 1));
    }
  }

  lemma {:induction false} AngleIsToken(tokens: seq<string>, n: nat)
    requires n <= |tokens| && forall k :: 0 <= k < |tokens| ==> IsToken(tokens[k])
    ensures AngleTo(tokens, n).Some? ==> IsToken(AngleTo(tokens, n).value) && IsAngle(AngleTo(tokens, n).value)
  {
    if n > 0 {
      AngleIsToken(tokens, n - 1);
    }
  }

  lemma ColorsAlone(colors: seq<string>)
    requires colors != [] && forall k :: 0 <= k < |colors| ==> Fixed(colors[k])
    ensures Parse(Join(colors, " ")) == Parsed(Some(Join(colors, " ")), None)
  {
    TokensOfJoin(colors);
    FixedTokensStay(colors, |colors|);
    assert colors[..|colors|] == colors;
  }

  lemma ColorsThenAngle(colors: seq<string>, angle: string)
    requires (forall k :: 0 <= k < |colors| ==> Fixed(colors[k])) && IsToken(angle) && IsAngle(angle)
    ensures colors != [] ==> Parse(Join(colors, " ") + (" " + angle)) == Parsed(Some(Join(colors, " ")), Some(angle))
    ensures colors == [] ==> Parse(angle) == Parsed(None, Some(angle))
  {
    var tokens := colors + [angle];
    TokensOfJoin(tokens);
    JoinSnoc(colors, angle, " ");
    AngleBehindFixed(colors, angle);
  }

  lemma AngleBehindFixed(colors: seq<string>, angle: string)
    requires (forall k :: 0 <= k < |colors| ==> Fixed(colors[k])) && IsAngle(angle)
    ensures var tokens := colors + [angle];
            ColorsTo(tokens, |tokens|) == colors && AngleTo(tokens, |tokens|) == Some(angle)
  {
    var tokens := colors + [angle];
    FixedTokensStay(tokens, |colors|);
    assert tokens[..|colors|] == colors;
  }

  /** Main result, for every input: parsing the colours again gives the same colours, so no
      token is wrapped twice; and parsing them followed by the angle gives the same pair. */
  lemma NormalisedOnce(s: string)
    ensures var p := Parse(s);
            && (p.colors.Some? ==> Parse(p.colors.value) == Parsed(p.colors, None))
            && (p.colors.Some? && p.angle.Some? ==> Parse(p.colors.value + (" " + p.angle.value)) == p)
            && (p.angle.Some? ==> Parse(p.angle.value) == Parsed(None, p.angle))
  {
    var tokens := Tokens(s);
    var colors, angle := ColorsTo(tokens, |tokens|), AngleTo(tokens, |tokens|);
    ColorsAreFixed(tokens, |tokens|);
    AngleIsToken(tokens, |tokens|);
    if colors != [] {
      ColorsAlone(colors);
    }
    if angle.Some? {
      ColorsThenAngle(colors, angle.value);
      ColorsThenAngle([], angle.value);
    }
  }

  // ------------------------------------------------------------------
  // What an input means, token by token
  // ------------------------------------------------------------------

  lemma {:induction false} TokensOfConcat(s: string, t: string)
    ensures Tokens(s + (" " + t)) == Tokens(s) + Tokens(t)
    decreases |s|
  {
    var all := s + (" " + t);
    if s == "" {
      assert all == " " + t;
      AfterBlank(t);
    } else if IsBlank(s[0]) {
      assert all[1..] == s[1..] + (" " + t);
      TokensOfConcat(s[1..], t);
    } else {
      var k := TokenEnd(s);
      var first, rest := s[..k], s[k..];
      assert all == first + (rest + (" " + t));
      FirstToken(first, rest + (" " + t));
      TokensOfConcat(rest, t);
      AppendTokens([first], Tokens(rest), Tokens(t));
    }
  }

  lemma AppendTokens(a: seq<string>, b: seq<string>, c: seq<string>)
    ensures a + (b + c) == (a + b) + c
  {
  }

  lemma {:induction false} TokensOfPrefix(a: seq<string>, b: seq<string>, n: nat)
    requires n <= |a| && n <= |b| && forall k :: 0 <= k < n ==> a[k] == b[k]
    ensures ColorsTo(a, n) == ColorsTo(b, n) && AngleTo(a, n) == AngleTo(b, n)
  {
    if n > 0 {
      TokensOfPrefix(a, b, n - 1);
    }
  }

  lemma {:induction false} TokensBehind(a: seq<string>, b: seq<string>, n: nat)
    requires n <= |b|
    ensures var all := a + b;
            && ColorsTo(all, |a| + n) == ColorsTo(a, |a|) + ColorsTo(b, n)
            && AngleTo(all, |a| + n) == if AngleTo(b, n).Some? then AngleTo(b, n) else AngleTo(a, |a|)
  {
    if n == 0 {
      TokensOfPrefix(a, a + b, |a|);
    } else {
      TokensBehind(a, b, n - 1);
      assert (a + b)[|a| + (n - 1)] == b[n - 1];
      if Color(b[n - 1]).Some? {
        AppendTokens(ColorsTo(a, |a|), ColorsTo(b, n - 1), [Color(b[n - 1]).value]);
      }
    }
  }

  lemma {:induction false} JoinConcat(a: seq<string>, b: seq<string>)
    requires a != [] && b != []
    ensures Join(a + b, " ") == Join(a, " ") + (" " + Join(b, " "))
    decreases |b|
  {
    var init, last := b[..|b| - 1], b[|b| - 1];
    assert b == init + [last] && a + b == (a + init) + [last];
    JoinSnoc(a + init, last, " ");
    JoinSnoc(init, last, " ");
    if init == [] {
      assert a + init == a;
    } else {
      JoinConcat(a, init);
      AppendAssoc(Join(a, " "), " " + Join(init, " "), " " + last);
      AppendAssoc(" ", Join(init, " "), " " + last);
    }
  }

  /** Main result: of two inputs one after the other, the colours are those of both in order, and
      the angle is that of the second unless it has none. */
  lemma ConcatParses(s: string, t: string)
    ensures var p, q, r := Parse(s), Parse(t), Parse(s + (" " + t));
            && r.angle == (if q.angle.Some? then q.angle else p.angle)
            && r.colors == if p.colors.None? then q.colors
                           else if q.colors.None? then p.colors
                           else Some(p.colors.value + (" " + q.colors.value))
  {
    var a, b := Tokens(s), Tokens(t);
    TokensOfConcat(s, t);
    TokensBehind(a, b, |b|);
    var x, y := ColorsTo(a, |a|), ColorsTo(b, |b|);
    if x != [] && y != [] {
      JoinConcat(x, y);
    } else if x == [] {
      assert x + y == y;
    } else {
      assert x + y == x;
    }
  }

  lemma HexDigits(c: char)
    ensures IsHexDigit(c) <==> c in "0123456789abcdefABCDEF"
  {
    var digits := "0123456789abcdefABCDEF";
    if '0' <= c <= '9' {
      assert digits[(c - '0') as nat] == c;
    } else if 'a' <= c <= 'f' {
      assert digits[10 + (c - 'a') as nat] == c;
    } else if 'A' <= c <= 'F' {
      assert digits[16 + (c - 'A') as nat] == c;
    }
  }

  lemma ColorOfDigits(t: string)
    requires t != ""
    ensures var c := if t[0] == '#' then t[1..] else t;
            HyprlandColor(t) == if |c| >= 8 then "rgba(" + c[..8] + ")"
                                else if |c| >= 6 then "rgba(" + c[..6] + "ff" + ")"
                                else "rgba(000000ff)"
  {
    var c := StripHash(t);
    if |c| >= 8 {
      assert "rgba(" + c[..6] + c[6..8] == "rgba(" + c[..8];
    } else if |c| < 6 {
      assert "rgba(" + "000000" + "ff" + ")" == "rgba(000000ff)";
    }
  }

  lemma ParseOne(t: string)
    requires IsToken(t)
    ensures Parse(t) == if IsAngle(t) then Parsed(None, Some(t)) else Parsed(Color(t), None)
  {
    var tokens, none: seq<string> := [t], [];
    FirstToken(t, "");
    assert t + "" == t && [t] + Tokens("") == tokens;
    assert tokens[0] == t && ColorsTo(tokens, 0) == none && AngleTo(tokens, 0) == None;
    if Color(t).Some? {
      assert ColorsTo(tokens, 1) == none + [Color(t).value];
      assert Join([Color(t).value], " ") == Color(t).value;
    }
  }

  /** What one token means: an angle, a colour as it is, a colour in digits with or without alpha,
      opaque black for too few digits behind a '#', or nothing. */
  lemma OneToken(t: string)
    requires IsToken(t)
    ensures var c := if t[0] == '#' then t[1..] else t;
            Parse(t) ==
            if |t| > 3 && t[|t| - 3..] == "deg" then Parsed(None, Some(t))
            else if "rgb(" <= t || "rgba(" <= t then Parsed(Some(t), None)
            else if t[0] == '#' || ((|t| == 6 || |t| == 8) && forall k :: 0 <= k < |t| ==> IsHexDigit(t[k])) then
              Parsed(Some(if |c| >= 8 then "rgba(" + c[..8] + ")"
                          else if |c| >= 6 then "rgba(" + c[..6] + "ff" + ")"
                          else "rgba(000000ff)"), None)
            else Parsed(None, None)
  {
    ParseOne(t);
    ColorOfDigits(t);
  }

  // ------------------------------------------------------------------
  // The code of the parser
  // ------------------------------------------------------------------

  method SkipBlanks(s: string, p: nat) returns (start: nat)
    requires p <= |s|
    ensures start <= |s| && Tokens(s[p..]) == Tokens(s[start..]) && (start < |s| ==> !IsBlank(s[start]))
  {
    start := p;
    while start < |s| && IsBlank(s[start])
      invariant p <= start <= |s| && Tokens(s[p..]) == Tokens(s[start..])
    {
      assert s[start..][1..] == s[start + 1..];
      start := start + 1;
    }
  }

  lemma CutToken(s: string, start: nat, end: nat)
    requires start < end <= |s| && forall k :: start <= k < end ==> !IsBlank(s[k])
    requires end < |s| ==> IsBlank(s[end])
    ensures Tokens(s[start..]) == [s[start..end]] + Tokens(if end < |s| then s[end + 1..] else "")
  {
    FirstToken(s[start..end], s[end..]);
    assert s[start..] == s[start..end] + s[end..];
    if end < |s| {
      assert s[end..][1..] == s[end + 1..];
    }
  }

  /** The next token at or after `p`, and where to go on; the character behind a token is
      overwritten by a terminator and skipped. */
  method NextToken(s: string, p: nat) returns (token: Option<string>, next: nat)
    requires p <= |s|
    ensures next <= |s|
    ensures token.None? ==> Tokens(s[p..]) == []
    ensures token.Some? ==> Tokens(s[p..]) == [token.value] + Tokens(s[next..])
  {
    var start := SkipBlanks(s, p);
    if start == |s| {
      return None, start;
    }
    var end := start + 1;
    while end < |s| && !IsBlank(s[end])
      invariant start < end <= |s| && forall k :: start <= k < end ==> !IsBlank(s[k])
    {
      end := end + 1;
    }
    CutToken(s, start, end);
    return Some(s[start..end]), if end < |s| then end + 1 else end;
  }

  /** The parser's variables after `n` tokens. */
  ghost predicate Gathered(tokens: seq<string>, n: nat, joined: string, count: nat, angle: Option<string>)
    requires n <= |tokens|
  {
    joined == Join(ColorsTo(tokens, n), " ") && count == |ColorsTo(tokens, n)| && angle == AngleTo(tokens, n)
  }

  method TakeToken(t: string, joined: string, count: nat, angle: Option<string>,
                   ghost tokens: seq<string>, ghost n: nat)
    returns (joined': string, count': nat, angle': Option<string>)
    requires n < |tokens| && t == tokens[n] && Gathered(tokens, n, joined, count, angle)
    ensures Gathered(tokens, n + 1, joined', count', angle')
  {
    joined', count', angle' := joined, count, angle;
    if IsAngle(t) {
      angle' := Some(t);
    } else if IsWrapped(t) || IsHex(t) {
      var color := if IsWrapped(t) then t else HyprlandColor(t);
      JoinSnoc(ColorsTo(tokens, n), color, " ");
      joined' := if count > 0 then joined + (" " + color) else color;
      count' := count + 1;
    }
  }

  /** `token` is the one with number `n`, and the others are found from `p` on. */
  ghost predicate Ahead(tokens: seq<string>, n: nat, token: Option<string>, s: string, p: nat) {
    && p <= |s| && n <= |tokens|
    && (token.Some? ==> n < |tokens| && token.value == tokens[n] && IsTail(Tokens(s[p..]), tokens, n + 1))
    && (token.None? ==> n == |tokens|)
  }

  method NextAhead(ghost tokens: seq<string>, ghost n: nat, s: string, p: nat)
    returns (token: Option<string>, next: nat)
    requires p <= |s| && n <= |tokens| && IsTail(Tokens(s[p..]), tokens, n)
    ensures Ahead(tokens, n, token, s, next)
  {
    token, next := NextToken(s, p);
    if token.Some? {
      TailDrop(token.value, Tokens(s[next..]), tokens, n);
    }
  }

  method ParseColorString(s: Option<string>) returns (colors: Option<string>, angle: Option<string>)
    ensures Parsed(colors, angle) == Parse(if s.Some? then s.value else "")
  {
    if s.None? || s.value == "" {
      return None, None;
    }

    ghost var tokens := Tokens(s.value);
    ghost var n: nat := 0;
    assert s.value[0..] == s.value;
    var joined, count := "", 0;
    angle := None;
    var token, p := NextAhead(tokens, 0, s.value, 0);
    while token.Some?
      invariant Ahead(tokens, n, token, s.value, p)
      invariant Gathered(tokens, n, joined, count, angle)
      decreases |tokens| - n
    {
      joined, count, angle := TakeToken(token.value, joined, count, angle, tokens, n);
      n := n + 1;
      token, p := NextAhead(tokens, n, s.value, p);
    }
    colors := if count > 0 then Some(joined) else None;
  }

  // ------------------------------------------------------------------
  // The other compositor's format
  // ------------------------------------------------------------------

  /** Where the first white space is. */
  function SpaceAt(s: string): (k: nat)
    ensures k <= |s| && (k < |s| ==> IsSpace(s[k])) && forall j :: 0 <= j < k ==> !IsSpace(s[j])
  {
    if s == "" || IsSpace(s[0]) then 0 else 1 + SpaceAt(s[1..])
  }

  function Unwrap(t: string): string {
    if "rgba(" <= t || "RGBA(" <= t || "rgb(" <= t || "RGB(" <= t then
      var open := Find(t, '(');
      if open == |t| then t
      else
        var c := t[open + 1..];
        c[..Find(c, ')')]
    else t
  }

  function StripPrefix(c: string): string {
    if |c| >= 2 && c[0] == '0' && (c[1] == 'x' || c[1] == 'X') then c[2..] else c
  }

  /** Eight digits where the length allows it: short forms are doubled, a missing alpha is
      opaque. */
  function Expand(c: string): string {
    if |c| == 3 then [c[0], c[0], c[1], c[1], c[2], c[2], 'f', 'f']
    else if |c| == 4 then [c[0], c[0], c[1], c[1], c[2], c[2], c[3], c[3]]
    else if |c| == 6 then c + "ff"
    else if |c| >= 8 then c[..8]
    else c
  }

  function MangoColor(s: string): string {
    var t := s[..SpaceAt(s)];
    if t == "" then "" else "0x" + Expand(StripPrefix(StripHash(Unwrap(t))))
  }

  predicate AllHex(c: string) { forall k :: 0 <= k < |c| ==> IsHexDigit(c[k]) }

  lemma MangoIsExpanded(s: string)
    requires s != "" && AllHex(StripHash(s))
    ensures MangoColor(s) == "0x" + Expand(StripHash(s))
  {
    assert forall k :: 0 <= k < |s| ==> s[k] == '#' || IsHexDigit(s[k]);
    assert s[..SpaceAt(s)] == s;
    assert '(' !in s;
    assert Unwrap(s) == s by {
      assert "rgba("[4] == "RGBA("[4] == "rgb("[3] == "RGB("[3] == '(';
    }
  }

  /** Each of three or four digits twice. */
  predicate Doubles(c: string, r: string) {
    |r| == 8 && (|c| == 3 || |c| == 4) && forall k :: 0 <= k < |c| ==> r[2 * k] == r[2 * k + 1] == c[k]
  }

  lemma Expands(c: string)
    ensures var r := Expand(c);
            && (|c| == 3 || |c| == 4 ==> Doubles(c, r))
            && (|c| == 3 || |c| == 6 ==> |r| == 8 && r[6..] == "ff")
            && (|c| == 6 || |c| >= 8 ==> |r| == 8 && r[..6] == c[..6])
            && (|c| >= 8 ==> r[6..] == c[6..8])
            && (|c| in {0, 1, 2, 5, 7} ==> r == c)
  {
  }

  /** Three and four digits are doubled one by one, three and six get an opaque alpha, eight or
      more are cut to eight, and other lengths stay as they are. */
  lemma MangoOfDigits(s: string)
    requires s != "" && AllHex(StripHash(s))
    ensures var c, r := StripHash(s), MangoColor(s);
            && "0x" <= r
            && (|c| == 3 || |c| == 4 ==> Doubles(c, r[2..]))
            && (|c| == 3 || |c| == 6 ==> |r| == 10 && r[8..] == "ff")
            && (|c| == 6 || |c| >= 8 ==> |r| == 10 && r[2..8] == c[..6])
            && (|c| >= 8 ==> r[8..] == c[6..8])
            && (|c| in {0, 1, 2, 5, 7} ==> r[2..] == c)
  {
    var c := StripHash(s);
    MangoIsExpanded(s);
    Expands(c);
    BehindPrefix(Expand(c));
  }

  lemma BehindPrefix(e: string)
    ensures ("0x" + e)[2..] == e && (|e| == 8 ==> ("0x" + e)[2..8] == e[..6] && ("0x" + e)[8..] == e[6..])
  {
  }

  /** Only the first word counts, and its wrapping does not. */
  lemma MangoOfFirstWord(t: string, rest: string)
    requires NoSpace(t)
    ensures MangoColor(t + (" " + rest)) == MangoColor(t)
  {
    var s := t + (" " + rest);
    assert SpaceAt(t) == |t| && t[..|t|] == t;
    assert s[|t|] == ' ' && forall k :: 0 <= k < |t| ==> s[k] == t[k];
    assert SpaceAt(s) == |t| && s[..|t|] == t;
  }

  predicate IsWrapper(w: string) { w == "rgba(" || w == "RGBA(" || w == "rgb(" || w == "RGB(" }

  lemma OpensBehind(wrapper: string, inside: string)
    requires IsWrapper(wrapper)
    ensures Find(wrapper + inside, '(') == |wrapper| - 1 && (wrapper + inside)[|wrapper|..] == inside
  {
    var name := wrapper[..|wrapper| - 1];
    assert wrapper + inside == name + (['('] + inside);
    FindAfter(name, '(', inside);
  }

  lemma Unwraps(wrapper: string, digits: string)
    requires IsWrapper(wrapper) && AllHex(digits)
    ensures Unwrap(wrapper + (digits + ")")) == digits
  {
    var inside := digits + ")";
    OpensBehind(wrapper, inside);
    assert inside == digits + ([')'] + "");
    FindAfter(digits, ')', "");
  }

  predicate NoSpace(s: string) { forall k :: 0 <= k < |s| ==> !IsSpace(s[k]) }

  lemma NoSpaceJoined(a: string, b: string)
    requires NoSpace(a) && NoSpace(b)
    ensures NoSpace(a + b)
  {
  }

  lemma NoSpaceIsWhole(s: string)
    requires NoSpace(s)
    ensures s[..SpaceAt(s)] == s
  {
    assert SpaceAt(s) == |s|;
  }

  lemma EightDigitsStay(digits: string)
    requires |digits| == 8 && AllHex(digits)
    ensures Expand(StripPrefix(StripHash(digits))) == digits
  {
    assert IsHexDigit(digits[0]) && IsHexDigit(digits[1]);
    assert digits[..8] == digits;
  }

  lemma MangoOfWrapped(wrapper: string, digits: string)
    requires IsWrapper(wrapper) && |digits| == 8 && AllHex(digits)
    ensures MangoColor(wrapper + digits + ")") == "0x" + digits
  {
    assert NoSpace(digits) by {
      assert forall k :: 0 <= k < |digits| ==> IsHexDigit(digits[k]);
    }
    NoSpaceJoined(wrapper, digits);
    NoSpaceJoined(wrapper + digits, ")");
    NoSpaceIsWhole(wrapper + digits + ")");
    Unwraps(wrapper, digits);
    AppendAssoc(wrapper, digits, ")");
    EightDigitsStay(digits);
  }

  /** Going through Hyprland's format first makes no difference to a string of hexadecimal
      digits, with or without a '#', exactly if it has six of them, or eight or more, or is one
      of the two short forms of opaque black. */
  lemma MangoAgreesIff(s: string)
    requires AllHex(StripHash(s))
    ensures var c := StripHash(s);
            MangoColor(HyprlandColor(s)) == MangoColor(s) <==> |c| == 6 || |c| >= 8 || c == "000" || c == "000f"
  {
    var c := StripHash(s);
    if s == "" {
      assert HyprlandColor(s) == "rgba(" + "00000000" + ")";
      MangoOfWrapped("rgba(", "00000000");
    } else {
      var digits := (if |c| >= 6 then c[..6] else "000000") + (if |c| >= 8 then c[6..8] else "ff");
      assert AllHex(digits);
      assert HyprlandColor(s) == "rgba(" + digits + ")";
      MangoOfWrapped("rgba(", digits);
      MangoIsExpanded(s);
      ExpandAgreesIff(c, digits);
    }
  }

  /** For instance, the short form of white does not survive. */
  lemma ShortWhiteDiffers()
    ensures MangoColor(HyprlandColor("fff")) != MangoColor("fff")
  {
    assert StripHash("fff") == "fff" && AllHex("fff");
    MangoAgreesIff("fff");
  }

  lemma ExpandAgreesIff(c: string, digits: string)
    requires digits == (if |c| >= 6 then c[..6] else "000000") + (if |c| >= 8 then c[6..8] else "ff")
    ensures "0x" + digits == "0x" + Expand(c) <==> |c| == 6 || |c| >= 8 || c == "000" || c == "000f"
  {
    var e := Expand(c);
    assert "0x" + digits == "0x" + e <==> digits == e by {
      assert ("0x" + digits)[2..] == digits && ("0x" + e)[2..] == e;
    }
    if |c| >= 8 {
      assert digits == e;
    } else if |c| == 4 && digits == e {
      assert digits[0] == c[0] && digits[2] == c[1] && digits[4] == c[2] && digits[6] == c[3];
    } else if |c| == 3 && digits == e {
      assert digits[0] == c[0] && digits[2] == c[1] && digits[4] == c[2];
    }
  }
}
