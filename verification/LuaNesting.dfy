/**
  Properly nested Lua text (for `hyprland_generate_appearance_lua` in
  `src/ipc/hyprland/generator.c`).

  A scanner that knows strings, comments and brackets, after the lexical conventions in section
  3.1 of the Lua 5.4 Reference Manual, and documents whose text it accepts: text of such a
  document can be added anywhere outside strings and comments, and all brackets stay matched.

  A string that ends in an odd run of backslashes swallows its own closing quote.
 */
module LuaNesting {
  import opened Wrappers

  // ------------------------------------------------------------------
  // The scanner
  // ------------------------------------------------------------------

  datatype Stack = Empty | Push(top: char, below: Stack)

  /** `Dash` is code directly after a minus sign. */
  datatype Mode = Code | Dash | Comment | Quoted | Escaped

  /** `Bad` is for brackets that do not match, unfinished strings, and text the scanner does
      not know: single-quoted and long strings. */
  datatype State = Bad | At(open: Stack, mode: Mode)

  const START := At(Empty, Code)

  function CodeStep(open: Stack, c: char): State {
    if c == '(' || c == '{' then At(Push(c, open), Code)
    else if c == ')' then if open.Push? && open.top == '(' then At(open.below, Code) else Bad
    else if c == '}' then if open.Push? && open.top == '{' then At(open.below, Code) else Bad
    else if c == '"' then At(open, Quoted)
    else if c == '\'' || c == '[' || c == ']' || c == '\\' then Bad
    else At(open, Code)
  }

  function Step(s: State, c: char): State {
    if s.Bad? then Bad
    else
      match s.mode
      case Comment => if IsLineBreak(c) then At(s.open, Code) else s
      case Escaped => At(s.open, Quoted)
      case Quoted =>
        if c == '"' then At(s.open, Code)
        else if c == '\\' then At(s.open, Escaped)
        else if IsLineBreak(c) then Bad
        else s
      case Code => if c == '-' then At(s.open, Dash) else CodeStep(s.open, c)
      case Dash => if c == '-' then At(s.open, Comment) else CodeStep(s.open, c)
  }

  /** The scanner after the first `n` characters. */
  function ScanTo(text: string, n: nat): State
    requires n <= |text|
  {
    if n == 0 then START else Step(ScanTo(text, n - 1), text[n - 1])
  }

  function Scan(text: string): State { ScanTo(text, |text|) }

  /** Every bracket outside strings and comments is closed by its partner, in order. */
  predicate Nested(text: string) { Scan(text) == START }

  lemma {:induction false} ScanOfPrefix(a: string, b: string, n: nat)
    requires n <= |a| && n <= |b| && forall k :: 0 <= k < n ==> a[k] == b[k]
    ensures ScanTo(a, n) == ScanTo(b, n)
  {
    if n > 0 {
      ScanOfPrefix(a, b, n - 1);
    }
  }

  lemma ScanSnoc(text: string, c: char)
    ensures Scan(text + [c]) == Step(Scan(text), c)
  {
    ScanOfPrefix(text + [c], text, |text|);
  }

  // ------------------------------------------------------------------
  // Documents
  // ------------------------------------------------------------------

  datatype Doc =
    | Nil
    | Word(text: string)
    | Str(text: string)
    | Remark(text: string)
    | Braces(inner: Doc)
    | Parens(inner: Doc)
    | Cat(left: Doc, right: Doc)

  /** Appending a document to some text. */
  function Emit(out: string, d: Doc): string
    decreases d
  {
    match d
    case Nil => out
    case Word(text) => out + text
    case Str(text) => out + "\"" + text + "\""
    case Remark(text) => out + "-" + "-" + text + "\n"
    case Braces(inner) => Emit(out + "{", inner) + "}"
    case Parens(inner) => Emit(out + "(", inner) + ")"
    case Cat(left, right) => Emit(Emit(out, left), right)
  }

  /** No brackets, quotes or backslashes, and no minus sign that could start a comment. */
  predicate Plain(w: string) {
    forall k :: 0 <= k < |w| ==> PlainAt(w, k)
  }

  predicate PlainAt(w: string, k: nat)
    requires k < |w|
  {
    && w[k] != '(' && w[k] != ')' && w[k] != '{' && w[k] != '}' && w[k] != '[' && w[k] != ']'
    && w[k] != '"' && w[k] != '\'' && w[k] != '\\'
    && (w[k] == '-' ==> k + 1 < |w| && w[k + 1] != '-')
  }

  /** No quotes and no line breaks. */
  predicate Unquoted(s: string) {
    forall k :: 0 <= k < |s| ==> s[k] != '"' && !IsLineBreak(s[k])
  }

  /** The length of the run of backslashes that ends after `n` characters. */
  function Backslashes(s: string, n: nat): nat
    requires n <= |s|
  {
    if n > 0 && s[n - 1] == '\\' then 1 + Backslashes(s, n - 1) else 0
  }

  /** A quote written behind the text closes it. */
  predicate Closable(s: string) { Unquoted(s) && Backslashes(s, |s|) % 2 == 0 }

  predicate Quotable(s: string) {
    Unquoted(s) && forall k :: 0 <= k < |s| ==> s[k] != '\\'
  }

  predicate WellWorded(d: Doc) {
    match d
    case Nil => true
    case Word(text) => Plain(text)
    case Str(text) => Closable(text)
    case Remark(text) => '\n' !in text && '\r' !in text
    case Braces(inner) => WellWorded(inner)
    case Parens(inner) => WellWorded(inner)
    case Cat(left, right) => WellWorded(left) && WellWorded(right)
  }

  lemma {:induction false} WordScans(out: string, w: string, n: nat, open: Stack)
    requires n <= |w| && Plain(w) && Scan(out) == At(open, Code)
    ensures Scan(out + w[..n]) == At(open, if n > 0 && w[n - 1] == '-' then Dash else Code)
  {
    if n == 0 {
      assert out + w[..0] == out;
    } else {
      WordScans(out, w, n - 1, open);
      ScanSnoc(out + w[..n - 1], w[n - 1]);
      assert out + w[..n - 1] + [w[n - 1]] == out + w[..n];
      assert PlainAt(w, n - 1) && (n > 1 ==> PlainAt(w, n - 2));
    }
  }

  lemma {:induction false} QuotedScans(out: string, s: string, n: nat, open: Stack)
    requires n <= |s| && Unquoted(s) && Scan(out) == At(open, Quoted)
    ensures Scan(out + s[..n]) == At(open, if Backslashes(s, n) % 2 == 1 then Escaped else Quoted)
  {
    if n == 0 {
      assert out + s[..0] == out;
    } else {
      QuotedScans(out, s, n - 1, open);
      ScanSnoc(out + s[..n - 1], s[n - 1]);
      assert out + s[..n - 1] + [s[n - 1]] == out + s[..n];
    }
  }

  lemma {:induction false} RemarkScans(out: string, s: string, n: nat, open: Stack)
    requires n <= |s| && '\n' !in s && '\r' !in s && Scan(out) == At(open, Comment)
    ensures Scan(out + s[..n]) == At(open, Comment)
  {
    if n == 0 {
      assert out + s[..0] == out;
    } else {
      RemarkScans(out, s, n - 1, open);
      ScanSnoc(out + s[..n - 1], s[n - 1]);
      assert out + s[..n - 1] + [s[n - 1]] == out + s[..n];
    }
  }

  /** Main result: emitting a well-worded document leaves the scanner where it was, below any
      brackets that are still open. */
  lemma {:induction false} EmitKeepsNesting(out: string, d: Doc, open: Stack)
    requires WellWorded(d) && Scan(out) == At(open, Code)
    ensures Scan(Emit(out, d)) == At(open, Code)
    decreases d
  {
    match d {
      case Nil =>
      case Word(text) =>
        WordScans(out, text, |text|, open);
        assert text[..|text|] == text;
        assert text != "" ==> PlainAt(text, |text| - 1);
      case Str(text) =>
        ScanSnoc(out, '"');
        QuotedScans(out + "\"", text, |text|, open);
        assert text[..|text|] == text;
        ScanSnoc(out + "\"" + text, '"');
      case Remark(text) =>
        ScanSnoc(out, '-');
        ScanSnoc(out + "-", '-');
        RemarkScans(out + "-" + "-", text, |text|, open);
        assert text[..|text|] == text;
        ScanSnoc(out + "-" + "-" + text, '\n');
      case Braces(inner) =>
        ScanSnoc(out, '{');
        EmitKeepsNesting(out + "{", inner, Push('{', open));
        ScanSnoc(Emit(out + "{", inner), '}');
      case Parens(inner) =>
        ScanSnoc(out, '(');
        EmitKeepsNesting(out + "(", inner, Push('(', open));
        ScanSnoc(Emit(out + "(", inner), ')');
      case Cat(left, right) =>
        EmitKeepsNesting(out, left, open);
        EmitKeepsNesting(Emit(out, left), right, open);
    }
  }

  lemma {:induction false} BadStays(out: string, s: string, n: nat)
    requires n <= |s| && Scan(out) == Bad
    ensures Scan(out + s[..n]) == Bad
  {
    if n == 0 {
      assert out + s[..0] == out;
    } else {
      BadStays(out, s, n - 1);
      ScanSnoc(out + s[..n - 1], s[n - 1]);
      assert out + s[..n - 1] + [s[n - 1]] == out + s[..n];
    }
  }

  lemma BadForever(out: string, s: string)
    requires Scan(out) == Bad
    ensures Scan(out + s) == Bad
  {
    BadStays(out, s, |s|);
    assert s[..|s|] == s;
  }

  lemma {:induction false} EmitKeepsBad(out: string, d: Doc)
    requires Scan(out) == Bad
    ensures Scan(Emit(out, d)) == Bad
    decreases d
  {
    match d {
      case Nil =>
      case Word(text) => BadForever(out, text);
      case Str(text) =>
        BadForever(out, "\"");
        BadForever(out + "\"", text);
        BadForever(out + "\"" + text, "\"");
      case Remark(text) =>
        BadForever(out, "-");
        BadForever(out + "-", "-");
        BadForever(out + "-" + "-", text);
        BadForever(out + "-" + "-" + text, "\n");
      case Braces(inner) =>
        BadForever(out, "{");
        EmitKeepsBad(out + "{", inner);
        BadForever(Emit(out + "{", inner), "}");
      case Parens(inner) =>
        BadForever(out, "(");
        EmitKeepsBad(out + "(", inner);
        BadForever(Emit(out + "(", inner), ")");
      case Cat(left, right) =>
        EmitKeepsBad(out, left);
        EmitKeepsBad(Emit(out, left), right);
    }
  }

  /** With an odd run of backslashes at the end, the closing quote is taken for a character. */
  lemma OddRunStaysOpen(out: string, s: string, open: Stack)
    requires Scan(out) == At(open, Code) && Unquoted(s) && Backslashes(s, |s|) % 2 == 1
    ensures Scan(Emit(out, Str(s))) == At(open, Quoted)
  {
    ScanSnoc(out, '"');
    QuotedScans(out + "\"", s, |s|, open);
    assert s[..|s|] == s;
    ScanSnoc(out + "\"" + s, '"');
  }
}
