/**
  Keybind printing in hyprlang (`hyprland_generate_keybinds` in
  `src/ipc/hyprland/generator.c`), and the merge of the three sources that feeds it
  (`src/server/config_handler.c`).

  A reader of the syntax takes comments off a line, cuts it at its first equals sign and then at
  commas, and trims blanks.  Printing has no quoting, so what reads back is decided by the
  characters of the fields: first for one line, then for a whole section.
 */
module Keybinds {
  import opened Wrappers
  import opened Strings

  datatype Keybind = Keybind(
    modifiers: seq<string>,
    key: Option<string>,
    dispatcher: Option<string>,
    argument: Option<string>,
    flags: Option<string>,
    enabled: bool
  )

  const HEADER := "# Keybinds (generated by axctl)"

  /** Disabled binds and binds without a key are not printed. */
  predicate Active(b: Keybind) { b.enabled && b.key.Some? && b.key.value != "" }

  predicate IsMouse(key: string) { |key| >= 6 && SameIgnoringCase(key[..6], "mouse:") }

  predicate HasArgument(b: Keybind) { b.argument.Some? && b.argument.value != "" }

  function Dispatcher(b: Keybind): string { if b.dispatcher.Some? then b.dispatcher.value else "exec" }

  // ------------------------------------------------------------------
  // The printed text
  // ------------------------------------------------------------------

  function Keyword(b: Keybind): string
    requires Active(b)
  {
    if IsMouse(b.key.value) then "bindm" else "bind"
  }

  function Tail(b: Keybind): string {
    Dispatcher(b) + if HasArgument(b) then ", " + b.argument.value else ""
  }

  function Line(b: Keybind): string
    requires Active(b)
  {
    Keyword(b) + (" = " + (Join(b.modifiers, " ") + (", " + (b.key.value + (", " + Tail(b))))))
  }

  /** The lines of the active binds from `i` on. */
  function Text(binds: seq<Keybind>, i: nat): string
    requires i <= |binds|
    decreases |binds| - i
  {
    if i == |binds| then ""
    else if Active(binds[i]) then Line(binds[i]) + (['\n'] + Text(binds, i + 1))
    else Text(binds, i + 1)
  }

  function Generated(binds: seq<Keybind>): string {
    if binds == [] then "" else HEADER + (['\n'] + Text(binds, 0))
  }

  // ------------------------------------------------------------------
  // Reading it
  // ------------------------------------------------------------------

  /** A bind as the configuration file means it. */
  datatype Bind = Bind(mouse: bool, modifiers: seq<string>, key: string, dispatcher: string, argument: Option<string>)

  function Words(s: string): seq<string> { if s == "" then [] else Split(s, ' ') }

  /** Dispatcher and argument; the argument may contain more commas. */
  function ParseTail(mouse: bool, modifiers: seq<string>, key: string, t: string): Bind {
    var k := Find(t, ',');
    Bind(mouse, modifiers, key, Trim(t[..k]), if k == |t| then None else Some(Trim(t[k + 1..])))
  }

  function ParseKey(mouse: bool, modifiers: seq<string>, t: string): Option<Bind> {
    var k := Find(t, ',');
    if k == |t| then None else Some(ParseTail(mouse, modifiers, Trim(t[..k]), t[k + 1..]))
  }

  function ParseFields(mouse: bool, t: string): Option<Bind> {
    var k := Find(t, ',');
    if k == |t| then None else ParseWords(mouse, t[..k], t[k + 1..])
  }

  function ParseWords(mouse: bool, left: string, t: string): Option<Bind> { ParseKey(mouse, Words(Trim(left)), t) }

  /** A number sign starts a comment; two in a row stand for one. */
  function Uncomment(line: string): string {
    if line == "" then ""
    else if line[0] != '#' then [line[0]] + Uncomment(line[1..])
    else if |line| > 1 && line[1] == '#' then ['#'] + Uncomment(line[2..])
    else ""
  }

  function ParseLine(line: string): Option<Bind> { ParseAssignment(Uncomment(line)) }

  function ParseAssignment(line: string): Option<Bind> {
    var e := Find(line, '=');
    if e == |line| then None else ParseSides(line[..e], line[e + 1..])
  }

  function ParseSides(left: string, fields: string): Option<Bind> {
    var keyword := Trim(left);
    if keyword == "bind" then ParseFields(false, fields)
    else if keyword == "bindm" then ParseFields(true, fields)
    else None
  }

  function ParseLines(lines: seq<string>): seq<Bind> {
    if lines == [] then []
    else
      var bind := ParseLine(lines[0]);
      if bind.Some? then [bind.value] + ParseLines(lines[1..]) else ParseLines(lines[1..])
  }

  function Parse(text: string): seq<Bind> { ParseLines(Split(text, '\n')) }

  function Argument(b: Keybind): Option<string> { if HasArgument(b) then b.argument else None }

  function Meaning(b: Keybind): Bind
    requires Active(b)
  {
    Bind(IsMouse(b.key.value), b.modifiers, b.key.value, Dispatcher(b), Argument(b))
  }

  function Meanings(binds: seq<Keybind>, i: nat): seq<Bind>
    requires i <= |binds|
    decreases |binds| - i
  {
    if i == |binds| then []
    else if Active(binds[i]) then [Meaning(binds[i])] + Meanings(binds, i + 1)
    else Meanings(binds, i + 1)
  }

  // ------------------------------------------------------------------
  // Fields that the syntax can carry
  // ------------------------------------------------------------------

  predicate ModifiersOk(words: seq<string>) {
    && (forall k :: 0 <= k < |words| ==> ' ' !in words[k] && ',' !in words[k])
    && (words != [] ==> words[0] != "" && !IsBlank(words[0][0]))
    && (words != [] ==> var last := words[|words| - 1]; last != "" && !IsBlank(last[|last| - 1]))
  }

  predicate FieldOk(f: string) { Tight(f) && ',' !in f }

  predicate TailOk(b: Keybind) {
    FieldOk(Dispatcher(b)) && (HasArgument(b) ==> Tight(b.argument.value))
  }

  /** No separator where it would be taken for one; the argument may contain commas. */
  predicate FieldsOk(b: Keybind)
    requires Active(b)
  {
    ModifiersOk(b.modifiers) && FieldOk(b.key.value) && TailOk(b)
  }

  predicate OneLineEach(parts: seq<string>) {
    forall k :: 0 <= k < |parts| ==> OneLine(parts[k])
  }

  predicate OnOneLine(m: Bind) {
    && OneLineEach(m.modifiers) && OneLine(m.key) && OneLine(m.dispatcher)
    && (m.argument.Some? ==> OneLine(m.argument.value))
  }

  /** No field contains a number sign. */
  predicate NoSign(m: Bind) {
    && (forall k :: 0 <= k < |m.modifiers| ==> '#' !in m.modifiers[k])
    && '#' !in m.key && '#' !in m.dispatcher && (m.argument.Some? ==> '#' !in m.argument.value)
  }

  predicate FitsLine(b: Keybind)
    requires Active(b)
  {
    FieldsOk(b) && NoSign(Meaning(b))
  }

  predicate Printable(b: Keybind)
    requires Active(b)
  {
    FitsLine(b) && OnOneLine(Meaning(b))
  }

  // ------------------------------------------------------------------
  // One line
  // ------------------------------------------------------------------

  lemma WordsReadBack(words: seq<string>)
    requires ModifiersOk(words)
    ensures Words(Join(words, " ")) == words && Tight(Join(words, " ")) && ',' !in Join(words, " ")
  {
    JoinLacks(words, " ", ',');
    JoinTight(words, " ");
    if words != [] {
      SplitJoin(words, ' ');
    }
  }

  /** What the reader takes for words can be carried. */
  lemma WordsAreOk(s: string)
    requires ',' !in s
    ensures ModifiersOk(Words(Trim(s)))
  {
    var t := Trim(s);
    TrimIsTight(s);
    TrimLacks(s, ',');
    if t != "" {
      SplitStarts(t);
      SplitEnds(t);
      SplitLacksSeparator(t, ' ');
      SplitLacks(t, ' ', ',');
    }
  }

  /** The reader cuts behind a field if the field has no comma. */
  lemma CutField(field: string, rest: string)
    requires ',' !in field
    ensures var t := " " + (field + (", " + rest));
            Find(t, ',') == 1 + |field| && t[..1 + |field|] == " " + field && t[2 + |field|..] == " " + rest
  {
    var padded, behind := [' '] + field, " " + rest;
    var t := " " + (field + (", " + rest));
    assert t == padded + ([','] + behind);
    FindAfter(padded, ',', behind);
    assert t[..|padded|] == padded && t[|padded| + 1..] == behind;
  }

  lemma TrimField(field: string)
    ensures Trim(" " + field) == field <==> Tight(field)
  {
    TrimIsTight(" " + field);
    if Tight(field) {
      TrimPadded(field);
    }
  }

  /** What the reader cuts off has no comma and no space at its ends. */
  lemma CutIsOk(t: string)
    ensures FieldOk(Trim(t[..Find(t, ',')]))
  {
    TrimIsTight(t[..Find(t, ',')]);
    TrimLacks(t[..Find(t, ',')], ',');
  }

  lemma LastFieldReadsBackIff(field: string)
    ensures var t := " " + field;
            (Find(t, ',') == |t| && Trim(t[..Find(t, ',')]) == field) <==> FieldOk(field)
  {
    var t := [' '] + field;
    CutIsOk(t);
    TrimField(field);
    if ',' !in field {
      assert ',' !in t && t[..|t|] == t;
    }
  }

  lemma TwoFieldsReadBackIff(field: string, last: string)
    ensures var t := " " + (field + (", " + last));
            var k := Find(t, ',');
            (k < |t| && Trim(t[..k]) == field && Trim(t[k + 1..]) == last) <==> FieldOk(field) && Tight(last)
  {
    CutIsOk(" " + (field + (", " + last)));
    TrimField(field);
    TrimField(last);
    if ',' !in field {
      CutField(field, last);
    }
  }

  lemma TailHasTwo(mouse: bool, modifiers: seq<string>, key: string, t: string, name: string, last: string)
    ensures var k := Find(t, ',');
            (ParseTail(mouse, modifiers, key, t) == Bind(mouse, modifiers, key, name, Some(last))) <==>
              (k < |t| && Trim(t[..k]) == name && Trim(t[k + 1..]) == last)
  {
  }

  lemma TwoReadBackIff(mouse: bool, modifiers: seq<string>, key: string, name: string, last: string)
    ensures var t := " " + (name + (", " + last));
            ParseTail(mouse, modifiers, key, t) == Bind(mouse, modifiers, key, name, Some(last)) <==>
            FieldOk(name) && Tight(last)
  {
    TwoFieldsReadBackIff(name, last);
    TailHasTwo(mouse, modifiers, key, " " + (name + (", " + last)), name, last);
  }

  lemma OneReadsBackIff(mouse: bool, modifiers: seq<string>, key: string, name: string)
    ensures (ParseTail(mouse, modifiers, key, " " + name) == Bind(mouse, modifiers, key, name, None)) <==> FieldOk(name)
  {
    LastFieldReadsBackIff(name);
  }

  lemma TailReadsBackIff(b: Keybind, mouse: bool, modifiers: seq<string>, key: string)
    ensures (ParseTail(mouse, modifiers, key, " " + Tail(b)) == Bind(mouse, modifiers, key, Dispatcher(b), Argument(b)))
            <==> TailOk(b)
  {
    if HasArgument(b) {
      TwoReadBackIff(mouse, modifiers, key, Dispatcher(b), b.argument.value);
      assert Tail(b) == Dispatcher(b) + (", " + b.argument.value);
    } else {
      OneReadsBackIff(mouse, modifiers, key, Dispatcher(b));
      assert Tail(b) == Dispatcher(b);
    }
  }

  lemma KeyReadsBackIff(b: Keybind, mouse: bool, modifiers: seq<string>)
    requires Active(b)
    ensures var r := ParseKey(mouse, modifiers, " " + (b.key.value + (", " + Tail(b))));
            r == Some(Bind(mouse, modifiers, b.key.value, Dispatcher(b), Argument(b))) <==>
            FieldOk(b.key.value) && TailOk(b)
  {
    var key := b.key.value;
    CutIsOk(" " + (key + (", " + Tail(b))));
    TrimField(key);
    if ',' !in key {
      CutField(key, Tail(b));
      TailReadsBackIff(b, mouse, modifiers, key);
    }
  }

  lemma FieldsReadBackIff(b: Keybind)
    requires Active(b)
    ensures var t := " " + (Join(b.modifiers, " ") + (", " + (b.key.value + (", " + Tail(b)))));
            ParseFields(IsMouse(b.key.value), t) == Some(Meaning(b)) <==> FieldsOk(b)
  {
    var mods, rest := Join(b.modifiers, " "), b.key.value + (", " + Tail(b));
    var t := " " + (mods + (", " + rest));
    var k := Find(t, ',');
    WordsAreOk(t[..k]);
    if ModifiersOk(b.modifiers) {
      WordsReadBack(b.modifiers);
      CutField(mods, rest);
      TrimField(mods);
      KeyReadsBackIff(b, IsMouse(b.key.value), b.modifiers);
    } else {
      ModifiersStay(IsMouse(b.key.value), t);
    }
  }

  lemma ModifiersStay(mouse: bool, t: string)
    ensures var r := ParseFields(mouse, t); r.Some? ==> r.value.modifiers == Words(Trim(t[..Find(t, ',')]))
  {
  }

  lemma KeywordReadsBack(b: Keybind, fields: string)
    requires Active(b)
    ensures var line := Keyword(b) + (" = " + fields);
            var e := Find(line, '=');
            e < |line| && Trim(line[..e]) == Keyword(b) && line[e + 1..] == " " + fields
  {
    var kw, behind := Keyword(b) + [' '], " " + fields;
    var line := Keyword(b) + (" = " + fields);
    assert line == kw + (['='] + behind);
    assert '=' !in kw;
    FindAfter(kw, '=', behind);
    assert line[..|kw|] == kw && line[|kw| + 1..] == behind;
    TrimPadded(Keyword(b));
  }

  lemma AssignmentReadsBackIff(b: Keybind)
    requires Active(b)
    ensures ParseAssignment(Line(b)) == Some(Meaning(b)) <==> FieldsOk(b)
  {
    var fields := Join(b.modifiers, " ") + (", " + (b.key.value + (", " + Tail(b))));
    KeywordReadsBack(b, fields);
    var e := Find(Line(b), '=');
    KeywordDecides(b, Line(b)[..e], " " + fields);
    FieldsReadBackIff(b);
  }

  lemma KeywordDecides(b: Keybind, left: string, fields: string)
    requires Active(b) && Trim(left) == Keyword(b)
    ensures ParseSides(left, fields) == ParseFields(IsMouse(b.key.value), fields)
  {
    assert |"bind"| != |"bindm"|;
  }

  // ------------------------------------------------------------------
  // Number signs
  // ------------------------------------------------------------------

  function Signs(s: string): nat {
    if s == "" then 0 else (if s[0] == '#' then 1 else 0) + Signs(s[1..])
  }

  lemma {:induction false} SignsOfConcat(a: string, b: string)
    ensures Signs(a + b) == Signs(a) + Signs(b)
  {
    if a == "" {
      assert a + b == b;
    } else {
      assert (a + b)[1..] == a[1..] + b;
      SignsOfConcat(a[1..], b);
    }
  }

  lemma {:induction false} NoSignsIff(s: string)
    ensures Signs(s) == 0 <==> '#' !in s
  {
    if s != "" {
      assert s == [s[0]] + s[1..];
      NoSignsIff(s[1..]);
    }
  }

  /** The number signs in the strings from `i` on. */
  function SignsFrom(parts: seq<string>, i: nat): nat
    requires i <= |parts|
    decreases |parts| - i
  {
    if i == |parts| then 0 else Signs(parts[i]) + SignsFrom(parts, i + 1)
  }

  function FieldSigns(m: Bind): nat {
    SignsFrom(m.modifiers, 0) + Signs(m.key) + Signs(m.dispatcher)
      + if m.argument.Some? then Signs(m.argument.value) else 0
  }

  /** Taking comments away takes number signs away, unless there are none. */
  lemma {:induction false} UncommentSigns(s: string)
    ensures '#' !in s ==> Uncomment(s) == s
    ensures '#' in s ==> Signs(Uncomment(s)) < Signs(s)
    decreases |s|
  {
    if s != "" {
      if s[0] != '#' {
        UncommentSigns(s[1..]);
      } else if |s| > 1 && s[1] == '#' {
        assert s[1..][1..] == s[2..];
        UncommentSigns(s[2..]);
        NoSignsIff(s[2..]);
      }
    }
  }

  lemma SignsOfCut(s: string, k: nat)
    requires k <= |s|
    ensures Signs(s[..k]) + Signs(s[k..]) == Signs(s)
  {
    assert s == s[..k] + s[k..];
    SignsOfConcat(s[..k], s[k..]);
  }

  lemma SignsAroundSeparator(s: string, k: nat)
    requires k < |s|
    ensures Signs(s[..k]) + Signs(s[k + 1..]) <= Signs(s)
  {
    SignsOfCut(s, k);
    SignsOfCut(s[k..], 1);
    assert s[k..][1..] == s[k + 1..];
  }

  lemma {:induction false} SignsOfTrimLeft(s: string)
    ensures Signs(TrimLeft(s)) <= Signs(s)
  {
    if s != "" && IsBlank(s[0]) {
      SignsOfCut(s, 1);
      SignsOfTrimLeft(s[1..]);
    }
  }

  lemma SignsOfTrim(s: string)
    ensures Signs(Trim(s)) <= Signs(s)
  {
    SignsOfTrimLeft(s);
    var left := TrimLeft(s);
    TrimRightEnds(left);
    assert left[..|Trim(s)|] == Trim(s);
    SignsOfCut(left, |Trim(s)|);
  }

  /** Of a cut-off piece without its separator, trimmed, and what is left. */
  lemma SignsAround(s: string, k: nat)
    requires k < |s|
    ensures Signs(Trim(s[..k])) + Signs(s[k + 1..]) <= Signs(s)
  {
    SignsOfTrim(s[..k]);
    SignsAroundSeparator(s, k);
  }

  lemma {:induction false} SignsBehindHead(head: string, tail: seq<string>, i: nat)
    requires i <= |tail|
    ensures SignsFrom([head] + tail, i + 1) == SignsFrom(tail, i)
    decreases |tail| - i
  {
    if i < |tail| {
      SignsBehindHead(head, tail, i + 1);
    }
  }

  lemma {:induction false} SignsOfSplit(s: string)
    ensures SignsFrom(Split(s, ' '), 0) <= Signs(s)
    decreases |s|
  {
    var k := Find(s, ' ');
    if k < |s| {
      var rest := s[k + 1..];
      SignsAroundSeparator(s, k);
      SignsOfSplit(rest);
      SignsBehindHead(s[..k], Split(rest, ' '), 0);
    }
  }

  lemma SignsOfWords(s: string)
    ensures SignsFrom(Words(Trim(s)), 0) <= Signs(s)
  {
    SignsOfTrim(s);
    SignsOfSplit(Trim(s));
  }

  /** Reading brings in no number signs. */
  lemma ParsedSigns(line: string)
    ensures var r := ParseAssignment(line); r.Some? ==> FieldSigns(r.value) <= Signs(line)
  {
    var e := Find(line, '=');
    if e < |line| {
      SignsBehind(line, e);
      SidesSigns(line[..e], line[e + 1..]);
    }
  }

  lemma SignsBehind(s: string, k: nat)
    requires k < |s|
    ensures Signs(s[k + 1..]) <= Signs(s)
  {
    SignsOfCut(s, k + 1);
  }

  lemma SidesSigns(left: string, fields: string)
    ensures var r := ParseSides(left, fields); r.Some? ==> FieldSigns(r.value) <= Signs(fields)
  {
    FieldsSigns(false, fields);
    FieldsSigns(true, fields);
  }

  lemma FieldsSigns(mouse: bool, t: string)
    ensures var r := ParseFields(mouse, t); r.Some? ==> FieldSigns(r.value) <= Signs(t)
  {
    if ParseFields(mouse, t).Some? {
      var left, right := CutWords(mouse, t);
      WordsAndKeySigns(mouse, left, right);
    }
  }

  lemma CutWords(mouse: bool, t: string) returns (left: string, right: string)
    requires ParseFields(mouse, t).Some?
    ensures ParseFields(mouse, t) == ParseWords(mouse, left, right) && Signs(left) + Signs(right) <= Signs(t)
  {
    var k := Find(t, ',');
    left, right := t[..k], t[k + 1..];
    SignsAroundSeparator(t, k);
  }

  lemma WordsAndKeySigns(mouse: bool, left: string, t: string)
    ensures var r := ParseWords(mouse, left, t); r.Some? ==> FieldSigns(r.value) <= Signs(left) + Signs(t)
  {
    SignsOfWords(left);
    KeySigns(mouse, Words(Trim(left)), t);
  }

  lemma KeySigns(mouse: bool, modifiers: seq<string>, t: string)
    ensures var r := ParseKey(mouse, modifiers, t);
            r.Some? ==> FieldSigns(r.value) <= SignsFrom(modifiers, 0) + Signs(t)
  {
    var k := Find(t, ',');
    if k < |t| {
      SignsAround(t, k);
      TailSigns(mouse, modifiers, Trim(t[..k]), t[k + 1..]);
    }
  }

  lemma TailSigns(mouse: bool, modifiers: seq<string>, key: string, t: string)
    ensures FieldSigns(ParseTail(mouse, modifiers, key, t)) <= SignsFrom(modifiers, 0) + Signs(key) + Signs(t)
  {
    var k := Find(t, ',');
    SignsOfTrim(t[..k]);
    SignsOfCut(t, k);
    if k < |t| {
      SignsAround(t, k);
      SignsOfTrim(t[k + 1..]);
    }
  }

  lemma {:induction false} SignsOfRest(parts: seq<string>, i: nat)
    requires i <= |parts|
    ensures Signs(Rest(parts, " ", i)) == SignsFrom(parts, i)
    decreases |parts| - i
  {
    if i < |parts| {
      SignsOfRest(parts, i + 1);
      SignsOfConcat(parts[i], Rest(parts, " ", i + 1));
      SignsOfConcat(" ", parts[i] + Rest(parts, " ", i + 1));
    }
  }

  lemma SignsOfLine(b: Keybind)
    requires Active(b)
    ensures Signs(Line(b)) == FieldSigns(Meaning(b))
  {
    var tail := b.key.value + (", " + Tail(b));
    TailSignsAre(b);
    NoSignsIff(Keyword(b));
    SignsJoined(b.key.value, ", ", Tail(b));
    SignsOfJoin(b.modifiers);
    SignsJoined(Join(b.modifiers, " "), ", ", tail);
    SignsJoined(Keyword(b), " = ", Join(b.modifiers, " ") + (", " + tail));
  }

  lemma TailSignsAre(b: Keybind)
    ensures Signs(Tail(b)) == Signs(Dispatcher(b)) + if HasArgument(b) then Signs(b.argument.value) else 0
  {
    if HasArgument(b) {
      SignsJoined(Dispatcher(b), ", ", b.argument.value);
    } else {
      assert Tail(b) == Dispatcher(b);
    }
  }

  lemma SignsJoined(a: string, sep: string, b: string)
    requires '#' !in sep
    ensures Signs(a + (sep + b)) == Signs(a) + Signs(b)
  {
    NoSignsIff(sep);
    SignsOfConcat(sep, b);
    SignsOfConcat(a, sep + b);
  }

  lemma SignsOfJoin(parts: seq<string>)
    ensures Signs(Join(parts, " ")) == SignsFrom(parts, 0)
  {
    if parts != [] {
      SignsOfRest(parts, 1);
      SignsOfConcat(parts[0], Rest(parts, " ", 1));
    }
  }

  lemma {:induction false} NoSignsFromIff(parts: seq<string>, i: nat)
    requires i <= |parts|
    ensures SignsFrom(parts, i) == 0 <==> forall k :: i <= k < |parts| ==> '#' !in parts[k]
    decreases |parts| - i
  {
    if i < |parts| {
      NoSignsFromIff(parts, i + 1);
      NoSignsIff(parts[i]);
    }
  }

  /** A line reads back as the bind it was printed from exactly if the fields can be carried. */
  lemma LineReadsBackIff(b: Keybind)
    requires Active(b)
    ensures ParseLine(Line(b)) == Some(Meaning(b)) <==> FitsLine(b)
  {
    UncommentSigns(Line(b));
    SignsOfLine(b);
    NoSignIff(Meaning(b));
    NoSignsIff(Line(b));
    if '#' in Line(b) {
      ParsedSigns(Uncomment(Line(b)));
    } else {
      AssignmentReadsBackIff(b);
    }
  }

  lemma NoSignIff(m: Bind)
    ensures FieldSigns(m) == 0 <==> NoSign(m)
  {
    NoSignsFromIff(m.modifiers, 0);
    NoSignsIff(m.key);
    NoSignsIff(m.dispatcher);
    if m.argument.Some? {
      NoSignsIff(m.argument.value);
    }
  }

  // ------------------------------------------------------------------
  // The whole section
  // ------------------------------------------------------------------

  lemma LineIsOneLine(b: Keybind)
    requires Active(b) && OnOneLine(Meaning(b))
    ensures '\n' !in Line(b)
  {
    JoinLacks(b.modifiers, " ", '\n');
    assert OneLine(" = ") && OneLine(", ") && OneLine(Keyword(b));
    if HasArgument(b) {
      Enclosed(Dispatcher(b), ", ", b.argument.value);
    }
    assert OneLine(Tail(b));
    Enclosed(b.key.value, ", ", Tail(b));
    Enclosed(Join(b.modifiers, " "), ", ", b.key.value + (", " + Tail(b)));
    Enclosed(Keyword(b), " = ", Join(b.modifiers, " ") + (", " + (b.key.value + (", " + Tail(b)))));
  }

  lemma NextLine(line: string, text: string)
    requires '\n' !in line
    ensures Parse(line + (['\n'] + text)) ==
            if ParseLine(line).Some? then [ParseLine(line).value] + Parse(text) else Parse(text)
  {
    SplitFirst(line, '\n', text);
  }

  ghost predicate AllOnOneLine(binds: seq<Keybind>, i: nat) {
    forall k :: i <= k < |binds| && Active(binds[k]) ==> OnOneLine(Meaning(binds[k]))
  }

  ghost predicate AllFit(binds: seq<Keybind>, i: nat) {
    forall k :: i <= k < |binds| && Active(binds[k]) ==> FitsLine(binds[k])
  }

  lemma OneMoreLine(b: Keybind, text: string, rest: seq<Bind>)
    requires Active(b) && OnOneLine(Meaning(b)) && |Parse(text)| <= |rest|
    ensures var r := Parse(Line(b) + (['\n'] + text));
            && |r| <= |[Meaning(b)] + rest|
            && (r == [Meaning(b)] + rest <==> FitsLine(b) && Parse(text) == rest)
  {
    LineIsOneLine(b);
    LineReadsBackIff(b);
    NextLine(Line(b), text);
    HeadAndTail(ParseLine(Line(b)), Parse(text), Meaning(b), rest);
  }

  lemma {:induction false} TextReadsBackIff(binds: seq<Keybind>, i: nat)
    requires i <= |binds| && AllOnOneLine(binds, i)
    ensures |Parse(Text(binds, i))| <= |Meanings(binds, i)|
    ensures Parse(Text(binds, i)) == Meanings(binds, i) <==> AllFit(binds, i)
    decreases |binds| - i
  {
    if i == |binds| {
      SplitNothing("", '\n');
    } else {
      TextReadsBackIff(binds, i + 1);
      assert AllFit(binds, i) <==> (Active(binds[i]) ==> FitsLine(binds[i])) && AllFit(binds, i + 1);
      if Active(binds[i]) {
        OneMoreLine(binds[i], Text(binds, i + 1), Meanings(binds, i + 1));
      }
    }
  }

  lemma HeadAndTail<T>(head: Option<T>, tail: seq<T>, x: T, rest: seq<T>)
    requires |tail| <= |rest|
    ensures var r := if head.Some? then [head.value] + tail else tail;
            && |r| <= |[x] + rest|
            && (r == [x] + rest <==> head == Some(x) && tail == rest)
  {
    var r, whole := if head.Some? then [head.value] + tail else tail, [x] + rest;
    if r == whole {
      assert r[0] == x && r[1..] == rest;
    }
  }

  lemma HeaderIsComment()
    ensures '\n' !in HEADER && ParseLine(HEADER) == None
  {
    forall k | 0 <= k < |HEADER| ensures HEADER[k] != '\n' {
      if k < 8 {} else if k < 16 {} else if k < 24 {} else {}
    }
    assert HEADER[0] == '#' && HEADER[1] != '#';
  }

  lemma GeneratedIsText(binds: seq<Keybind>)
    ensures Parse(Generated(binds)) == Parse(Text(binds, 0))
  {
    if binds != [] {
      HeaderIsComment();
      NextLine(HEADER, Text(binds, 0));
    }
  }

  // ------------------------------------------------------------------
  // Line breaks
  // ------------------------------------------------------------------

  lemma TrimmedIsOneLine(s: string)
    requires '\n' !in s
    ensures OneLine(Trim(s))
  {
    TrimLacks(s, '\n');
  }

  lemma TailIsOneLine(mouse: bool, modifiers: seq<string>, key: string, t: string)
    requires '\n' !in t && OneLineEach(modifiers) && OneLine(key)
    ensures OnOneLine(ParseTail(mouse, modifiers, key, t))
  {
    var k := Find(t, ',');
    TrimmedIsOneLine(t[..k]);
    if k < |t| {
      TrimmedIsOneLine(t[k + 1..]);
    }
  }

  lemma WordsAreOneLine(s: string)
    requires '\n' !in s
    ensures OneLineEach(Words(Trim(s)))
  {
    TrimLacks(s, '\n');
    SplitLacks(Trim(s), ' ', '\n');
  }

  lemma KeyIsOneLine(mouse: bool, modifiers: seq<string>, t: string)
    requires '\n' !in t && OneLineEach(modifiers)
    ensures var r := ParseKey(mouse, modifiers, t); r.Some? ==> OnOneLine(r.value)
  {
    var k := Find(t, ',');
    if k < |t| {
      TrimmedIsOneLine(t[..k]);
      TailIsOneLine(mouse, modifiers, Trim(t[..k]), t[k + 1..]);
    }
  }

  lemma FieldsAreOneLine(mouse: bool, t: string)
    requires '\n' !in t
    ensures var r := ParseFields(mouse, t); r.Some? ==> OnOneLine(r.value)
  {
    var k := Find(t, ',');
    if k < |t| {
      WordsAreOneLine(t[..k]);
      KeyIsOneLine(mouse, Words(Trim(t[..k])), t[k + 1..]);
    }
  }

  lemma {:induction false} UncommentLacks(line: string, c: char)
    requires c !in line
    ensures c !in Uncomment(line)
    decreases |line|
  {
    if line != "" {
      UncommentLacks(line[1..], c);
      if |line| > 1 {
        UncommentLacks(line[2..], c);
      }
    }
  }

  lemma SidesAreOneLine(left: string, fields: string)
    requires '\n' !in fields
    ensures var r := ParseSides(left, fields); r.Some? ==> OnOneLine(r.value)
  {
    FieldsAreOneLine(false, fields);
    FieldsAreOneLine(true, fields);
  }

  lemma AssignmentIsOneLine(line: string)
    requires '\n' !in line
    ensures ParseAssignment(line).Some? ==> OnOneLine(ParseAssignment(line).value)
  {
    var e := Find(line, '=');
    if e < |line| {
      SidesAreOneLine(line[..e], line[e + 1..]);
    }
  }

  lemma {:induction false} AllParsedOneLine(lines: seq<string>)
    requires AllLack(lines, '\n')
    ensures forall k :: 0 <= k < |ParseLines(lines)| ==> OnOneLine(ParseLines(lines)[k])
  {
    if lines != [] {
      UncommentLacks(lines[0], '\n');
      AssignmentIsOneLine(Uncomment(lines[0]));
      AllParsedOneLine(lines[1..]);
    }
  }

  lemma {:induction false} MeaningIsListed(binds: seq<Keybind>, i: nat, k: nat)
    requires i <= k < |binds| && Active(binds[k])
    ensures Meaning(binds[k]) in Meanings(binds, i)
    decreases k - i
  {
    if i < k {
      MeaningIsListed(binds, i + 1, k);
    }
  }

  lemma OneLineIfReadBack(binds: seq<Keybind>)
    requires Parse(Text(binds, 0)) == Meanings(binds, 0)
    ensures AllOnOneLine(binds, 0)
  {
    SplitLacksSeparator(Text(binds, 0), '\n');
    AllParsedOneLine(Split(Text(binds, 0), '\n'));
    forall k | 0 <= k < |binds| && Active(binds[k]) ensures OnOneLine(Meaning(binds[k])) {
      MeaningIsListed(binds, 0, k);
    }
  }

  /** Main result, for all binds: reading the printed section gives the active binds, in order,
      with all their fields, exactly if no field contains what the syntax cannot carry: a line
      break, a number sign, a comma outside the argument, an outer blank, a space in a modifier,
      or an empty modifier at either end.  A bind without a dispatcher reads back as exec. */
  lemma HyprlangReadsBackIff(binds: seq<Keybind>)
    ensures Parse(Generated(binds)) == Meanings(binds, 0) <==>
            forall k :: 0 <= k < |binds| && Active(binds[k]) ==> Printable(binds[k])
  {
    GeneratedIsText(binds);
    if Parse(Text(binds, 0)) == Meanings(binds, 0) {
      OneLineIfReadBack(binds);
    }
    if AllOnOneLine(binds, 0) {
      TextReadsBackIff(binds, 0);
    }
  }

  lemma OneIsLost(b: Keybind)
    requires Active(b) && !Printable(b)
    ensures Parse(Generated([b])) != Meanings([b], 0)
  {
    var binds := [b];
    HyprlangReadsBackIff(binds);
    assert binds[0] == b;
  }

  /** For instance, a comma as the key is taken for a separator. */
  lemma CommaKeyIsLost()
    ensures var b := Keybind([], Some(","), Some("exit"), None, None, true);
            Parse(Generated([b])) != Meanings([b], 0)
  {
    var b := Keybind([], Some(","), Some("exit"), None, None, true);
    assert b.key.value[0] == ',';
    OneIsLost(b);
  }

  /** For instance, what follows a number sign in a command is taken for a comment. */
  lemma SignInCommandIsLost()
    ensures var b := Keybind([], Some("Q"), Some("exec"), Some("a #b"), None, true);
            Parse(Generated([b])) != Meanings([b], 0)
  {
    var b := Keybind([], Some("Q"), Some("exec"), Some("a #b"), None, true);
    assert b.argument.value[2] == '#';
    OneIsLost(b);
  }

  // ------------------------------------------------------------------
  // What is printed at all
  // ------------------------------------------------------------------

  lemma LineBefore(line: string, text: string, more: string)
    ensures line + (['\n'] + (text + more)) == (line + (['\n'] + text)) + more
  {
  }

  /** `all` is `a` followed by `b`. */
  ghost predicate IsConcat(all: seq<Keybind>, a: seq<Keybind>, b: seq<Keybind>) {
    && |all| == |a| + |b|
    && (forall k :: 0 <= k < |a| ==> all[k] == a[k]) && (forall k :: 0 <= k < |b| ==> all[|a| + k] == b[k])
  }

  lemma {:induction false} TextOfConcat(all: seq<Keybind>, a: seq<Keybind>, b: seq<Keybind>, i: nat)
    requires IsConcat(all, a, b) && i <= |a|
    ensures Text(all, i) == Text(a, i) + Text(b, 0)
    decreases |a| - i
  {
    if i == |a| {
      TextBehind(all, a, b, 0);
    } else {
      TextOfConcat(all, a, b, i + 1);
      if Active(a[i]) {
        LineBefore(Line(a[i]), Text(a, i + 1), Text(b, 0));
      }
    }
  }

  lemma {:induction false} TextBehind(all: seq<Keybind>, a: seq<Keybind>, b: seq<Keybind>, j: nat)
    requires IsConcat(all, a, b) && j <= |b|
    ensures Text(all, |a| + j) == Text(b, j)
    decreases |b| - j
  {
    if j < |b| {
      assert all[|a| + j] == b[j];
      TextBehind(all, a, b, j + 1);
    }
  }

  lemma TextOfOne(b: Keybind)
    ensures Text([b], 0) == "" <==> !Active(b)
  {
    var binds := [b];
    assert binds[0] == b && Text(binds, 1) == "";
  }

  /** Main result: a bind makes no difference to the section exactly if it is disabled, has no key
      or has an empty one. */
  lemma SkippedIff(a: seq<Keybind>, b: Keybind, c: seq<Keybind>)
    requires a + c != []
    ensures Generated(a + ([b] + c)) == Generated(a + c) <==> !b.enabled || b.key.None? || b.key == Some("")
  {
    TextOfConcat(a + ([b] + c), a, [b] + c, 0);
    TextOfConcat([b] + c, [b], c, 0);
    TextOfConcat(a + c, a, c, 0);
    TextOfOne(b);
    var start := HEADER + ['\n'];
    AppendAssoc(HEADER, ['\n'], Text(a + ([b] + c), 0));
    AppendAssoc(HEADER, ['\n'], Text(a + c, 0));
    SameBetween(start, Text(a, 0), Text([b], 0), Text(c, 0));
  }

  lemma SameBetween(start: string, a: string, b: string, c: string)
    ensures start + (a + (b + c)) == start + (a + c) <==> b == ""
  {
    if b == "" {
      assert b + c == c;
    } else {
      assert |start + (a + (b + c))| != |start + (a + c)|;
    }
  }

  /** A line is a mouse bind exactly if its key starts with these six characters, in any case. */
  lemma MouseLineIff(b: Keybind)
    requires Active(b)
    ensures "bindm = " <= Line(b) <==> |b.key.value| >= 6 && SameIgnoringCase(b.key.value[..6], "mouse:")
    ensures "bind = " <= Line(b) <==> !("bindm = " <= Line(b))
  {
    assert "bindm"[4] == 'm' && Keyword(b) <= Line(b) && Line(b)[|Keyword(b)|] == ' ';
  }

  lemma LineOfOne(a: Keybind, b: Keybind)
    requires Active(a) && Active(b) && Line(a) == Line(b)
    ensures Generated([a]) == Generated([b])
  {
    var one, other := [a], [b];
    assert one[0] == a && other[0] == b && Text(one, 1) == "" && Text(other, 1) == "";
  }

  /** A missing dispatcher is printed as exec, an empty argument as none; flags are not printed. */
  lemma PrintedAlike(b: Keybind, flags: Option<string>)
    requires Active(b)
    ensures Generated([b.(dispatcher := None)]) == Generated([b.(dispatcher := Some("exec"))])
    ensures Generated([b.(argument := None)]) == Generated([b.(argument := Some(""))])
    ensures Generated([b.(flags := flags)]) == Generated([b])
  {
    LineOfOne(b.(dispatcher := None), b.(dispatcher := Some("exec")));
    LineOfOne(b.(argument := None), b.(argument := Some("")));
    LineOfOne(b.(flags := flags), b);
  }

  // ------------------------------------------------------------------
  // Three sources
  // ------------------------------------------------------------------

  lemma {:induction false} MeaningsOfConcat(a: seq<Keybind>, b: seq<Keybind>, i: nat)
    requires i <= |a|
    ensures Meanings(a + b, i) == Meanings(a, i) + Meanings(b, 0)
    decreases |a| - i
  {
    if i == |a| {
      MeaningsBehind(a, b, 0);
    } else {
      assert (a + b)[i] == a[i];
      MeaningsOfConcat(a, b, i + 1);
      if Active(a[i]) {
        AppendAssoc([Meaning(a[i])], Meanings(a, i + 1), Meanings(b, 0));
      }
    }
  }

  lemma {:induction false} MeaningsBehind(a: seq<Keybind>, b: seq<Keybind>, j: nat)
    requires j <= |b|
    ensures Meanings(a + b, |a| + j) == Meanings(b, j)
    decreases |b| - j
  {
    if j < |b| {
      assert (a + b)[|a| + j] == b[j];
      MeaningsBehind(a, b, j + 1);
    }
  }

  // ------------------------------------------------------------------
  // The code
  // ------------------------------------------------------------------

  /** System binds first, then named ones, then custom ones. */
  method Merge(system: array<Keybind>, named: array<Keybind>, custom: array<Keybind>) returns (merged: array<Keybind>)
    ensures fresh(merged) && merged[..] == system[..] + (named[..] + custom[..])
  {
    var unused := Keybind([], None, None, None, None, false);
    merged := new Keybind[system.Length + named.Length + custom.Length](_ => unused);
    var idx := 0;
    forall k | 0 <= k < system.Length {
      merged[idx + k] := system[k];
    }
    idx := idx + system.Length;
    forall k | 0 <= k < named.Length {
      merged[idx + k] := named[k];
    }
    idx := idx + named.Length;
    forall k | 0 <= k < custom.Length {
      merged[idx + k] := custom[k];
    }
  }

  method JoinParts(parts: seq<string>, sep: string) returns (out: string)
    ensures out == Join(parts, sep)
  {
    out := "";
    for j := 0 to |parts|
      invariant j == 0 ==> out == ""
      invariant j > 0 ==> out + Rest(parts, sep, j) == Join(parts, sep)
    {
      if j > 0 {
        AppendAssoc(out, sep, parts[j] + Rest(parts, sep, j + 1));
        out := out + sep;
      }
      AppendAssoc(out, parts[j], Rest(parts, sep, j + 1));
      out := out + parts[j];
    }
  }

  method GenerateKeybinds(binds: seq<Keybind>) returns (out: string)
    ensures out == Generated(binds)
  {
    if |binds| == 0 {
      return "";
    }
    out := HEADER + ['\n'];
    for i := 0 to |binds|
      invariant out + Text(binds, i) == Generated(binds)
    {
      var kb := binds[i];
      if !kb.enabled || kb.key.None? || kb.key.value == "" {
        continue;
      }
      var mods := JoinParts(kb.modifiers, " ");
      var keyword := if IsMouse(kb.key.value) then "bindm" else "bind";
      var dispatcher := if kb.dispatcher.Some? then kb.dispatcher.value else "exec";
      var tail := if HasArgument(kb) then dispatcher + (", " + kb.argument.value) else dispatcher;
      var line := keyword + (" = " + (mods + (", " + (kb.key.value + (", " + tail)))));
      assert line == Line(kb);
      AppendLine(out, line, Text(binds, i + 1));
      out := out + line + ['\n'];
    }
  }

  lemma AppendLine(out: string, line: string, rest: string)
    ensures out + (line + (['\n'] + rest)) == (out + line + ['\n']) + rest
  {
  }

  /** The merge and the printer together: if every active bind can be carried, the section reads
      back as the active binds of the three sources, in this order. */
  method PrintMerged(system: array<Keybind>, named: array<Keybind>, custom: array<Keybind>) returns (out: string)
    ensures var binds := system[..] + (named[..] + custom[..]);
            Parse(out) == Meanings(system[..], 0) + (Meanings(named[..], 0) + Meanings(custom[..], 0)) <==>
            forall k :: 0 <= k < |binds| && Active(binds[k]) ==> Printable(binds[k])
  {
    var merged := Merge(system, named, custom);
    out := GenerateKeybinds(merged[..]);
    HyprlangReadsBackIff(merged[..]);
    MeaningsOfConcat(system[..], named[..] + custom[..], 0);
    MeaningsOfConcat(named[..], custom[..], 0);
  }
}
