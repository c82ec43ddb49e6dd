/**
  Keybind printing in Lua (`hyprland_generate_keybinds_lua` in
  `src/ipc/hyprland/generator.c`), a reader of its statements, and what the two syntaxes make of
  the same bind.

  First the texts and the reader, then names, statements and whole texts, each with the exact
  condition under which it reads back.

  The last part compares the two syntaxes: commands, keys, mouse markers and flags.
 */
module LuaKeybinds {
  import opened Wrappers
  import opened Strings
  import opened LuaQuote
  import opened LuaParts
  import opened LuaActions
  import opened Keybinds

  const LUA_HEADER := "-- Keybinds (generated by axctl)"
  const BIND := "hl.bind("

  predicate IsExec(b: Keybind) { Dispatcher(b) == "" || Dispatcher(b) == "exec" }

  // ------------------------------------------------------------------
  // The printed text
  // ------------------------------------------------------------------

  const MOUSE := "mouse = true"

  function FlagField(c: char): string {
    match Lower(c)
    case 'l' => "locked = true"
    case 'e' => "release = true"
    case 'n' => "non_consuming = true"
    case 'm' => MOUSE
    case 'r' => "repeating = true"
    case _ => ""
  }

  /** The fields for the known letters among the first `n`. */
  function FlagFields(flags: string, n: nat): seq<string>
    requires n <= |flags|
  {
    if n == 0 then []
    else if FlagField(flags[n - 1]) != "" then FlagFields(flags, n - 1) + [FlagField(flags[n - 1])]
    else FlagFields(flags, n - 1)
  }

  /** The options of a statement: none for exec, the mouse marker for mouse keys, else the flags. */
  function OptionFields(b: Keybind): seq<string>
    requires Active(b)
  {
    if IsExec(b) then []
    else if IsMouse(b.key.value) then [MOUSE]
    else if b.flags.Some? then FlagFields(b.flags.value, |b.flags.value|)
    else []
  }

  function OptionText(fields: seq<string>): string {
    if fields == [] then "" else ", { " + (Join(fields, ", ") + " }")
  }

  function ActionParts(b: Keybind): (parts: seq<Part>)
    ensures parts != []
  {
    if IsExec(b) then CommandParts(LuaActions.Text(b.argument)) else DispatcherParts(Dispatcher(b), b.argument)
  }

  function Action(b: Keybind): string
    requires Active(b)
  {
    Print(ActionParts(b)) + OptionText(OptionFields(b))
  }

  function KeyNames(b: Keybind): seq<string>
    requires Active(b)
  {
    b.modifiers + [b.key.value]
  }

  function Statement(b: Keybind): string
    requires Active(b)
  {
    BIND + (Quoted(Plain, Join(KeyNames(b), " + ")) + (", " + (Action(b) + ")")))
  }

  function StatementText(binds: seq<Keybind>, i: nat): string
    requires i <= |binds|
    decreases |binds| - i
  {
    if i == |binds| then ""
    else if Active(binds[i]) then Statement(binds[i]) + (['\n'] + StatementText(binds, i + 1))
    else StatementText(binds, i + 1)
  }

  function GeneratedLua(binds: seq<Keybind>): string {
    if binds == [] then "" else LUA_HEADER + (['\n'] + StatementText(binds, 0))
  }

  // ------------------------------------------------------------------
  // Reading it
  // ------------------------------------------------------------------

  /** A statement that binds keys; `action` are the parts of its action and options, from the
      comma behind the keys to the end. */
  datatype LuaBind = LuaBind(keys: seq<string>, action: seq<Part>)

  function TrimAll(parts: seq<string>): (r: seq<string>)
    ensures |r| == |parts| && forall k :: 0 <= k < |r| ==> r[k] == Trim(parts[k])
  {
    seq(|parts|, i requires 0 <= i < |parts| => Trim(parts[i]))
  }

  function ParseStatement(line: string): Option<LuaBind> {
    var r := Read(line);
    if r.None? || |r.value| < 3 || r.value[0] != Code(BIND) || !r.value[1].Lit? || !(", " <= r.value[2].text) then None
    else Some(LuaBind(TrimAll(Split(r.value[1].text, '+')), r.value[2..]))
  }

  predicate IsSkipped(line: string) { line == "" || "--" <= line }

  function Joined(first: Option<LuaBind>, rest: Option<seq<LuaBind>>): Option<seq<LuaBind>> {
    if first.None? || rest.None? then None else Some([first.value] + rest.value)
  }

  /** One line that is neither empty, nor a comment, nor a statement spoils the whole text. */
  function ParseStatements(lines: seq<string>): Option<seq<LuaBind>> {
    if lines == [] then Some([])
    else if IsSkipped(lines[0]) then ParseStatements(lines[1..])
    else Joined(ParseStatement(lines[0]), ParseStatements(lines[1..]))
  }

  function ParseLua(text: string): Option<seq<LuaBind>> { ParseStatements(Split(text, '\n')) }

  /** What stands behind the keys. */
  function Behind(b: Keybind): seq<Part>
    requires Active(b)
  {
    Front(", ", Back(ActionParts(b), OptionText(OptionFields(b)) + ")"))
  }

  function LuaMeaning(b: Keybind): LuaBind
    requires Active(b)
  {
    LuaBind(KeyNames(b), Behind(b))
  }

  function LuaMeanings(binds: seq<Keybind>, i: nat): seq<LuaBind>
    requires i <= |binds|
    decreases |binds| - i
  {
    if i == |binds| then []
    else if Active(binds[i]) then [LuaMeaning(binds[i])] + LuaMeanings(binds, i + 1)
    else LuaMeanings(binds, i + 1)
  }

  // ------------------------------------------------------------------
  // Key names
  // ------------------------------------------------------------------

  predicate NameOk(s: string) { Tight(s) && '+' !in s && Safe(Plain, s) }

  predicate NamesOk(b: Keybind)
    requires Active(b)
  {
    forall k :: 0 <= k < |KeyNames(b)| ==> NameOk(KeyNames(b)[k])
  }

  ghost predicate IsTrimmedTail(r: seq<string>, parts: seq<string>, i: nat) {
    |r| == |parts| - i && forall k :: i <= k < |parts| ==> Trim(r[k - i]) == parts[k]
  }

  lemma CutName(padded: string, rest: string)
    requires '+' !in padded
    ensures Split(padded + (" + " + rest), '+') == [padded + " "] + Split(" " + rest, '+')
  {
    var first, behind := padded + [' '], " " + rest;
    assert padded + (" + " + rest) == first + (['+'] + behind);
    SplitFirst(first, '+', behind);
  }

  lemma TrimmedStep(head: string, tail: seq<string>, parts: seq<string>, i: nat)
    requires i < |parts| && Trim(head) == parts[i] && IsTrimmedTail(tail, parts, i + 1)
    ensures IsTrimmedTail([head] + tail, parts, i)
  {
    var r := [head] + tail;
    forall k | i <= k < |parts| ensures Trim(r[k - i]) == parts[k] {
      if k > i {
        assert r[k - i] == tail[k - (i + 1)];
      }
    }
  }

  lemma {:induction false} KeyNamesSplit(parts: seq<string>, i: nat)
    requires i < |parts| && forall k :: 0 <= k < |parts| ==> Tight(parts[k]) && '+' !in parts[k]
    ensures IsTrimmedTail(Split(" " + (parts[i] + Rest(parts, " + ", i + 1)), '+'), parts, i)
    decreases |parts| - i
  {
    var padded := " " + parts[i];
    TrimPadded(parts[i]);
    AppendAssoc(" ", parts[i], Rest(parts, " + ", i + 1));
    if i + 1 == |parts| {
      SplitNothing(padded, '+');
      assert padded + Rest(parts, " + ", i + 1) == padded;
    } else {
      KeyNamesSplit(parts, i + 1);
      var rest := parts[i + 1] + Rest(parts, " + ", i + 2);
      CutName(padded, rest);
      TrimmedStep(padded + " ", Split(" " + rest, '+'), parts, i);
    }
  }

  lemma FirstNameSplit(parts: seq<string>)
    requires parts != [] && forall k :: 0 <= k < |parts| ==> Tight(parts[k]) && '+' !in parts[k]
    ensures IsTrimmedTail(Split(Join(parts, " + "), '+'), parts, 0)
  {
    if |parts| == 1 {
      TrimPadded(parts[0]);
      SplitNothing(parts[0], '+');
      assert Join(parts, " + ") == parts[0];
    } else {
      KeyNamesSplit(parts, 1);
      CutFirstName(parts, parts[1] + Rest(parts, " + ", 2));
    }
  }

  lemma CutFirstName(parts: seq<string>, rest: string)
    requires |parts| > 1 && Tight(parts[0]) && '+' !in parts[0]
    requires rest == parts[1] + Rest(parts, " + ", 2) && IsTrimmedTail(Split(" " + rest, '+'), parts, 1)
    ensures IsTrimmedTail(Split(Join(parts, " + "), '+'), parts, 0)
  {
    assert Join(parts, " + ") == parts[0] + (" + " + rest);
    PrependName(parts, rest, parts[0] + (" + " + rest));
  }

  lemma PrependName(parts: seq<string>, rest: string, joined: string)
    requires |parts| > 1 && Tight(parts[0]) && '+' !in parts[0] && joined == parts[0] + (" + " + rest)
    requires IsTrimmedTail(Split(" " + rest, '+'), parts, 1)
    ensures IsTrimmedTail(Split(joined, '+'), parts, 0)
  {
    assert Trim(parts[0] + " ") == parts[0] by {
      TrimPadded(parts[0]);
    }
    CutName(parts[0], rest);
    TrimmedStep(parts[0] + " ", Split(" " + rest, '+'), parts, 0);
  }

  lemma KeyNamesReadBackIff(parts: seq<string>)
    requires parts != []
    ensures TrimAll(Split(Join(parts, " + "), '+')) == parts <==>
            forall k :: 0 <= k < |parts| ==> Tight(parts[k]) && '+' !in parts[k]
  {
    var split := Split(Join(parts, " + "), '+');
    if TrimAll(split) == parts {
      SplitLacksSeparator(Join(parts, " + "), '+');
      forall k | 0 <= k < |parts| ensures Tight(parts[k]) && '+' !in parts[k] {
        assert parts[k] == Trim(split[k]);
        TrimIsTight(split[k]);
        TrimLacks(split[k], '+');
      }
    }
    if forall k :: 0 <= k < |parts| ==> Tight(parts[k]) && '+' !in parts[k] {
      FirstNameSplit(parts);
    }
  }

  lemma PlusIsSafe(rest: string)
    ensures Safe(Plain, " + " + rest) <==> Safe(Plain, rest)
  {
    assert Safe(Plain, " + ");
    SafeConcat(" + ", rest);
  }

  lemma {:induction false} RestIsSafeIff(parts: seq<string>, i: nat)
    requires i <= |parts|
    ensures Safe(Plain, Rest(parts, " + ", i)) <==> forall k :: i <= k < |parts| ==> Safe(Plain, parts[k])
    decreases |parts| - i
  {
    if i < |parts| {
      var rest := Rest(parts, " + ", i + 1);
      RestIsSafeIff(parts, i + 1);
      SafeConcat(parts[i], rest);
      PlusIsSafe(parts[i] + rest);
    }
  }

  lemma JoinIsSafeIff(parts: seq<string>)
    ensures Safe(Plain, Join(parts, " + ")) <==> forall k :: 0 <= k < |parts| ==> Safe(Plain, parts[k])
  {
    if parts != [] {
      RestIsSafeIff(parts, 1);
      SafeConcat(parts[0], Rest(parts, " + ", 1));
    }
  }

  // ------------------------------------------------------------------
  // One statement
  // ------------------------------------------------------------------

  /** The fields that the action contains can be carried. */
  predicate ActionFits(b: Keybind) {
    if IsExec(b) then Safe(Plain, LuaActions.Text(b.argument)) else LuaActions.DispatcherFits(Dispatcher(b), b.argument)
  }

  /** The binds whose statements read back. */
  predicate LuaPrintable(b: Keybind)
    requires Active(b)
  {
    NamesOk(b) && ActionFits(b)
  }

  function StatementParts(b: Keybind): seq<Part>
    requires Active(b)
  {
    [Code(BIND), Lit(Join(KeyNames(b), " + "))] + Behind(b)
  }

  lemma FlagWords()
    ensures CleanCode("locked = true") && CleanCode("release = true")
    ensures CleanCode(MOUSE) && CleanCode("repeating = true")
  {
  }

  lemma FlagFieldIsClean(c: char)
    ensures CleanCode(FlagField(c))
  {
    FlagWords();
    assert CleanCode("non_consuming = true");
  }

  lemma {:induction false} FlagFieldsAreClean(flags: string, n: nat)
    requires n <= |flags|
    ensures forall k :: 0 <= k < |FlagFields(flags, n)| ==> CleanCode(FlagFields(flags, n)[k])
  {
    if n > 0 {
      FlagFieldsAreClean(flags, n - 1);
      FlagFieldIsClean(flags[n - 1]);
    }
  }

  lemma {:induction false} RestIsClean(parts: seq<string>, i: nat)
    requires i <= |parts| && forall k :: 0 <= k < |parts| ==> CleanCode(parts[k])
    ensures CleanCode(Rest(parts, ", ", i))
    decreases |parts| - i
  {
    if i < |parts| {
      RestIsClean(parts, i + 1);
      CleanJoined(parts[i], Rest(parts, ", ", i + 1));
      CleanJoined(", ", parts[i] + Rest(parts, ", ", i + 1));
    }
  }

  lemma FieldsAreClean(fields: seq<string>)
    requires forall k :: 0 <= k < |fields| ==> CleanCode(fields[k])
    ensures CleanCode(OptionText(fields) + ")")
  {
    assert CleanCode(", { ") && CleanCode(" }") && CleanCode(")");
    if fields != [] {
      RestIsClean(fields, 1);
      CleanJoined(fields[0], Rest(fields, ", ", 1));
      CleanJoined(Join(fields, ", "), " }");
      CleanJoined(", { ", Join(fields, ", ") + " }");
    }
    CleanJoined(OptionText(fields), ")");
  }

  lemma OptionsAreClean(b: Keybind)
    requires Active(b)
    ensures CleanCode(OptionText(OptionFields(b)) + ")")
  {
    FlagWords();
    if b.flags.Some? {
      FlagFieldsAreClean(b.flags.value, |b.flags.value|);
    }
    FieldsAreClean(OptionFields(b));
  }

  lemma ActionPartsRead(b: Keybind)
    ensures Reads(ActionParts(b), ActionFits(b))
  {
    if IsExec(b) {
      CommandReads(LuaActions.Text(b.argument));
    } else {
      ActionReads(Dispatcher(b), b.argument);
    }
  }

  lemma BehindReads(b: Keybind)
    requires Active(b)
    ensures Reads(Behind(b), ActionFits(b))
  {
    var after := OptionText(OptionFields(b)) + ")";
    ActionPartsRead(b);
    OptionsAreClean(b);
    BackReads(ActionParts(b), after, ActionFits(b));
    assert CleanCode(", ");
    FrontReads(", ", Back(ActionParts(b), after), ActionFits(b));
  }

  lemma PartsRead(b: Keybind)
    requires Active(b)
    ensures Apart(StatementParts(b))
    ensures PartsOk(StatementParts(b)) <==> Safe(Plain, Join(KeyNames(b), " + ")) && ActionFits(b)
    ensures CodesClean(StatementParts(b)) <==> CodesClean(Behind(b))
  {
    BehindReads(b);
    var start := [Code(BIND), Lit(Join(KeyNames(b), " + "))];
    assert PartOk(start[0]) && start[0].text != "" by {
      assert CleanCode(BIND);
    }
    BehindLiteral(start, Behind(b));
    CodesJoined(start, Behind(b));
  }

  /** The printed statement is the text of its parts. */
  lemma StatementIsPrinted(b: Keybind)
    requires Active(b)
    ensures Statement(b) == Print(StatementParts(b))
  {
    var names, options := Q(Join(KeyNames(b), " + ")), OptionText(OptionFields(b));
    var parts := ActionParts(b);
    ActionPartsRead(b);
    PrintBack(parts, options + ")");
    BackIs(parts, options + ")");
    PrintFront(", ", Back(parts, options + ")"));
    var all := StatementParts(b);
    assert all[1..][1..] == Behind(b);
    assert Print(all) == BIND + (names + Print(Behind(b)));
    AppendAssoc(Print(parts), options, ")");
  }

  /** A statement reads back exactly if no key name has a plus sign, an outer blank or a line
      break, and its action can carry its fields. */
  lemma StatementReadsBackIff(b: Keybind)
    requires Active(b)
    ensures ParseStatement(Statement(b)) == Some(LuaMeaning(b)) <==> LuaPrintable(b)
  {
    var names, parts := KeyNames(b), StatementParts(b);
    StatementIsPrinted(b);
    PartsRead(b);
    JoinIsSafeIff(names);
    KeyNamesReadBackIff(names);
    ReadIsClean(Statement(b));
    BehindOpens(b);
    if CodesClean(parts) {
      PrintReadsBackIff(parts);
      assert parts[2..] == Behind(b);
    } else {
      ParsedIsClean(Statement(b));
    }
  }

  lemma BehindOpens(b: Keybind)
    requires Active(b)
    ensures Behind(b) != [] && ", " <= Behind(b)[0].text
  {
    ActionPartsRead(b);
  }

  lemma ParsedIsClean(line: string)
    ensures var r := ParseStatement(line); r.Some? ==> CodesClean(r.value.action)
  {
    ReadIsClean(line);
  }

  // ------------------------------------------------------------------
  // The whole text
  // ------------------------------------------------------------------

  lemma NextStatement(line: string, text: string)
    requires '\n' !in line
    ensures ParseLua(line + (['\n'] + text)) ==
            if IsSkipped(line) then ParseLua(text) else Joined(ParseStatement(line), ParseLua(text))
  {
    SplitFirst(line, '\n', text);
  }

  lemma NotSkipped(b: Keybind)
    requires Active(b)
    ensures BIND <= Statement(b) && !IsSkipped(Statement(b))
  {
    assert BIND[0] == 'h';
  }

  /** A line feed in a literal leaves a first line that is no statement. */
  lemma BrokenStatement(b: Keybind, text: string)
    requires Active(b) && CodesClean(Behind(b)) && '\n' in Statement(b)
    ensures ParseLua(Statement(b) + (['\n'] + text)) == None
  {
    StatementIsPrinted(b);
    PartsRead(b);
    BrokenIsNone(StatementParts(b));
    NotSkipped(b);
    BrokenText(Statement(b), ['\n'] + text);
  }

  lemma BrokenText(statement: string, more: string)
    requires BIND <= statement && '\n' in statement && Read(FirstLine(statement)) == None
    ensures ParseLua(statement + more) == None
  {
    var first, rest := CutAtBreak(statement);
    FirstLineEnds(first, rest);
    assert statement + more == first + (['\n'] + (rest + more));
    assert BIND[0] == 'h' && statement[0] == 'h';
    NextStatement(first, rest + more);
  }

  predicate ListClean(list: seq<LuaBind>) { list == [] || (CodesClean(list[0].action) && ListClean(list[1..])) }

  lemma CleanHead(head: LuaBind, tail: seq<LuaBind>)
    ensures ListClean([head] + tail) <==> CodesClean(head.action) && ListClean(tail)
  {
    assert ([head] + tail)[1..] == tail;
  }

  predicate AllPrintable(binds: seq<Keybind>, i: nat)
    requires i <= |binds|
    decreases |binds| - i
  {
    i == |binds| || ((Active(binds[i]) ==> LuaPrintable(binds[i])) && AllPrintable(binds, i + 1))
  }

  lemma {:induction false} AllPrintableIff(binds: seq<Keybind>, i: nat)
    requires i <= |binds|
    ensures AllPrintable(binds, i) <==> forall k :: i <= k < |binds| && Active(binds[k]) ==> LuaPrintable(binds[k])
    decreases |binds| - i
  {
    if i < |binds| {
      AllPrintableIff(binds, i + 1);
    }
  }

  lemma OneMoreStatement(b: Keybind, text: string, rest: seq<LuaBind>)
    requires Active(b) && CodesClean(Behind(b))
    ensures ParseLua(Statement(b) + (['\n'] + text)) == Some([LuaMeaning(b)] + rest) <==>
            LuaPrintable(b) && ParseLua(text) == Some(rest)
  {
    if '\n' in Statement(b) {
      BrokenStatement(b, text);
      PrintableIsOneLine(b);
    } else {
      NotSkipped(b);
      NextStatement(Statement(b), text);
      StatementReadsBackIff(b);
      JoinedIff(ParseStatement(Statement(b)), ParseLua(text), LuaMeaning(b), rest);
    }
  }

  lemma PrintableIsOneLine(b: Keybind)
    requires Active(b)
    ensures LuaPrintable(b) ==> '\n' !in Statement(b)
  {
    if LuaPrintable(b) {
      PartsRead(b);
      JoinIsSafeIff(KeyNames(b));
      OkIsOneLine(StatementParts(b));
      StatementIsPrinted(b);
    }
  }

  lemma JoinedIff(first: Option<LuaBind>, tail: Option<seq<LuaBind>>, x: LuaBind, rest: seq<LuaBind>)
    ensures Joined(first, tail) == Some([x] + rest) <==> first == Some(x) && tail == Some(rest)
  {
    if Joined(first, tail) == Some([x] + rest) {
      var whole := [first.value] + tail.value;
      assert whole[0] == x && whole[1..] == rest && whole[1..] == tail.value;
    }
  }

  lemma {:induction false} StatementsReadBackIff(binds: seq<Keybind>, i: nat)
    requires i <= |binds| && ListClean(LuaMeanings(binds, i))
    ensures ParseLua(StatementText(binds, i)) == Some(LuaMeanings(binds, i)) <==> AllPrintable(binds, i)
    decreases |binds| - i
  {
    if i == |binds| {
      SplitNothing("", '\n');
    } else {
      if Active(binds[i]) {
        CleanHead(LuaMeaning(binds[i]), LuaMeanings(binds, i + 1));
      }
      StatementsReadBackIff(binds, i + 1);
      if Active(binds[i]) {
        OneMoreStatement(binds[i], StatementText(binds, i + 1), LuaMeanings(binds, i + 1));
      }
    }
  }

  // ------------------------------------------------------------------
  // What is read has clean code
  // ------------------------------------------------------------------

  lemma {:induction false} StatementsAreClean(lines: seq<string>)
    ensures ParseStatements(lines).Some? ==> ListClean(ParseStatements(lines).value)
  {
    if lines != [] {
      StatementsAreClean(lines[1..]);
      var first, rest := ParseStatement(lines[0]), ParseStatements(lines[1..]);
      if first.Some? && rest.Some? {
        ParsedIsClean(lines[0]);
        CleanHead(first.value, rest.value);
      }
    }
  }

  lemma CleanIfReadBack(binds: seq<Keybind>)
    requires ParseLua(StatementText(binds, 0)) == Some(LuaMeanings(binds, 0))
    ensures ListClean(LuaMeanings(binds, 0))
  {
    StatementsAreClean(Split(StatementText(binds, 0), '\n'));
  }

  lemma {:induction false} CleanIfPrintable(binds: seq<Keybind>, i: nat)
    requires i <= |binds| && AllPrintable(binds, i)
    ensures ListClean(LuaMeanings(binds, i))
    decreases |binds| - i
  {
    if i < |binds| {
      CleanIfPrintable(binds, i + 1);
      if Active(binds[i]) {
        BehindReads(binds[i]);
        CleanHead(LuaMeaning(binds[i]), LuaMeanings(binds, i + 1));
      }
    }
  }

  lemma LuaHeaderIsComment()
    ensures '\n' !in LUA_HEADER && IsSkipped(LUA_HEADER)
  {
    forall k | 0 <= k < |LUA_HEADER| ensures LUA_HEADER[k] != '\n' {
      if k < 8 {} else if k < 16 {} else if k < 24 {} else {}
    }
  }

  lemma GeneratedIsStatements(binds: seq<Keybind>)
    ensures ParseLua(GeneratedLua(binds)) == ParseLua(StatementText(binds, 0))
  {
    if binds != [] {
      LuaHeaderIsComment();
      NextStatement(LUA_HEADER, StatementText(binds, 0));
    }
  }

  /** Main result, for all binds: the text reads back as exactly one statement for each active
      bind, in order, with its keys and the parts of its action, exactly if no key name has a
      plus sign, an outer blank or a line break, no quoted field of an action has a line break,
      and no copied one a line feed or a quote. */
  lemma LuaReadsBackIff(binds: seq<Keybind>)
    ensures ParseLua(GeneratedLua(binds)) == Some(LuaMeanings(binds, 0)) <==>
            forall k :: 0 <= k < |binds| && Active(binds[k]) ==> LuaPrintable(binds[k])
  {
    GeneratedIsStatements(binds);
    if ParseLua(StatementText(binds, 0)) == Some(LuaMeanings(binds, 0)) {
      CleanIfReadBack(binds);
    }
    AllPrintableIff(binds, 0);
    if AllPrintable(binds, 0) {
      CleanIfPrintable(binds, 0);
    }
    if ListClean(LuaMeanings(binds, 0)) {
      StatementsReadBackIff(binds, 0);
    }
  }

  lemma OneStatementIsLost(b: Keybind)
    requires Active(b) && !LuaPrintable(b)
    ensures ParseLua(GeneratedLua([b])) != Some(LuaMeanings([b], 0))
  {
    var binds := [b];
    LuaReadsBackIff(binds);
    assert binds[0] == b;
  }

  /** For instance, a plus sign as the key is taken for a separator. */
  lemma PlusKeyIsLost()
    ensures var b := Keybind([], Some("+"), Some("exit"), None, None, true);
            ParseLua(GeneratedLua([b])) != Some(LuaMeanings([b], 0))
  {
    var b := Keybind([], Some("+"), Some("exit"), None, None, true);
    assert !NameOk(KeyNames(b)[0]) by {
      assert KeyNames(b)[0][0] == '+';
    }
    OneStatementIsLost(b);
  }

  /** For instance, a carriage return in a quoted argument spoils the whole text. */
  lemma ReturnInArgumentIsLost()
    ensures var b := Keybind([], Some("Q"), Some("workspace"), Some("\r"), None, true);
            ParseLua(GeneratedLua([b])) != Some(LuaMeanings([b], 0))
  {
    var b := Keybind([], Some("Q"), Some("workspace"), Some("\r"), None, true);
    assert !ActionFits(b) by {
      assert Breaks(Plain, "\r"[0]);
      assert !IsExec(b) && Lookup("workspace") == Some(Workspace);
    }
    OneStatementIsLost(b);
  }

  // ------------------------------------------------------------------
  // Commands
  // ------------------------------------------------------------------

  /** An exec bind runs exactly its argument, whatever it contains but a line break; then the
      literal does not end. */
  lemma ExecReadsBackIff(b: Keybind)
    requires Active(b) && IsExec(b)
    ensures var command := LuaActions.Text(b.argument);
            ExecCommand(Action(b)) == if Safe(Plain, command) then Some(command) else None
  {
    CommandReadsBackIff(LuaActions.Text(b.argument), OptionText(OptionFields(b)));
  }

  /** A dispatcher that is not known is run as a command, with its argument. */
  lemma UnknownRunsAsCommand(b: Keybind)
    requires Active(b) && !IsExec(b) && Lookup(Dispatcher(b)).None?
    ensures var command := CommandLine(Dispatcher(b), b.argument);
            ExecCommand(Action(b)) == if Safe(Plain, command) then Some(command) else None
  {
    CommandReadsBackIff(CommandLine(Dispatcher(b), b.argument), OptionText(OptionFields(b)));
  }

  lemma KnownRunsNoCommand(b: Keybind)
    requires Active(b) && !IsExec(b) && Lookup(Dispatcher(b)).Some?
    ensures ExecCommand(Action(b)) == None
  {
    KnownStart(Lookup(Dispatcher(b)).value, b.argument, OptionText(OptionFields(b)));
  }

  /** What a statement whose dispatcher is not a known name runs. */
  function LuaCommand(b: Keybind): string {
    if IsExec(b) then LuaActions.Text(b.argument) else CommandLine(Dispatcher(b), b.argument)
  }

  /** Main result: for a command without line breaks, the two syntaxes agree on whether the bind
      runs it exactly if the dispatcher is missing, is exec, or is one of the 22 known names.  A
      command with a line break cannot be read in Lua, which turns the answer round, except for
      the known names, which run none. */
  lemma ExecAgreesIff(b: Keybind)
    requires Active(b)
    ensures (Meaning(b).dispatcher == "exec" <==> ExecCommand(Action(b)).Some?) <==>
            (Lookup(Dispatcher(b)).Some? ||
             ((b.dispatcher.None? || b.dispatcher == Some("exec")) <==> Safe(Plain, LuaCommand(b))))
  {
    LookupExec();
    if IsExec(b) {
      ExecReadsBackIff(b);
    } else if Lookup(Dispatcher(b)).Some? {
      KnownRunsNoCommand(b);
    } else {
      UnknownRunsAsCommand(b);
    }
  }

  lemma LookupExec()
    ensures Lookup("exec") == None && Lookup("") == None && Lookup("foo") == None
  {
  }

  /** For instance: a line names this dispatcher as it is, the statement runs it as a command. */
  lemma UnknownDispatcherDiffers()
    ensures var b := Keybind([], Some("Q"), Some("foo"), None, None, true);
            Meaning(b).dispatcher == "foo" && ExecCommand(Action(b)) == Some("foo")
  {
    var b := Keybind([], Some("Q"), Some("foo"), None, None, true);
    LookupExec();
    assert Active(b) && !IsExec(b);
    UnknownRunsAsCommand(b);
  }

  // ------------------------------------------------------------------
  // Both syntaxes
  // ------------------------------------------------------------------

  lemma SameKeysOfOne(b: Keybind)
    requires Active(b)
    ensures LuaMeaning(b).keys == Meaning(b).modifiers + [Meaning(b).key]
  {
  }

  lemma MeaningsNext(binds: seq<Keybind>, i: nat)
    requires i < |binds|
    ensures Meanings(binds, i) ==
            if Active(binds[i]) then [Meaning(binds[i])] + Meanings(binds, i + 1) else Meanings(binds, i + 1)
    ensures LuaMeanings(binds, i) ==
            if Active(binds[i]) then [LuaMeaning(binds[i])] + LuaMeanings(binds, i + 1) else LuaMeanings(binds, i + 1)
  {
  }

  /** The k-th statement has the keys of the k-th line. */
  lemma {:induction false} SameKeys(binds: seq<Keybind>, i: nat)
    requires i <= |binds|
    ensures var lines, statements := Meanings(binds, i), LuaMeanings(binds, i);
            && |lines| == |statements|
            && forall k :: 0 <= k < |lines| ==> statements[k].keys == lines[k].modifiers + [lines[k].key]
    decreases |binds| - i
  {
    if i < |binds| {
      SameKeys(binds, i + 1);
      MeaningsNext(binds, i);
      if Active(binds[i]) {
        SameKeysOfOne(binds[i]);
        SameKeysHead(Meaning(binds[i]), LuaMeaning(binds[i]), Meanings(binds, i + 1), LuaMeanings(binds, i + 1));
      }
    }
  }

  lemma SameKeysHead(line: Bind, statement: LuaBind, lines: seq<Bind>, statements: seq<LuaBind>)
    requires statement.keys == line.modifiers + [line.key] && |lines| == |statements|
    requires forall k :: 0 <= k < |lines| ==> statements[k].keys == lines[k].modifiers + [lines[k].key]
    ensures var all, these := [line] + lines, [statement] + statements;
            forall k :: 0 <= k < |all| ==> these[k].keys == all[k].modifiers + [all[k].key]
  {
  }

  predicate HasLetter(flags: string, c: char) { exists k :: 0 <= k < |flags| && Lower(flags[k]) == c }

  lemma OnlyMouseIsMouse(c: char)
    ensures FlagField(c) == MOUSE <==> Lower(c) == 'm'
  {
    assert "locked = true"[0] != 'm' && "release = true"[0] != 'm';
    assert "non_consuming = true"[0] != 'm' && "repeating = true"[0] != 'm' && MOUSE[0] == 'm';
  }

  lemma {:induction false} MouseFlagIff(flags: string, n: nat)
    requires n <= |flags|
    ensures MOUSE in FlagFields(flags, n) <==> exists k :: 0 <= k < n && Lower(flags[k]) == 'm'
  {
    if n > 0 {
      MouseFlagIff(flags, n - 1);
      OnlyMouseIsMouse(flags[n - 1]);
      var fields, field := FlagFields(flags, n - 1), FlagField(flags[n - 1]);
      assert MOUSE in fields + [field] <==> MOUSE in fields || field == MOUSE;
    }
  }

  predicate OnlyMouse(fields: seq<string>) { forall k :: 0 <= k < |fields| ==> fields[k] == MOUSE }

  predicate SetsFlag(c: char) { Lower(c) in {'l', 'e', 'n', 'r'} }

  lemma FlagFieldIff(c: char)
    ensures FlagField(c) == "" || FlagField(c) == MOUSE <==> !SetsFlag(c)
  {
    OnlyMouseIsMouse(c);
  }

  lemma {:induction false} OnlyMouseIff(flags: string, n: nat)
    requires n <= |flags|
    ensures OnlyMouse(FlagFields(flags, n)) <==> forall k :: 0 <= k < n ==> !SetsFlag(flags[k])
  {
    if n > 0 {
      OnlyMouseIff(flags, n - 1);
      FlagFieldIff(flags[n - 1]);
      var fields, field := FlagFields(flags, n - 1), FlagField(flags[n - 1]);
      assert OnlyMouse(fields + [field]) <==> OnlyMouse(fields) && field == MOUSE by {
        assert (fields + [field])[|fields|] == field;
        assert forall k :: 0 <= k < |fields| ==> (fields + [field])[k] == fields[k];
      }
    }
  }

  /** A line never carries flags; a statement carries none either, apart from the mouse marker,
      exactly if its bind is an exec or a mouse bind, or its flags have no letter l, e, n or r. */
  lemma FlagsAgreeIff(b: Keybind)
    requires Active(b)
    ensures OnlyMouse(OptionFields(b)) <==>
            IsExec(b) || IsMouse(b.key.value) || b.flags.None? ||
            forall k :: 0 <= k < |b.flags.value| ==> !SetsFlag(b.flags.value[k])
  {
    if b.flags.Some? {
      OnlyMouseIff(b.flags.value, |b.flags.value|);
    }
  }

  /** The mouse marker of a statement agrees with the keyword of the line exactly if a mouse
      bind is not an exec bind, and a bind on another key that is not an exec bind does not ask
      for the marker in its flags. */
  lemma MouseAgreesIff(b: Keybind)
    requires Active(b)
    ensures (Meaning(b).mouse <==> MOUSE in OptionFields(b)) <==>
            if Meaning(b).mouse then !IsExec(b)
            else IsExec(b) || b.flags.None? || !HasLetter(b.flags.value, 'm')
  {
    if b.flags.Some? {
      MouseFlagIff(b.flags.value, |b.flags.value|);
    }
  }

  /** For instance: the line of a mouse button that runs a command is marked, the statement not. */
  lemma MouseCommandDiffers()
    ensures var b := Keybind([], Some("mouse:272"), None, None, None, true);
            Active(b) && Meaning(b).mouse && MOUSE !in OptionFields(b)
  {
    var key := "mouse:272";
    assert key[..6] == "mouse:";
  }

  /** For instance: the statement of a bind that works on the lock screen says so, the line not. */
  lemma LockedFlagDiffers()
    ensures var b := Keybind([], Some("Q"), Some("exit"), None, Some("l"), true);
            Active(b) && OptionFields(b) == ["locked = true"] && !OnlyMouse(OptionFields(b))
  {
    var flags, name := "l", "exit";
    var b := Keybind([], Some("Q"), Some(name), None, Some(flags), true);
    assert |flags| == 1 && name[1] == 'x' && name[2] == 'i';
    assert FlagFields(flags, 0) == [] && FlagFields(flags, 1) == [] + ["locked = true"];
    FlagsAgreeIff(b);
    assert SetsFlag(b.flags.value[0]);
  }

  /** The options of the five known letters, in any case and in the order of the flags; other
      letters have none. */
  lemma FlagsText()
    ensures FlagFields("lEnMr", 5) ==
            ["locked = true", "release = true", "non_consuming = true", "mouse = true", "repeating = true"]
    ensures forall c :: Lower(c) !in {'l', 'e', 'n', 'm', 'r'} ==> FlagField(c) == ""
  {
    var flags, none := "lEnMr", FlagFields("lEnMr", 0);
    assert none == [];
    assert FlagFields(flags, 1) == none + ["locked = true"];
    assert FlagFields(flags, 2) == FlagFields(flags, 1) + ["release = true"];
    assert FlagFields(flags, 3) == FlagFields(flags, 2) + ["non_consuming = true"];
    assert FlagFields(flags, 4) == FlagFields(flags, 3) + ["mouse = true"];
    assert FlagFields(flags, 5) == FlagFields(flags, 4) + ["repeating = true"];
  }

  // ------------------------------------------------------------------
  // What is printed at all
  // ------------------------------------------------------------------

  /** What one bind adds to the text. */
  function Piece(b: Keybind): string { if Active(b) then Statement(b) + ['\n'] else "" }

  lemma StatementsFrom(binds: seq<Keybind>, i: nat)
    requires i < |binds|
    ensures StatementText(binds, i) == Piece(binds[i]) + StatementText(binds, i + 1)
  {
    if Active(binds[i]) {
      AppendAssoc(Statement(binds[i]), ['\n'], StatementText(binds, i + 1));
    } else {
      assert "" + StatementText(binds, i + 1) == StatementText(binds, i + 1);
    }
  }

  lemma SamePieceBefore(all: seq<Keybind>, a: seq<Keybind>, i: nat, more: string)
    requires i < |all| && i < |a| && all[i] == a[i]
    requires StatementText(all, i + 1) == StatementText(a, i + 1) + more
    ensures StatementText(all, i) == StatementText(a, i) + more
  {
    StatementsFrom(all, i);
    StatementsFrom(a, i);
    AppendAssoc(Piece(a[i]), StatementText(a, i + 1), more);
  }

  lemma {:induction false} StatementsOfConcat(all: seq<Keybind>, a: seq<Keybind>, b: seq<Keybind>, i: nat)
    requires IsConcat(all, a, b) && i <= |a|
    ensures StatementText(all, i) == StatementText(a, i) + StatementText(b, 0)
    decreases |a| - i
  {
    if i == |a| {
      StatementsBehind(all, a, b, 0);
      assert "" + StatementText(b, 0) == StatementText(b, 0);
    } else {
      StatementsOfConcat(all, a, b, i + 1);
      SamePieceBefore(all, a, i, StatementText(b, 0));
    }
  }

  lemma {:induction false} StatementsBehind(all: seq<Keybind>, a: seq<Keybind>, b: seq<Keybind>, j: nat)
    requires IsConcat(all, a, b) && j <= |b|
    ensures StatementText(all, |a| + j) == StatementText(b, j)
    decreases |b| - j
  {
    if j < |b| {
      assert all[|a| + j] == b[j];
      StatementsBehind(all, a, b, j + 1);
    }
  }

  lemma StatementOfOne(b: Keybind)
    ensures StatementText([b], 0) == "" <==> !Active(b)
  {
    var binds := [b];
    assert binds[0] == b && StatementText(binds, 1) == "";
  }

  /** In Lua, too, a bind makes no difference exactly if it is disabled, has no key or has an empty
      one. */
  lemma SkippedInLuaIff(a: seq<Keybind>, b: Keybind, c: seq<Keybind>)
    requires a + c != []
    ensures GeneratedLua(a + ([b] + c)) == GeneratedLua(a + c) <==> !b.enabled || b.key.None? || b.key == Some("")
  {
    StatementsOfConcat(a + ([b] + c), a, [b] + c, 0);
    StatementsOfConcat([b] + c, [b], c, 0);
    StatementsOfConcat(a + c, a, c, 0);
    StatementOfOne(b);
    var start := LUA_HEADER + ['\n'];
    AppendAssoc(LUA_HEADER, ['\n'], StatementText(a + ([b] + c), 0));
    AppendAssoc(LUA_HEADER, ['\n'], StatementText(a + c, 0));
    SameBetween(start, StatementText(a, 0), StatementText([b], 0), StatementText(c, 0));
  }

  // ------------------------------------------------------------------
  // Three sources
  // ------------------------------------------------------------------

  lemma {:induction false} LuaMeaningsOfConcat(a: seq<Keybind>, b: seq<Keybind>, i: nat)
    requires i <= |a|
    ensures LuaMeanings(a + b, i) == LuaMeanings(a, i) + LuaMeanings(b, 0)
    decreases |a| - i
  {
    if i == |a| {
      LuaMeaningsBehind(a + b, b, |a|, 0);
    } else {
      assert (a + b)[i] == a[i];
      LuaMeaningsOfConcat(a, b, i + 1);
      if Active(a[i]) {
        AppendAssoc([LuaMeaning(a[i])], LuaMeanings(a, i + 1), LuaMeanings(b, 0));
      }
    }
  }

  lemma {:induction false} LuaMeaningsBehind(all: seq<Keybind>, b: seq<Keybind>, from: nat, j: nat)
    requires j <= |b| && |all| == from + |b| && forall k :: 0 <= k < |b| ==> all[from + k] == b[k]
    ensures LuaMeanings(all, from + j) == LuaMeanings(b, j)
    decreases |b| - j
  {
    if j < |b| {
      assert all[from + j] == b[j];
      LuaMeaningsBehind(all, b, from, j + 1);
    }
  }

  // ------------------------------------------------------------------
  // The code
  // ------------------------------------------------------------------

  method FlagsToLua(flags: string) returns (out: string)
    ensures out == Join(FlagFields(flags, |flags|), ", ")
    ensures out == "" <==> FlagFields(flags, |flags|) == []
  {
    out := "";
    var first := true;
    for i := 0 to |flags|
      invariant out == Join(FlagFields(flags, i), ", ")
      invariant first <==> FlagFields(flags, i) == []
      invariant first <==> out == ""
    {
      var field := FlagField(flags[i]);
      if field != "" {
        JoinSnoc(FlagFields(flags, i), field, ", ");
        if first {
          out := field;
        } else {
          out := out + (", " + field);
        }
        first := false;
      }
    }
  }

  method LuaAction(kb: Keybind) returns (action: string)
    requires Active(kb)
    ensures action == Action(kb)
  {
    if kb.dispatcher.None? || kb.dispatcher.value == "" || kb.dispatcher.value == "exec" {
      var buffer, length := Quote(Plain, Some(if kb.argument.Some? then kb.argument.value else ""));
      PrintFilled(EXEC, LuaActions.Text(kb.argument), ")");
      return EXEC + (buffer[..length] + ")");
    }
    action := DispatcherToLua(kb.dispatcher.value, kb.argument);
    if IsMouse(kb.key.value) {
      SingleField();
      action := action + ", { mouse = true }";
    } else if kb.flags.Some? {
      var flags := FlagsToLua(kb.flags.value);
      if flags != "" {
        action := action + (", { " + (flags + " }"));
      }
    }
  }

  lemma SingleField()
    ensures OptionText([MOUSE]) == ", { mouse = true }"
  {
    assert Join([MOUSE], ", ") == MOUSE;
  }

  method GenerateKeybindsLua(binds: seq<Keybind>) returns (out: string)
    ensures out == GeneratedLua(binds)
  {
    if |binds| == 0 {
      return "";
    }
    out := LUA_HEADER + ['\n'];
    for i := 0 to |binds|
      invariant out + StatementText(binds, i) == GeneratedLua(binds)
    {
      var kb := binds[i];
      if !kb.enabled || kb.key.None? || kb.key.value == "" {
        continue;
      }
      var keys := JoinParts(kb.modifiers + [kb.key.value], " + ");
      var buffer, length := Quote(Plain, Some(keys));
      var action := LuaAction(kb);
      var line := BIND + (buffer[..length] + (", " + (action + ")")));
      assert line == Statement(kb);
      AppendLine(out, line, StatementText(binds, i + 1));
      out := out + line + ['\n'];
    }
  }

  /** The merge and the printer together. */
  method PrintMergedLua(system: array<Keybind>, named: array<Keybind>, custom: array<Keybind>) returns (out: string)
    ensures var binds := system[..] + (named[..] + custom[..]);
            var meanings := LuaMeanings(system[..], 0) + (LuaMeanings(named[..], 0) + LuaMeanings(custom[..], 0));
            ParseLua(out) == Some(meanings) <==>
            forall k :: 0 <= k < |binds| && Active(binds[k]) ==> LuaPrintable(binds[k])
  {
    var merged := Merge(system, named, custom);
    out := GenerateKeybindsLua(merged[..]);
    LuaReadsBackIff(merged[..]);
    LuaMeaningsOfConcat(system[..], named[..] + custom[..], 0);
    LuaMeaningsOfConcat(named[..], custom[..], 0);
  }
}
