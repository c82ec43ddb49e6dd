/**
  The Lua actions for dispatchers other than exec (`dispatcher_to_lua` in
  `src/ipc/hyprland/generator.c`).

  22 names have a text of their own; everything else is run as a command.  A text is a list of
  parts, which are the format and the arguments of the code's `sprintf` calls.  Most texts quote
  the argument, three copy it as it is, and nine do not contain it.

  First the texts, then which of them read back, which can be told apart, and which run a command.
 */
module LuaActions {
  import opened Wrappers
  import opened Strings
  import opened LuaQuote
  import opened LuaParts

  datatype Known =
    | KillActive | Exit | ToggleFloating | Fullscreen | MoveFocus | MoveWindow | ResizeWindow
    | MoveToWorkspace | MoveToWorkspaceSilent | Workspace | ToggleSpecial | Pin | ToggleGroup
    | ChangeGroupActive | FocusWindow | CloseWindow | Dpms | LayoutMsg | ResizePixel | MovePixel
    | Pseudo | Center

  function Lookup(name: string): Option<Known> {
    match name
    case "killactive" => Some(KillActive)
    case "exit" => Some(Exit)
    case "togglefloating" => Some(ToggleFloating)
    case "fullscreen" => Some(Fullscreen)
    case "movefocus" => Some(MoveFocus)
    case "movewindow" => Some(MoveWindow)
    case "resizewindow" => Some(ResizeWindow)
    case "movetoworkspace" => Some(MoveToWorkspace)
    case "movetoworkspacesilent" => Some(MoveToWorkspaceSilent)
    case "workspace" => Some(Workspace)
    case "togglespecialworkspace" => Some(ToggleSpecial)
    case "pin" => Some(Pin)
    case "togglegroup" => Some(ToggleGroup)
    case "changegroupactive" => Some(ChangeGroupActive)
    case "focuswindow" => Some(FocusWindow)
    case "closewindow" => Some(CloseWindow)
    case "dpms" => Some(Dpms)
    case "layoutmsg" => Some(LayoutMsg)
    case "resizewindowpixel" => Some(ResizePixel)
    case "movewindowpixel" => Some(MovePixel)
    case "pseudo" => Some(Pseudo)
    case "centerwindow" => Some(Center)
    case _ => None
  }

  // ------------------------------------------------------------------
  // The texts
  // ------------------------------------------------------------------

  /** The argument, or nothing when it is missing. */
  function Text(arg: Option<string>): string { if arg.Some? then arg.value else "" }

  const LAYOUT_IS := "function() if hl.get_" + ("active_workspace()" + ".tiled_layout == ")

  const THEN_LAYOUT := " then hl.dispatch(" + "hl.dsp.layout("

  /** An action that depends on the layout of the active workspace. */
  function IfLayout(layout: string, message: string, rest: seq<Part>): seq<Part> {
    [Code(LAYOUT_IS), Lit(layout), Code(THEN_LAYOUT), Lit(message)] + rest
  }

  predicate IsScrollingMessage(arg: string) {
    || "focus " <= arg || "movewindowto " <= arg || "colresize" <= arg || "promote" <= arg
    || "togglefit" <= arg || "swapcol " <= arg || "movecoltoworkspace" <= arg
  }

  function FullscreenParts(arg: Option<string>): seq<Part> {
    if arg == Some("1") then Filled("hl.dsp.window.full" + "screen({ action = ", "set", " })")
    else if arg == Some("0") then Filled("hl.dsp.window.full" + "screen({ action = ", "unset", " })")
    else Fixed("hl.dsp.window.full" + "screen()")
  }

  function MoveFocusParts(arg: Option<string>): seq<Part> {
    IfLayout("scrolling", if arg.Some? then "focus " + arg.value else "",
             Filled(")) else hl.dispatch(" + "hl.dsp.focus({ direction = ", Text(arg), " })) end end"))
  }

  function LayoutParts(arg: Option<string>): seq<Part> {
    if arg.Some? && IsScrollingMessage(arg.value) then IfLayout("scrolling", arg.value, Fixed(")) end end"))
    else if arg == Some("rotatesplit") || arg == Some("togglesplit") then
      IfLayout("dwindle", arg.value, Fixed(")) end end"))
    else Filled("hl.dsp.layout(", Text(arg), ")")
  }

  function KnownParts(k: Known, arg: Option<string>): (parts: seq<Part>)
    ensures parts != []
  {
    match k
    case KillActive => Fixed("hl.dsp.window.close()")
    case Exit => Fixed("hl.dsp.exit()")
    case ToggleFloating => Filled("hl.dsp.window.float(" + "{ action = ", "toggle", " })")
    case Fullscreen => FullscreenParts(arg)
    case MoveFocus => MoveFocusParts(arg)
    case MoveWindow =>
      if Text(arg) == "" then Fixed("hl.dsp.window.drag()")
      else Filled("hl.dsp.window.move(" + "{ direction = ", arg.value, " })")
    case ResizeWindow =>
      if Text(arg) == "" then Fixed("hl.dsp.window.resize()")
      else Fixed("hl.dsp.window.resize({ " + (arg.value + " })"))
    case MoveToWorkspace => Filled("hl.dsp.window.move(" + "{ workspace = ", Text(arg), " })")
    case MoveToWorkspaceSilent => Filled("hl.dsp.window.move(" + "{ workspace = ", Text(arg), " })")
    case Workspace => Filled("hl.dsp.focus({ workspace = ", Text(arg), " })")
    case ToggleSpecial => Filled("hl.dsp.workspace." + "toggle_special(", Text(arg), ")")
    case Pin => Filled("hl.dsp.window.pin(" + "{ action = ", "toggle", " })")
    case ToggleGroup => Fixed("hl.dsp.group.toggle()")
    case ChangeGroupActive =>
      Fixed(if arg == Some("b") || arg == Some("prev") then "hl.dsp.group.prev()" else "hl.dsp.group.next()")
    case FocusWindow => Filled("hl.dsp.focus({ window = ", Text(arg), " })")
    case CloseWindow => Filled("hl.dsp.window.close(", Text(arg), ")")
    case Dpms => Filled("hl.dsp.dpms({ action = ", Text(arg), " })")
    case LayoutMsg => LayoutParts(arg)
    case ResizePixel => Fixed("hl.dsp.window.resize({ " + (Text(arg) + " })"))
    case MovePixel => Fixed("hl.dsp.window.move({ " + (Text(arg) + " })"))
    case Pseudo => Fixed("hl.dsp.window.pseudo()")
    case Center => Fixed("hl.dsp.window.center()")
  }

  const EXEC := "hl.dsp.exec_cmd("

  function CommandParts(command: string): seq<Part> { Filled(EXEC, command, ")") }

  /** The command line for a name that is not known: the name itself, with its argument. */
  function CommandLine(name: string, arg: Option<string>): string {
    if Text(arg) != "" then name + (" " + arg.value) else name
  }

  function DispatcherParts(name: string, arg: Option<string>): (parts: seq<Part>)
    ensures parts != []
  {
    var k := Lookup(name);
    if k.Some? then KnownParts(k.value, arg) else CommandParts(CommandLine(name, arg))
  }

  function DispatcherToLua(name: string, arg: Option<string>): string { Print(DispatcherParts(name, arg)) }

  // ------------------------------------------------------------------
  // The texts by the names of the dispatchers
  // ------------------------------------------------------------------

  lemma PrintFixed(text: string)
    ensures Print(Fixed(text)) == text
  {
    assert Fixed(text)[1..] == [];
    assert text + "" == text;
  }

  /** The action of this name is `text`, whatever the argument. */
  ghost predicate Always(name: string, text: string) {
    forall arg :: DispatcherToLua(name, arg) == text
  }

  lemma AlwaysFixed(name: string, k: Known, text: string)
    requires Lookup(name) == Some(k) && forall arg :: KnownParts(k, arg) == Fixed(text)
    ensures Always(name, text)
  {
    PrintFixed(text);
  }

  lemma FixedNames()
    ensures Always("killactive", "hl.dsp.window.close()") && Always("exit", "hl.dsp.exit()")
    ensures Always("togglegroup", "hl.dsp.group.toggle()")
    ensures Always("pseudo", "hl.dsp.window.pseudo()") && Always("centerwindow", "hl.dsp.window.center()")
  {
    AlwaysFixed("killactive", KillActive, "hl.dsp.window.close()");
    AlwaysFixed("exit", Exit, "hl.dsp.exit()");
    AlwaysFixed("togglegroup", ToggleGroup, "hl.dsp.group.toggle()");
    AlwaysFixed("pseudo", Pseudo, "hl.dsp.window.pseudo()");
    AlwaysFixed("centerwindow", Center, "hl.dsp.window.center()");
  }

  lemma ToggleNames()
    ensures Always("togglefloating", "hl.dsp.window.float(" + "{ action = " + (Q("toggle") + " })"))
    ensures Always("pin", "hl.dsp.window.pin(" + "{ action = " + (Q("toggle") + " })"))
  {
    AlwaysFilled("togglefloating", ToggleFloating, "hl.dsp.window.float(" + "{ action = ", "toggle", " })");
    AlwaysFilled("pin", Pin, "hl.dsp.window.pin(" + "{ action = ", "toggle", " })");
  }

  lemma AlwaysFilled(name: string, k: Known, open: string, s: string, close: string)
    requires Lookup(name) == Some(k) && forall arg :: KnownParts(k, arg) == Filled(open, s, close)
    ensures Always(name, open + (Q(s) + close))
  {
    PrintFilled(open, s, close);
  }

  /** Fullscreen is set by 1, taken back by 0, and otherwise toggled. */
  lemma FullscreenName(arg: Option<string>)
    ensures DispatcherParts("fullscreen", arg) ==
            if arg == Some("1") then Filled("hl.dsp.window.full" + "screen({ action = ", "set", " })")
            else if arg == Some("0") then Filled("hl.dsp.window.full" + "screen({ action = ", "unset", " })")
            else Fixed("hl.dsp.window.full" + "screen()")
  {
  }

  /** The next member of a group becomes active, unless the argument is b or prev. */
  lemma GroupName(arg: Option<string>)
    ensures arg in {Some("b"), Some("prev")} ==> DispatcherToLua("changegroupactive", arg) == "hl.dsp.group.prev()"
    ensures arg !in {Some("b"), Some("prev")} ==> DispatcherToLua("changegroupactive", arg) == "hl.dsp.group.next()"
  {
    PrintFixed("hl.dsp.group.prev()");
    PrintFixed("hl.dsp.group.next()");
  }

  /** The action of this name quotes the argument between the two texts, or nothing if it is missing. */
  ghost predicate Quotes(name: string, open: string, close: string) {
    && (forall s :: DispatcherToLua(name, Some(s)) == open + (Q(s) + close))
    && DispatcherToLua(name, None) == open + (Q("") + close)
  }

  lemma QuotesFilled(name: string, k: Known, open: string, close: string)
    requires Lookup(name) == Some(k)
    requires forall arg :: KnownParts(k, arg) == Filled(open, Text(arg), close)
    ensures Quotes(name, open, close)
  {
    forall s ensures Print(Filled(open, s, close)) == open + (Q(s) + close) {
      PrintFilled(open, s, close);
    }
  }

  lemma MoveToWorkspaceName()
    ensures Quotes("movetoworkspace", "hl.dsp.window.move(" + "{ workspace = ", " })")
  {
    QuotesFilled("movetoworkspace", MoveToWorkspace, "hl.dsp.window.move(" + "{ workspace = ", " })");
  }

  lemma MoveSilentName()
    ensures Quotes("movetoworkspacesilent", "hl.dsp.window.move(" + "{ workspace = ", " })")
  {
    QuotesFilled("movetoworkspacesilent", MoveToWorkspaceSilent, "hl.dsp.window.move(" + "{ workspace = ", " })");
  }

  lemma ToggleSpecialName()
    ensures Quotes("togglespecialworkspace", "hl.dsp.workspace." + "toggle_special(", ")")
  {
    QuotesFilled("togglespecialworkspace", ToggleSpecial, "hl.dsp.workspace." + "toggle_special(", ")");
  }

  lemma CloseWindowName()
    ensures Quotes("closewindow", "hl.dsp.window.close(", ")")
  {
    QuotesFilled("closewindow", CloseWindow, "hl.dsp.window.close(", ")");
  }

  lemma WorkspaceName()
    ensures Quotes("workspace", "hl.dsp.focus({ workspace = ", " })")
  {
    QuotesFilled("workspace", Workspace, "hl.dsp.focus({ workspace = ", " })");
  }

  lemma FocusWindowName()
    ensures Quotes("focuswindow", "hl.dsp.focus({ window = ", " })")
  {
    QuotesFilled("focuswindow", FocusWindow, "hl.dsp.focus({ window = ", " })");
  }

  lemma DpmsName()
    ensures Quotes("dpms", "hl.dsp.dpms({ action = ", " })")
  {
    QuotesFilled("dpms", Dpms, "hl.dsp.dpms({ action = ", " })");
  }

  /** Without an argument a window follows the mouse; with one it moves in that direction. */
  lemma MoveWindowName(s: string)
    ensures DispatcherToLua("movewindow", None) == "hl.dsp.window.drag()"
    ensures DispatcherToLua("movewindow", Some(s)) ==
            if s == "" then "hl.dsp.window.drag()" else "hl.dsp.window.move(" + "{ direction = " + (Q(s) + " })")
  {
    PrintFixed("hl.dsp.window.drag()");
    PrintFilled("hl.dsp.window.move(" + "{ direction = ", s, " })");
  }

  lemma ResizeWindowName(s: string)
    ensures DispatcherToLua("resizewindow", None) == "hl.dsp.window.resize()"
    ensures DispatcherToLua("resizewindow", Some(s)) ==
            if s == "" then "hl.dsp.window.resize()" else "hl.dsp.window.resize({ " + (s + " })")
  {
    PrintFixed("hl.dsp.window.resize()");
    PrintFixed("hl.dsp.window.resize({ " + (s + " })"));
  }

  /** The action of this name copies the argument between the text and a closing brace. */
  ghost predicate Copies(name: string, open: string) {
    forall s :: DispatcherToLua(name, Some(s)) == open + (s + " })")
  }

  lemma CopiesFixed(name: string, k: Known, open: string)
    requires Lookup(name) == Some(k)
    requires forall s :: KnownParts(k, Some(s)) == Fixed(open + (s + " })"))
    ensures Copies(name, open)
  {
    forall s ensures Print(Fixed(open + (s + " })"))) == open + (s + " })") {
      PrintFixed(open + (s + " })"));
    }
  }

  lemma ResizePixelName()
    ensures Copies("resizewindowpixel", "hl.dsp.window.resize({ ")
  {
    CopiesFixed("resizewindowpixel", ResizePixel, "hl.dsp.window.resize({ ");
  }

  lemma MovePixelName()
    ensures Copies("movewindowpixel", "hl.dsp.window.move({ ")
  {
    CopiesFixed("movewindowpixel", MovePixel, "hl.dsp.window.move({ ");
  }

  /** Moving the focus is a message for one layout and an action of its own for the others. */
  lemma MoveFocusName(s: string)
    ensures var parts := DispatcherParts("movefocus", Some(s));
            |parts| == 7 && parts[1] == Lit("scrolling") && parts[3] == Lit("focus " + s) && parts[5] == Lit(s)
  {
  }

  /** The layout that a message is for: the messages with these beginnings are for one layout, two
      others for another, and the rest for any. */
  lemma LayoutMsgName(s: string)
    ensures var parts := DispatcherParts("layoutmsg", Some(s));
            if "focus " <= s || "movewindowto " <= s || "colresize" <= s || "promote" <= s
               || "togglefit" <= s || "swapcol " <= s || "movecoltoworkspace" <= s
            then |parts| == 5 && parts[1] == Lit("scrolling") && parts[3] == Lit(s)
            else if s == "rotatesplit" || s == "togglesplit"
            then |parts| == 5 && parts[1] == Lit("dwindle") && parts[3] == Lit(s)
            else parts == [Code("hl.dsp.layout("), Lit(s), Code(")")]
  {
  }

  const KNOWN_NAMES := {
    "killactive", "exit", "togglefloating", "fullscreen", "movefocus", "movewindow", "resizewindow",
    "movetoworkspace", "movetoworkspacesilent", "workspace", "togglespecialworkspace", "pin", "togglegroup",
    "changegroupactive", "focuswindow", "closewindow", "dpms", "layoutmsg", "resizewindowpixel",
    "movewindowpixel", "pseudo", "centerwindow"
  }

  lemma KnownIff(name: string)
    ensures Lookup(name).Some? <==> name in KNOWN_NAMES
  {
  }

  /** Any other name is run as a command, with the argument behind a space unless it is empty. */
  lemma OtherName(name: string, s: string)
    requires name !in KNOWN_NAMES
    ensures DispatcherToLua(name, None) == "hl.dsp.exec_cmd(" + (Q(name) + ")")
    ensures DispatcherToLua(name, Some("")) == "hl.dsp.exec_cmd(" + (Q(name) + ")")
    ensures s != "" ==> DispatcherToLua(name, Some(s)) == "hl.dsp.exec_cmd(" + (Q(name + (" " + s)) + ")")
  {
    KnownIff(name);
    OtherParts(name, s);
    PrintFilled("hl.dsp.exec_cmd(", name, ")");
    PrintFilled("hl.dsp.exec_cmd(", name + (" " + s), ")");
  }

  lemma OtherParts(name: string, s: string)
    requires Lookup(name).None?
    ensures DispatcherParts(name, None) == Filled("hl.dsp.exec_cmd(", name, ")") == DispatcherParts(name, Some(""))
    ensures s != "" ==> DispatcherParts(name, Some(s)) == Filled("hl.dsp.exec_cmd(", name + (" " + s), ")")
  {
  }

  // ------------------------------------------------------------------
  // Which actions read back
  // ------------------------------------------------------------------

  /** The texts of these nine do not contain the argument. */
  predicate IgnoresArgument(k: Known) {
    k in {KillActive, Exit, ToggleFloating, Fullscreen, Pin, ToggleGroup, ChangeGroupActive, Pseudo, Center}
  }

  /** The texts of these three contain the argument as it is. */
  predicate CopiesArgument(k: Known) { k in {ResizeWindow, ResizePixel, MovePixel} }

  predicate ArgumentFits(k: Known, arg: Option<string>) {
    IgnoresArgument(k) || if CopiesArgument(k) then CleanCode(Text(arg)) else Safe(Plain, Text(arg))
  }

  /** The fields of an action that its text can carry. */
  predicate DispatcherFits(name: string, arg: Option<string>) {
    if Lookup(name).Some? then ArgumentFits(Lookup(name).value, arg) else Safe(Plain, CommandLine(name, arg))
  }

  lemma LayoutWords()
    ensures CleanCode(LAYOUT_IS) && CleanCode(THEN_LAYOUT)
  {
    assert CleanCode("function() if hl.get_") && CleanCode("active_workspace()") && CleanCode(".tiled_layout == ");
    CleanJoined("active_workspace()", ".tiled_layout == ");
    CleanJoined("function() if hl.get_", "active_workspace()" + ".tiled_layout == ");
    ThenWords();
  }

  lemma ThenWords()
    ensures CleanCode(THEN_LAYOUT)
  {
    assert CleanCode(" then hl.dispatch(") && CleanCode("hl.dsp.layout(");
    CleanJoined(" then hl.dispatch(", "hl.dsp.layout(");
  }

  lemma IfLayoutReads(layout: string, message: string, rest: seq<Part>, fits: bool)
    requires Safe(Plain, layout) && Reads(rest, fits)
    ensures Reads(IfLayout(layout, message, rest), Safe(Plain, message) && fits)
  {
    LayoutWords();
    var start := [Code(LAYOUT_IS), Lit(layout), Code(THEN_LAYOUT), Lit(message)];
    StartReads(start, Safe(Plain, message));
    BehindLiteral(start, rest);
  }

  lemma StartReads(start: seq<Part>, fits: bool)
    requires |start| == 4 && start[0].Code? && start[1].Lit? && start[2].Code? && start[3].Lit?
    requires start[0].text != "" && start[2].text != "" && PartOk(start[0]) && PartOk(start[1]) && PartOk(start[2])
    requires PartOk(start[3]) <==> fits
    ensures Apart(start) && (PartsOk(start) <==> fits)
  {
  }

  lemma FullscreenReads(arg: Option<string>)
    ensures Reads(FullscreenParts(arg), true)
  {
    var full := "hl.dsp.window.full";
    assert CleanCode(full) && CleanCode("screen({ action = ") && CleanCode("screen()") && CleanCode(" })");
    assert Safe(Plain, "set") && Safe(Plain, "unset");
    FilledReads(full + "screen({ action = ", "set", " })");
    FilledReads(full + "screen({ action = ", "unset", " })");
    FixedReads(full + "screen()");
  }

  lemma MoveFocusReads(arg: Option<string>)
    ensures Reads(MoveFocusParts(arg), Safe(Plain, Text(arg)))
  {
    assert CleanCode(")) else hl.dispatch(") && CleanCode("hl.dsp.focus({ direction = ") && CleanCode(" })) end end");
    assert Safe(Plain, "focus ") && Safe(Plain, "scrolling");
    SafeConcat("focus ", Text(arg));
    var open := ")) else hl.dispatch(" + "hl.dsp.focus({ direction = ";
    FilledReads(open, Text(arg), " })) end end");
    IfLayoutReads("scrolling", if arg.Some? then "focus " + arg.value else "",
                  Filled(open, Text(arg), " })) end end"), Safe(Plain, Text(arg)));
  }

  lemma LayoutReads(arg: Option<string>)
    ensures Reads(LayoutParts(arg), Safe(Plain, Text(arg)))
  {
    assert CleanCode(")) end end") && CleanCode("hl.dsp.layout(") && CleanCode(")");
    assert Safe(Plain, "scrolling") && Safe(Plain, "dwindle");
    FixedReads(")) end end");
    IfLayoutReads("scrolling", Text(arg), Fixed(")) end end"), true);
    IfLayoutReads("dwindle", Text(arg), Fixed(")) end end"), true);
    FilledReads("hl.dsp.layout(", Text(arg), ")");
  }

  lemma MoveWindowReads(arg: Option<string>)
    ensures Reads(KnownParts(MoveWindow, arg), Safe(Plain, Text(arg)))
  {
    assert CleanCode("hl.dsp.window.drag()") && CleanCode("hl.dsp.window.move(");
    assert CleanCode("{ direction = ") && CleanCode(" })");
    FixedReads("hl.dsp.window.drag()");
    FilledReads("hl.dsp.window.move(" + "{ direction = ", Text(arg), " })");
  }

  lemma CopiedReads(k: Known, arg: Option<string>)
    requires CopiesArgument(k)
    ensures Reads(KnownParts(k, arg), CleanCode(Text(arg)))
  {
    CopyingWords();
    CopiedBetween("hl.dsp.window.resize({ ", Text(arg));
    CopiedBetween("hl.dsp.window.move({ ", Text(arg));
    FixedReads("hl.dsp.window.resize()");
  }

  lemma CopyingWords()
    ensures CleanCode("hl.dsp.window.resize()") && CleanCode("hl.dsp.window.resize({ ")
    ensures CleanCode("hl.dsp.window.move({ ")
  {
  }

  lemma CopiedBetween(open: string, text: string)
    requires open != "" && CleanCode(open)
    ensures Reads(Fixed(open + (text + " })")), CleanCode(text))
  {
    assert CleanCode(" })");
    CleanJoined(text, " })");
    CleanJoined(open, text + " })");
    FixedReads(open + (text + " })"));
  }

  lemma ToggleReads(k: Known, arg: Option<string>)
    requires k in {ToggleFloating, Pin}
    ensures Reads(KnownParts(k, arg), true)
  {
    var open := if k.Pin? then "hl.dsp.window.pin(" else "hl.dsp.window.float(";
    assert CleanCode("hl.dsp.window.pin(") && CleanCode("hl.dsp.window.float(");
    assert CleanCode("{ action = ") && CleanCode(" })");
    assert Safe(Plain, "toggle");
    FilledReads(open + "{ action = ", "toggle", " })");
  }

  /** The constant text of an action without an argument. */
  lemma FixedTexts(k: Known, arg: Option<string>)
    requires k in {KillActive, Exit, ToggleGroup, ChangeGroupActive, Pseudo, Center}
    ensures Reads(KnownParts(k, arg), true)
  {
    GroupWords();
    assert CleanCode("hl.dsp.window.close()") && CleanCode("hl.dsp.exit()");
    assert CleanCode("hl.dsp.window.pseudo()") && CleanCode("hl.dsp.window.center()");
    FixedReads(KnownParts(k, arg)[0].text);
  }

  lemma GroupWords()
    ensures CleanCode("hl.dsp.group.toggle()") && CleanCode("hl.dsp.group.prev()") && CleanCode("hl.dsp.group.next()")
  {
  }

  lemma MoveReads(k: Known, arg: Option<string>)
    requires k in {MoveToWorkspace, MoveToWorkspaceSilent}
    ensures Reads(KnownParts(k, arg), Safe(Plain, Text(arg)))
  {
    assert CleanCode("hl.dsp.window.move(") && CleanCode("{ workspace = ") && CleanCode(" })");
    FilledReads("hl.dsp.window.move(" + "{ workspace = ", Text(arg), " })");
  }

  lemma ToggleSpecialReads(arg: Option<string>)
    ensures Reads(KnownParts(ToggleSpecial, arg), Safe(Plain, Text(arg)))
  {
    assert CleanCode("hl.dsp.workspace.") && CleanCode("toggle_special(") && CleanCode(")");
    FilledReads("hl.dsp.workspace." + "toggle_special(", Text(arg), ")");
  }

  lemma FocusWorkspaceReads(arg: Option<string>)
    ensures Reads(KnownParts(Workspace, arg), Safe(Plain, Text(arg)))
  {
    assert CleanCode("hl.dsp.focus({ workspace = ") && CleanCode(" })");
    FilledReads("hl.dsp.focus({ workspace = ", Text(arg), " })");
  }

  lemma FocusWindowReads(arg: Option<string>)
    ensures Reads(KnownParts(FocusWindow, arg), Safe(Plain, Text(arg)))
  {
    assert CleanCode("hl.dsp.focus({ window = ") && CleanCode(" })");
    FilledReads("hl.dsp.focus({ window = ", Text(arg), " })");
  }

  lemma CloseReads(arg: Option<string>)
    ensures Reads(KnownParts(CloseWindow, arg), Safe(Plain, Text(arg)))
  {
    assert CleanCode("hl.dsp.window.close(") && CleanCode(")");
    FilledReads("hl.dsp.window.close(", Text(arg), ")");
  }

  lemma DpmsReads(arg: Option<string>)
    ensures Reads(KnownParts(Dpms, arg), Safe(Plain, Text(arg)))
  {
    assert CleanCode("hl.dsp.dpms({ action = ") && CleanCode(" })");
    FilledReads("hl.dsp.dpms({ action = ", Text(arg), " })");
  }

  lemma QuotedReads(k: Known, arg: Option<string>)
    requires !IgnoresArgument(k) && !CopiesArgument(k)
    ensures Reads(KnownParts(k, arg), Safe(Plain, Text(arg)))
  {
    match k {
      case MoveFocus => MoveFocusReads(arg);
      case LayoutMsg => LayoutReads(arg);
      case MoveWindow => MoveWindowReads(arg);
      case ToggleSpecial => ToggleSpecialReads(arg);
      case CloseWindow => CloseReads(arg);
      case Dpms => DpmsReads(arg);
      case Workspace => FocusWorkspaceReads(arg);
      case FocusWindow => FocusWindowReads(arg);
      case _ => MoveReads(k, arg);
    }
  }

  lemma IgnoringReads(k: Known, arg: Option<string>)
    requires IgnoresArgument(k)
    ensures Reads(KnownParts(k, arg), true)
  {
    match k {
      case Fullscreen => FullscreenReads(arg);
      case ToggleFloating => ToggleReads(k, arg);
      case Pin => ToggleReads(k, arg);
      case _ => FixedTexts(k, arg);
    }
  }

  lemma KnownReads(k: Known, arg: Option<string>)
    ensures Reads(KnownParts(k, arg), ArgumentFits(k, arg))
  {
    if IgnoresArgument(k) {
      IgnoringReads(k, arg);
    } else if CopiesArgument(k) {
      CopiedReads(k, arg);
    } else {
      QuotedReads(k, arg);
    }
  }

  lemma CommandReads(command: string)
    ensures Reads(CommandParts(command), Safe(Plain, command))
  {
    assert CleanCode(EXEC) && CleanCode(")");
    FilledReads(EXEC, command, ")");
  }

  lemma ActionReads(name: string, arg: Option<string>)
    ensures Reads(DispatcherParts(name, arg), DispatcherFits(name, arg))
  {
    if Lookup(name).Some? {
      KnownReads(Lookup(name).value, arg);
    } else {
      CommandReads(CommandLine(name, arg));
    }
  }

  /** The action of every dispatcher reads back part by part exactly if its argument fits: a
      quoted one has no line break, a copied one no line feed and no quote. */
  lemma ActionReadsBackIff(name: string, arg: Option<string>)
    ensures Read(DispatcherToLua(name, arg)) == Some(DispatcherParts(name, arg)) <==> DispatcherFits(name, arg)
  {
    var parts := DispatcherParts(name, arg);
    ActionReads(name, arg);
    ReadIsClean(Print(parts));
    if CodesClean(parts) {
      PrintReadsBackIff(parts);
    }
  }

  // ------------------------------------------------------------------
  // Which actions can be told apart
  // ------------------------------------------------------------------

  /** Differs from the exec action within its first ten characters. */
  predicate OtherStart(t: string) {
    |t| > 9 && (t[0] != 'h' || t[7] != 'e' || t[9] != 'e')
  }

  function At(s: string, i: nat): char { if i < |s| then s[i] else NUL }

  /** A number for each action text, from a few characters of its start. */
  function Number(parts: seq<Part>): nat
    requires parts != []
  {
    var p := parts[0].text;
    var a, b, c, d := At(p, 7), At(p, 8), At(p, 14), At(p, 15);
    if a == 'n' then (if |parts| == 7 then 1 else 2)
    else if a == 'l' then 2
    else if a == 'e' then 3
    else if a == 'g' then (if At(p, 13) == 't' then 4 else 5)
    else if a == 'f' then (if At(p, 16) == 'o' then 6 else 7)
    else if a == 'd' then 8
    else if b == 'o' then 9
    else if c == 'c' then (if d == 'e' then 10 else if |parts| == 1 then 11 else 12)
    else if c == 'f' then (if d == 'l' then 13 else 14)
    else if c == 'p' then (if d == 'i' then 15 else 16)
    else if c == 'd' then 17
    else if c == 'm' then (if |parts| == 1 then 18 else if At(p, 21) == 'd' then 17 else 19)
    else if At(p, 21) == ')' then 20
    else 21
  }

  function NumberOf(k: Known, arg: Option<string>): nat {
    match k
    case MoveFocus => 1
    case LayoutMsg => 2
    case Exit => 3
    case ToggleGroup => 4
    case ChangeGroupActive => 5
    case Workspace => 6
    case FocusWindow => 7
    case Dpms => 8
    case ToggleSpecial => 9
    case Center => 10
    case KillActive => 11
    case CloseWindow => 12
    case ToggleFloating => 13
    case Fullscreen => 14
    case Pin => 15
    case Pseudo => 16
    case MoveWindow => 17
    case MovePixel => 18
    case MoveToWorkspace => 19
    case MoveToWorkspaceSilent => 19
    case ResizeWindow => if Text(arg) == "" then 20 else 21
    case ResizePixel => 21
  }

  /** Begins with code that is not the start of a command, and has its number. */
  predicate OpensAs(k: Known, arg: Option<string>) {
    var parts := KnownParts(k, arg);
    parts != [] && parts[0].Code? && OtherStart(parts[0].text) && Number(parts) == NumberOf(k, arg)
  }

  lemma ClosingOpens(k: Known, arg: Option<string>)
    requires k in {KillActive, CloseWindow, Center, Exit}
    ensures OpensAs(k, arg)
  {
  }

  lemma WindowOpens(k: Known, arg: Option<string>)
    requires k in {ToggleFloating, Fullscreen, Pin, Pseudo}
    ensures OpensAs(k, arg)
  {
  }

  lemma GroupOpens(k: Known, arg: Option<string>)
    requires k in {ToggleGroup, ChangeGroupActive}
    ensures OpensAs(k, arg)
  {
  }

  lemma FocusOpens(k: Known, arg: Option<string>)
    requires k in {Workspace, FocusWindow}
    ensures OpensAs(k, arg)
  {
  }

  lemma MoveOpens(k: Known, arg: Option<string>)
    requires k in {MoveWindow, MovePixel, MoveToWorkspace, MoveToWorkspaceSilent}
    ensures OpensAs(k, arg)
  {
  }

  lemma ResizeOpens(k: Known, arg: Option<string>)
    requires k in {ResizeWindow, ResizePixel}
    ensures OpensAs(k, arg)
  {
  }

  lemma OtherOpens(k: Known, arg: Option<string>)
    requires k in {Dpms, ToggleSpecial}
    ensures OpensAs(k, arg)
  {
  }

  lemma LayoutOpens(k: Known, arg: Option<string>)
    requires k in {MoveFocus, LayoutMsg}
    ensures OpensAs(k, arg)
  {
    var start := "function() if hl.get_";
    assert start[0] == 'f' && start[7] == 'n' && LAYOUT_IS[0] == start[0] && LAYOUT_IS[7] == start[7];
  }

  lemma KnownOpens(k: Known, arg: Option<string>)
    ensures OpensAs(k, arg)
  {
    if k in {KillActive, CloseWindow, Center, Exit} {
      ClosingOpens(k, arg);
    } else if k in {ToggleFloating, Fullscreen, Pin, Pseudo} {
      WindowOpens(k, arg);
    } else if k in {ToggleGroup, ChangeGroupActive} {
      GroupOpens(k, arg);
    } else if k in {Workspace, FocusWindow} {
      FocusOpens(k, arg);
    } else if k in {MoveWindow, MovePixel, MoveToWorkspace, MoveToWorkspaceSilent} {
      MoveOpens(k, arg);
    } else if k in {MoveFocus, LayoutMsg} {
      LayoutOpens(k, arg);
    } else if k in {ResizeWindow, ResizePixel} {
      ResizeOpens(k, arg);
    } else {
      OtherOpens(k, arg);
    }
  }

  /** The texts of two known dispatchers are the same for these pairs. */
  predicate Alike(k: Known, j: Known, arg: Option<string>) {
    || k == j
    || (k in {MoveToWorkspace, MoveToWorkspaceSilent} && j in {MoveToWorkspace, MoveToWorkspaceSilent})
    || (k in {ResizeWindow, ResizePixel} && j in {ResizeWindow, ResizePixel} && Text(arg) != "")
  }

  lemma NumbersAlike(k: Known, j: Known, arg: Option<string>)
    ensures NumberOf(k, arg) == NumberOf(j, arg) <==> Alike(k, j, arg)
  {
  }

  lemma AlikeIsSame(k: Known, j: Known, arg: Option<string>)
    requires Alike(k, j, arg)
    ensures KnownParts(k, arg) == KnownParts(j, arg)
  {
  }

  /** Two known dispatchers with the same argument can be told apart from their texts, exactly
      unless both move to a workspace, or both resize and have an argument. */
  lemma SameTextIff(k: Known, j: Known, arg: Option<string>)
    requires ArgumentFits(k, arg) && ArgumentFits(j, arg)
    ensures Print(KnownParts(k, arg)) == Print(KnownParts(j, arg)) <==> Alike(k, j, arg)
  {
    if Alike(k, j, arg) {
      AlikeIsSame(k, j, arg);
    } else {
      NumbersAlike(k, j, arg);
      KnownOpens(k, arg);
      KnownOpens(j, arg);
      KnownReads(k, arg);
      KnownReads(j, arg);
      OtherTexts(KnownParts(k, arg), KnownParts(j, arg));
    }
  }

  /** For instance, Lua does not know whether a window moves silently. */
  lemma SilentMoveIsLost(arg: Option<string>)
    ensures DispatcherToLua("movetoworkspace", arg) == DispatcherToLua("movetoworkspacesilent", arg)
  {
    assert Lookup("movetoworkspace") == Some(MoveToWorkspace);
    assert Lookup("movetoworkspacesilent") == Some(MoveToWorkspaceSilent);
  }

  // ------------------------------------------------------------------
  // Which actions run a command
  // ------------------------------------------------------------------

  /** The command that an action runs, if it is one that runs a command; options may follow. */
  function ExecCommand(action: string): Option<string> {
    if !(EXEC <= action) then None
    else
      var r := ReadLiteral(action[|EXEC|..]);
      if r.Some? && ")" <= r.value.rest then Some(r.value.value) else None
  }

  /** A command runs exactly as it was given if it has no line break; otherwise the literal
      cannot be read. */
  lemma CommandReadsBackIff(command: string, rest: string)
    ensures ExecCommand(Print(CommandParts(command)) + rest) == if Safe(Plain, command) then Some(command) else None
  {
    PrintFilled(EXEC, command, ")");
    FilledBefore(EXEC, Q(command), ")", rest);
    ReadsBackIff(Plain, command, ")" + rest);
  }

  lemma FilledBefore(open: string, q: string, close: string, rest: string)
    ensures var all := (open + (q + close)) + rest; open <= all && all[|open|..] == q + (close + rest)
  {
  }

  /** No known dispatcher runs a command. */
  lemma KnownStart(k: Known, arg: Option<string>, rest: string)
    ensures ExecCommand(Print(KnownParts(k, arg)) + rest) == None
  {
    KnownOpens(k, arg);
    StartDiffers(KnownParts(k, arg), rest);
  }

  lemma StartDiffers(parts: seq<Part>, rest: string)
    requires parts != [] && parts[0].Code? && OtherStart(parts[0].text)
    ensures ExecCommand(Print(parts) + rest) == None
  {
    assert EXEC[0] == 'h' && EXEC[7] == 'e' && EXEC[9] == 'e';
    var start := parts[0].text;
    assert Print(parts) == start + Print(parts[1..]);
    assert forall j :: 0 <= j < 10 ==> (Print(parts) + rest)[j] == start[j];
  }
}
