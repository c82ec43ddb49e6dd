/**
  Decoding of Hyprland's event lines (`event_thread_func` in `src/ipc/hyprland/client.c`)
  followed by the event callback's choice of a cache operation (`event_callback` in
  `src/server/server.c`).

  The last part puts decoding and cache together: what one line does to the list of windows.
 */
module HyprEvents {
  import opened Wrappers
  import opened WindowList
  import opened Agreement
  import opened Strings

  predicate ArrowAt(s: string, k: nat) { k + 1 < |s| && s[k] == s[k + 1] == '>' }

  /** Index of the first ">>", or the length when there is none. */
  function FindArrow(s: string): (k: nat)
    ensures k <= |s| && (k < |s| ==> ArrowAt(s, k))
  {
    if |s| < 2 then |s|
    else if s[0] == '>' && s[1] == '>' then 0
    else 1 + FindArrow(s[1..])
  }

  function Part(parts: seq<string>, i: nat): string { if i < |parts| then parts[i] else "" }

  function Chomp(s: string): string { if s != "" && s[|s| - 1] == '\n' then s[..|s| - 1] else s }

  function Address(hex: string): string { "0x" + hex }

  /** What a line with this name and data does to the cache. */
  function EventOf(name: string, data: string): (e: Event)
    ensures e.Opened? ==> !e.window.focused
  {
    var parts := Split(data, ',');
    match name
    case "openwindow" =>
      Opened(Window(Address(parts[0]), Part(parts, 3), Part(parts, 2), Part(parts, 1), false, false, false, false))
    case "closewindow" => Closed(Address(data))
    case "activewindowv2" => Focused(Address(data))
    case "activewindow" => Silent
    case "windowtitle" => Silent
    case "windowtitlev2" => Silent
    case "movewindow" => Moved(parts)
    case "movewindowv2" => Moved(parts)
    case "fullscreen" => Silent
    case "changefloatingmode" => Floated(parts)
    case _ => Refresh
  }

  /** A move counts only when the line carries a workspace name in third place. */
  function Moved(parts: seq<string>): Event
    requires |parts| >= 1
  {
    if |parts| >= 3 then Edited(Address(parts[0]), MoveTo(parts[2])) else Silent
  }

  function Floated(parts: seq<string>): Event
    requires |parts| >= 1
  {
    var state := Part(parts, 1);
    Edited(Address(parts[0]), SetFloating(state != "" && state[0] == '1'))
  }

  /** Lines without ">>" are skipped. */
  function Decode(line: string): (e: Option<Event>)
    ensures e.Some? && e.value.Opened? ==> !e.value.window.focused
  {
    var k := FindArrow(line);
    if k == |line| then None else Some(EventOf(line[..k], Chomp(line[k + 2..])))
  }

  // ------------------------------------------------------------------
  // Opening and closing lines name the same window
  // ------------------------------------------------------------------

  lemma {:induction false} FindArrowAfter(name: string, data: string)
    requires '>' !in name
    ensures FindArrow(name + ">>" + data) == |name|
  {
    var all := name + ">>" + data;
    if name != "" {
      assert all[1..] == name[1..] + ">>" + data;
      FindArrowAfter(name[1..], data);
    }
  }

  lemma DecodeLine(name: string, data: string)
    requires '>' !in name
    ensures Decode(name + ">>" + data + "\n") == Some(EventOf(name, data))
  {
    var line := name + ">>" + data + "\n";
    var tail := data + "\n";
    assert line == name + ">>" + tail;
    FindArrowAfter(name, tail);
    assert line[..|name|] == name && line[|name| + 2..] == tail;
    assert tail[..|tail| - 1] == data;
  }

  /** The last line of a stream may lack its newline. */
  lemma LastLine(name: string, data: string)
    requires '>' !in name && (data != "" ==> data[|data| - 1] != '\n')
    ensures Decode(name + ">>" + data) == Some(EventOf(name, data))
  {
    var line := name + ">>" + data;
    FindArrowAfter(name, data);
    assert line[..|name|] == name && line[|name| + 2..] == data;
  }

  lemma {:induction false} NoArrowBefore(s: string, j: nat)
    requires j < FindArrow(s)
    ensures !ArrowAt(s, j)
  {
    if j > 0 {
      NoArrowBefore(s[1..], j - 1);
    }
  }

  /** A line is skipped exactly if it has no ">>"; otherwise the first one splits it. */
  lemma SkippedIff(line: string)
    ensures Decode(line).None? <==> forall k: nat :: !ArrowAt(line, k)
    ensures forall j: nat :: j < FindArrow(line) ==> !ArrowAt(line, j)
  {
    forall j: nat | j < FindArrow(line) ensures !ArrowAt(line, j) {
      NoArrowBefore(line, j);
    }
  }

  /** For every comma-free address, whatever else the line carries, the line that opens a window
      and the line that closes it act on one and the same id. */
  lemma OpenAndCloseMatch(hex: string, rest: string)
    requires ',' !in hex
    ensures var opening := Decode("openwindow" + ">>" + (hex + ("," + rest)) + "\n");
            && opening.Some? && opening.value.Opened?
            && Decode("closewindow" + ">>" + hex + "\n") == Some(Closed(opening.value.window.id))
  {
    DecodeLine("openwindow", hex + ("," + rest));
    DecodeLine("closewindow", hex);
    SplitFirst(hex, ',', rest);
  }

  /** The field after the first `a`, and so on. */
  lemma FieldBehind(a: string, rest: string, i: nat)
    requires ',' !in a && i < |Split(rest, ',')|
    ensures var parts := Split(a + ("," + rest), ','); i + 1 < |parts| && parts[i + 1] == Split(rest, ',')[i]
  {
    SplitFirst(a, ',', rest);
  }

  lemma FirstTwo(b: string, c: string, rest: string)
    requires ',' !in b && ',' !in c
    ensures var parts := Split(b + ("," + (c + ("," + rest))), ','); |parts| >= 2 && parts[0] == b && parts[1] == c
  {
    SplitFirst(b, ',', c + ("," + rest));
    SplitFirst(c, ',', rest);
  }

  lemma FirstThree(a: string, b: string, c: string, rest: string)
    requires ',' !in a && ',' !in b && ',' !in c
    ensures var parts := Split(a + ("," + (b + ("," + (c + ("," + rest))))), ',');
            |parts| >= 3 && parts[0] == a && parts[1] == b && parts[2] == c
  {
    var second := b + ("," + (c + ("," + rest)));
    FirstTwo(b, c, rest);
    SplitFirst(a, ',', second);
    FieldBehind(a, second, 0);
    FieldBehind(a, second, 1);
  }

  /** The part of a text before its first comma. */
  function BeforeComma(s: string): string { s[..Find(s, ',')] }

  lemma SecondField(c: string, rest: string)
    requires ',' !in c
    ensures var parts := Split(c + ("," + rest), ','); |parts| >= 2 && parts[1] == BeforeComma(rest)
  {
    FieldBehind(c, rest, 0);
  }

  lemma ThirdField(b: string, c: string, rest: string)
    requires ',' !in b && ',' !in c
    ensures var parts := Split(b + ("," + (c + ("," + rest))), ','); |parts| >= 3 && parts[2] == BeforeComma(rest)
  {
    SecondField(c, rest);
    FieldBehind(b, c + ("," + rest), 1);
  }

  lemma FourthField(a: string, b: string, c: string, rest: string)
    requires ',' !in a && ',' !in b && ',' !in c
    ensures var parts := Split(a + ("," + (b + ("," + (c + ("," + rest))))), ',');
            |parts| >= 4 && parts[3] == BeforeComma(rest)
  {
    ThirdField(b, c, rest);
    FieldBehind(a, b + ("," + (c + ("," + rest))), 2);
  }

  /** The lines that focus, move and float a window name it by the same id as the line that
      opens it. */
  lemma FocusLine(hex: string)
    ensures Decode("activewindowv2" + ">>" + hex + "\n") == Some(Focused(Address(hex)))
  {
    DecodeLine("activewindowv2", hex);
  }

  lemma MoveEvent(data: string)
    ensures EventOf("movewindowv2", data) == Moved(Split(data, ','))
  {
  }

  lemma MoveLineParts(data: string)
    ensures Decode("movewindowv2" + ">>" + data + "\n") == Some(Moved(Split(data, ',')))
  {
    var name := "movewindowv2";
    DecodeLine(name, data);
    MoveEvent(data);
  }

  lemma MoveLine(hex: string, workspaceId: string, name: string)
    requires ',' !in hex && ',' !in workspaceId && ',' !in name
    ensures Decode("movewindowv2" + ">>" + (hex + ("," + (workspaceId + ("," + name)))) + "\n")
            == Some(Edited(Address(hex), MoveTo(name)))
  {
    var rest := workspaceId + ("," + name);
    MoveLineParts(hex + ("," + rest));
    ThreeParts(hex, workspaceId, name);
  }

  lemma ThreeParts(a: string, b: string, c: string)
    requires ',' !in a && ',' !in b && ',' !in c
    ensures Split(a + ("," + (b + ("," + c))), ',') == [a, b, c]
  {
    SplitFirst(a, ',', b + ("," + c));
    SplitFirst(b, ',', c);
    SplitNothing(c, ',');
  }

  lemma FloatLineParts(data: string)
    ensures Decode("changefloatingmode" + ">>" + data + "\n") == Some(Floated(Split(data, ',')))
  {
    var name := "changefloatingmode";
    DecodeLine(name, data);
    FloatEvent(data);
  }

  lemma FloatEvent(data: string)
    ensures EventOf("changefloatingmode", data) == Floated(Split(data, ','))
  {
  }

  lemma FloatLine(hex: string, state: string)
    requires ',' !in hex && ',' !in state && state != ""
    ensures Decode("changefloatingmode" + ">>" + (hex + ("," + state)) + "\n")
            == Some(Edited(Address(hex), SetFloating(state[0] == '1')))
  {
    FloatLineParts(hex + ("," + state));
    SplitFirst(hex, ',', state);
    SplitNothing(state, ',');
  }

  // ------------------------------------------------------------------
  // From a line to the cache
  // ------------------------------------------------------------------

  /** The cache after a line; lines without an event, and refreshes, leave it to what follows. */
  function AfterLine(ws: seq<Window>, line: string): seq<Window> {
    var e := Decode(line);
    if e.None? then ws else Consume(ws, e.value)
  }

  /** An opening line adds an entry with the four fields of the line, its title up to the first
      comma, and all flags off. */
  lemma OpenLineAdds(ws: seq<Window>, hex: string, workspace: string, class_: string, title: string)
    requires ',' !in hex && ',' !in workspace && ',' !in class_
    ensures var fields := hex + ("," + (workspace + ("," + (class_ + ("," + title)))));
            AfterLine(ws, "openwindow" + ">>" + fields + "\n") ==
            ws + [Window("0x" + hex, BeforeComma(title), class_, workspace, false, false, false, false)]
  {
    var fields := hex + ("," + (workspace + ("," + (class_ + ("," + title)))));
    OpenLine(fields);
    FirstThree(hex, workspace, class_, title);
    FourthField(hex, workspace, class_, title);
  }

  lemma OpenLine(data: string)
    ensures var parts := Split(data, ',');
            Decode("openwindow" + ">>" + data + "\n") ==
            Some(Opened(Window("0x" + parts[0], Part(parts, 3), Part(parts, 2), Part(parts, 1),
                               false, false, false, false)))
  {
    DecodeLine("openwindow", data);
  }

  /** A closing line takes away the first entry of its window, a focus line marks exactly the
      entries of its window. */
  lemma CloseAndFocusLines(ws: seq<Window>, hex: string)
    ensures Drops(ws, AfterLine(ws, "closewindow" + ">>" + hex + "\n"), "0x" + hex)
    ensures Marks(ws, AfterLine(ws, "activewindowv2" + ">>" + hex + "\n"), "0x" + hex)
  {
    DecodeLine("closewindow", hex);
    FocusLine(hex);
    ChangesFirst(ws, "0x" + hex, SetFloating(false));
    FocusMarks(ws, "0x" + hex);
  }

  /** A move line sets the workspace of the first entry of its window to the name in third
      place, and nothing else; a floating line does so with the flag in second place. */
  lemma MoveAndFloatLines(ws: seq<Window>, hex: string, workspaceId: string, name: string, state: string)
    requires ',' !in hex && ',' !in workspaceId && ',' !in name && ',' !in state && state != ""
    ensures var line := "movewindowv2" + ">>" + (hex + ("," + (workspaceId + ("," + name)))) + "\n";
            Replaces(ws, AfterLine(ws, line), "0x" + hex, MoveTo(name))
    ensures var line := "changefloatingmode" + ">>" + (hex + ("," + state)) + "\n";
            Replaces(ws, AfterLine(ws, line), "0x" + hex, SetFloating(state[0] == '1'))
  {
    MoveLine(hex, workspaceId, name);
    FloatLine(hex, state);
    ChangesFirst(ws, "0x" + hex, MoveTo(name));
    ChangesFirst(ws, "0x" + hex, SetFloating(state[0] == '1'));
  }

  /** A move line without a workspace name changes nothing. */
  lemma ShortMoveLine(ws: seq<Window>, hex: string, workspaceId: string)
    requires ',' !in hex && ',' !in workspaceId
    ensures AfterLine(ws, "movewindowv2" + ">>" + (hex + ("," + workspaceId)) + "\n") == ws
  {
    MoveLineParts(hex + ("," + workspaceId));
    SplitFirst(hex, ',', workspaceId);
    SplitNothing(workspaceId, ',');
  }

  /** Both names of a move line mean the same. */
  lemma MoveNamesAlike(data: string)
    ensures Decode("movewindow" + ">>" + data + "\n") == Decode("movewindowv2" + ">>" + data + "\n")
  {
    var name := "movewindow";
    DecodeLine(name, data);
    OldMoveEvent(data);
    MoveLineParts(data);
  }

  lemma OldMoveEvent(data: string)
    ensures EventOf("movewindow", data) == Moved(Split(data, ','))
  {
  }

  /** A floating line without a second field, or with an empty one, switches the flag off. */
  lemma ShortFloatLine(hex: string)
    requires ',' !in hex
    ensures Decode("changefloatingmode" + ">>" + hex + "\n") == Some(Edited("0x" + hex, SetFloating(false)))
    ensures Decode("changefloatingmode" + ">>" + (hex + ("," + "")) + "\n") ==
            Some(Edited("0x" + hex, SetFloating(false)))
  {
    FloatLineParts(hex);
    FloatLineParts(hex + ("," + ""));
    SplitNothing(hex, ',');
    SplitFirst(hex, ',', "");
  }

  /** An opening line with nothing but an address adds an entry with empty texts. */
  lemma ShortOpenLine(hex: string)
    requires ',' !in hex
    ensures Decode("openwindow" + ">>" + hex + "\n") ==
            Some(Opened(Window("0x" + hex, "", "", "", false, false, false, false)))
  {
    OpenLine(hex);
    SplitNothing(hex, ',');
  }

  predicate IsCached(name: string) {
    || name == "openwindow" || name == "closewindow" || name == "activewindowv2"
    || name == "movewindow" || name == "movewindowv2" || name == "changefloatingmode"
  }

  predicate IsBroadcastOnly(name: string) {
    name == "activewindow" || name == "windowtitle" || name == "windowtitlev2" || name == "fullscreen"
  }

  lemma RefreshEventIff(name: string, data: string)
    ensures EventOf(name, data) == Refresh <==> !IsCached(name) && !IsBroadcastOnly(name)
    ensures EventOf(name, data) == Silent <== IsBroadcastOnly(name)
  {
  }

  /** Of all lines exactly those with none of these ten names ask for a refresh. */
  lemma RefreshIff(name: string, data: string)
    requires '>' !in name
    ensures Decode(name + ">>" + data + "\n") == Some(Refresh) <==> !IsCached(name) && !IsBroadcastOnly(name)
    ensures IsBroadcastOnly(name) ==> Decode(name + ">>" + data + "\n") == Some(Silent)
  {
    DecodeLine(name, data);
    RefreshEventIff(name, data);
  }
}
