/**
  The window array and the cache that holds it, in the form of `src/ipc/types.c` and
  `src/ipc/cache.c`: a buffer that grows by doubling, scans that stop at the first match, and
  strings that live in memory of their own.  Each operation is tied to the plain sequence of
  `WindowList`.
 */
module WindowCache {
  import opened Wrappers
  import opened WindowList
  import Agreement

  const ARRAY_INIT_CAP := 8

  /** A string in memory of its own; two of these may hold the same characters. */
  class Text {
    const value: string

    constructor (s: string)
      ensures value == s
    {
      value := s;
    }
  }

  /** A window as the array stores it. */
  datatype Slot = Slot(
    id: Text,
    title: Text,
    appId: Text,
    workspaceId: Text,
    focused: bool,
    floating: bool,
    fullscreen: bool,
    hidden: bool
  )

  function View(s: Slot): Window {
    Window(s.id.value, s.title.value, s.appId.value, s.workspaceId.value, s.focused, s.floating, s.fullscreen, s.hidden)
  }

  function Views(slots: seq<Slot>): (ws: seq<Window>)
    ensures |ws| == |slots| && forall i :: 0 <= i < |ws| ==> ws[i] == View(slots[i])
  {
    seq(|slots|, i requires 0 <= i < |slots| => View(slots[i]))
  }

  /** Deep copy: the same window in strings of its own. */
  method Dup(s: Slot) returns (r: Slot)
    ensures View(r) == View(s)
    ensures fresh(r.id) && fresh(r.title) && fresh(r.appId) && fresh(r.workspaceId)
  {
    var id := new Text(s.id.value);
    var title := new Text(s.title.value);
    var appId := new Text(s.appId.value);
    var workspaceId := new Text(s.workspaceId.value);
    r := Slot(id, title, appId, workspaceId, s.focused, s.floating, s.fullscreen, s.hidden);
  }

  /** The capacity after a push onto a full buffer. */
  function Doubled(capacity: nat): nat {
    if capacity == 0 then ARRAY_INIT_CAP else capacity * 2
  }

  class WindowArray {
    var items: array<Slot>
    var count: nat

    ghost predicate Valid()
      reads this
    {
      count <= items.Length
    }

    ghost function Slots(): (slots: seq<Slot>)
      requires Valid()
      reads this, items
      ensures |slots| == count
    {
      items[..count]
    }

    ghost function Contents(): (ws: seq<Window>)
      requires Valid()
      reads this, items
      ensures |ws| == count
    {
      Views(Slots())
    }

    constructor ()
      ensures Valid() && Contents() == [] && items.Length == 0 && fresh(items)
    {
      items, count := new Slot[0], 0;
    }

    method Push(w: Slot)
      requires Valid()
      modifies this, items
      ensures Valid() && Slots() == old(Slots()) + [w]
      ensures items.Length == if old(count) == old(items.Length) then Doubled(old(items.Length)) else old(items.Length)
      ensures items == old(items) || fresh(items)
    {
      if count >= items.Length {
        var capacity := if items.Length > 0 then items.Length * 2 else ARRAY_INIT_CAP;
        var source, kept := items, count;
        items := new Slot[capacity](i requires kept <= source.Length reads source =>
                                      if 0 <= i < kept then source[i] else w);
      }
      items[count] := w;
      count := count + 1;
    }

    /** Drops slot `i` and moves the ones behind it to the left. */
    method ShiftOut(i: nat)
      requires Valid() && i < count
      modifies this`count, items
      ensures Valid() && Slots() == old(Slots())[..i] + old(Slots())[i + 1..]
    {
      forall k | i <= k < count - 1 {
        items[k] := items[k + 1];
      }
      count := count - 1;
    }
  }

  // ------------------------------------------------------------------
  // Views
  // ------------------------------------------------------------------

  lemma ViewsSnoc(slots: seq<Slot>, s: Slot)
    ensures Views(slots + [s]) == Views(slots) + [View(s)]
  {
  }

  lemma ViewsWithout(slots: seq<Slot>, i: nat)
    requires i < |slots|
    ensures Views(slots[..i] + slots[i + 1..]) == Views(slots)[..i] + Views(slots)[i + 1..]
  {
  }

  lemma ViewsUpdated(slots: seq<Slot>, i: nat, s: Slot)
    requires i < |slots|
    ensures Views(slots[i := s]) == Views(slots)[i := View(s)]
  {
  }

  lemma ViewsFocused(before: seq<Slot>, after: seq<Slot>, id: string)
    requires |after| == |before|
    requires forall k :: 0 <= k < |after| ==> after[k] == before[k].(focused := before[k].id.value == id)
    ensures Views(after) == Focus(Views(before), id)
  {
    FocusMarks(Views(before), id);
  }

  /** What an event does to the list, entry by entry. */
  lemma EventChanges(ws: seq<Window>, e: Agreement.Event)
    ensures var ws' := Agreement.Consume(ws, e);
            match e
            case Opened(w) => ws' == ws + [w]
            case Closed(id) => Drops(ws, ws', id)
            case Focused(id) => Marks(ws, ws', id)
            case Edited(id, edit) => Replaces(ws, ws', id, edit)
            case _ => ws' == ws
  {
    match e {
      case Closed(id) => ChangesFirst(ws, id, SetFloating(false));
      case Focused(id) => FocusMarks(ws, id);
      case Edited(id, edit) => ChangesFirst(ws, id, edit);
      case _ =>
    }
  }

  // ------------------------------------------------------------------
  // The cache
  // ------------------------------------------------------------------

  class Cache {
    const windows: WindowArray

    ghost predicate Valid()
      reads windows
    {
      windows.Valid()
    }

    ghost function Contents(): (ws: seq<Window>)
      requires Valid()
      reads windows, windows.items
    {
      windows.Contents()
    }

    constructor ()
      ensures Valid() && Contents() == [] && fresh(windows) && fresh(windows.items)
    {
      windows := new WindowArray();
    }

    /** The added entry keeps no string of the caller's. */
    method AddWindow(w: Slot)
      requires Valid()
      modifies windows, windows.items
      ensures Valid() && Contents() == old(Contents()) + [View(w)]
      ensures windows.count == old(windows.count) + 1
      ensures var s := windows.items[windows.count - 1];
              fresh(s.id) && fresh(s.title) && fresh(s.appId) && fresh(s.workspaceId)
      ensures windows.items == old(windows.items) || fresh(windows.items)
    {
      var copy := Dup(w);
      windows.Push(copy);
    }

    /** Index of the first entry with this id. */
    method FindFirst(id: string) returns (found: Option<nat>)
      requires Valid()
      ensures found.Some? ==> FirstAt(Contents(), id, found.value)
      ensures found.None? ==> Lacks(Contents(), id)
    {
      var i := 0;
      while i < windows.count
        invariant i <= windows.count
        invariant forall k :: 0 <= k < i ==> Contents()[k].id != id
      {
        if windows.items[i].id.value == id {
          return Some(i);
        }
        i := i + 1;
      }
      return None;
    }

    method RemoveWindow(id: string)
      requires Valid()
      modifies windows`count, windows.items
      ensures Valid() && Contents() == RemoveFirst(old(Contents()), id)
    {
      ghost var ws := Contents();
      var found := FindFirst(id);
      if found.None? {
        NoMatch(ws, id, SetFloating(false));
        return;
      }
      var i := found.value;
      FirstMatch(ws, id, i, SetFloating(false));
      ViewsWithout(windows.Slots(), i);
      windows.ShiftOut(i);
    }

    /** The four updates of a first match: title, workspace, fullscreen and floating. */
    method UpdateWindow(id: string, e: Edit)
      requires Valid()
      modifies windows.items
      ensures Valid() && Contents() == EditFirst(old(Contents()), id, e)
    {
      ghost var ws, slots := Contents(), windows.Slots();
      var found := FindFirst(id);
      if found.None? {
        NoMatch(ws, id, e);
        return;
      }
      var i := found.value;
      FirstMatch(ws, id, i, e);
      var s := windows.items[i];
      match e {
        case Retitle(title) =>
          var text := new Text(title);
          windows.items[i] := s.(title := text);
        case MoveTo(workspaceId) =>
          var text := new Text(workspaceId);
          windows.items[i] := s.(workspaceId := text);
        case SetFullscreen(on) =>
          windows.items[i] := s.(fullscreen := on);
        case SetFloating(on) =>
          windows.items[i] := s.(floating := on);
      }
      ViewsUpdated(slots, i, windows.items[i]);
      assert windows.Slots() == slots[i := windows.items[i]];
    }

    method MarkWindowFocused(id: string)
      requires Valid()
      modifies windows.items
      ensures Valid() && Contents() == Focus(old(Contents()), id)
    {
      ghost var slots := windows.Slots();
      var i := 0;
      while i < windows.count
        invariant i <= windows.count
        invariant forall k :: 0 <= k < i ==> windows.items[k] == slots[k].(focused := slots[k].id.value == id)
        invariant forall k :: i <= k < windows.count ==> windows.items[k] == slots[k]
      {
        windows.items[i] := windows.items[i].(focused := windows.items[i].id.value == id);
        i := i + 1;
      }
      ViewsFocused(slots, windows.Slots(), id);
    }

    /** Takes over the buffer of `arr`, which is left empty. */
    method SetWindows(arr: WindowArray)
      requires Valid() && arr.Valid() && arr != windows && arr.items != windows.items
      modifies windows, arr
      ensures Valid() && Contents() == old(arr.Contents()) && windows.items == old(arr.items)
      ensures arr.Valid() && arr.Contents() == [] && fresh(arr.items) && arr.items.Length == 0
    {
      windows.items, windows.count := arr.items, arr.count;
      arr.items, arr.count := new Slot[0], 0;
    }

    /** A copy that shares no string with the cache: all of them are new. */
    method GetWindows() returns (copy: WindowArray)
      requires Valid()
      ensures fresh(copy) && fresh(copy.items) && copy.Valid() && copy.Contents() == Contents()
      ensures forall k :: 0 <= k < copy.count ==> var s := copy.items[k];
                fresh(s.id) && fresh(s.title) && fresh(s.appId) && fresh(s.workspaceId)
    {
      copy := new WindowArray();
      var i := 0;
      while i < windows.count
        invariant i <= windows.count && copy.Valid() && copy.count == i
        invariant fresh(copy) && fresh(copy.items)
        invariant copy.Contents() == Contents()[..i]
        invariant forall k :: 0 <= k < i ==> var s := copy.items[k];
                    fresh(s.id) && fresh(s.title) && fresh(s.appId) && fresh(s.workspaceId)
      {
        var s := Dup(windows.items[i]);
        ghost var before := copy.Slots();
        copy.Push(s);
        ViewsSnoc(before, s);
        assert forall k :: 0 <= k < i ==> copy.Slots()[k] == before[k];
        i := i + 1;
      }
    }

    // ----------------------------------------------------------------
    // Events
    // ----------------------------------------------------------------

    /** The event callback's switch, for the events that do not refresh. */
    method HandleEvent(e: Agreement.Event)
      requires Valid() && !e.Refresh?
      modifies windows, windows.items
      ensures Valid() && Contents() == Agreement.Consume(old(Contents()), e)
      ensures e.Opened? ==> Contents() == old(Contents()) + [e.window]
      ensures e.Closed? ==> Drops(old(Contents()), Contents(), e.id)
      ensures e.Focused? ==> Marks(old(Contents()), Contents(), e.id)
      ensures e.Edited? ==> Replaces(old(Contents()), Contents(), e.id, e.edit)
      ensures e.Silent? ==> Contents() == old(Contents())
    {
      EventChanges(Contents(), e);
      match e {
        case Opened(w) =>
          var id := new Text(w.id);
          var title := new Text(w.title);
          var appId := new Text(w.appId);
          var workspaceId := new Text(w.workspaceId);
          AddWindow(Slot(id, title, appId, workspaceId, w.focused, w.floating, w.fullscreen, w.hidden));
        case Closed(id) => RemoveWindow(id);
        case Focused(id) => MarkWindowFocused(id);
        case Edited(id, edit) => UpdateWindow(id, edit);
        case Silent =>
      }
    }

    /** A refresh: install the listing if there is one, then mark the active window if one is
        reported. */
    method Refresh(answer: Option<WindowArray>, active: Option<string>)
      requires Valid()
      requires answer.Some? ==> answer.value.Valid() && answer.value != windows && answer.value.items != windows.items
      modifies windows, windows.items, if answer.Some? then {answer.value, answer.value.items} else {}
      ensures Valid()
      ensures var listed := if answer.Some? then old(answer.value.Contents()) else old(Contents());
              if active.Some? then Marks(listed, Contents(), active.value) else Contents() == listed
    {
      if answer.Some? {
        SetWindows(answer.value);
      }
      if active.Some? {
        FocusMarks(Contents(), active.value);
        MarkWindowFocused(active.value);
      }
    }
  }
}
