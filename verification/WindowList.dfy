/**
  The window list of the state cache, as a plain sequence: what each operation of
  `src/ipc/cache.c` makes of it.
 */
module WindowList {
  datatype Window = Window(
    id: string,
    title: string,
    appId: string,
    workspaceId: string,
    focused: bool,
    floating: bool,
    fullscreen: bool,
    hidden: bool
  )

  /** The change an update makes to the entry it finds. */
  datatype Edit =
    | Retitle(title: string)
    | MoveTo(workspaceId: string)
    | SetFullscreen(on: bool)
    | SetFloating(on: bool)

  function Apply(w: Window, e: Edit): Window {
    match e
    case Retitle(title) => w.(title := title)
    case MoveTo(workspaceId) => w.(workspaceId := workspaceId)
    case SetFullscreen(on) => w.(fullscreen := on)
    case SetFloating(on) => w.(floating := on)
  }

  function RemoveFirst(ws: seq<Window>, id: string): seq<Window> {
    if ws == [] then []
    else if ws[0].id == id then ws[1..]
    else [ws[0]] + RemoveFirst(ws[1..], id)
  }

  function EditFirst(ws: seq<Window>, id: string, e: Edit): seq<Window> {
    if ws == [] then []
    else if ws[0].id == id then [Apply(ws[0], e)] + ws[1..]
    else [ws[0]] + EditFirst(ws[1..], id, e)
  }

  function Focus(ws: seq<Window>, id: string): seq<Window> {
    if ws == [] then [] else [ws[0].(focused := ws[0].id == id)] + Focus(ws[1..], id)
  }

  function Count(ws: seq<Window>, id: string): nat {
    if ws == [] then 0 else (if ws[0].id == id then 1 else 0) + Count(ws[1..], id)
  }

  function CountAfterClose(n: nat): nat { if n == 0 then 0 else n - 1 }

  lemma {:induction false} CountRemoveFirst(ws: seq<Window>, id: string, x: string)
    ensures Count(RemoveFirst(ws, id), x) == if x == id then CountAfterClose(Count(ws, x)) else Count(ws, x)
  {
    if ws != [] && ws[0].id != id {
      CountRemoveFirst(ws[1..], id, x);
    }
  }

  lemma {:induction false} CountEditFirst(ws: seq<Window>, id: string, e: Edit, x: string)
    ensures Count(EditFirst(ws, id, e), x) == Count(ws, x)
  {
    if ws != [] && ws[0].id != id {
      CountEditFirst(ws[1..], id, e, x);
    }
  }

  lemma {:induction false} CountFocus(ws: seq<Window>, id: string, x: string)
    ensures Count(Focus(ws, id), x) == Count(ws, x)
  {
    if ws != [] {
      CountFocus(ws[1..], id, x);
    }
  }

  lemma {:induction false} CountAdd(ws: seq<Window>, w: Window, x: string)
    ensures Count(ws + [w], x) == Count(ws, x) + if x == w.id then 1 else 0
  {
    if ws == [] {
      assert ws + [w] == [w];
    } else {
      assert (ws + [w])[1..] == ws[1..] + [w];
      CountAdd(ws[1..], w, x);
    }
  }

  // ------------------------------------------------------------------
  // Before and after, entry by entry
  // ------------------------------------------------------------------

  /** Every entry is focused exactly if it has the id; nothing else differs. */
  ghost predicate Marks(ws: seq<Window>, ws': seq<Window>, id: string) {
    |ws'| == |ws| && forall k :: 0 <= k < |ws| ==> ws'[k] == ws[k].(focused := ws[k].id == id)
  }

  /** Index `i` is the first with the id. */
  ghost predicate FirstAt(ws: seq<Window>, id: string, i: nat) {
    i < |ws| && ws[i].id == id && forall k :: 0 <= k < i ==> ws[k].id != id
  }

  ghost predicate Lacks(ws: seq<Window>, id: string) {
    forall k :: 0 <= k < |ws| ==> ws[k].id != id
  }

  /** The first entry with the id is gone, if there was one. */
  ghost predicate Drops(ws: seq<Window>, ws': seq<Window>, id: string) {
    && (Lacks(ws, id) ==> ws' == ws)
    && (forall i: nat :: FirstAt(ws, id, i) ==> ws' == ws[..i] + ws[i + 1..])
  }

  /** The first entry with the id has its new value `w`, if there was one. */
  ghost predicate Replaces(ws: seq<Window>, ws': seq<Window>, id: string, e: Edit) {
    && (Lacks(ws, id) ==> ws' == ws)
    && (forall i: nat :: FirstAt(ws, id, i) ==>
          |ws'| == |ws| && Sets(ws[i], ws'[i], e) && forall k :: 0 <= k < |ws| && k != i ==> ws'[k] == ws[k])
  }

  /** One field has its new value; all others are as they were. */
  ghost predicate Sets(w: Window, w': Window, e: Edit) {
    && w'.id == w.id && w'.appId == w.appId && w'.focused == w.focused && w'.hidden == w.hidden
    && w'.title == (if e.Retitle? then e.title else w.title)
    && w'.workspaceId == (if e.MoveTo? then e.workspaceId else w.workspaceId)
    && w'.fullscreen == (if e.SetFullscreen? then e.on else w.fullscreen)
    && w'.floating == (if e.SetFloating? then e.on else w.floating)
  }

  lemma {:induction false} FocusMarks(ws: seq<Window>, id: string)
    ensures Marks(ws, Focus(ws, id), id)
  {
    if ws != [] {
      FocusMarks(ws[1..], id);
    }
  }

  /** Removal and update at the first entry with the id. */
  lemma {:induction false} FirstMatch(ws: seq<Window>, id: string, i: nat, e: Edit)
    requires FirstAt(ws, id, i)
    ensures RemoveFirst(ws, id) == ws[..i] + ws[i + 1..]
    ensures EditFirst(ws, id, e) == ws[i := Apply(ws[i], e)]
  {
    if i > 0 {
      var rest := ws[1..];
      assert FirstAt(rest, id, i - 1) && rest[i - 1] == ws[i];
      FirstMatch(rest, id, i - 1, e);
      assert [ws[0]] + (rest[..i - 1] + rest[i..]) == ws[..i] + ws[i + 1..];
      assert [ws[0]] + rest[i - 1 := Apply(ws[i], e)] == ws[i := Apply(ws[i], e)];
    }
  }

  lemma {:induction false} NoMatch(ws: seq<Window>, id: string, e: Edit)
    requires Lacks(ws, id)
    ensures RemoveFirst(ws, id) == ws && EditFirst(ws, id, e) == ws
  {
    if ws != [] {
      NoMatch(ws[1..], id, e);
    }
  }

  lemma ChangesFirst(ws: seq<Window>, id: string, e: Edit)
    ensures Drops(ws, RemoveFirst(ws, id), id) && Replaces(ws, EditFirst(ws, id, e), id, e)
  {
    if Lacks(ws, id) {
      NoMatch(ws, id, e);
    }
    forall i: nat | FirstAt(ws, id, i)
      ensures RemoveFirst(ws, id) == ws[..i] + ws[i + 1..] && EditFirst(ws, id, e) == ws[i := Apply(ws[i], e)]
    {
      FirstMatch(ws, id, i, e);
    }
  }

  // ------------------------------------------------------------------
  // Focus: every entry with the flag set has one and the same id
  // ------------------------------------------------------------------

  ghost predicate OnlyFocused(ws: seq<Window>, id: string) {
    forall w :: w in ws && w.focused ==> w.id == id
  }

  lemma {:induction false} FocusSetsOneId(ws: seq<Window>, id: string)
    ensures OnlyFocused(Focus(ws, id), id)
  {
    if ws != [] {
      FocusSetsOneId(ws[1..], id);
    }
  }

  lemma {:induction false} RemoveFirstSelects(ws: seq<Window>, id: string)
    ensures forall w :: w in RemoveFirst(ws, id) ==> w in ws
  {
    if ws != [] && ws[0].id != id {
      RemoveFirstSelects(ws[1..], id);
    }
  }

  lemma {:induction false} EditKeepsFocus(ws: seq<Window>, id: string, e: Edit, f: string)
    requires OnlyFocused(ws, f)
    ensures OnlyFocused(EditFirst(ws, id, e), f)
  {
    if ws != [] {
      if ws[0].id != id {
        EditKeepsFocus(ws[1..], id, e, f);
      } else {
        assert ws[0] in ws;
        forall w | w in EditFirst(ws, id, e) && w.focused ensures w.id == f {
          assert w == Apply(ws[0], e) || w in ws;
        }
      }
    }
  }
}
