/** What every run of the idle manager keeps: its ids, its capacity, and the one-to-one match between live Wayland
    objects and the slots that hold them. */
module IdleSafety {
  import opened Wrappers
  import opened IdleState

  // ------------------------------------------------------------------
  // Every call keeps the invariant
  // ------------------------------------------------------------------

  /** The invariant, but for slot `slot` of the monitors, which has yet to be refreshed. */
  ghost predicate MonitorPending(s: Manager, slot: nat) {
    && slot < |s.monitors| <= MAX_MONITORS && s.nextMonitorId == |s.monitors|
    && (forall i :: 0 <= i < |s.monitors| && i != slot ==> MonitorOk(s.monitors[i], i))
    && s.monitors[slot].id == slot + 1 && !s.monitors[slot].deleted
    && InhibitorsOk(s.inhibitors) && LegacyOk(s) && WaylandOk(s)
  }

  lemma NotificationDropped(s: Manager, slot: nat, m: Monitor)
    requires WaylandOk(s) && slot < |s.monitors| && m.notification == None
    ensures var p := s.monitors[slot].notification;
            && (p.Some? ==> p.value in s.wl.notifications)
            && WaylandOk(s.(wl := DropNotification(s.wl, p), monitors := s.monitors[slot := m]))
  {
    var held := Notifications(s.monitors);
    assert held[slot] == s.monitors[slot].notification;
    assert Notifications(s.monitors[slot := m]) == held[slot := None];
    if held[slot].Some? {
      MatchesDrop(s.wl.notifications, held, slot);
    } else {
      assert held[slot := None] == held;
    }
  }

  lemma NotificationAdded(s: Manager, slot: nat, m: Monitor)
    requires WaylandOk(s) && slot < |s.monitors| && s.monitors[slot].notification == None
    requires m.notification == Some(s.wl.next)
    ensures WaylandOk(s.(wl := AddNotification(s.wl, slot), monitors := s.monitors[slot := m]))
  {
    var held := Notifications(s.monitors);
    assert Notifications(s.monitors[slot := m]) == held[slot := Some(s.wl.next)];
    MatchesAdd(s.wl.notifications, held, slot, s.wl.next);
  }

  lemma RefreshedMonitorOk(s: Manager, slot: nat, d: Display)
    requires MonitorPending(s, slot)
    ensures var p := s.monitors[slot].notification; p.Some? ==> p.value in s.wl.notifications
    ensures Inv(RefreshedMonitor(s, slot, d))
  {
    RefreshedMonitorMatches(s, slot, d);
    assert MonitorsOk(RefreshedMonitor(s, slot, d).monitors);
  }

  lemma RefreshedMonitorMatches(s: Manager, slot: nat, d: Display)
    requires WaylandOk(s) && slot < |s.monitors|
    ensures var p := s.monitors[slot].notification; p.Some? ==> p.value in s.wl.notifications
    ensures WaylandOk(RefreshedMonitor(s, slot, d))
  {
    var m := s.monitors[slot];
    var m1 := m.(notification := None);
    if m.enabled == 0 || !d.notifier || !d.seat {
      NotificationDropped(s, slot, m1);
    } else if !d.notificationOk {
      NotificationDropped(s, slot, m1.(attached := true));
    } else {
      NotificationDropped(s, slot, m1);
      NotificationReplaced(s, slot, m1);
    }
  }

  lemma NotificationReplaced(s: Manager, slot: nat, m: Monitor)
    requires slot < |s.monitors| && m.notification == None
    requires var p := s.monitors[slot].notification; p.Some? ==> p.value in s.wl.notifications
    requires WaylandOk(s.(wl := DropNotification(s.wl, s.monitors[slot].notification),
                          monitors := s.monitors[slot := m]))
    ensures var w := DropNotification(s.wl, s.monitors[slot].notification);
            WaylandOk(s.(wl := AddNotification(w, slot),
                         monitors := s.monitors[slot := m.(attached := true, notification := Some(w.next))]))
  {
    var w := DropNotification(s.wl, s.monitors[slot].notification);
    var s1 := s.(wl := w, monitors := s.monitors[slot := m]);
    var added := m.(attached := true, notification := Some(w.next));
    NotificationAdded(s1, slot, added);
    assert s1.monitors[slot := added] == s.monitors[slot := added];
  }

  lemma CreateMonitorKeepsInv(s: Manager, timeoutMs: nat, respect: int, enabled: int, d: Display)
    requires Inv(s)
    ensures Inv(CreateMonitor(s, timeoutMs, respect, enabled, d))
  {
    if |s.monitors| < MAX_MONITORS {
      var id := s.nextMonitorId + 1;
      var m := NewMonitor(id, timeoutMs, respect, enabled);
      var s1 := s.(nextMonitorId := id, monitors := s.monitors + [m]);
      MatchesPush(s.wl.notifications, Notifications(s.monitors));
      assert Notifications(s1.monitors) == Notifications(s.monitors) + [None];
      RefreshedMonitorOk(s1, |s.monitors|, d);
    }
  }

  lemma UpdateMonitorKeepsInv(s: Manager, id: nat, timeoutMs: nat, respect: int, enabled: int, d: Display)
    requires Inv(s)
    ensures Inv(UpdateMonitor(s, id, timeoutMs, respect, enabled, d))
  {
    var slot := MonitorSlot(s, id);
    if slot.Some? {
      var m := s.monitors[slot.value].(timeoutMs := timeoutMs, respectInhibitors := respect, enabled := enabled);
      var s1 := s.(monitors := s.monitors[slot.value := m]);
      assert Notifications(s1.monitors) == Notifications(s.monitors);
      RefreshedMonitorOk(s1, slot.value, d);
    }
  }

  lemma DestroyMonitorKeepsInv(s: Manager, id: nat)
    requires Inv(s)
    ensures Inv(DestroyMonitor(s, id))
  {
    var slot := MonitorSlot(s, id);
    if slot.Some? {
      var m := s.monitors[slot.value].(notification := None, deleted := true, attached := false);
      NotificationDropped(s, slot.value, m);
    }
  }

  ghost predicate InhibitorPending(s: Manager, slot: nat) {
    && slot < |s.inhibitors| <= MAX_INHIBITORS
    && (forall i :: 0 <= i < |s.inhibitors| && i != slot ==> InhibitorOk(s.inhibitors[i], i))
    && (var h := s.inhibitors[slot]; h.id == slot + 1 && !h.deleted && (h.inhibitor.Some? ==> h.surface.Some?))
    && MonitorsOk(s.monitors) && s.nextMonitorId == |s.monitors| && LegacyOk(s) && WaylandOk(s)
  }

  lemma SurfaceAdded(s: Manager, slot: nat, h: Inhibitor)
    requires WaylandOk(s) && slot < |s.inhibitors| && s.inhibitors[slot].surface == None
    requires h == s.inhibitors[slot].(surface := Some(s.wl.next))
    ensures WaylandOk(s.(wl := AddSurface(s.wl, slot), inhibitors := s.inhibitors[slot := h]))
  {
    var held := Surfaces(s.inhibitors);
    assert Surfaces(s.inhibitors[slot := h]) == held[slot := Some(s.wl.next)];
    assert Inhibitors(s.inhibitors[slot := h]) == Inhibitors(s.inhibitors);
    MatchesAdd(s.wl.surfaces, held, slot, s.wl.next);
  }

  lemma InhibitorAdded(s: Manager, slot: nat, h: Inhibitor)
    requires WaylandOk(s) && slot < |s.inhibitors| && s.inhibitors[slot].inhibitor == None
    requires h == s.inhibitors[slot].(inhibitor := Some(s.wl.next))
    ensures WaylandOk(s.(wl := AddInhibitor(s.wl, slot), inhibitors := s.inhibitors[slot := h]))
  {
    var held := Inhibitors(s.inhibitors);
    assert Inhibitors(s.inhibitors[slot := h]) == held[slot := Some(s.wl.next)];
    assert Surfaces(s.inhibitors[slot := h]) == Surfaces(s.inhibitors);
    MatchesAdd(s.wl.inhibitors, held, slot, s.wl.next);
  }

  lemma SurfaceAndInhibitorDropped(s: Manager, slot: nat, h: Inhibitor)
    requires WaylandOk(s) && slot < |s.inhibitors| && h.surface == None && h.inhibitor == None
    ensures var q, p := s.inhibitors[slot].inhibitor, s.inhibitors[slot].surface;
            && (q.Some? ==> q.value in s.wl.inhibitors) && (p.Some? ==> p.value in s.wl.surfaces)
            && WaylandOk(s.(wl := DropSurface(DropInhibitor(s.wl, q), p), inhibitors := s.inhibitors[slot := h]))
  {
    var surfaces, inhibitors := Surfaces(s.inhibitors), Inhibitors(s.inhibitors);
    assert surfaces[slot] == s.inhibitors[slot].surface && inhibitors[slot] == s.inhibitors[slot].inhibitor;
    assert Surfaces(s.inhibitors[slot := h]) == surfaces[slot := None];
    assert Inhibitors(s.inhibitors[slot := h]) == inhibitors[slot := None];
    if surfaces[slot].Some? {
      MatchesDrop(s.wl.surfaces, surfaces, slot);
    } else {
      assert surfaces[slot := None] == surfaces;
    }
    if inhibitors[slot].Some? {
      MatchesDrop(s.wl.inhibitors, inhibitors, slot);
    } else {
      assert inhibitors[slot := None] == inhibitors;
    }
  }

  lemma EnabledInhibitorOk(s: Manager, slot: nat)
    requires InhibitorPending(s, slot) && s.inhibitors[slot].surface.Some?
    requires s.inhibitors[slot].enabled != 0 && s.inhibitors[slot].inhibitor.None?
    ensures Inv(s)
    ensures Inv(s.(wl := AddInhibitor(s.wl, slot),
                   inhibitors := s.inhibitors[slot := s.inhibitors[slot].(inhibitor := Some(s.wl.next))]))
  {
    InhibitorAdded(s, slot, s.inhibitors[slot].(inhibitor := Some(s.wl.next)));
  }

  lemma SurfaceMade(s: Manager, slot: nat)
    requires InhibitorPending(s, slot) && s.inhibitors[slot].surface.None?
    ensures var h := s.inhibitors[slot].(surface := Some(s.wl.next));
            InhibitorPending(s.(wl := AddSurface(s.wl, slot), inhibitors := s.inhibitors[slot := h]), slot)
  {
    SurfaceAdded(s, slot, s.inhibitors[slot].(surface := Some(s.wl.next)));
  }

  /** An enabled slot without an inhibitor: first its surface, then the inhibitor. */
  lemma EnabledSlotOk(s: Manager, slot: nat, d: Display)
    requires InhibitorPending(s, slot) && s.inhibitors[slot].enabled != 0 && s.inhibitors[slot].inhibitor.None?
    requires var p := s.inhibitors[slot].surface; p.Some? ==> p.value in s.wl.surfaces
    ensures Inv(RefreshedInhibitor(s, slot, d))
  {
    var h := s.inhibitors[slot];
    if !d.inhibitManager || !d.compositor {
      assert s.inhibitors[slot := h] == s.inhibitors;
    } else if h.surface.None? && d.surfaceOk {
      var h1 := h.(surface := Some(s.wl.next));
      var s1 := s.(wl := AddSurface(s.wl, slot), inhibitors := s.inhibitors[slot := h1]);
      SurfaceMade(s, slot);
      EnabledInhibitorOk(s1, slot);
      var h2 := h1.(inhibitor := Some(s1.wl.next));
      assert s1.inhibitors[slot := h2] == s.inhibitors[slot := h2];
    } else if h.surface.Some? {
      EnabledInhibitorOk(s, slot);
      assert s.inhibitors[slot := h] == s.inhibitors;
    } else {
      assert s.inhibitors[slot := h] == s.inhibitors;
    }
  }

  lemma RefreshedInhibitorOk(s: Manager, slot: nat, d: Display)
    requires InhibitorPending(s, slot)
    ensures var p := s.inhibitors[slot].inhibitor; p.Some? ==> p.value in s.wl.inhibitors
    ensures var p := s.inhibitors[slot].surface; p.Some? ==> p.value in s.wl.surfaces
    ensures Inv(RefreshedInhibitor(s, slot, d))
  {
    var h := s.inhibitors[slot];
    SurfaceAndInhibitorDropped(s, slot, h.(inhibitor := None, surface := None));
    if h.enabled != 0 && h.inhibitor.None? {
      EnabledSlotOk(s, slot, d);
    } else {
      assert s.inhibitors[slot := h] == s.inhibitors;
    }
  }

  lemma CreateInhibitorKeepsInv(s: Manager, enabled: int, d: Display)
    requires Inv(s)
    ensures Inv(CreateInhibitor(s, enabled, d))
  {
    if |s.inhibitors| < MAX_INHIBITORS {
      var id := s.nextInhibitorId + 1;
      var s1 := s.(nextInhibitorId := id, inhibitors := s.inhibitors + [NewInhibitor(id, enabled)]);
      MatchesPush(s.wl.surfaces, Surfaces(s.inhibitors));
      MatchesPush(s.wl.inhibitors, Inhibitors(s.inhibitors));
      assert Surfaces(s1.inhibitors) == Surfaces(s.inhibitors) + [None];
      assert Inhibitors(s1.inhibitors) == Inhibitors(s.inhibitors) + [None];
      RefreshedInhibitorOk(s1, |s.inhibitors|, d);
    }
  }

  lemma SetInhibitorKeepsInv(s: Manager, id: nat, enabled: int, d: Display)
    requires Inv(s)
    ensures Inv(SetInhibitor(s, id, enabled, d))
  {
    var slot := InhibitorSlot(s, id);
    if slot.Some? {
      var h := s.inhibitors[slot.value].(enabled := enabled);
      var s1 := s.(inhibitors := s.inhibitors[slot.value := h]);
      assert Surfaces(s1.inhibitors) == Surfaces(s.inhibitors);
      assert Inhibitors(s1.inhibitors) == Inhibitors(s.inhibitors);
      RefreshedInhibitorOk(s1, slot.value, d);
    }
  }

  lemma DestroyInhibitorKeepsInv(s: Manager, id: nat)
    requires Inv(s)
    ensures Inv(DestroyInhibitor(s, id))
  {
    var slot := InhibitorSlot(s, id);
    if slot.Some? {
      var h := s.inhibitors[slot.value].(inhibitor := None, surface := None, deleted := true);
      SurfaceAndInhibitorDropped(s, slot.value, h);
    }
  }

  lemma DoKeepsInv(s: Manager, c: Call, d: Display)
    requires Inv(s)
    ensures Inv(Do(s, c, d))
  {
    match c {
      case MonitorCreate(timeoutMs, respect, enabled) => CreateMonitorKeepsInv(s, timeoutMs, respect, enabled, d);
      case MonitorUpdate(id, timeoutMs, respect, enabled) =>
        UpdateMonitorKeepsInv(s, id, timeoutMs, respect, enabled, d);
      case MonitorDestroy(id) => DestroyMonitorKeepsInv(s, id);
      case InhibitorCreate(enabled) => CreateInhibitorKeepsInv(s, enabled, d);
      case InhibitorSet(id, enabled) => SetInhibitorKeepsInv(s, id, enabled, d);
      case InhibitorDestroy(id) => DestroyInhibitorKeepsInv(s, id);
      case Inhibit(on) =>
        LegacySlotKeepsInv(s);
        SetInhibitorKeepsInv(LegacySlotTaken(s), LegacySlotTaken(s).legacyId, on, d);
    }
  }

  // ------------------------------------------------------------------
  // Runs
  // ------------------------------------------------------------------

  /** The calls of a run, each with what the display did during it. */
  type Run = seq<(Call, Display)>

  ghost function After(run: Run): (s: Manager)
    ensures Inv(s)
  {
    if run == [] then FRESH
    else
      var last := run[|run| - 1];
      var s := After(run[..|run| - 1]);
      DoKeepsInv(s, last.0, last.1);
      Do(s, last.0, last.1)
  }

  /** Main result: after any calls, an object is live exactly when some slot holds it. */
  lemma LiveIffHeld(run: Run, p: nat)
    ensures var s := After(run);
            && (p in s.wl.notifications <==> exists i :: 0 <= i < |s.monitors| && s.monitors[i].notification == Some(p))
            && (p in s.wl.surfaces <==> exists i :: 0 <= i < |s.inhibitors| && s.inhibitors[i].surface == Some(p))
            && (p in s.wl.inhibitors <==> exists i :: 0 <= i < |s.inhibitors| && s.inhibitors[i].inhibitor == Some(p))
  {
    var s := After(run);
    HandlesLive(s);
    if p in s.wl.notifications {
      var i := s.wl.notifications[p];
      assert Notifications(s.monitors)[i] == s.monitors[i].notification;
    }
    if p in s.wl.surfaces {
      var i := s.wl.surfaces[p];
      assert Surfaces(s.inhibitors)[i] == s.inhibitors[i].surface;
    }
    if p in s.wl.inhibitors {
      var i := s.wl.inhibitors[p];
      assert Inhibitors(s.inhibitors)[i] == s.inhibitors[i].inhibitor;
    }
  }

  /** After any calls no object is held twice and no deleted slot holds one; a slot that holds a
      notification or an inhibitor is enabled, and an inhibitor never stands without its surface. */
  lemma HeldOnce(run: Run, i: nat, j: nat)
    ensures var ms := After(run).monitors;
            i < |ms| && j < |ms| && ms[i].notification.Some? && ms[i].notification == ms[j].notification ==> i == j
    ensures var hs := After(run).inhibitors;
            i < |hs| && j < |hs| && hs[i].surface.Some? && hs[i].surface == hs[j].surface ==> i == j
    ensures var hs := After(run).inhibitors;
            i < |hs| && j < |hs| && hs[i].inhibitor.Some? && hs[i].inhibitor == hs[j].inhibitor ==> i == j
    ensures var ms := After(run).monitors;
            i < |ms| && ms[i].notification.Some? ==> ms[i].enabled != 0 && !ms[i].deleted
    ensures var hs := After(run).inhibitors;
            i < |hs| && hs[i].inhibitor.Some? ==> hs[i].enabled != 0 && !hs[i].deleted && hs[i].surface.Some?
    ensures var hs := After(run).inhibitors;
            i < |hs| && hs[i].surface.Some? ==> !hs[i].deleted
  {
    var s := After(run);
    assert forall k :: 0 <= k < |s.monitors| ==> Notifications(s.monitors)[k] == s.monitors[k].notification;
    assert forall k :: 0 <= k < |s.inhibitors| ==> Surfaces(s.inhibitors)[k] == s.inhibitors[k].surface;
    assert forall k :: 0 <= k < |s.inhibitors| ==> Inhibitors(s.inhibitors)[k] == s.inhibitors[k].inhibitor;
    assert i < |s.monitors| ==> MonitorOk(s.monitors[i], i);
    assert i < |s.inhibitors| ==> InhibitorOk(s.inhibitors[i], i);
  }

  // ------------------------------------------------------------------
  // Ids and capacity
  // ------------------------------------------------------------------

  ghost predicate MonitorStays(m: Monitor, m': Monitor) {
    m'.id == m.id && m'.isIdle == m.isIdle && (m.deleted ==> m'.deleted)
  }

  ghost predicate InhibitorStays(h: Inhibitor, h': Inhibitor) {
    h'.id == h.id && (h.deleted ==> h'.deleted)
  }

  /** What no call ever undoes: slots stay, with their ids, and a deleted slot stays deleted.
      A call does not touch the idle state either, and new slots are not idle. */
  ghost predicate Grows(s: Manager, s': Manager) {
    && |s.monitors| <= |s'.monitors| && |s.inhibitors| <= |s'.inhibitors|
    && (forall i :: 0 <= i < |s.monitors| ==> MonitorStays(s.monitors[i], s'.monitors[i]))
    && (forall i :: |s.monitors| <= i < |s'.monitors| ==> !s'.monitors[i].isIdle)
    && (forall i :: 0 <= i < |s.inhibitors| ==> InhibitorStays(s.inhibitors[i], s'.inhibitors[i]))
  }

  lemma MonitorCallGrows(s: Manager, c: Call, d: Display)
    requires Inv(s) && (c.MonitorCreate? || c.MonitorUpdate? || c.MonitorDestroy?)
    ensures Grows(s, Do(s, c, d))
  {
    HandlesLive(s);
  }

  lemma SetInhibitorGrows(s: Manager, id: nat, enabled: int, d: Display)
    requires Inv(s)
    ensures Grows(s, SetInhibitor(s, id, enabled, d))
  {
    HandlesLive(s);
  }

  lemma DoGrows(s: Manager, c: Call, d: Display)
    requires Inv(s)
    ensures Grows(s, Do(s, c, d))
  {
    match c {
      case InhibitorCreate(enabled) =>
      case InhibitorSet(id, enabled) => SetInhibitorGrows(s, id, enabled, d);
      case InhibitorDestroy(id) => HandlesLive(s);
      case Inhibit(on) =>
        LegacySlotKeepsInv(s);
        var s1 := LegacySlotTaken(s);
        SetInhibitorGrows(s1, s1.legacyId, on, d);
        GrowsOn(s, s1, SetInhibitor(s1, s1.legacyId, on, d));
      case _ => MonitorCallGrows(s, c, d);
    }
  }

  lemma GrowsOn(s: Manager, s1: Manager, s2: Manager)
    requires Grows(s, s1) && Grows(s1, s2) && s1.monitors == s.monitors
    ensures Grows(s, s2)
  {
    forall i | 0 <= i < |s.inhibitors| ensures InhibitorStays(s.inhibitors[i], s2.inhibitors[i]) {
      assert InhibitorStays(s.inhibitors[i], s1.inhibitors[i]) && InhibitorStays(s1.inhibitors[i], s2.inhibitors[i]);
    }
  }

  /** Once the toggle is stuck, no call gets it going again. */
  lemma StuckForever(s: Manager, c: Call, d: Display)
    requires Inv(s) && LegacyStuck(s)
    ensures LegacyStuck(Do(s, c, d))
  {
    HandlesLive(s);
    LegacySlotKeepsInv(s);
  }

  /** One call makes the toggle stuck exactly when it is the toggle, it has no slot yet, and
      all 64 slots have been handed out, deleted ones included. */
  lemma StuckIff(s: Manager, c: Call, d: Display)
    requires Inv(s) && !LegacyStuck(s)
    ensures LegacyStuck(Do(s, c, d)) <==> c.Inhibit? && s.legacyId == 0 && |s.inhibitors| == 64
  {
    HandlesLive(s);
    LegacySlotKeepsInv(s);
    DoKeepsInv(s, c, d);
  }

  const NOTHING := Display(false, false, false, false, false, false, false)

  const NO_INHIBITOR := ALL_THERE.(inhibitorOk := false)

  /** A run that creates `n` inhibitors. */
  function CreateMany(n: nat): Run {
    if n == 0 then [] else CreateMany(n - 1) + [(InhibitorCreate(0), NOTHING)]
  }

  lemma AfterOneMore(run: Run, c: Call, d: Display)
    ensures After(run + [(c, d)]) == Do(After(run), c, d)
  {
    var longer := run + [(c, d)];
    assert longer[..|longer| - 1] == run && longer[|longer| - 1] == (c, d);
  }

  lemma OneMoreInhibitor(s: Manager)
    requires Inv(s) && |s.inhibitors| < MAX_INHIBITORS
    ensures var s' := Do(s, InhibitorCreate(0), NOTHING);
            |s'.inhibitors| == |s.inhibitors| + 1 && s'.legacyId == s.legacyId
  {
  }

  ghost predicate HasCreated(run: Run, n: nat) {
    |After(run).inhibitors| == n && After(run).legacyId == 0
  }

  lemma CreateOneMore(run: Run, longer: Run, n: nat)
    requires HasCreated(run, n) && n < MAX_INHIBITORS && longer == run + [(InhibitorCreate(0), NOTHING)]
    ensures HasCreated(longer, n + 1)
  {
    AfterOneMore(run, InhibitorCreate(0), NOTHING);
    OneMoreInhibitor(After(run));
  }

  lemma {:induction false} ManyCreated(n: nat) returns (run: Run)
    requires n <= MAX_INHIBITORS
    ensures run == CreateMany(n) && HasCreated(run, n)
  {
    run := [];
    if n > 0 {
      var before := ManyCreated(n - 1);
      run := before + [(InhibitorCreate(0), NOTHING)];
      CreateOneMore(before, run, n - 1);
    }
  }

  /** It does happen: after 64 inhibitors the first use of the toggle gets it stuck, and it
      stays so whatever follows. */
  lemma StuckHappens()
    ensures LegacyStuck(After(CreateMany(MAX_INHIBITORS) + [(Inhibit(1), NOTHING)]))
  {
    var run := ManyCreated(MAX_INHIBITORS);
    AfterOneMore(run, Inhibit(1), NOTHING);
    StuckIff(After(run), Inhibit(1), NOTHING);
  }

  /** Creating a monitor succeeds exactly while fewer than 64 were ever created, whatever has
      been destroyed since; the new id is one that was never used. */
  lemma CreationNeedsFreshSlot(run: Run, timeoutMs: nat, respect: int, enabled: int, d: Display)
    ensures var s := After(run);
            var s' := Do(s, MonitorCreate(timeoutMs, respect, enabled), d);
            && (|s'.monitors| == |s.monitors| + 1 <==> |s.monitors| < 64)
            && (|s.monitors| == 64 ==> s' == s)
            && (|s.monitors| < 64 ==>
                  forall i :: 0 <= i < |s.monitors| ==> s.monitors[i].id != s'.monitors[|s.monitors|].id)
  {
    var s := After(run);
    DoKeepsInv(s, MonitorCreate(timeoutMs, respect, enabled), d);
    var s' := Do(s, MonitorCreate(timeoutMs, respect, enabled), d);
    assert forall i :: 0 <= i < |s.monitors| ==> MonitorOk(s.monitors[i], i);
    assert forall i :: 0 <= i < |s'.monitors| ==> MonitorOk(s'.monitors[i], i);
  }

  /** The ids in use after any calls. */
  lemma IdsAreSlots(run: Run, i: nat)
    ensures var s := After(run);
            && s.nextMonitorId == |s.monitors| <= MAX_MONITORS
            && |s.inhibitors| <= s.nextInhibitorId <= MAX_INHIBITORS + 1
            && (i < |s.monitors| ==> s.monitors[i].id == i + 1)
            && (i < |s.inhibitors| ==> s.inhibitors[i].id == i + 1)
            && (s.legacyId == 0 || InhibitorSlot(s, s.legacyId).Some? || LegacyStuck(s))
  {
    var s := After(run);
    assert i < |s.monitors| ==> MonitorOk(s.monitors[i], i);
    assert i < |s.inhibitors| ==> InhibitorOk(s.inhibitors[i], i);
  }

  // ------------------------------------------------------------------
  // Calls take effect
  // ------------------------------------------------------------------

  /** A slot is found by its id exactly as long as it is not deleted. */
  lemma FoundById(s: Manager, i: nat)
    requires Inv(s)
    ensures i < |s.monitors| ==>
              MonitorSlot(s, s.monitors[i].id) == if s.monitors[i].deleted then None else Some(i)
    ensures i < |s.inhibitors| ==>
              InhibitorSlot(s, s.inhibitors[i].id) == if s.inhibitors[i].deleted then None else Some(i)
  {
    assert i < |s.monitors| ==> MonitorOk(s.monitors[i], i);
    assert i < |s.inhibitors| ==> InhibitorOk(s.inhibitors[i], i);
  }

  /** An update gives the monitor its new settings and, exactly when it is enabled and the
      display cooperates, a new notification; its idle state and all other slots stay. */
  lemma UpdateTakesEffect(s: Manager, id: nat, timeoutMs: nat, respect: int, enabled: int, d: Display)
    requires Inv(s) && MonitorSlot(s, id).Some?
    ensures var s' := Do(s, MonitorUpdate(id, timeoutMs, respect, enabled), d);
            && s' == s.(monitors := s'.monitors, wl := s'.wl)
            && s'.wl.surfaces == s.wl.surfaces && s'.wl.inhibitors == s.wl.inhibitors
            && (forall p :: p in s'.wl.notifications && s'.monitors[id - 1].notification != Some(p) ==>
                              p in s.wl.notifications)
            && (forall p :: p in s.wl.notifications && s.monitors[id - 1].notification != Some(p) ==>
                              p in s'.wl.notifications)
    ensures var ms, ms' := s.monitors, Do(s, MonitorUpdate(id, timeoutMs, respect, enabled), d).monitors;
            && |ms'| == |ms| && (forall i :: 0 <= i < |ms| && i != id - 1 ==> ms'[i] == ms[i])
            && (var m, m' := ms[id - 1], ms'[id - 1];
                && m'.timeoutMs == timeoutMs && m'.respectInhibitors == respect && m'.enabled == enabled
                && m'.isIdle == m.isIdle && m'.id == id
                && (m'.notification.Some? <==> enabled != 0 && d.notifier && d.seat && d.notificationOk)
                && (m'.notification.Some? ==> m'.notification != m.notification))
  {
    HandlesLive(s);
    assert MonitorOk(s.monitors[id - 1], id - 1);
  }

  /** A new monitor is in use, with these settings, and not idle; it has a live notification
      exactly if it is enabled and the display cooperates. */
  lemma CreatedMonitor(s: Manager, timeoutMs: nat, respect: int, enabled: int, d: Display)
    requires Inv(s) && |s.monitors| < 64
    ensures var s', n := Do(s, MonitorCreate(timeoutMs, respect, enabled), d), |s.monitors|;
            && s' == s.(monitors := s'.monitors, nextMonitorId := n + 1, wl := s'.wl)
            && |s'.monitors| == n + 1 && s'.monitors[..n] == s.monitors && MonitorSlot(s', n + 1) == Some(n)
            && (var m := s'.monitors[n];
                && m.timeoutMs == timeoutMs && m.respectInhibitors == respect && m.enabled == enabled
                && m.id == n + 1 && !m.isIdle && m.attached
                && (m.notification.Some? <==> enabled != 0 && d.notifier && d.seat && d.notificationOk)
                && (m.notification.Some? ==> m.notification.value in s'.wl.notifications))
  {
    var c := MonitorCreate(timeoutMs, respect, enabled);
    DoKeepsInv(s, c, d);
    HandlesLive(Do(s, c, d));
  }

  /** A destroyed monitor is out of use, with its notification; everything else stays. */
  lemma DestroyedMonitor(s: Manager, id: nat, d: Display)
    requires Inv(s) && MonitorSlot(s, id).Some?
    ensures var s', p := Do(s, MonitorDestroy(id), d), s.monitors[id - 1].notification;
            && s' == s.(monitors := s.monitors[id - 1 := s'.monitors[id - 1]], wl := s'.wl)
            && MonitorSlot(s', id).None? && !s'.monitors[id - 1].attached && s'.monitors[id - 1].notification.None?
            && s'.wl.surfaces == s.wl.surfaces && s'.wl.inhibitors == s.wl.inhibitors
            && forall q :: q in s'.wl.notifications <==> q in s.wl.notifications && p != Some(q)
  {
    HandlesLive(s);
  }

  // ------------------------------------------------------------------
  // Who inhibits
  // ------------------------------------------------------------------

  /** The slot with this id is in use and holds a live inhibitor, made for it. */
  predicate Inhibiting(s: Manager, id: nat) {
    && 1 <= id <= |s.inhibitors| && !s.inhibitors[id - 1].deleted
    && (var q := s.inhibitors[id - 1].inhibitor;
        q.Some? && q.value in s.wl.inhibitors && s.wl.inhibitors[q.value] == id - 1)
  }

  /** An inhibitor can be made: the display has what it takes, a surface is there or can be made,
      and the creation succeeds. */
  predicate CanInhibit(surface: Option<nat>, d: Display) {
    d.inhibitManager && d.compositor && (surface.Some? || d.surfaceOk) && d.inhibitorOk
  }

  lemma SlotLive(s: Manager, i: nat)
    requires Inv(s) && i < |s.inhibitors|
    ensures var q := s.inhibitors[i].inhibitor; q.Some? ==> q.value in s.wl.inhibitors
    ensures var p := s.inhibitors[i].surface; p.Some? ==> p.value in s.wl.surfaces
  {
    HandlesLive(s);
  }

  /** In any state a slot holds a live inhibitor exactly if it holds one. */
  lemma HoldsLive(s: Manager, i: nat)
    requires Inv(s) && i < |s.inhibitors|
    ensures Inhibiting(s, i + 1) <==> s.inhibitors[i].inhibitor.Some?
  {
    assert Inhibitors(s.inhibitors)[i] == s.inhibitors[i].inhibitor;
    assert InhibitorOk(s.inhibitors[i], i);
  }

  lemma RefreshedSlot(wl: Wayland, h: Inhibitor, slot: nat, d: Display)
    requires h.inhibitor.Some? ==> h.inhibitor.value in wl.inhibitors
    requires h.surface.Some? ==> h.surface.value in wl.surfaces
    ensures var h' := RefreshInhibitor(wl, h, slot, d).1;
            && h' == h.(inhibitor := h'.inhibitor, surface := h'.surface)
            && (h'.inhibitor.Some? <==> h.enabled != 0 && (h.inhibitor.Some? || CanInhibit(h.surface, d)))
    ensures RefreshInhibitor(wl, h, slot, d).0.notifications == wl.notifications
  {
  }

  /** Only slot `slot` of the inhibitors, the objects made for inhibitors and the counters differ. */
  ghost predicate OnlySlot(s: Manager, s': Manager, slot: nat) {
    && s'.monitors == s.monitors && s'.wl.notifications == s.wl.notifications
    && s'.nextMonitorId == s.nextMonitorId && |s'.inhibitors| >= |s.inhibitors|
    && forall i :: 0 <= i < |s.inhibitors| && i != slot ==> s'.inhibitors[i] == s.inhibitors[i]
  }

  /** A new inhibitor inhibits exactly if it is enabled and an inhibitor can be made. */
  lemma CreatedInhibitor(s: Manager, enabled: int, d: Display)
    requires Inv(s) && |s.inhibitors| < 64
    ensures var s', n := Do(s, InhibitorCreate(enabled), d), |s.inhibitors|;
            && OnlySlot(s, s', n) && |s'.inhibitors| == n + 1 && s'.legacyId == s.legacyId
            && InhibitorSlot(s', n + 1) == Some(n) && s'.inhibitors[n].enabled == enabled
            && (Inhibiting(s', n + 1) <==> enabled != 0 && CanInhibit(None, d))
  {
    var n, c := |s.inhibitors|, InhibitorCreate(enabled);
    RefreshedSlot(s.wl, NewInhibitor(s.nextInhibitorId + 1, enabled), n, d);
    DoKeepsInv(s, c, d);
    HoldsLive(Do(s, c, d), n);
  }

  lemma SwitchedSlot(s: Manager, id: nat, enabled: int, d: Display)
    requires Inv(s) && InhibitorSlot(s, id).Some?
    ensures var s', h := SetInhibitor(s, id, enabled, d), s.inhibitors[id - 1];
            && OnlySlot(s, s', id - 1) && |s'.inhibitors| == |s.inhibitors| && s'.legacyId == s.legacyId
            && InhibitorSlot(s', id) == Some(id - 1) && s'.inhibitors[id - 1].enabled == enabled
            && (s'.inhibitors[id - 1].inhibitor.Some? <==>
                enabled != 0 && (h.inhibitor.Some? || CanInhibit(h.surface, d)))
  {
    SlotLive(s, id - 1);
    RefreshedSlot(s.wl, s.inhibitors[id - 1].(enabled := enabled), id - 1, d);
  }

  /** Main result: after a switch, a slot inhibits exactly if it is switched on and did so before
      or an inhibitor can be made; switched off, it does not. */
  lemma SwitchedInhibitor(s: Manager, id: nat, enabled: int, d: Display)
    requires Inv(s) && InhibitorSlot(s, id).Some?
    ensures var s' := Do(s, InhibitorSet(id, enabled), d);
            && OnlySlot(s, s', id - 1) && |s'.inhibitors| == |s.inhibitors| && s'.legacyId == s.legacyId
            && InhibitorSlot(s', id) == Some(id - 1) && s'.inhibitors[id - 1].enabled == enabled
            && (Inhibiting(s', id) <==>
                enabled != 0 && (Inhibiting(s, id) || CanInhibit(s.inhibitors[id - 1].surface, d)))
  {
    SwitchedSlot(s, id, enabled, d);
    SetInhibitorKeepsInv(s, id, enabled, d);
    HoldsLive(s, id - 1);
    HoldsLive(SetInhibitor(s, id, enabled, d), id - 1);
  }

  lemma BothDropped(wl: Wayland, q: Option<nat>, p: Option<nat>)
    requires q.Some? ==> q.value in wl.inhibitors
    requires p.Some? ==> p.value in wl.surfaces
    ensures var w := DropSurface(DropInhibitor(wl, q), p);
            && (forall x :: x in w.inhibitors <==> x in wl.inhibitors && q != Some(x))
            && (forall x :: x in w.surfaces <==> x in wl.surfaces && p != Some(x))
            && w.notifications == wl.notifications
  {
  }

  /** A destroyed inhibitor is out of use and no longer the toggle's; other slots stay. */
  lemma DestroyedInhibitor(s: Manager, id: nat, d: Display)
    requires Inv(s) && InhibitorSlot(s, id).Some?
    ensures var s' := Do(s, InhibitorDestroy(id), d);
            && OnlySlot(s, s', id - 1) && |s'.inhibitors| == |s.inhibitors| && InhibitorSlot(s', id).None?
            && s'.inhibitors[id - 1].inhibitor.None? && s'.inhibitors[id - 1].surface.None?
            && s'.legacyId == if s.legacyId == id then 0 else s.legacyId
  {
    SlotLive(s, id - 1);
    var h := s.inhibitors[id - 1];
    BothDropped(s.wl, h.inhibitor, h.surface);
    assert DestroyInhibitor(s, id).wl == DropSurface(DropInhibitor(s.wl, h.inhibitor), h.surface);
  }

  /** Both its objects are gone; all others are still live. */
  lemma DestroyedObjects(s: Manager, id: nat, d: Display)
    requires Inv(s) && InhibitorSlot(s, id).Some?
    ensures var w, w', h := s.wl, Do(s, InhibitorDestroy(id), d).wl, s.inhibitors[id - 1];
            && (forall x :: x in w'.inhibitors <==> x in w.inhibitors && h.inhibitor != Some(x))
            && (forall x :: x in w'.surfaces <==> x in w.surfaces && h.surface != Some(x))
            && w'.notifications == w.notifications
  {
    var h := s.inhibitors[id - 1];
    SlotLive(s, id - 1);
    BothDropped(s.wl, h.inhibitor, h.surface);
    assert DestroyInhibitor(s, id).wl == DropSurface(DropInhibitor(s.wl, h.inhibitor), h.surface);
  }

  /** How the toggle's slot is switched; a toggle that has none yet is off. */
  function ToggledTo(s: Manager): int {
    var slot := InhibitorSlot(s, s.legacyId);
    if slot.Some? then s.inhibitors[slot.value].enabled else 0
  }

  function ToggleSurface(s: Manager): Option<nat> {
    var slot := InhibitorSlot(s, s.legacyId);
    if slot.Some? then s.inhibitors[slot.value].surface else None
  }

  /** The toggle has a slot, or can still get one. */
  predicate CanToggle(s: Manager) {
    InhibitorSlot(s, s.legacyId).Some? || (s.legacyId == 0 && |s.inhibitors| < MAX_INHIBITORS)
  }

  lemma TakenSlot(s: Manager)
    requires Inv(s) && CanToggle(s)
    ensures var s1 := LegacySlotTaken(s);
            && Inv(s1) && InhibitorSlot(s1, s1.legacyId).Some? && OnlySlot(s, s1, s1.legacyId - 1)
            && ToggledTo(s1) == ToggledTo(s) && ToggleSurface(s1) == ToggleSurface(s)
            && (Inhibiting(s1, s1.legacyId) <==> Inhibiting(s, s.legacyId))
  {
    LegacySlotKeepsInv(s);
  }

  /** The toggle's slot and the question whether it inhibits, before and after. */
  ghost predicate TogglesTo(s: Manager, s': Manager, on: int, d: Display) {
    && InhibitorSlot(s', s'.legacyId).Some? && ToggledTo(s') == on
    && OnlySlot(s, s', s'.legacyId - 1)
    && (Inhibiting(s', s'.legacyId) <==>
        if on == ToggledTo(s) then Inhibiting(s, s.legacyId)
        else on != 0 && (Inhibiting(s, s.legacyId) || CanInhibit(ToggleSurface(s), d)))
  }

  lemma SlotToggles(s: Manager, on: int, d: Display)
    requires Inv(s) && InhibitorSlot(s, s.legacyId).Some?
    ensures TogglesTo(s, Do(s, Inhibit(on), d), on, d)
  {
    if ToggledTo(s) != on {
      SwitchedInhibitor(s, s.legacyId, on, d);
    }
  }

  lemma TakesThenToggles(s: Manager, on: int, d: Display)
    requires Inv(s) && Inv(LegacySlotTaken(s)) && LegacySlotTaken(s).legacyId != 0
    ensures Do(s, Inhibit(on), d) == Do(LegacySlotTaken(s), Inhibit(on), d)
  {
    assert LegacySlotTaken(LegacySlotTaken(s)) == LegacySlotTaken(s);
  }

  /** Main result: the toggle ends up as asked, and inhibits exactly if it did so before and stays
      on, or is switched on now and an inhibitor can be made.  Asked for what it is, it does
      nothing; so an inhibitor that could not be made the first time is not tried again. */
  lemma ToggleTakesEffect(s: Manager, on: int, d: Display)
    requires Inv(s) && CanToggle(s)
    ensures TogglesTo(s, Do(s, Inhibit(on), d), on, d)
  {
    TakenSlot(s);
    TakesThenToggles(s, on, d);
    SlotToggles(LegacySlotTaken(s), on, d);
  }

  /** It does happen: after the second of these calls the toggle is on and nothing is inhibited,
      although by then the display would have allowed it. */
  lemma ToggleIsNotTriedAgain()
    ensures var s := After([(Inhibit(1), NO_INHIBITOR), (Inhibit(1), ALL_THERE)]);
            ToggledTo(s) == 1 && !Inhibiting(s, s.legacyId)
  {
    var first := [(Inhibit(1), NO_INHIBITOR)];
    AfterOneMore([], Inhibit(1), NO_INHIBITOR);
    AfterOneMore(first, Inhibit(1), ALL_THERE);
    assert [] + first == first;
    assert first + [(Inhibit(1), ALL_THERE)] == [(Inhibit(1), NO_INHIBITOR), (Inhibit(1), ALL_THERE)];
    assert After([]) == FRESH;
    ToggleTakesEffect(FRESH, 1, NO_INHIBITOR);
    ToggleTakesEffect(After(first), 1, ALL_THERE);
  }

  /** A call for an id that is not in use, or for one more slot than there are, changes nothing. */
  lemma RefusedChangesNothing(s: Manager, c: Call, d: Display)
    requires Inv(s)
    requires match c
             case MonitorCreate(_, _, _) => |s.monitors| == MAX_MONITORS
             case MonitorUpdate(id, _, _, _) => MonitorSlot(s, id).None?
             case MonitorDestroy(id) => MonitorSlot(s, id).None?
             case InhibitorCreate(_) => |s.inhibitors| == MAX_INHIBITORS
             case InhibitorSet(id, _) => InhibitorSlot(s, id).None?
             case InhibitorDestroy(id) => InhibitorSlot(s, id).None?
             case Inhibit(_) => LegacyStuck(s)
    ensures Do(s, c, d) == s
  {
    LegacySlotKeepsInv(s);
  }

  /** Disabling an inhibitor leaves its surface behind exactly if the inhibitor itself could not
      be made before. */
  lemma DisabledKeepsSurfaceIff(s: Manager, id: nat, d: Display)
    requires Inv(s) && InhibitorSlot(s, id).Some?
    ensures var h, h' := s.inhibitors[id - 1], Do(s, InhibitorSet(id, 0), d).inhibitors[id - 1];
            && h'.enabled == 0 && h'.inhibitor.None?
            && (h'.surface.Some? <==> h.surface.Some? && h.inhibitor.None?)
  {
    SlotLive(s, id - 1);
    assert InhibitorOk(s.inhibitors[id - 1], id - 1);
    DisabledRefresh(s.wl, s.inhibitors[id - 1].(enabled := 0), id - 1, d);
  }

  lemma DisabledRefresh(wl: Wayland, h: Inhibitor, slot: nat, d: Display)
    requires h.enabled == 0
    requires h.inhibitor.Some? ==> h.inhibitor.value in wl.inhibitors
    requires h.surface.Some? ==> h.surface.value in wl.surfaces
    ensures var h' := RefreshInhibitor(wl, h, slot, d).1;
            && h'.enabled == 0 && h'.inhibitor.None?
            && (h'.surface.Some? <==> h.surface.Some? && h.inhibitor.None?)
  {
  }

  /** It does happen. */
  lemma DisabledSurfaceHappens()
    ensures var run := [(InhibitorCreate(1), NO_INHIBITOR), (InhibitorSet(1, 0), ALL_THERE)];
            var hs := After(run).inhibitors;
            |hs| == 1 && hs[0].enabled == 0 && hs[0].surface.Some?
  {
    var first := [(InhibitorCreate(1), NO_INHIBITOR)];
    AfterOneMore([], InhibitorCreate(1), NO_INHIBITOR);
    assert [] + first == first;
    var s := After(first);
    assert |s.inhibitors| == 1 && s.inhibitors[0].surface.Some? && s.inhibitors[0].inhibitor.None?;
    AfterOneMore(first, InhibitorSet(1, 0), ALL_THERE);
    assert first + [(InhibitorSet(1, 0), ALL_THERE)] ==
           [(InhibitorCreate(1), NO_INHIBITOR), (InhibitorSet(1, 0), ALL_THERE)];
    DisabledKeepsSurfaceIff(s, 1, ALL_THERE);
  }
}
