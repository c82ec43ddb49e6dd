/** The idle manager of `src/server/idle.c` as a value: two tables of 64 slots that are never reused, the legacy
    toggle that shares one of them, and the Wayland objects the slots hold. One call of the public interface is one
    step, as the manager's mutex makes it. */
module IdleState {
  import opened Wrappers

  const MAX_MONITORS := 64
  const MAX_INHIBITORS := 64

  /** A slot of the monitor table; `attached` tells whether the manager pointer is set. */
  datatype Monitor = Monitor(
    id: nat,
    timeoutMs: nat,
    respectInhibitors: int,
    enabled: int,
    isIdle: bool,
    deleted: bool,
    attached: bool,
    notification: Option<nat>
  )

  datatype Inhibitor = Inhibitor(
    id: nat,
    enabled: int,
    deleted: bool,
    surface: Option<nat>,
    inhibitor: Option<nat>
  )

  /** The live objects of each kind, with the slot each was created for. */
  datatype Wayland = Wayland(
    next: nat,
    notifications: map<nat, nat>,
    surfaces: map<nat, nat>,
    inhibitors: map<nat, nat>
  )

  /** What the display offers during a call, and which of the object creations succeed. */
  datatype Display = Display(
    notifier: bool,
    seat: bool,
    inhibitManager: bool,
    compositor: bool,
    notificationOk: bool,
    surfaceOk: bool,
    inhibitorOk: bool
  )

  datatype Manager = Manager(
    monitors: seq<Monitor>,
    nextMonitorId: nat,
    inhibitors: seq<Inhibitor>,
    nextInhibitorId: nat,
    legacyId: nat,
    wl: Wayland
  )

  const ALL_THERE := Display(true, true, true, true, true, true, true)

  const FRESH := Manager([], 0, [], 0, 0, Wayland(0, map[], map[], map[]))

  // ------------------------------------------------------------------
  // Wayland requests
  // ------------------------------------------------------------------

  function AddNotification(wl: Wayland, slot: nat): Wayland {
    wl.(next := wl.next + 1, notifications := wl.notifications[wl.next := slot])
  }

  function AddSurface(wl: Wayland, slot: nat): Wayland {
    wl.(next := wl.next + 1, surfaces := wl.surfaces[wl.next := slot])
  }

  function AddInhibitor(wl: Wayland, slot: nat): Wayland {
    wl.(next := wl.next + 1, inhibitors := wl.inhibitors[wl.next := slot])
  }

  /** Destroying what is not live would be a protocol error. */
  function DropNotification(wl: Wayland, p: Option<nat>): Wayland
    requires p.Some? ==> p.value in wl.notifications
  {
    if p.Some? then wl.(notifications := wl.notifications - {p.value}) else wl
  }

  function DropSurface(wl: Wayland, p: Option<nat>): Wayland
    requires p.Some? ==> p.value in wl.surfaces
  {
    if p.Some? then wl.(surfaces := wl.surfaces - {p.value}) else wl
  }

  function DropInhibitor(wl: Wayland, p: Option<nat>): Wayland
    requires p.Some? ==> p.value in wl.inhibitors
  {
    if p.Some? then wl.(inhibitors := wl.inhibitors - {p.value}) else wl
  }

  // ------------------------------------------------------------------
  // Refreshing one slot
  // ------------------------------------------------------------------

  /** Drops the slot's notification and, if it is enabled and the display allows it, makes a
      new one. */
  function RefreshMonitor(wl: Wayland, m: Monitor, slot: nat, d: Display): (Wayland, Monitor)
    requires m.notification.Some? ==> m.notification.value in wl.notifications
  {
    var w1, m1 := DropNotification(wl, m.notification), m.(notification := None);
    if m.enabled == 0 || !d.notifier || !d.seat then (w1, m1)
    else if !d.notificationOk then (w1, m1.(attached := true))
    else (AddNotification(w1, slot), m1.(attached := true, notification := Some(w1.next)))
  }

  /** Makes the inhibitor, with its surface, of an enabled slot that has none; drops both for a
      disabled slot that has one. */
  function RefreshInhibitor(wl: Wayland, h: Inhibitor, slot: nat, d: Display): (Wayland, Inhibitor)
    requires h.inhibitor.Some? ==> h.inhibitor.value in wl.inhibitors
    requires h.surface.Some? ==> h.surface.value in wl.surfaces
  {
    if h.enabled != 0 && h.inhibitor.None? then
      if !d.inhibitManager || !d.compositor then (wl, h)
      else
        var (w1, h1) :=
          if h.surface.None? && d.surfaceOk then (AddSurface(wl, slot), h.(surface := Some(wl.next))) else (wl, h);
        if h1.surface.None? || !d.inhibitorOk then (w1, h1)
        else (AddInhibitor(w1, slot), h1.(inhibitor := Some(w1.next)))
    else if h.enabled == 0 && h.inhibitor.Some? then
      (DropSurface(DropInhibitor(wl, h.inhibitor), h.surface), h.(inhibitor := None, surface := None))
    else (wl, h)
  }

  // ------------------------------------------------------------------
  // The invariant
  // ------------------------------------------------------------------

  /** The live objects and the held handles are the same, each held by exactly one slot. */
  ghost predicate Matches(live: map<nat, nat>, held: seq<Option<nat>>) {
    && (forall p :: p in live ==> live[p] < |held| && held[live[p]] == Some(p))
    && (forall i :: 0 <= i < |held| && held[i].Some? ==> held[i].value in live && live[held[i].value] == i)
  }

  function Notifications(ms: seq<Monitor>): (r: seq<Option<nat>>)
    ensures |r| == |ms|
  {
    seq(|ms|, i requires 0 <= i < |ms| => ms[i].notification)
  }

  function Surfaces(hs: seq<Inhibitor>): (r: seq<Option<nat>>)
    ensures |r| == |hs|
  {
    seq(|hs|, i requires 0 <= i < |hs| => hs[i].surface)
  }

  function Inhibitors(hs: seq<Inhibitor>): (r: seq<Option<nat>>)
    ensures |r| == |hs|
  {
    seq(|hs|, i requires 0 <= i < |hs| => hs[i].inhibitor)
  }

  ghost predicate MonitorOk(m: Monitor, slot: nat) {
    && m.id == slot + 1
    && (m.notification.Some? ==> m.enabled != 0 && !m.deleted && m.attached)
    && (m.deleted ==> !m.attached)
  }

  ghost predicate InhibitorOk(h: Inhibitor, slot: nat) {
    && h.id == slot + 1
    && (h.inhibitor.Some? ==> h.enabled != 0 && !h.deleted && h.surface.Some?)
    && (h.surface.Some? ==> !h.deleted)
  }

  ghost predicate MonitorsOk(ms: seq<Monitor>) {
    |ms| <= MAX_MONITORS && forall i :: 0 <= i < |ms| ==> MonitorOk(ms[i], i)
  }

  ghost predicate InhibitorsOk(hs: seq<Inhibitor>) {
    |hs| <= MAX_INHIBITORS && forall i :: 0 <= i < |hs| ==> InhibitorOk(hs[i], i)
  }

  /** The toggle asked for a slot when none was left, and will never get one. */
  predicate LegacyStuck(s: Manager) {
    s.legacyId == MAX_INHIBITORS + 1 == s.nextInhibitorId && |s.inhibitors| == MAX_INHIBITORS
  }

  ghost predicate LegacyOk(s: Manager) {
    || (s.legacyId == 0 && s.nextInhibitorId == |s.inhibitors|)
    || (1 <= s.legacyId <= |s.inhibitors| && !s.inhibitors[s.legacyId - 1].deleted
        && s.nextInhibitorId == |s.inhibitors|)
    || LegacyStuck(s)
  }

  ghost predicate WaylandOk(s: Manager) {
    && Matches(s.wl.notifications, Notifications(s.monitors))
    && Matches(s.wl.surfaces, Surfaces(s.inhibitors))
    && Matches(s.wl.inhibitors, Inhibitors(s.inhibitors))
    && (forall p :: p in s.wl.notifications || p in s.wl.surfaces || p in s.wl.inhibitors ==> p < s.wl.next)
  }

  ghost predicate Inv(s: Manager) {
    && MonitorsOk(s.monitors) && InhibitorsOk(s.inhibitors)
    && s.nextMonitorId == |s.monitors|
    && LegacyOk(s) && WaylandOk(s)
  }

  // ------------------------------------------------------------------
  // The interface
  // ------------------------------------------------------------------

  datatype Call =
    | MonitorCreate(timeoutMs: nat, respectInhibitors: int, enabled: int)
    | MonitorUpdate(id: nat, timeoutMs: nat, respectInhibitors: int, enabled: int)
    | MonitorDestroy(id: nat)
    | InhibitorCreate(enabled: int)
    | InhibitorSet(id: nat, enabled: int)
    | InhibitorDestroy(id: nat)
    | Inhibit(on: int)

  /** Where a live slot with this id is; ids are slot numbers plus one. */
  function MonitorSlot(s: Manager, id: nat): (slot: Option<nat>)
    ensures slot.Some? ==> slot.value < |s.monitors| && !s.monitors[slot.value].deleted
  {
    if 1 <= id <= |s.monitors| && !s.monitors[id - 1].deleted then Some(id - 1) else None
  }

  function InhibitorSlot(s: Manager, id: nat): (slot: Option<nat>)
    ensures slot.Some? ==> slot.value < |s.inhibitors| && !s.inhibitors[slot.value].deleted
  {
    if 1 <= id <= |s.inhibitors| && !s.inhibitors[id - 1].deleted then Some(id - 1) else None
  }

  function RefreshedMonitor(s: Manager, slot: nat, d: Display): Manager
    requires slot < |s.monitors|
    requires var p := s.monitors[slot].notification; p.Some? ==> p.value in s.wl.notifications
  {
    var (wl, m) := RefreshMonitor(s.wl, s.monitors[slot], slot, d);
    s.(wl := wl, monitors := s.monitors[slot := m])
  }

  function RefreshedInhibitor(s: Manager, slot: nat, d: Display): Manager
    requires slot < |s.inhibitors|
    requires var p := s.inhibitors[slot].inhibitor; p.Some? ==> p.value in s.wl.inhibitors
    requires var p := s.inhibitors[slot].surface; p.Some? ==> p.value in s.wl.surfaces
  {
    var (wl, h) := RefreshInhibitor(s.wl, s.inhibitors[slot], slot, d);
    s.(wl := wl, inhibitors := s.inhibitors[slot := h])
  }

  function NewMonitor(id: nat, timeoutMs: nat, respectInhibitors: int, enabled: int): Monitor {
    Monitor(id, timeoutMs, respectInhibitors, enabled, false, false, true, None)
  }

  function NewInhibitor(id: nat, enabled: int): Inhibitor {
    Inhibitor(id, enabled, false, None, None)
  }

  /** The handles in a state that satisfies the invariant are live. */
  lemma HandlesLive(s: Manager)
    requires Inv(s)
    ensures forall i :: 0 <= i < |s.monitors| && s.monitors[i].notification.Some? ==>
                          s.monitors[i].notification.value in s.wl.notifications
    ensures forall i :: 0 <= i < |s.inhibitors| && s.inhibitors[i].surface.Some? ==>
                          s.inhibitors[i].surface.value in s.wl.surfaces
    ensures forall i :: 0 <= i < |s.inhibitors| && s.inhibitors[i].inhibitor.Some? ==>
                          s.inhibitors[i].inhibitor.value in s.wl.inhibitors
  {
    assert forall i :: 0 <= i < |s.monitors| ==> Notifications(s.monitors)[i] == s.monitors[i].notification;
    assert forall i :: 0 <= i < |s.inhibitors| ==> Surfaces(s.inhibitors)[i] == s.inhibitors[i].surface;
    assert forall i :: 0 <= i < |s.inhibitors| ==> Inhibitors(s.inhibitors)[i] == s.inhibitors[i].inhibitor;
  }

  function CreateMonitor(s: Manager, timeoutMs: nat, respectInhibitors: int, enabled: int, d: Display): Manager {
    if |s.monitors| >= MAX_MONITORS then s
    else
      var id := s.nextMonitorId + 1;
      var m := NewMonitor(id, timeoutMs, respectInhibitors, enabled);
      var s1 := s.(nextMonitorId := id, monitors := s.monitors + [m]);
      RefreshedMonitor(s1, |s.monitors|, d)
  }

  ghost function UpdateMonitor(s: Manager, id: nat, timeoutMs: nat, respectInhibitors: int, enabled: int,
                               d: Display): Manager
    requires Inv(s)
  {
    HandlesLive(s);
    var slot := MonitorSlot(s, id);
    if slot.None? then s
    else
      var m := s.monitors[slot.value].(
        timeoutMs := timeoutMs, respectInhibitors := respectInhibitors, enabled := enabled);
      RefreshedMonitor(s.(monitors := s.monitors[slot.value := m]), slot.value, d)
  }

  ghost function DestroyMonitor(s: Manager, id: nat): Manager
    requires Inv(s)
  {
    HandlesLive(s);
    var slot := MonitorSlot(s, id);
    if slot.None? then s
    else
      var m := s.monitors[slot.value];
      s.(wl := DropNotification(s.wl, m.notification),
         monitors := s.monitors[slot.value := m.(notification := None, deleted := true, attached := false)])
  }

  function CreateInhibitor(s: Manager, enabled: int, d: Display): Manager {
    if |s.inhibitors| >= MAX_INHIBITORS then s
    else
      var id := s.nextInhibitorId + 1;
      var s1 := s.(nextInhibitorId := id, inhibitors := s.inhibitors + [NewInhibitor(id, enabled)]);
      RefreshedInhibitor(s1, |s.inhibitors|, d)
  }

  ghost function SetInhibitor(s: Manager, id: nat, enabled: int, d: Display): Manager
    requires Inv(s)
  {
    HandlesLive(s);
    var slot := InhibitorSlot(s, id);
    if slot.None? then s
    else
      var h := s.inhibitors[slot.value].(enabled := enabled);
      RefreshedInhibitor(s.(inhibitors := s.inhibitors[slot.value := h]), slot.value, d)
  }

  ghost function DestroyInhibitor(s: Manager, id: nat): Manager
    requires Inv(s)
  {
    HandlesLive(s);
    var slot := InhibitorSlot(s, id);
    if slot.None? then s
    else
      var h := s.inhibitors[slot.value];
      s.(wl := DropSurface(DropInhibitor(s.wl, h.inhibitor), h.surface),
         inhibitors := s.inhibitors[slot.value := h.(inhibitor := None, surface := None, deleted := true)],
         legacyId := if s.legacyId == id then 0 else s.legacyId)
  }

  /** The first use of the toggle takes an id, and a slot if one is left. */
  function LegacySlotTaken(s: Manager): Manager {
    if s.legacyId != 0 then s
    else
      var id := s.nextInhibitorId + 1;
      s.(nextInhibitorId := id, legacyId := id,
         inhibitors := if |s.inhibitors| < MAX_INHIBITORS then s.inhibitors + [NewInhibitor(id, 0)] else s.inhibitors)
  }

  ghost function ToggleInhibit(s: Manager, on: int, d: Display): Manager
    requires Inv(s)
  {
    LegacySlotKeepsInv(s);
    var s1 := LegacySlotTaken(s);
    var slot := InhibitorSlot(s1, s1.legacyId);
    if slot.None? || s1.inhibitors[slot.value].enabled == on then s1
    else SetInhibitor(s1, s1.legacyId, on, d)
  }

  ghost function Do(s: Manager, c: Call, d: Display): Manager
    requires Inv(s)
  {
    match c
    case MonitorCreate(timeoutMs, respect, enabled) => CreateMonitor(s, timeoutMs, respect, enabled, d)
    case MonitorUpdate(id, timeoutMs, respect, enabled) => UpdateMonitor(s, id, timeoutMs, respect, enabled, d)
    case MonitorDestroy(id) => DestroyMonitor(s, id)
    case InhibitorCreate(enabled) => CreateInhibitor(s, enabled, d)
    case InhibitorSet(id, enabled) => SetInhibitor(s, id, enabled, d)
    case InhibitorDestroy(id) => DestroyInhibitor(s, id)
    case Inhibit(on) => ToggleInhibit(s, on, d)
  }

  // ------------------------------------------------------------------
  // Handles and live objects
  // ------------------------------------------------------------------

  lemma MatchesDrop(live: map<nat, nat>, held: seq<Option<nat>>, i: nat)
    requires i < |held| && held[i].Some? && Matches(live, held)
    ensures held[i].value in live && Matches(live - {held[i].value}, held[i := None])
  {
  }

  lemma MatchesAdd(live: map<nat, nat>, held: seq<Option<nat>>, i: nat, p: nat)
    requires i < |held| && held[i].None? && p !in live && Matches(live, held)
    ensures Matches(live[p := i], held[i := Some(p)])
  {
  }

  lemma MatchesPush(live: map<nat, nat>, held: seq<Option<nat>>)
    requires Matches(live, held)
    ensures Matches(live, held + [None])
  {
  }

  lemma LegacySlotKeepsInv(s: Manager)
    requires Inv(s)
    ensures Inv(LegacySlotTaken(s))
  {
    var s1 := LegacySlotTaken(s);
    if s.legacyId == 0 && |s.inhibitors| < MAX_INHIBITORS {
      MatchesPush(s.wl.surfaces, Surfaces(s.inhibitors));
      MatchesPush(s.wl.inhibitors, Inhibitors(s.inhibitors));
      assert Surfaces(s1.inhibitors) == Surfaces(s.inhibitors) + [None];
      assert Inhibitors(s1.inhibitors) == Inhibitors(s.inhibitors) + [None];
    }
  }
}
