/** The idle manager in the form of the code: two fixed arrays overwritten in place, counters, and linear searches.
    Each method is tied to the value it computes in `IdleState`. Methods run one after the other under the manager's
    mutex; `wl` are the objects on the other side of the connection, and destroying one requires that it is live. */
module IdleManager {
  import opened Wrappers
  import opened IdleState
  import opened IdleSafety
  import IdleCallbacks

  const UNUSED_MONITOR := Monitor(0, 0, 0, 0, false, false, false, None)
  const UNUSED_INHIBITOR := Inhibitor(0, 0, false, None, None)

  class Idle {
    const monitors: array<Monitor>
    var monitorCount: nat
    var nextMonitorId: nat
    const inhibitors: array<Inhibitor>
    var inhibitorCount: nat
    var nextInhibitorId: nat
    var legacyInhibitorId: nat
    var wl: Wayland

    ghost predicate Shaped()
      reads this`monitorCount, this`inhibitorCount
    {
      && monitors.Length == MAX_MONITORS && monitorCount <= MAX_MONITORS
      && inhibitors.Length == MAX_INHIBITORS && inhibitorCount <= MAX_INHIBITORS
    }

    ghost function State(): (s: Manager)
      requires Shaped()
      reads this, monitors, inhibitors
    {
      Manager(monitors[..monitorCount], nextMonitorId, inhibitors[..inhibitorCount], nextInhibitorId,
              legacyInhibitorId, wl)
    }

    ghost predicate Valid()
      reads this, monitors, inhibitors
    {
      Shaped() && Inv(State())
    }

    constructor ()
      ensures Valid() && State() == FRESH && fresh(monitors) && fresh(inhibitors)
    {
      monitors := new Monitor[MAX_MONITORS](_ => UNUSED_MONITOR);
      inhibitors := new Inhibitor[MAX_INHIBITORS](_ => UNUSED_INHIBITOR);
      monitorCount, nextMonitorId, inhibitorCount, nextInhibitorId, legacyInhibitorId := 0, 0, 0, 0, 0;
      wl := Wayland(0, map[], map[], map[]);
    }

    // ----------------------------------------------------------------
    // Linear searches
    // ----------------------------------------------------------------

    method FindMonitor(id: nat) returns (slot: Option<nat>)
      requires Valid()
      ensures slot == MonitorSlot(State(), id)
    {
      var i := 0;
      while i < monitorCount
        invariant i <= monitorCount
        invariant forall k :: 0 <= k < i ==> monitors[k].id != id || monitors[k].deleted
      {
        assert MonitorOk(State().monitors[i], i);
        if monitors[i].id == id && !monitors[i].deleted {
          return Some(i);
        }
        i := i + 1;
      }
      assert 1 <= id <= monitorCount ==> MonitorOk(State().monitors[id - 1], id - 1);
      return None;
    }

    method FindInhibitor(id: nat) returns (slot: Option<nat>)
      requires Valid()
      ensures slot == InhibitorSlot(State(), id)
    {
      var i := 0;
      while i < inhibitorCount
        invariant i <= inhibitorCount
        invariant forall k :: 0 <= k < i ==> inhibitors[k].id != id || inhibitors[k].deleted
      {
        assert InhibitorOk(State().inhibitors[i], i);
        if inhibitors[i].id == id && !inhibitors[i].deleted {
          return Some(i);
        }
        i := i + 1;
      }
      assert 1 <= id <= inhibitorCount ==> InhibitorOk(State().inhibitors[id - 1], id - 1);
      return None;
    }

    // ----------------------------------------------------------------
    // Refreshing one slot in place
    // ----------------------------------------------------------------

    method RefreshMonitor(slot: nat, d: Display)
      requires Shaped() && slot < monitorCount
      requires var p := monitors[slot].notification; p.Some? ==> p.value in wl.notifications
      modifies this`wl, monitors
      ensures State() == RefreshedMonitor(old(State()), slot, d)
    {
      var mon := monitors[slot];
      if mon.notification.Some? {
        wl := DropNotification(wl, mon.notification);
        mon := mon.(notification := None);
      }
      if mon.enabled != 0 && d.notifier && d.seat {
        mon := mon.(attached := true);
        if d.notificationOk {
          mon := mon.(notification := Some(wl.next));
          wl := AddNotification(wl, slot);
        }
      }
      monitors[slot] := mon;
    }

    method RefreshInhibitor(slot: nat, d: Display)
      requires Shaped() && slot < inhibitorCount
      requires var p := inhibitors[slot].inhibitor; p.Some? ==> p.value in wl.inhibitors
      requires var p := inhibitors[slot].surface; p.Some? ==> p.value in wl.surfaces
      modifies this`wl, inhibitors
      ensures State() == RefreshedInhibitor(old(State()), slot, d)
    {
      var inh := inhibitors[slot];
      if inh.enabled != 0 && inh.inhibitor.None? {
        if d.inhibitManager && d.compositor {
          if inh.surface.None? && d.surfaceOk {
            inh := inh.(surface := Some(wl.next));
            wl := AddSurface(wl, slot);
          }
          if inh.surface.Some? && d.inhibitorOk {
            inh := inh.(inhibitor := Some(wl.next));
            wl := AddInhibitor(wl, slot);
          }
        }
      } else if inh.enabled == 0 && inh.inhibitor.Some? {
        wl := DropInhibitor(wl, inh.inhibitor);
        inh := inh.(inhibitor := None);
        if inh.surface.Some? {
          wl := DropSurface(wl, inh.surface);
          inh := inh.(surface := None);
        }
      }
      inhibitors[slot] := inh;
    }

    // ----------------------------------------------------------------
    // Monitors
    // ----------------------------------------------------------------

    method MonitorCreate(timeoutMs: nat, respectInhibitors: int, enabled: int, d: Display)
      returns (made: Option<Monitor>)
      requires Valid()
      modifies this, monitors
      ensures Valid() && State() == CreateMonitor(old(State()), timeoutMs, respectInhibitors, enabled, d)
      ensures made.Some? <==> old(monitorCount) < MAX_MONITORS
      ensures made.Some? ==> monitorCount == old(monitorCount) + 1 && made.value == monitors[monitorCount - 1]
    {
      CreateMonitorKeepsInv(State(), timeoutMs, respectInhibitors, enabled, d);
      if monitorCount >= MAX_MONITORS {
        return None;
      }

      ghost var before := monitors[..monitorCount];
      nextMonitorId := nextMonitorId + 1;
      var slot := monitorCount;
      monitorCount := monitorCount + 1;
      monitors[slot] := NewMonitor(nextMonitorId, timeoutMs, respectInhibitors, enabled);
      assert monitors[..monitorCount] == before + [monitors[slot]];
      RefreshMonitor(slot, d);
      made := Some(monitors[slot]);
    }

    method MonitorUpdate(id: nat, timeoutMs: nat, respectInhibitors: int, enabled: int, d: Display)
      returns (found: Option<Monitor>)
      requires Valid()
      modifies this`wl, monitors
      ensures Valid() && State() == UpdateMonitor(old(State()), id, timeoutMs, respectInhibitors, enabled, d)
      ensures found.Some? <==> MonitorSlot(old(State()), id).Some?
      ensures found.Some? ==> 1 <= id <= monitorCount && found.value == monitors[id - 1]
    {
      UpdateMonitorKeepsInv(State(), id, timeoutMs, respectInhibitors, enabled, d);
      HandlesLive(State());
      ghost var before := monitors[..monitorCount];
      var slot := FindMonitor(id);
      if slot.None? {
        return None;
      }
      var m := monitors[slot.value].(
        timeoutMs := timeoutMs, respectInhibitors := respectInhibitors, enabled := enabled);
      monitors[slot.value] := m;
      assert monitors[..monitorCount] == before[slot.value := m];
      RefreshMonitor(slot.value, d);
      found := Some(monitors[slot.value]);
    }

    method MonitorGet(id: nat) returns (found: Option<Monitor>)
      requires Valid()
      ensures found == var slot := MonitorSlot(State(), id);
                       if slot.None? then None else Some(State().monitors[slot.value])
    {
      var slot := FindMonitor(id);
      found := if slot.None? then None else Some(monitors[slot.value]);
    }

    method MonitorDestroy(id: nat) returns (rc: int)
      requires Valid()
      modifies this`wl, monitors
      ensures Valid() && State() == DestroyMonitor(old(State()), id)
      ensures rc == if MonitorSlot(old(State()), id).Some? then 0 else -1
    {
      DestroyMonitorKeepsInv(State(), id);
      HandlesLive(State());
      ghost var before := monitors[..monitorCount];
      var slot := FindMonitor(id);
      if slot.None? {
        return -1;
      }
      var mon := monitors[slot.value];
      if mon.notification.Some? {
        wl := DropNotification(wl, mon.notification);
        mon := mon.(notification := None);
      }
      monitors[slot.value] := mon.(deleted := true, attached := false);
      assert monitors[..monitorCount] == before[slot.value := monitors[slot.value]];
      return 0;
    }

    /** The part of event delivery that runs under the mutex; a result asks for a callback. */
    method SetMonitorIdle(slot: nat, idle: bool) returns (callback: Option<(nat, bool)>)
      requires Valid() && slot < monitorCount
      modifies monitors
      ensures Valid() && State() == IdleCallbacks.MarkIdle(old(State()), slot, idle)
      ensures callback == if old(monitors[slot]).isIdle == idle then None else Some((slot + 1, idle))
    {
      IdleCallbacks.MarkIdleKeepsInv(State(), slot, idle);
      ghost var before := monitors[..monitorCount];
      assert MonitorOk(before[slot], slot);
      var mon := monitors[slot];
      if mon.isIdle == idle {
        assert before[slot := mon.(isIdle := idle)] == before;
        return None;
      }
      monitors[slot] := mon.(isIdle := idle);
      assert monitors[..monitorCount] == before[slot := mon.(isIdle := idle)];
      return Some((mon.id, idle));
    }

    // ----------------------------------------------------------------
    // Inhibitors
    // ----------------------------------------------------------------

    method InhibitorCreate(enabled: int, d: Display) returns (made: Option<Inhibitor>)
      requires Valid()
      modifies this, inhibitors
      ensures Valid() && State() == CreateInhibitor(old(State()), enabled, d)
      ensures made.Some? <==> old(inhibitorCount) < MAX_INHIBITORS
      ensures made.Some? ==> inhibitorCount == old(inhibitorCount) + 1 && made.value == inhibitors[inhibitorCount - 1]
    {
      CreateInhibitorKeepsInv(State(), enabled, d);
      if inhibitorCount >= MAX_INHIBITORS {
        return None;
      }

      ghost var before := inhibitors[..inhibitorCount];
      nextInhibitorId := nextInhibitorId + 1;
      var slot := inhibitorCount;
      inhibitorCount := inhibitorCount + 1;
      inhibitors[slot] := NewInhibitor(nextInhibitorId, enabled);
      assert inhibitors[..inhibitorCount] == before + [inhibitors[slot]];
      RefreshInhibitor(slot, d);
      made := Some(inhibitors[slot]);
    }

    method InhibitorSet(id: nat, enabled: int, d: Display) returns (found: Option<Inhibitor>)
      requires Valid()
      modifies this`wl, inhibitors
      ensures Valid() && State() == SetInhibitor(old(State()), id, enabled, d)
      ensures found.Some? <==> InhibitorSlot(old(State()), id).Some?
      ensures found.Some? ==> 1 <= id <= inhibitorCount && found.value == inhibitors[id - 1]
    {
      SetInhibitorKeepsInv(State(), id, enabled, d);
      HandlesLive(State());
      ghost var before := inhibitors[..inhibitorCount];
      var slot := FindInhibitor(id);
      if slot.None? {
        return None;
      }
      inhibitors[slot.value] := inhibitors[slot.value].(enabled := enabled);
      assert inhibitors[..inhibitorCount] == before[slot.value := inhibitors[slot.value]];
      RefreshInhibitor(slot.value, d);
      found := Some(inhibitors[slot.value]);
    }

    method InhibitorGet(id: nat) returns (found: Option<Inhibitor>)
      requires Valid()
      ensures found == var slot := InhibitorSlot(State(), id);
                       if slot.None? then None else Some(State().inhibitors[slot.value])
    {
      var slot := FindInhibitor(id);
      found := if slot.None? then None else Some(inhibitors[slot.value]);
    }

    method InhibitorDestroy(id: nat) returns (rc: int)
      requires Valid()
      modifies this`wl, this`legacyInhibitorId, inhibitors
      ensures Valid() && State() == DestroyInhibitor(old(State()), id)
      ensures rc == if InhibitorSlot(old(State()), id).Some? then 0 else -1
    {
      DestroyInhibitorKeepsInv(State(), id);
      HandlesLive(State());
      ghost var before := inhibitors[..inhibitorCount];
      var slot := FindInhibitor(id);
      if slot.None? {
        return -1;
      }
      var inh := inhibitors[slot.value];
      if inh.inhibitor.Some? {
        wl := DropInhibitor(wl, inh.inhibitor);
        inh := inh.(inhibitor := None);
      }
      if inh.surface.Some? {
        wl := DropSurface(wl, inh.surface);
        inh := inh.(surface := None);
      }
      inhibitors[slot.value] := inh.(deleted := true);
      assert inhibitors[..inhibitorCount] == before[slot.value := inhibitors[slot.value]];
      if legacyInhibitorId == id {
        legacyInhibitorId := 0;
      }
      return 0;
    }

    // ----------------------------------------------------------------
    // The legacy toggle
    // ----------------------------------------------------------------

    method TakeLegacySlot()
      requires Valid()
      modifies this`nextInhibitorId, this`legacyInhibitorId, this`inhibitorCount, inhibitors
      ensures Valid() && State() == LegacySlotTaken(old(State()))
    {
      LegacySlotKeepsInv(State());
      if legacyInhibitorId == 0 {
        ghost var before := inhibitors[..inhibitorCount];
        nextInhibitorId := nextInhibitorId + 1;
        legacyInhibitorId := nextInhibitorId;
        if inhibitorCount < MAX_INHIBITORS {
          inhibitors[inhibitorCount] := NewInhibitor(legacyInhibitorId, 0);
          inhibitorCount := inhibitorCount + 1;
          assert inhibitors[..inhibitorCount] == before + [NewInhibitor(legacyInhibitorId, 0)];
        }
      }
    }

    method Inhibit(on: int, d: Display) returns (rc: int)
      requires Valid()
      modifies this, inhibitors
      ensures Valid() && State() == ToggleInhibit(old(State()), on, d)
      ensures rc == if LegacyStuck(State()) then -1 else 0
    {
      ghost var s := State();
      LegacySlotKeepsInv(s);
      TakeLegacySlot();
      SetInhibitorKeepsInv(State(), legacyInhibitorId, on, d);
      var slot := FindInhibitor(legacyInhibitorId);
      if slot.None? {
        return -1;
      }
      if inhibitors[slot.value].enabled == on {
        return 0;
      }
      var _ := InhibitorSet(legacyInhibitorId, on, d);
      return 0;
    }

    method IsInhibited() returns (r: int)
      requires Valid()
      ensures r == var slot := InhibitorSlot(State(), legacyInhibitorId);
                   if slot.Some? then State().inhibitors[slot.value].enabled else 0
    {
      r := 0;
      if legacyInhibitorId != 0 {
        var slot := FindInhibitor(legacyInhibitorId);
        if slot.Some? {
          r := inhibitors[slot.value].enabled;
        }
      }
    }

    // ----------------------------------------------------------------
    // The end
    // ----------------------------------------------------------------

    /** Everything live is destroyed, and nothing twice; callbacks are cut off. */
    method Destroy()
      requires Valid()
      modifies this`wl, monitors
      ensures wl.notifications == map[] && wl.surfaces == map[] && wl.inhibitors == map[]
      ensures forall k :: 0 <= k < monitorCount ==> !monitors[k].attached && monitors[k].notification.None?
    {
      ghost var s := State();
      DestroyNotifications(s.wl.notifications, Notifications(s.monitors));
      DestroyInhibitors(InhibitorSteps(wl, s));
    }

    method DestroyNotifications(ghost live: map<nat, nat>, ghost held: seq<Option<nat>>)
      requires Shaped() && Matches(live, held) && wl.notifications == live && |held| == monitorCount
      requires forall k :: 0 <= k < monitorCount ==> monitors[k].notification == held[k]
      modifies this`wl, monitors
      ensures wl == old(wl).(notifications := map[])
      ensures forall k :: 0 <= k < monitorCount ==> !monitors[k].attached && monitors[k].notification.None?
    {
      AllBeyond(live, held);
      var i := 0;
      while i < monitorCount
        invariant i <= monitorCount
        invariant wl == old(wl).(notifications := Beyond(live, i))
        invariant forall k :: i <= k < monitorCount ==> monitors[k].notification == held[k]
        invariant forall k :: 0 <= k < i ==> !monitors[k].attached && monitors[k].notification.None?
      {
        BeyondNext(live, held, i);
        wl := DropNotification(wl, monitors[i].notification);
        monitors[i] := monitors[i].(notification := None, attached := false);
        i := i + 1;
      }
    }

    method DestroyInhibitors(ghost steps: seq<Wayland>)
      requires Shaped() && |steps| == inhibitorCount + 1 && wl == steps[0]
      requires forall k :: 0 <= k < inhibitorCount ==> DropsPair(steps[k], inhibitors[k], steps[k + 1])
      modifies this`wl
      ensures wl == steps[inhibitorCount]
    {
      var i := 0;
      while i < inhibitorCount
        invariant i <= inhibitorCount && wl == steps[i]
      {
        var inh := inhibitors[i];
        assert DropsPair(steps[i], inh, steps[i + 1]);
        wl := DropInhibitor(wl, inh.inhibitor);
        wl := DropSurface(wl, inh.surface);
        i := i + 1;
      }
    }
  }

  /** The objects of the slots from `i` on. */
  function Beyond(live: map<nat, nat>, i: nat): map<nat, nat> {
    map p | p in live && live[p] >= i :: live[p]
  }

  /** Both objects of a slot are live, and `w'` is without them. */
  ghost predicate DropsPair(w: Wayland, h: Inhibitor, w': Wayland) {
    && (h.inhibitor.Some? ==> h.inhibitor.value in w.inhibitors)
    && (h.surface.Some? ==> h.surface.value in w.surfaces)
    && w' == DropSurface(DropInhibitor(w, h.inhibitor), h.surface)
  }

  /** What is left while the inhibitor slots are destroyed one after the other. */
  ghost function InhibitorSteps(wl: Wayland, s: Manager): (steps: seq<Wayland>)
    requires WaylandOk(s) && wl.surfaces == s.wl.surfaces && wl.inhibitors == s.wl.inhibitors
    ensures |steps| == |s.inhibitors| + 1 && steps[0] == wl
    ensures steps[|s.inhibitors|] == wl.(surfaces := map[], inhibitors := map[])
    ensures forall k :: 0 <= k < |s.inhibitors| ==> DropsPair(steps[k], s.inhibitors[k], steps[k + 1])
  {
    AllBeyond(s.wl.surfaces, Surfaces(s.inhibitors));
    AllBeyond(s.wl.inhibitors, Inhibitors(s.inhibitors));
    assert forall k :: 0 <= k < |s.inhibitors| ==>
        DropsPair(InhibitorsBeyond(wl, s, k), s.inhibitors[k], InhibitorsBeyond(wl, s, k + 1)) by {
      forall k | 0 <= k < |s.inhibitors|
        ensures DropsPair(InhibitorsBeyond(wl, s, k), s.inhibitors[k], InhibitorsBeyond(wl, s, k + 1))
      {
        BeyondNext(s.wl.surfaces, Surfaces(s.inhibitors), k);
        BeyondNext(s.wl.inhibitors, Inhibitors(s.inhibitors), k);
      }
    }
    seq(|s.inhibitors| + 1, k requires 0 <= k <= |s.inhibitors| => InhibitorsBeyond(wl, s, k))
  }

  ghost function InhibitorsBeyond(wl: Wayland, s: Manager, i: nat): Wayland {
    wl.(surfaces := Beyond(s.wl.surfaces, i), inhibitors := Beyond(s.wl.inhibitors, i))
  }

  lemma AllBeyond(live: map<nat, nat>, held: seq<Option<nat>>)
    requires Matches(live, held)
    ensures Beyond(live, 0) == live && Beyond(live, |held|) == map[]
  {
  }

  lemma BeyondNext(live: map<nat, nat>, held: seq<Option<nat>>, i: nat)
    requires Matches(live, held) && i < |held|
    ensures held[i].Some? ==>
              held[i].value in Beyond(live, i) && Beyond(live, i) - {held[i].value} == Beyond(live, i + 1)
    ensures held[i].None? ==> Beyond(live, i) == Beyond(live, i + 1)
  {
    assert forall p :: p in live && live[p] == i ==> held[i] == Some(p);
  }
}
