/** Delivery of idled and resumed events (`set_monitor_idle` in `src/server/idle.c`): the dispatch thread looks at the
    manager pointer, then updates the slot under the mutex, then runs the callback with the mutex released. Any call
    may come between these three moments, and the events need not follow the rules of ext-idle-notify-v1. */
module IdleCallbacks {
  import opened Wrappers
  import opened IdleState
  import opened IdleSafety

  datatype Dispatch =
    | Ready
    | Armed(slot: nat, idle: bool)     // the pointer was set; the mutex is not yet taken
    | Firing(id: nat, idle: bool)      // the slot is updated; the callback is still to run

  /** `log` is the list of callbacks made, with the monitor id and the new state. */
  datatype Sys = Sys(mgr: Manager, dispatch: Dispatch, log: seq<(nat, bool)>)

  datatype Step =
    | Api(call: Call, display: Display)
    | Deliver(slot: nat, idle: bool)
    | TakeLock
    | RunCallback

  const START := Sys(FRESH, Ready, [])

  function MarkIdle(s: Manager, slot: nat, idle: bool): Manager
    requires slot < |s.monitors|
  {
    s.(monitors := s.monitors[slot := s.monitors[slot].(isIdle := idle)])
  }

  /** A step that is not possible in the current state changes nothing. */
  ghost function Take(s: Sys, step: Step): Sys
    requires Inv(s.mgr)
  {
    match step
    case Api(call, display) => s.(mgr := Do(s.mgr, call, display))
    case Deliver(slot, idle) =>
      if s.dispatch.Ready? && slot < |s.mgr.monitors| && s.mgr.monitors[slot].attached
      then s.(dispatch := Armed(slot, idle)) else s
    case TakeLock =>
      if s.dispatch.Armed? && s.dispatch.slot < |s.mgr.monitors| then
        var slot, idle := s.dispatch.slot, s.dispatch.idle;
        if s.mgr.monitors[slot].isIdle == idle then s.(dispatch := Ready)
        else s.(mgr := MarkIdle(s.mgr, slot, idle), dispatch := Firing(s.mgr.monitors[slot].id, idle))
      else s
    case RunCallback =>
      if s.dispatch.Firing? then s.(dispatch := Ready, log := s.log + [(s.dispatch.id, s.dispatch.idle)]) else s
  }

  /** Callbacks for `id` among the first `n`. */
  function CallsFor(log: seq<(nat, bool)>, n: nat, id: nat): nat
    requires n <= |log|
  {
    if n == 0 then 0 else CallsFor(log, n - 1, id) + if log[n - 1].0 == id then 1 else 0
  }

  /** The callbacks of `id` go idle, resumed, idle, ... from the first one on. */
  ghost predicate Alternates(log: seq<(nat, bool)>, id: nat) {
    forall k :: 0 <= k < |log| && log[k].0 == id ==> log[k].1 == (CallsFor(log, k, id) % 2 == 0)
  }

  /** Callbacks of `id` made or already decided. */
  function Decided(s: Sys, id: nat): nat {
    CallsFor(s.log, |s.log|, id) + if s.dispatch.Firing? && s.dispatch.id == id then 1 else 0
  }

  /** The stored state of a monitor is idle exactly after an odd number of callbacks. */
  ghost predicate StoredAgrees(s: Sys, slot: nat)
    requires slot < |s.mgr.monitors|
  {
    s.mgr.monitors[slot].isIdle == (Decided(s, slot + 1) % 2 == 1)
  }

  ghost predicate SysInv(s: Sys) {
    && Inv(s.mgr)
    && (forall id :: Alternates(s.log, id))
    && (forall slot :: 0 <= slot < |s.mgr.monitors| ==> StoredAgrees(s, slot))
    && (forall id :: id == 0 || id > |s.mgr.monitors| ==> Decided(s, id) == 0)
    && (s.dispatch.Firing? ==> s.dispatch.idle == (CallsFor(s.log, |s.log|, s.dispatch.id) % 2 == 0))
  }

  lemma {:induction false} CallsForPrefix(log: seq<(nat, bool)>, e: (nat, bool), n: nat, id: nat)
    requires n <= |log|
    ensures CallsFor(log + [e], n, id) == CallsFor(log, n, id)
  {
    if n > 0 {
      CallsForPrefix(log, e, n - 1, id);
    }
  }

  lemma CallbackKeepsAlternation(log: seq<(nat, bool)>, e: (nat, bool), id: nat)
    requires Alternates(log, id) && (e.0 == id ==> e.1 == (CallsFor(log, |log|, id) % 2 == 0))
    ensures Alternates(log + [e], id)
    ensures CallsFor(log + [e], |log| + 1, id) == CallsFor(log, |log|, id) + if e.0 == id then 1 else 0
  {
    forall k | 0 <= k <= |log| ensures CallsFor(log + [e], k, id) == CallsFor(log, k, id) {
      CallsForPrefix(log, e, k, id);
    }
  }

  lemma MarkIdleKeepsInv(s: Manager, slot: nat, idle: bool)
    requires Inv(s) && slot < |s.monitors|
    ensures Inv(MarkIdle(s, slot, idle))
  {
    assert Notifications(MarkIdle(s, slot, idle).monitors) == Notifications(s.monitors);
    assert MonitorOk(s.monitors[slot], slot);
  }

  lemma ApiKeepsInv(s: Sys, call: Call, display: Display)
    requires SysInv(s)
    ensures SysInv(Take(s, Api(call, display)))
  {
    var s' := Take(s, Api(call, display));
    DoKeepsInv(s.mgr, call, display);
    DoGrows(s.mgr, call, display);
    assert forall id :: Decided(s', id) == Decided(s, id);
    forall slot | 0 <= slot < |s'.mgr.monitors| ensures StoredAgrees(s', slot) {
      assert slot < |s.mgr.monitors| ==> StoredAgrees(s, slot);
    }
  }

  lemma LockKeepsInv(s: Sys)
    requires SysInv(s)
    ensures SysInv(Take(s, TakeLock))
  {
    var s' := Take(s, TakeLock);
    if s'.dispatch.Firing? && !s.dispatch.Firing? {
      var slot, idle := s.dispatch.slot, s.dispatch.idle;
      MarkIdleKeepsInv(s.mgr, slot, idle);
      assert MonitorOk(s.mgr.monitors[slot], slot) && StoredAgrees(s, slot);
      forall k | 0 <= k < |s'.mgr.monitors| ensures StoredAgrees(s', k) {
        assert StoredAgrees(s, k);
      }
      forall id | id == 0 || id > |s'.mgr.monitors| ensures Decided(s', id) == 0 {
        assert Decided(s, id) == 0;
      }
    } else {
      assert forall id :: Decided(s', id) == Decided(s, id);
      forall k | 0 <= k < |s'.mgr.monitors| ensures StoredAgrees(s', k) {
        assert StoredAgrees(s, k);
      }
    }
  }

  lemma CallbackKeepsInv(s: Sys)
    requires SysInv(s)
    ensures SysInv(Take(s, RunCallback))
  {
    var s' := Take(s, RunCallback);
    if s.dispatch.Firing? {
      var e := (s.dispatch.id, s.dispatch.idle);
      forall id ensures Alternates(s'.log, id) && Decided(s', id) == Decided(s, id) {
        CallbackKeepsAlternation(s.log, e, id);
      }
      forall k | 0 <= k < |s'.mgr.monitors| ensures StoredAgrees(s', k) {
        assert StoredAgrees(s, k);
      }
    }
  }

  lemma TakeKeepsInv(s: Sys, step: Step)
    requires SysInv(s)
    ensures SysInv(Take(s, step))
  {
    match step {
      case Api(call, display) => ApiKeepsInv(s, call, display);
      case Deliver(slot, idle) =>
        var s' := Take(s, step);
        forall k | 0 <= k < |s'.mgr.monitors| ensures StoredAgrees(s', k) {
          assert StoredAgrees(s, k);
        }
        forall id ensures Decided(s', id) == Decided(s, id) {}
      case TakeLock => LockKeepsInv(s);
      case RunCallback => CallbackKeepsInv(s);
    }
  }

  ghost function Reach(steps: seq<Step>): (s: Sys)
    ensures SysInv(s)
  {
    if steps == [] then
      assert forall id :: Decided(START, id) == 0;
      START
    else
      var s := Reach(steps[..|steps| - 1]);
      TakeKeepsInv(s, steps[|steps| - 1]);
      Take(s, steps[|steps| - 1])
  }

  /** The last callback for `id` among the first `n`, or false when there was none. */
  function LastCall(log: seq<(nat, bool)>, n: nat, id: nat): bool
    requires n <= |log|
  {
    if n == 0 then false else if log[n - 1].0 == id then log[n - 1].1 else LastCall(log, n - 1, id)
  }

  lemma {:induction false} LastCallParity(log: seq<(nat, bool)>, n: nat, id: nat)
    requires n <= |log| && Alternates(log, id)
    ensures LastCall(log, n, id) == (CallsFor(log, n, id) % 2 == 1)
  {
    if n > 0 {
      LastCallParity(log, n - 1, id);
    }
  }

  /** Main result: for every order of events and calls, the callbacks of each id alternate,
      starting with idle; and whenever none is under way, the last one is the stored state,
      also across disabling, enabling and destroying the monitor. */
  lemma CallbacksAlternate(steps: seq<Step>, id: nat)
    ensures Alternates(Reach(steps).log, id)
    ensures var s := Reach(steps);
            !s.dispatch.Firing? && 1 <= id <= |s.mgr.monitors| ==>
              s.mgr.monitors[id - 1].isIdle == LastCall(s.log, |s.log|, id)
  {
    var s := Reach(steps);
    LastCallParity(s.log, |s.log|, id);
    if 1 <= id <= |s.mgr.monitors| {
      assert StoredAgrees(s, id - 1);
    }
  }

  // ------------------------------------------------------------------
  // Callbacks after a monitor is destroyed
  // ------------------------------------------------------------------

  ghost function Continue(s: Sys, steps: seq<Step>): (s': Sys)
    requires SysInv(s)
    ensures SysInv(s')
    decreases |steps|
  {
    if steps == [] then s
    else
      TakeKeepsInv(s, steps[0]);
      Continue(Take(s, steps[0]), steps[1..])
  }

  /** The dispatch thread is past its look at the manager pointer, with a change to report. */
  predicate Underway(s: Sys, id: nat)
    requires 1 <= id <= |s.mgr.monitors|
  {
    || (s.dispatch.Firing? && s.dispatch.id == id)
    || (s.dispatch.Armed? && s.dispatch.slot == id - 1 && s.dispatch.idle != s.mgr.monitors[id - 1].isIdle)
  }

  ghost predicate Gone(s: Sys, id: nat) {
    1 <= id <= |s.mgr.monitors| && s.mgr.monitors[id - 1].deleted
  }

  lemma GoneStaysGone(s: Sys, step: Step, id: nat)
    requires SysInv(s) && Gone(s, id) && !Underway(s, id)
    ensures SysInv(Take(s, step)) && Gone(Take(s, step), id) && !Underway(Take(s, step), id)
    ensures Decided(Take(s, step), id) == Decided(s, id)
  {
    TakeKeepsInv(s, step);
    assert MonitorOk(s.mgr.monitors[id - 1], id - 1);
    match step {
      case Api(call, display) =>
        DoGrows(s.mgr, call, display);
        assert MonitorStays(s.mgr.monitors[id - 1], Do(s.mgr, call, display).monitors[id - 1]);
      case TakeLock =>
        if s.dispatch.Armed? && s.dispatch.slot < |s.mgr.monitors| {
          assert MonitorOk(s.mgr.monitors[s.dispatch.slot], s.dispatch.slot);
        }
      case RunCallback =>
        if s.dispatch.Firing? {
          var e := (s.dispatch.id, s.dispatch.idle);
          CallbackKeepsAlternation(s.log, e, id);
        }
      case _ =>
    }
  }

  lemma {:induction false} SilentOnceGone(s: Sys, steps: seq<Step>, id: nat)
    requires SysInv(s) && Gone(s, id) && !Underway(s, id)
    ensures Decided(Continue(s, steps), id) == Decided(s, id)
    decreases |steps|
  {
    if steps != [] {
      GoneStaysGone(s, steps[0], id);
      SilentOnceGone(Take(s, steps[0]), steps[1..], id);
    }
  }

  function CallsMade(s: Sys, id: nat): nat { CallsFor(s.log, |s.log|, id) }

  lemma ContinueTwo(s: Sys, first: Step, second: Step)
    requires SysInv(s)
    ensures SysInv(Take(s, first)) && Continue(s, [first, second]) == Take(Take(s, first), second)
  {
    TakeKeepsInv(s, first);
    var s1 := Take(s, first);
    TakeKeepsInv(s1, second);
    var steps, rest := [first, second], [second];
    assert steps[1..] == rest && rest[1..] == [];
    assert Continue(Take(s1, second), []) == Take(s1, second);
  }

  lemma LockThenCallback(s: Sys, id: nat)
    requires SysInv(s) && 1 <= id <= |s.mgr.monitors| && Underway(s, id)
    ensures SysInv(Take(s, TakeLock)) && CallsMade(Take(Take(s, TakeLock), RunCallback), id) == CallsMade(s, id) + 1
  {
    TakeKeepsInv(s, TakeLock);
    var s1 := Take(s, TakeLock);
    assert MonitorOk(s.mgr.monitors[id - 1], id - 1);
    assert s1.dispatch.Firing? && s1.dispatch.id == id && s1.log == s.log;
    CallbackKeepsAlternation(s.log, (id, s1.dispatch.idle), id);
  }

  /** A destroyed monitor can still call back, and does so exactly when the dispatch thread
      was already past the manager pointer with a change to report. */
  lemma LateCallbackIff(s: Sys, id: nat)
    requires SysInv(s) && Gone(s, id)
    ensures (exists steps :: CallsMade(Continue(s, steps), id) > CallsMade(s, id)) <==> Underway(s, id)
  {
    if Underway(s, id) {
      ContinueTwo(s, TakeLock, RunCallback);
      LockThenCallback(s, id);
      assert CallsMade(Continue(s, [TakeLock, RunCallback]), id) > CallsMade(s, id);
    } else {
      forall steps ensures CallsMade(Continue(s, steps), id) <= CallsMade(s, id) {
        SilentOnceGone(s, steps, id);
        assert Decided(s, id) == CallsMade(s, id);
        assert Decided(Continue(s, steps), id) >= CallsMade(Continue(s, steps), id);
      }
    }
  }

  // ------------------------------------------------------------------
  // A delivery that nothing comes between
  // ------------------------------------------------------------------

  ghost function Delivered(s: Sys, slot: nat, idle: bool): (s': Sys)
    requires SysInv(s)
    ensures SysInv(s')
  {
    TakeKeepsInv(s, Deliver(slot, idle));
    TakeKeepsInv(Take(s, Deliver(slot, idle)), TakeLock);
    TakeKeepsInv(Take(Take(s, Deliver(slot, idle)), TakeLock), RunCallback);
    Take(Take(Take(s, Deliver(slot, idle)), TakeLock), RunCallback)
  }

  /** An event that is delivered undisturbed is stored, and reported under the id of its monitor
      exactly if it is news; an event for a monitor without a manager does nothing. */
  lemma DeliveryTakesEffect(s: Sys, slot: nat, idle: bool)
    requires SysInv(s) && s.dispatch.Ready? && slot < |s.mgr.monitors|
    ensures var ms, s' := s.mgr.monitors, Delivered(s, slot, idle);
            if !ms[slot].attached then s' == s
            else
              && s' == s.(mgr := s'.mgr, log := s'.log)
              && s'.mgr == s.mgr.(monitors := ms[slot := ms[slot].(isIdle := idle)])
              && s'.log == if ms[slot].isIdle == idle then s.log else s.log + [(slot + 1, idle)]
  {
    TakeKeepsInv(s, Deliver(slot, idle));
    var ms := s.mgr.monitors;
    assert MonitorOk(ms[slot], slot);
    if ms[slot].isIdle == idle {
      assert ms[slot := ms[slot].(isIdle := idle)] == ms;
    }
  }

  // ------------------------------------------------------------------
  // A late callback does happen
  // ------------------------------------------------------------------

  /** A monitor is created and goes idle; before its event gets the mutex it is destroyed. */
  const LATE_STEPS := [Api(MonitorCreate(1, 0, 1), ALL_THERE), Deliver(0, true), Api(MonitorDestroy(1), ALL_THERE)]

  lemma ReachNext(steps: seq<Step>, n: nat)
    requires n < |steps|
    ensures Reach(steps[..n + 1]) == Take(Reach(steps[..n]), steps[n])
  {
    assert steps[..n + 1][..n] == steps[..n];
  }

  lemma CreatedFirst()
    ensures var s := Do(FRESH, MonitorCreate(1, 0, 1), ALL_THERE);
            |s.monitors| == 1 && s.monitors[0].attached && !s.monitors[0].isIdle && s.monitors[0].id == 1
  {
  }

  /** The event for monitor 1 is under way to the mutex, and the monitor is in use. */
  ghost predicate OnItsWay(s: Sys) {
    && SysInv(s) && s.dispatch == Armed(0, true)
    && |s.mgr.monitors| == 1 && !s.mgr.monitors[0].deleted && !s.mgr.monitors[0].isIdle
  }

  lemma IdledOnItsWay()
    ensures OnItsWay(Reach(LATE_STEPS[..2]))
  {
    CreatedFirst();
    assert Reach(LATE_STEPS[..0]) == START;
    ReachNext(LATE_STEPS, 0);
    ReachNext(LATE_STEPS, 1);
  }

  lemma DestroyedMeanwhile(s: Sys)
    requires OnItsWay(s)
    ensures var s' := Take(s, Api(MonitorDestroy(1), ALL_THERE)); Gone(s', 1) && Underway(s', 1)
  {
    assert MonitorOk(s.mgr.monitors[0], 0);
    assert MonitorSlot(s.mgr, 1) == Some(0);
  }

  lemma LateCallbackHappens()
    ensures Gone(Reach(LATE_STEPS), 1) && Underway(Reach(LATE_STEPS), 1)
  {
    IdledOnItsWay();
    ReachNext(LATE_STEPS, 2);
    assert LATE_STEPS[..3] == LATE_STEPS;
    DestroyedMeanwhile(Reach(LATE_STEPS[..2]));
  }
}
