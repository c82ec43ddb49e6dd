/** Broadcasting (`broadcast_event`, `build_state_dump` in `src/server/server.c`): the event thread and the idle
    manager's dispatch thread, each under `clients_mu`; every message reads the three cached arrays one after the
    other, each under a lock of its own. Only the event thread writes the cache, never during its own broadcast. */
module Broadcast {
  import opened Subscribers

  datatype Thread = EventThread | IdleThread

  /** How often each array was written: windows, workspaces, monitors.  With a single writer
      this number identifies the content. */
  type Stamp = s: seq<nat> | |s| == 3 witness [0, 0, 0]

  const NEVER: Stamp := [0, 0, 0]

  /** Where a thread is in `broadcast_event`; `called` is the cache at the call.  The mutex is
      held in the last two. */
  datatype Progress =
    | Away
    | Waiting(called: Stamp)
    | Reading(called: Stamp, read: seq<nat>)            // the arrays read so far, in order
    | Writing(called: Stamp, dump: Stamp, next: nat)    // the next client to write to

  /** One attempt to write a message to a client. */
  datatype Delivery = Delivery(fd: int, dump: Stamp, author: Thread, called: Stamp, written: bool)

  datatype Sys = Sys(cache: Stamp, event: Progress, idle: Progress, clients: seq<int>, log: seq<Delivery>)

  const START := Sys(NEVER, Away, Away, [], [])

  datatype Step =
    | WriteArray(array_: nat)
    | Call(who: Thread)
    | Acquire(who: Thread)
    | ReadArray(who: Thread)
    | Send(who: Thread, written: bool)
    | Release(who: Thread)
    | Subscribe(fd: int)
    | Leave(fd: int)

  function At(s: Sys, who: Thread): Progress { if who.EventThread? then s.event else s.idle }

  function Put(s: Sys, who: Thread, p: Progress): Sys {
    if who.EventThread? then s.(event := p) else s.(idle := p)
  }

  predicate Holds(p: Progress) { p.Reading? || p.Writing? }

  predicate Free(s: Sys) { !Holds(s.event) && !Holds(s.idle) }

  /** A step that is not possible in the current state changes nothing. */
  function Take(s: Sys, step: Step): Sys {
    match step
    case WriteArray(a) =>
      if s.event.Away? && a < 3 then s.(cache := s.cache[a := s.cache[a] + 1]) else s
    case Call(who) =>
      if At(s, who).Away? then Put(s, who, Waiting(s.cache)) else s
    case Acquire(who) =>
      var p := At(s, who);
      if !p.Waiting? || !Free(s) then s
      else if s.clients == [] then Put(s, who, Away)
      else Put(s, who, Reading(p.called, []))
    case ReadArray(who) =>
      var p := At(s, who);
      if !p.Reading? || |p.read| >= 3 then s
      else
        var read := p.read + [s.cache[|p.read|]];
        Put(s, who, if |read| == 3 then Writing(p.called, read, 0) else Reading(p.called, read))
    case Send(who, written) =>
      var p := At(s, who);
      if !p.Writing? || p.next >= |s.clients| then s
      else
        Put(s.(log := s.log + [Delivery(s.clients[p.next], p.dump, who, p.called, written)]),
            who, p.(next := p.next + 1))
    case Release(who) =>
      var p := At(s, who);
      if p.Writing? && p.next >= |s.clients| then Put(s, who, Away) else s
    case Subscribe(fd) => if Free(s) then s.(clients := Added(s.clients, fd)) else s
    case Leave(fd) => if Free(s) then s.(clients := Removed(s.clients, fd)) else s
  }

  // ------------------------------------------------------------------
  // Invariant
  // ------------------------------------------------------------------

  /** No array is newer in `a` than in `b`, as far as both have it. */
  ghost predicate NotNewer(a: seq<nat>, b: seq<nat>) {
    forall k :: 0 <= k < |a| && k < |b| ==> a[k] <= b[k]
  }

  ghost predicate LogNotNewer(log: seq<Delivery>, b: seq<nat>) {
    forall i :: 0 <= i < |log| ==> NotNewer(log[i].dump, b)
  }

  ghost predicate Ordered(log: seq<Delivery>) {
    forall i, j :: 0 <= i < j < |log| ==> NotNewer(log[i].dump, log[j].dump)
  }

  /** What the dump of a broadcast may contain: for the event thread the cache at its call, for
      the other one something between the cache at the call and the cache now. */
  ghost predicate DumpOk(s: Sys, who: Thread, called: Stamp, dump: seq<nat>) {
    && |dump| <= 3 && NotNewer(called, dump) && NotNewer(dump, s.cache)
    && (who.EventThread? ==> NotNewer(dump, called))
  }

  ghost predicate ProgressOk(s: Sys, who: Thread) {
    match At(s, who)
    case Away => true
    case Waiting(called) => NotNewer(called, s.cache) && (who.EventThread? ==> called == s.cache)
    case Reading(called, read) =>
      && |read| < 3 && DumpOk(s, who, called, read) && LogNotNewer(s.log, read)
      && NotNewer(called, s.cache) && (who.EventThread? ==> called == s.cache)
    case Writing(called, dump, next) =>
      && DumpOk(s, who, called, dump) && LogNotNewer(s.log, dump)
      && (who.EventThread? ==> called == s.cache)
      && next <= |s.clients| && next <= |s.log|
      && forall j :: 0 <= j < next ==> WrittenTo(s.log[|s.log| - next + j], s.clients[j], who, called, dump)
  }

  predicate WrittenTo(d: Delivery, fd: int, who: Thread, called: Stamp, dump: Stamp) {
    d.fd == fd && d.author == who && d.called == called && d.dump == dump
  }

  ghost predicate Inv(s: Sys) {
    && (!Holds(s.event) || !Holds(s.idle))
    && |s.clients| <= MAX_CLIENTS
    && ProgressOk(s, EventThread) && ProgressOk(s, IdleThread)
    && Ordered(s.log) && LogNotNewer(s.log, s.cache)
    && forall i :: 0 <= i < |s.log| ==> DumpOk(s, s.log[i].author, s.log[i].called, s.log[i].dump)
  }

  // ------------------------------------------------------------------
  // Every step keeps the invariant
  // ------------------------------------------------------------------

  lemma WriteArrayKeepsInv(s: Sys, a: nat)
    requires Inv(s)
    ensures Inv(Take(s, WriteArray(a)))
  {
    var s' := Take(s, WriteArray(a));
    assert NotNewer(s.cache, s'.cache);
    forall i | 0 <= i < |s.log|
      ensures NotNewer(s.log[i].dump, s'.cache) && DumpOk(s', s.log[i].author, s.log[i].called, s.log[i].dump)
    {
      assert DumpOk(s, s.log[i].author, s.log[i].called, s.log[i].dump);
    }
  }

  lemma ReadArrayKeepsInv(s: Sys, who: Thread)
    requires Inv(s)
    ensures Inv(Take(s, ReadArray(who)))
  {
    var s', p := Take(s, ReadArray(who)), At(s, who);
    if p.Reading? {
      assert ProgressOk(s, who);
      var read := p.read + [s.cache[|p.read|]];
      forall i | 0 <= i < |s.log| ensures NotNewer(s.log[i].dump, read) {
        assert NotNewer(s.log[i].dump, p.read) && NotNewer(s.log[i].dump, s.cache);
      }
      assert DumpOk(s', who, p.called, read);
      LogStays(s, s');
    }
  }

  /** Nothing that the log depends on has changed. */
  lemma LogStays(s: Sys, s': Sys)
    requires Inv(s) && s'.log == s.log && s'.cache == s.cache
    ensures Ordered(s'.log) && LogNotNewer(s'.log, s'.cache)
    ensures forall i :: 0 <= i < |s'.log| ==> DumpOk(s', s'.log[i].author, s'.log[i].called, s'.log[i].dump)
  {
    forall i | 0 <= i < |s'.log| ensures DumpOk(s', s'.log[i].author, s'.log[i].called, s'.log[i].dump) {
      assert DumpOk(s, s.log[i].author, s.log[i].called, s.log[i].dump);
    }
  }

  lemma SendKeepsInv(s: Sys, who: Thread, written: bool)
    requires Inv(s)
    ensures Inv(Take(s, Send(who, written)))
  {
    var s', p := Take(s, Send(who, written)), At(s, who);
    if p.Writing? && p.next < |s.clients| {
      assert ProgressOk(s, who);
      var d := Delivery(s.clients[p.next], p.dump, who, p.called, written);
      assert s' == Put(s.(log := s.log + [d]), who, p.(next := p.next + 1));
      SendKeepsProgress(s, who, d);
      SendKeepsLog(s, s', d, p.dump);
    }
  }

  lemma SendKeepsLog(s: Sys, s': Sys, d: Delivery, dump: Stamp)
    requires Ordered(s.log) && LogNotNewer(s.log, dump) && s'.log == s.log + [d] && s'.cache == s.cache
    requires forall i :: 0 <= i < |s.log| ==> DumpOk(s, s.log[i].author, s.log[i].called, s.log[i].dump)
    requires d.dump == dump && DumpOk(s, d.author, d.called, dump)
    ensures Ordered(s'.log) && LogNotNewer(s'.log, s'.cache)
    ensures forall i :: 0 <= i < |s'.log| ==> DumpOk(s', s'.log[i].author, s'.log[i].called, s'.log[i].dump)
  {
    forall i | 0 <= i < |s'.log|
      ensures NotNewer(s'.log[i].dump, dump) && DumpOk(s', s'.log[i].author, s'.log[i].called, s'.log[i].dump)
    {
      if i < |s.log| {
        assert DumpOk(s, s.log[i].author, s.log[i].called, s.log[i].dump) && NotNewer(s.log[i].dump, dump);
      }
    }
  }

  lemma SendKeepsProgress(s: Sys, who: Thread, d: Delivery)
    requires ProgressOk(s, EventThread) && ProgressOk(s, IdleThread) && (!Holds(s.event) || !Holds(s.idle))
    requires At(s, who).Writing? && At(s, who).next < |s.clients|
    requires var p := At(s, who); WrittenTo(d, s.clients[p.next], who, p.called, p.dump)
    ensures var s' := Put(s.(log := s.log + [d]), who, At(s, who).(next := At(s, who).next + 1));
            ProgressOk(s', EventThread) && ProgressOk(s', IdleThread)
  {
    var p, log := At(s, who), s.log + [d];
    var next := p.next + 1;
    assert ProgressOk(s, who);
    forall j | 0 <= j < next ensures WrittenTo(log[|log| - next + j], s.clients[j], who, p.called, p.dump) {
      if j < p.next {
        assert WrittenTo(s.log[|s.log| - p.next + j], s.clients[j], who, p.called, p.dump);
      }
    }
    forall i | 0 <= i < |log| ensures NotNewer(log[i].dump, p.dump) {
      if i < |s.log| {
        assert NotNewer(s.log[i].dump, p.dump);
      }
    }
  }

  lemma CallKeepsInv(s: Sys, who: Thread)
    requires Inv(s)
    ensures Inv(Take(s, Call(who)))
  {
    LogStays(s, Take(s, Call(who)));
  }

  lemma AcquireKeepsInv(s: Sys, who: Thread)
    requires Inv(s)
    ensures Inv(Take(s, Acquire(who)))
  {
    LogStays(s, Take(s, Acquire(who)));
  }

  lemma ReleaseKeepsInv(s: Sys, who: Thread)
    requires Inv(s)
    ensures Inv(Take(s, Release(who)))
  {
    LogStays(s, Take(s, Release(who)));
  }

  lemma ListChangeKeepsInv(s: Sys, step: Step)
    requires Inv(s) && (step.Subscribe? || step.Leave?)
    ensures Inv(Take(s, step))
  {
    LogStays(s, Take(s, step));
  }

  lemma TakeKeepsInv(s: Sys, step: Step)
    requires Inv(s)
    ensures Inv(Take(s, step))
  {
    match step {
      case WriteArray(a) => WriteArrayKeepsInv(s, a);
      case ReadArray(who) => ReadArrayKeepsInv(s, who);
      case Send(who, written) => SendKeepsInv(s, who, written);
      case Subscribe(_) => ListChangeKeepsInv(s, step);
      case Leave(_) => ListChangeKeepsInv(s, step);
      case Call(who) => CallKeepsInv(s, who);
      case Acquire(who) => AcquireKeepsInv(s, who);
      case Release(who) => ReleaseKeepsInv(s, who);
    }
  }

  function Reach(steps: seq<Step>): Sys {
    if steps == [] then START else Take(Reach(steps[..|steps| - 1]), steps[|steps| - 1])
  }

  lemma {:induction false} ReachKeepsInv(steps: seq<Step>)
    ensures Inv(Reach(steps))
  {
    if steps != [] {
      ReachKeepsInv(steps[..|steps| - 1]);
      TakeKeepsInv(Reach(steps[..|steps| - 1]), steps[|steps| - 1]);
    }
  }

  // ------------------------------------------------------------------
  // Main results
  // ------------------------------------------------------------------

  /** No subscriber ever sees an array go back: of any two messages the later one carries, for
      each array, a state that is not older. */
  lemma VersionsNeverDecrease(steps: seq<Step>, i: nat, j: nat)
    requires i < j < |Reach(steps).log|
    ensures forall k :: 0 <= k < 3 ==> Reach(steps).log[i].dump[k] <= Reach(steps).log[j].dump[k]
  {
    ReachKeepsInv(steps);
    assert NotNewer(Reach(steps).log[i].dump, Reach(steps).log[j].dump);
  }

  /** A message about a compositor event carries exactly the cache after that event; a message
      about an idle monitor carries, for each array, something between the cache when the
      callback began and the cache now. */
  lemma EventCarriesItsCache(steps: seq<Step>, i: nat)
    requires i < |Reach(steps).log|
    ensures var d := Reach(steps).log[i];
            && (d.author.EventThread? ==> d.dump == d.called)
            && forall k :: 0 <= k < 3 ==> d.called[k] <= d.dump[k] <= Reach(steps).cache[k]
  {
    ReachKeepsInv(steps);
    var s := Reach(steps);
    var d := s.log[i];
    assert DumpOk(s, d.author, d.called, d.dump);
  }

  /** When a broadcast has gone through the list, it has written one and the same dump to
      every subscriber, in list order and with no other message in between. */
  lemma WholeListServed(steps: seq<Step>, who: Thread)
    requires var s := Reach(steps); At(s, who).Writing? && At(s, who).next == |s.clients|
    ensures var s, p := Reach(steps), At(Reach(steps), who);
            && |s.clients| <= |s.log|
            && forall j :: 0 <= j < |s.clients| ==>
                 WrittenTo(s.log[|s.log| - |s.clients| + j], s.clients[j], who, p.called, p.dump)
  {
    ReachKeepsInv(steps);
    ListServed(Reach(steps), who);
  }

  lemma ListServed(s: Sys, who: Thread)
    requires ProgressOk(s, who) && At(s, who).Writing? && At(s, who).next == |s.clients|
    ensures |s.clients| <= |s.log|
    ensures var p := At(s, who);
            forall j :: 0 <= j < |s.clients| ==>
              WrittenTo(s.log[|s.log| - |s.clients| + j], s.clients[j], who, p.called, p.dump)
  {
  }

  // ------------------------------------------------------------------
  // The mutex comes free again
  // ------------------------------------------------------------------

  /** Exactly one step gives the mutex back: the release by its holder behind the last client. */
  lemma FreedIff(s: Sys, step: Step, who: Thread)
    requires Inv(s) && Holds(At(s, who))
    ensures Free(Take(s, step)) <==>
            step == Release(who) && At(s, who).Writing? && At(s, who).next == |s.clients|
  {
  }

  /** Nobody holds the mutex for an empty list. */
  lemma {:induction false} HeldForSomebody(steps: seq<Step>)
    ensures !Free(Reach(steps)) ==> Reach(steps).clients != []
  {
    if steps != [] {
      HeldForSomebody(steps[..|steps| - 1]);
    }
  }

  /** The thread has not read more than there is, nor written to more clients than are listed. */
  predicate Sound(s: Sys, who: Thread) {
    match At(s, who)
    case Reading(_, read) => |read| < 3
    case Writing(_, _, next) => next <= |s.clients|
    case _ => true
  }

  /** What the holder of the mutex still has to do. */
  function Remaining(s: Sys, who: Thread): seq<Step>
    requires Sound(s, who)
  {
    match At(s, who)
    case Reading(_, read) => Reads(who, 3 - |read|) + Sends(who, |s.clients|)
    case Writing(_, _, next) => Sends(who, |s.clients| - next)
    case _ => []
  }

  function Reads(who: Thread, n: nat): seq<Step> {
    if n == 0 then [] else [ReadArray(who)] + Reads(who, n - 1)
  }

  function Sends(who: Thread, n: nat): seq<Step> {
    if n == 0 then [Release(who)] else [Send(who, true)] + Sends(who, n - 1)
  }

  function Continue(s: Sys, steps: seq<Step>): Sys
    decreases |steps|
  {
    if steps == [] then s else Continue(Take(s, steps[0]), steps[1..])
  }

  lemma {:induction false} ContinueConcat(s: Sys, a: seq<Step>, b: seq<Step>)
    ensures Continue(s, a + b) == Continue(Continue(s, a), b)
    decreases |a|
  {
    if a == [] {
      assert a + b == b;
    } else {
      assert (a + b)[1..] == a[1..] + b;
      ContinueConcat(Take(s, a[0]), a[1..], b);
    }
  }

  /** The thread is away, and the last `n` clients of the list have got its message, in order. */
  ghost predicate Served(s: Sys, s': Sys, who: Thread, called: Stamp, dump: Stamp, n: nat)
    requires n <= |s.clients|
  {
    && s' == Put(s.(log := s'.log), who, Away) && |s'.log| == |s.log| + n && s'.log[..|s.log|] == s.log
    && forall k :: |s.log| <= k < |s'.log| ==>
         s'.log[k] == Delivery(s.clients[|s.clients| - n + (k - |s.log|)], dump, who, called, true)
  }

  lemma {:induction false} SendsServe(s: Sys, who: Thread, n: nat)
    requires At(s, who).Writing? && n <= |s.clients| && At(s, who).next == |s.clients| - n
    ensures Served(s, Continue(s, Sends(who, n)), who, At(s, who).called, At(s, who).dump, n)
    decreases n
  {
    var steps := Sends(who, n);
    if n == 0 {
      assert steps == [Release(who)] && steps[1..] == [];
      assert Continue(s, steps) == Take(s, Release(who));
    } else {
      assert steps[1..] == Sends(who, n - 1);
      SendsServe(Take(s, Send(who, true)), who, n - 1);
    }
  }

  lemma {:induction false} ReadsFinish(s: Sys, who: Thread)
    requires At(s, who).Reading? && |At(s, who).read| < 3
    ensures var p, s' := At(s, who), Continue(s, Reads(who, 3 - |At(s, who).read|));
            && At(s', who).Writing? && At(s', who).called == p.called && At(s', who).next == 0
            && s' == Put(s, who, At(s', who))
            && forall k :: 0 <= k < 3 ==> At(s', who).dump[k] == if k < |p.read| then p.read[k] else s.cache[k]
    decreases 3 - |At(s, who).read|
  {
    var n := 3 - |At(s, who).read|;
    var steps := Reads(who, n);
    assert steps[0] == ReadArray(who) && steps[1..] == Reads(who, n - 1);
    var s1 := Take(s, ReadArray(who));
    if n > 1 {
      ReadsFinish(s1, who);
    } else {
      assert Reads(who, 0) == [];
    }
  }

  /** How many clients the holder still has to serve. */
  function Unserved(s: Sys, who: Thread): (n: nat)
    requires Sound(s, who)
    ensures n <= |s.clients|
  {
    if At(s, who).Writing? then |s.clients| - At(s, who).next else |s.clients|
  }

  lemma WriterFinishes(s: Sys, who: Thread)
    requires At(s, who).Writing? && Sound(s, who)
    ensures Served(s, Continue(s, Remaining(s, who)), who, At(s, who).called, At(s, who).dump, Unserved(s, who))
  {
    SendsServe(s, who, |s.clients| - At(s, who).next);
  }

  lemma ReaderFinishes(s: Sys, who: Thread) returns (dump: Stamp)
    requires At(s, who).Reading? && Sound(s, who)
    ensures Served(s, Continue(s, Remaining(s, who)), who, At(s, who).called, dump, |s.clients|)
  {
    var p, n := At(s, who), |s.clients|;
    var first := Reads(who, 3 - |p.read|);
    ReadsFinish(s, who);
    ContinueConcat(s, first, Sends(who, n));
    var s1 := Continue(s, first);
    dump := At(s1, who).dump;
    SendsServe(s1, who, n);
    ServedFromStart(s, s1, Continue(s1, Sends(who, n)), who, p.called, dump);
  }

  lemma ServedFromStart(s: Sys, s1: Sys, s': Sys, who: Thread, called: Stamp, dump: Stamp)
    requires s1 == Put(s, who, At(s1, who)) && Served(s1, s', who, called, dump, |s1.clients|)
    ensures Served(s, s', who, called, dump, |s.clients|)
  {
  }

  /** Main result: from every reachable state the holder of the mutex can go on without help: it
      serves every client that is still to be served with one message, and gives the mutex back. */
  lemma MutexComesFree(steps: seq<Step>, who: Thread) returns (called: Stamp, dump: Stamp)
    requires Holds(At(Reach(steps), who))
    ensures var s := Reach(steps);
            Sound(s, who) && Served(s, Continue(s, Remaining(s, who)), who, called, dump, Unserved(s, who))
    ensures Free(Put(Reach(steps), who, Away))
  {
    ReachKeepsInv(steps);
    IsSound(Reach(steps), who);
    var s := Reach(steps);
    called := At(s, who).called;
    if At(s, who).Reading? {
      dump := ReaderFinishes(s, who);
    } else {
      dump := At(s, who).dump;
      WriterFinishes(s, who);
    }
  }

  lemma IsSound(s: Sys, who: Thread)
    requires Inv(s) && Holds(At(s, who))
    ensures Sound(s, who) && Free(Put(s, who, Away))
  {
    assert ProgressOk(s, who);
  }

  lemma ReachNext(steps: seq<Step>, n: nat)
    requires n < |steps|
    ensures Reach(steps[..n + 1]) == Take(Reach(steps[..n]), steps[n])
  {
    assert steps[..n + 1][..n] == steps[..n];
  }

  predicate Accepts(s: Sys, step: Step, fd: int) {
    step == Subscribe(fd) && Free(s) && |s.clients| < MAX_CLIENTS
  }

  predicate Departs(s: Sys, step: Step, fd: int) { step == Leave(fd) && Free(s) && fd in s.clients }

  /** How often the client was put on the list, and taken off it. */
  function Accepted(steps: seq<Step>, fd: int): nat {
    if steps == [] then 0
    else
      var before := steps[..|steps| - 1];
      Accepted(before, fd) + if Accepts(Reach(before), steps[|steps| - 1], fd) then 1 else 0
  }

  function Departed(steps: seq<Step>, fd: int): nat {
    if steps == [] then 0
    else
      var before := steps[..|steps| - 1];
      Departed(before, fd) + if Departs(Reach(before), steps[|steps| - 1], fd) then 1 else 0
  }

  function Listed(s: Sys, fd: int): nat { multiset(s.clients)[fd] }

  lemma StepCounts(s: Sys, step: Step, fd: int)
    ensures Accepts(s, step, fd) ==> Listed(Take(s, step), fd) == Listed(s, fd) + 1
    ensures Departs(s, step, fd) ==> Listed(Take(s, step), fd) == Listed(s, fd) - 1
    ensures !Accepts(s, step, fd) && !Departs(s, step, fd) ==> Listed(Take(s, step), fd) == Listed(s, fd)
  {
    match step {
      case Leave(other) => RemovedCounts(s.clients, other, fd);
      case Subscribe(other) => AddedCounts(s.clients, other, fd);
      case _ => ListStays(s, step);
    }
  }

  lemma ListStays(s: Sys, step: Step)
    requires !step.Subscribe? && !step.Leave?
    ensures Take(s, step).clients == s.clients
  {
  }

  /** After any run a client is on the list as often as it was accepted and has not departed; so
      it is served exactly while it has departed less often. */
  lemma {:induction false} ListedIsAcceptedLessDeparted(steps: seq<Step>, fd: int)
    ensures Listed(Reach(steps), fd) == Accepted(steps, fd) - Departed(steps, fd)
    ensures fd in Reach(steps).clients <==> Accepted(steps, fd) > Departed(steps, fd)
  {
    if steps != [] {
      var before := steps[..|steps| - 1];
      ListedIsAcceptedLessDeparted(before, fd);
      StepCounts(Reach(before), steps[|steps| - 1], fd);
    }
  }

  lemma ReachThree(a: Step, b: Step, c: Step)
    ensures Reach([a, b, c]) == Take(Take(Take(START, a), b), c)
  {
    var one, two, three := [a], [a, b], [a, b, c];
    assert three[..2] == two && two[..1] == one && one[..0] == [];
    assert Reach(one) == Take(START, a) && Reach(two) == Take(Reach(one), b);
  }

  lemma JoinsTwice(fd: int)
    ensures Take(Take(START, Subscribe(fd)), Subscribe(fd)) == START.(clients := [fd, fd])
  {
    var none: seq<int> := [];
    assert none + [fd] == [fd] && [fd] + [fd] == [fd, fd];
  }

  /** A client that subscribes twice and leaves once is still served. */
  lemma LeavesOneBehind(fd: int)
    ensures Reach([Subscribe(fd), Subscribe(fd), Leave(fd)]).clients == [fd]
  {
    ReachThree(Subscribe(fd), Subscribe(fd), Leave(fd));
    JoinsTwice(fd);
    assert Removed([fd, fd], fd) == [fd] by { assert First([fd, fd], fd) == 0; }
  }

  /** A refresh that falls into an idle monitor's broadcast. */
  function TearingSteps(fd: int): seq<Step> {
    [Subscribe(fd), Call(IdleThread), Acquire(IdleThread), ReadArray(IdleThread), WriteArray(0), WriteArray(1),
     ReadArray(IdleThread), ReadArray(IdleThread), Send(IdleThread, true)]
  }

  function TearingState(fd: int, n: nat): Sys {
    var s1 := START.(clients := [fd]);
    var s6 := s1.(cache := [1, 1, 0], idle := Reading(NEVER, [0]));
    match n
    case 0 => START
    case 1 => s1
    case 2 => s1.(idle := Waiting(NEVER))
    case 3 => s1.(idle := Reading(NEVER, []))
    case 4 => s1.(idle := Reading(NEVER, [0]))
    case 5 => s6.(cache := [1, 0, 0])
    case 6 => s6
    case 7 => s6.(idle := Reading(NEVER, [0, 1]))
    case 8 => s6.(idle := Writing(NEVER, [0, 1, 0], 0))
    case _ => s6.(idle := Writing(NEVER, [0, 1, 0], 1), log := [Delivery(fd, [0, 1, 0], IdleThread, NEVER, true)])
  }

  lemma ReadsNext(s: Sys, called: Stamp, read: seq<nat>, r: seq<nat>)
    requires s.idle == Reading(called, read) && |r| == |read| + 1 <= 3
    requires r[|read|] == s.cache[|read|] && forall k :: 0 <= k < |read| ==> r[k] == read[k]
    ensures Take(s, ReadArray(IdleThread)) == s.(idle := if |r| == 3 then Writing(called, r, 0) else Reading(called, r))
  {
    assert r == read + [s.cache[|read|]];
  }

  lemma TearingNext(fd: int, n: nat)
    requires n < 9
    ensures TearingState(fd, n + 1) == Take(TearingState(fd, n), TearingSteps(fd)[n])
  {
    match n {
      case 3 => ReadsNext(TearingState(fd, 3), NEVER, [], [0]);
      case 6 => ReadsNext(TearingState(fd, 6), NEVER, [0], [0, 1]);
      case 7 => ReadsNext(TearingState(fd, 7), NEVER, [0, 1], [0, 1, 0]);
      case _ =>
    }
  }

  lemma {:induction false} TearingReached(fd: int, n: nat)
    requires n <= 9
    ensures Reach(TearingSteps(fd)[..n]) == TearingState(fd, n)
  {
    if n > 0 {
      TearingReached(fd, n - 1);
      TearingNext(fd, n - 1);
      ReachNext(TearingSteps(fd), n - 1);
    }
  }

  lemma NotBothAtOnce(fd: int, n: nat)
    ensures TearingState(fd, n).cache[0] == 0 ==> TearingState(fd, n).cache[1] == 0
  {
  }

  /** The three arrays of an idle monitor's message need not belong together: there is a run
      whose message shows a state that the cache was in at no time. */
  lemma TornMessage(fd: int)
    ensures var steps := TearingSteps(fd);
            && |Reach(steps).log| == 1
            && forall n :: 0 <= n <= |steps| ==> Reach(steps[..n]).cache != Reach(steps).log[0].dump
  {
    var steps := TearingSteps(fd);
    TearingReached(fd, 9);
    assert steps[..9] == steps;
    var dump := Reach(steps).log[0].dump;
    assert dump[0] == 0 && dump[1] == 1;
    forall n | 0 <= n <= |steps| ensures Reach(steps[..n]).cache != dump {
      TearingReached(fd, n);
      NotBothAtOnce(fd, n);
    }
  }
}
