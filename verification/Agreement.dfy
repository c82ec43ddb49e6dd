/** A compositor that opens and closes windows and queues events, and one event thread that consumes the queue and now
    and then replaces its list by a snapshot (`event_callback` and `server_init_cache` in `src/server/server.c`). A
    snapshot shows the compositor as it is when the request is answered, which may be ahead of the queue. */
module Agreement {
  import opened Wrappers
  import opened WindowList

  /** A queued event, by what it does to the cached window list. */
  datatype Event =
    | Opened(window: Window)
    | Closed(id: string)
    | Focused(id: string)
    | Edited(id: string, edit: Edit)
    | Silent                          // broadcast only
    | Refresh                         // takes a new snapshot

  /** Where the event thread is; the answer is the snapshot, or None when listing failed. */
  datatype Phase =
    | Waiting
    | Listed(answer: Option<seq<Window>>)
    | Installed

  /** `open` and `queue` belong to the compositor, `cache` and `phase` to the daemon.  The rest
      is bookkeeping for the proofs: `base` is the set that was open when the head of the
      queue was emitted; `synced` tells whether a snapshot has been taken since the stream was
      attached; `racing` are the windows of the latest snapshot that were not open at the head
      of the queue. */
  datatype Sys = Sys(
    open: set<string>,
    queue: seq<Event>,
    cache: seq<Window>,
    phase: Phase,
    base: set<string>,
    synced: bool,
    racing: set<string>
  )

  // ------------------------------------------------------------------
  // Steps
  // ------------------------------------------------------------------

  function Advance(base: set<string>, e: Event): set<string> {
    match e
    case Opened(w) => base + {w.id}
    case Closed(id) => base - {id}
    case _ => base
  }

  /** The cache after one event that does not refresh. */
  function Consume(ws: seq<Window>, e: Event): seq<Window> {
    match e
    case Opened(w) => ws + [w]
    case Closed(id) => RemoveFirst(ws, id)
    case Focused(id) => Focus(ws, id)
    case Edited(id, edit) => EditFirst(ws, id, edit)
    case Silent => ws
    case Refresh => ws
  }

  /** A snapshot lists every open window once, none of them marked as focused. */
  ghost predicate IsSnapshot(ws: seq<Window>, open: set<string>) {
    && (forall x :: Count(ws, x) == if x in open then 1 else 0)
    && (forall w :: w in ws ==> !w.focused)
  }

  ghost predicate WindowOpens(s: Sys, s': Sys, w: Window) {
    && w.id !in s.open && !w.focused
    && s' == s.(open := s.open + {w.id}, queue := s.queue + [Opened(w)])
  }

  ghost predicate WindowCloses(s: Sys, s': Sys, id: string) {
    && id in s.open
    && s' == s.(open := s.open - {id}, queue := s.queue + [Closed(id)])
  }

  /** Any other event: focus, title, workspace, monitor, configuration, or one not known. */
  ghost predicate OtherEvent(s: Sys, s': Sys, e: Event) {
    && !e.Opened? && !e.Closed?
    && s' == s.(queue := s.queue + [e])
  }

  ghost predicate ConsumeEvent(s: Sys, s': Sys) {
    && s.phase.Waiting? && s.queue != [] && !s.queue[0].Refresh?
    && s' == s.(queue := s.queue[1..], cache := Consume(s.cache, s.queue[0]), base := Advance(s.base, s.queue[0]))
  }

  /** The listing request is answered with what is open now, or fails. */
  ghost predicate ListWindows(s: Sys, s': Sys, answer: Option<seq<Window>>) {
    && s.phase.Waiting? && s.queue != [] && s.queue[0].Refresh?
    && (answer.Some? ==> IsSnapshot(answer.value, s.open))
    && s' == s.(queue := s.queue[1..], phase := Listed(answer),
                synced := s.synced || answer.Some?,
                racing := if answer.Some? then s.open - s.base else s.racing)
  }

  ghost predicate Install(s: Sys, s': Sys) {
    && s.phase.Listed?
    && s' == s.(phase := Installed, cache := if s.phase.answer.Some? then s.phase.answer.value else s.cache)
  }

  /** The active window, if one is reported, is marked. */
  ghost predicate MarkActive(s: Sys, s': Sys, active: Option<string>) {
    && s.phase.Installed?
    && s' == s.(phase := Waiting, cache := if active.Some? then Focus(s.cache, active.value) else s.cache)
  }

  ghost predicate Next(s: Sys, s': Sys) {
    || (exists w :: WindowOpens(s, s', w))
    || (exists id :: WindowCloses(s, s', id))
    || (exists e :: OtherEvent(s, s', e))
    || ConsumeEvent(s, s')
    || (exists answer :: ListWindows(s, s', answer))
    || Install(s, s')
    || (exists active :: MarkActive(s, s', active))
  }

  /** The event stream has just been attached; the cache is whatever was listed before. */
  ghost predicate Init(s: Sys) {
    && s.queue == [] && s.phase.Waiting? && s.base == s.open && !s.synced && s.racing == {}
    && exists f :: OnlyFocused(s.cache, f)
  }

  ghost predicate NextAt(run: seq<Sys>, i: nat)
    requires i + 1 < |run|
  {
    Next(run[i], run[i + 1])
  }

  ghost predicate IsRun(run: seq<Sys>) {
    |run| > 0 && Init(run[0]) && forall i :: 0 <= i < |run| - 1 ==> NextAt(run, i)
  }

  // ------------------------------------------------------------------
  // Draining the queue
  // ------------------------------------------------------------------

  /** The list that counts: a snapshot on its way in replaces the cache. */
  function Current(s: Sys): seq<Window> {
    if s.phase.Listed? && s.phase.answer.Some? then s.phase.answer.value else s.cache
  }

  /** Consuming the whole queue, with refreshes that change nothing. */
  function Drain(ws: seq<Window>, queue: seq<Event>): seq<Window>
    decreases |queue|
  {
    if queue == [] then ws else Drain(Consume(ws, queue[0]), queue[1..])
  }

  /** How an event changes the number of entries of `x`. */
  function Tally(n: nat, e: Event, x: string): nat {
    match e
    case Opened(w) => if w.id == x then n + 1 else n
    case Closed(id) => if id == x then CountAfterClose(n) else n
    case _ => n
  }

  function DrainTally(n: nat, queue: seq<Event>, x: string): nat
    decreases |queue|
  {
    if queue == [] then n else DrainTally(Tally(n, queue[0], x), queue[1..], x)
  }

  lemma CountConsume(ws: seq<Window>, e: Event, x: string)
    ensures Count(Consume(ws, e), x) == Tally(Count(ws, x), e, x)
  {
    match e
    case Opened(w) => CountAdd(ws, w, x);
    case Closed(id) => CountRemoveFirst(ws, id, x);
    case Focused(id) => CountFocus(ws, id, x);
    case Edited(id, edit) => CountEditFirst(ws, id, edit, x);
    case _ =>
  }

  lemma {:induction false} CountDrain(ws: seq<Window>, queue: seq<Event>, x: string)
    ensures Count(Drain(ws, queue), x) == DrainTally(Count(ws, x), queue, x)
    decreases |queue|
  {
    if queue != [] {
      CountConsume(ws, queue[0], x);
      CountDrain(Consume(ws, queue[0]), queue[1..], x);
    }
  }

  lemma {:induction false} DrainTallySnoc(n: nat, queue: seq<Event>, e: Event, x: string)
    ensures DrainTally(n, queue + [e], x) == Tally(DrainTally(n, queue, x), e, x)
    decreases |queue|
  {
    if queue == [] {
      assert queue + [e] == [e];
      assert DrainTally(Tally(n, e, x), [e][1..], x) == Tally(n, e, x);
    } else {
      assert (queue + [e])[1..] == queue[1..] + [e];
      DrainTallySnoc(Tally(n, queue[0], x), queue[1..], e, x);
    }
  }

  // ------------------------------------------------------------------
  // The queue tells the truth about what happened since its head
  // ------------------------------------------------------------------

  /** The open set after the queued events, started from `base`. */
  function Replay(base: set<string>, queue: seq<Event>): set<string>
    decreases |queue|
  {
    if queue == [] then base else Replay(Advance(base, queue[0]), queue[1..])
  }

  predicate LegalEvent(base: set<string>, e: Event) {
    match e
    case Opened(w) => w.id !in base
    case Closed(id) => id in base
    case _ => true
  }

  predicate Legal(base: set<string>, queue: seq<Event>)
    decreases |queue|
  {
    queue == [] || (LegalEvent(base, queue[0]) && Legal(Advance(base, queue[0]), queue[1..]))
  }

  lemma {:induction false} ReplaySnoc(base: set<string>, queue: seq<Event>, e: Event)
    requires Legal(base, queue) && LegalEvent(Replay(base, queue), e)
    ensures Legal(base, queue + [e]) && Replay(base, queue + [e]) == Advance(Replay(base, queue), e)
    decreases |queue|
  {
    if queue == [] {
      assert queue + [e] == [e];
      assert Replay(Advance(base, e), [e][1..]) == Advance(base, e);
    } else {
      assert (queue + [e])[1..] == queue[1..] + [e];
      ReplaySnoc(Advance(base, queue[0]), queue[1..], e);
    }
  }

  /** Draining a legal queue onto a list in which `x` is as frequent as it is open at the end:
      the count comes out right, plus one exactly for a window that opened within the queue. */
  lemma {:induction false} DrainOntoSnapshot(base: set<string>, queue: seq<Event>, x: string, n: nat)
    requires Legal(base, queue)
    ensures var open := Replay(base, queue);
            && (x !in base ==> DrainTally(n, queue, x) == n + Bit(x in open))
            && (x in base && n > 0 ==> DrainTally(n, queue, x) == n - 1 + Bit(x in open))
            && (x in base && n == 0 && x !in open ==> DrainTally(n, queue, x) == 0)
    decreases |queue|
  {
    if queue != [] {
      DrainOntoSnapshot(Advance(base, queue[0]), queue[1..], x, Tally(n, queue[0], x));
    }
  }

  // ------------------------------------------------------------------
  // Invariant
  // ------------------------------------------------------------------

  ghost predicate QueueTrue(s: Sys) {
    Legal(s.base, s.queue) && Replay(s.base, s.queue) == s.open
  }

  /** After draining, `x` is listed once if it is open, and once more if it raced. */
  predicate AgreesOn(s: Sys, x: string) {
    DrainTally(Count(Current(s), x), s.queue, x) == Bit(x in s.open) + Bit(x in s.racing)
  }

  ghost predicate NoneFocused(ws: seq<Window>) {
    forall w :: w in ws ==> !w.focused
  }

  ghost predicate FocusShared(s: Sys) {
    exists f :: OnlyFocused(s.cache, f)
  }

  ghost predicate EventsUnfocused(queue: seq<Event>) {
    forall i :: 0 <= i < |queue| && queue[i].Opened? ==> !queue[i].window.focused
  }

  ghost predicate Inv(s: Sys) {
    && QueueTrue(s)
    && (s.synced ==> forall x :: AgreesOn(s, x))
    && FocusShared(s) && EventsUnfocused(s.queue)
    && (s.phase.Listed? && s.phase.answer.Some? ==> NoneFocused(s.phase.answer.value))
  }

  lemma EmitKeepsAgreement(s: Sys, s': Sys, e: Event, x: string)
    requires QueueTrue(s) && LegalEvent(s.open, e) && AgreesOn(s, x)
    requires s' == s.(open := Advance(s.open, e), queue := s.queue + [e])
    ensures AgreesOn(s', x)
  {
    DrainTallySnoc(Count(Current(s), x), s.queue, e, x);
  }

  lemma EmitKeepsInv(s: Sys, s': Sys, e: Event)
    requires Inv(s) && LegalEvent(s.open, e) && (e.Opened? ==> !e.window.focused)
    requires s' == s.(open := Advance(s.open, e), queue := s.queue + [e])
    ensures Inv(s')
  {
    ReplaySnoc(s.base, s.queue, e);
    if s.synced {
      forall x ensures AgreesOn(s', x) {
        EmitKeepsAgreement(s, s', e, x);
      }
    }
    assert OnlyFocusedSame(s, s');
  }

  ghost predicate OnlyFocusedSame(s: Sys, s': Sys) {
    forall f :: OnlyFocused(s.cache, f) ==> OnlyFocused(s'.cache, f)
  }

  lemma ConsumeKeepsFocus(ws: seq<Window>, e: Event, f: string) returns (f': string)
    requires OnlyFocused(ws, f) && (e.Opened? ==> !e.window.focused)
    ensures OnlyFocused(Consume(ws, e), f')
  {
    f' := f;
    match e {
      case Opened(w) =>
      case Closed(id) => RemoveFirstSelects(ws, id);
      case Focused(id) => FocusSetsOneId(ws, id); f' := id;
      case Edited(id, edit) => EditKeepsFocus(ws, id, edit, f);
      case _ =>
    }
  }

  lemma ConsumeKeepsInv(s: Sys, s': Sys)
    requires Inv(s) && ConsumeEvent(s, s')
    ensures Inv(s')
  {
    forall x | s.synced ensures AgreesOn(s', x) {
      assert AgreesOn(s, x);
      CountConsume(s.cache, s.queue[0], x);
    }
    var f :| OnlyFocused(s.cache, f);
    var f' := ConsumeKeepsFocus(s.cache, s.queue[0], f);
  }

  lemma ListKeepsInv(s: Sys, s': Sys, answer: Option<seq<Window>>)
    requires Inv(s) && ListWindows(s, s', answer)
    ensures Inv(s')
  {
    forall x | s'.synced ensures AgreesOn(s', x) {
      if answer.Some? {
        DrainOntoSnapshot(s'.base, s'.queue, x, Count(answer.value, x));
      } else {
        assert AgreesOn(s, x);
      }
    }
    var f :| OnlyFocused(s.cache, f);
    assert OnlyFocused(s'.cache, f);
  }

  lemma InstallKeepsInv(s: Sys, s': Sys)
    requires Inv(s) && Install(s, s')
    ensures Inv(s')
  {
    forall x | s'.synced ensures AgreesOn(s', x) {
      assert AgreesOn(s, x);
    }
    var f :| OnlyFocused(s.cache, f);
    assert OnlyFocused(s'.cache, f);
  }

  lemma MarkKeepsInv(s: Sys, s': Sys, active: Option<string>)
    requires Inv(s) && MarkActive(s, s', active)
    ensures Inv(s')
  {
    forall x | s'.synced ensures AgreesOn(s', x) {
      assert AgreesOn(s, x);
      if active.Some? { CountFocus(s.cache, active.value, x); }
    }
    var f :| OnlyFocused(s.cache, f);
    if active.Some? {
      FocusSetsOneId(s.cache, active.value);
    } else {
      assert OnlyFocused(s'.cache, f);
    }
  }

  lemma NextKeepsInv(s: Sys, s': Sys)
    requires Inv(s) && Next(s, s')
    ensures Inv(s')
  {
    if w :| WindowOpens(s, s', w) {
      EmitKeepsInv(s, s', Opened(w));
    } else if id :| WindowCloses(s, s', id) {
      EmitKeepsInv(s, s', Closed(id));
    } else if e :| OtherEvent(s, s', e) {
      EmitKeepsInv(s, s', e);
    } else if ConsumeEvent(s, s') {
      ConsumeKeepsInv(s, s');
    } else if answer :| ListWindows(s, s', answer) {
      ListKeepsInv(s, s', answer);
    } else if Install(s, s') {
      InstallKeepsInv(s, s');
    } else {
      var active :| MarkActive(s, s', active);
      MarkKeepsInv(s, s', active);
    }
  }

  lemma {:induction false} RunKeepsInv(run: seq<Sys>, i: nat)
    requires IsRun(run) && i < |run|
    ensures Inv(run[i])
  {
    if i > 0 {
      RunKeepsInv(run, i - 1);
      assert NextAt(run, i - 1);
      NextKeepsInv(run[i - 1], run[i]);
    }
  }

  // ------------------------------------------------------------------
  // Main results, over every run
  // ------------------------------------------------------------------

  function Drained(s: Sys): seq<Window> {
    Drain(Current(s), s.queue)
  }

  /** Exactly how often a window is listed once the queue has been worked off. */
  lemma DrainedCount(run: seq<Sys>, i: nat, x: string)
    requires IsRun(run) && i < |run| && run[i].synced
    ensures Count(Drained(run[i]), x) == Bit(x in run[i].open) + Bit(x in run[i].racing)
  {
    RunKeepsInv(run, i);
    assert AgreesOn(run[i], x);
    CountDrain(Current(run[i]), run[i].queue, x);
  }

  /** No open window is lost, whatever the snapshots raced with. */
  lemma NoWindowLost(run: seq<Sys>, i: nat)
    requires IsRun(run) && i < |run| && run[i].synced
    ensures forall x :: x in run[i].open ==> Count(Drained(run[i]), x) >= 1
  {
    forall x | x in run[i].open ensures Count(Drained(run[i]), x) >= 1 {
      DrainedCount(run, i, x);
    }
  }

  ghost predicate Exact(s: Sys) {
    forall x :: Count(Drained(s), x) == Bit(x in s.open)
  }

  lemma ExactIffNoneRaces(run: seq<Sys>, i: nat)
    requires IsRun(run) && i < |run| && run[i].synced
    ensures Exact(run[i]) <==> run[i].racing == {}
  {
    var s := run[i];
    if s.racing == {} {
      forall x ensures Count(Drained(s), x) == Bit(x in s.open) {
        DrainedCount(run, i, x);
      }
    } else {
      var x :| x in s.racing;
      DrainedCount(run, i, x);
    }
  }

  /** The first opening or closing of `x` in the queue is an opening. */
  predicate OpensFirst(queue: seq<Event>, x: string)
    decreases |queue|
  {
    if queue == [] then false
    else
      match queue[0]
      case Opened(w) => w.id == x || OpensFirst(queue[1..], x)
      case Closed(id) => id != x && OpensFirst(queue[1..], x)
      case _ => OpensFirst(queue[1..], x)
  }

  /** An open window was not open at the head of the queue exactly if the queue opens it first. */
  lemma {:induction false} OpensFirstIff(base: set<string>, queue: seq<Event>, x: string)
    requires Legal(base, queue) && x in Replay(base, queue)
    ensures x !in base <==> OpensFirst(queue, x)
    decreases |queue|
  {
    if queue != [] {
      OpensFirstIff(Advance(base, queue[0]), queue[1..], x);
    }
  }

  /** Step `j` takes a snapshot. */
  predicate TakesSnapshot(run: seq<Sys>, j: nat) {
    j + 1 < |run| && run[j].phase.Waiting? && run[j + 1].phase.Listed? && run[j + 1].phase.answer.Some?
  }

  /** The latest snapshot before state `i` was taken in step `j`. */
  ghost predicate LatestSnapshot(run: seq<Sys>, j: nat, i: nat) {
    j < i < |run| && TakesSnapshot(run, j) && forall k :: j < k < i ==> !TakesSnapshot(run, k)
  }

  /** Some open window is opened first by the events that were waiting. */
  ghost predicate Races(s: Sys) {
    exists x :: x in s.open && OpensFirst(s.queue, x)
  }

  lemma SnapshotStep(run: seq<Sys>, j: nat)
    requires IsRun(run) && j + 1 < |run|
    ensures TakesSnapshot(run, j) ==> run[j + 1].synced && (run[j + 1].racing == {} <==> !Races(run[j]))
    ensures !TakesSnapshot(run, j) ==> run[j + 1].synced == run[j].synced && run[j + 1].racing == run[j].racing
  {
    RunKeepsInv(run, j);
    var s, s' := run[j], run[j + 1];
    assert NextAt(run, j);
    if TakesSnapshot(run, j) {
      forall x | x in s.open ensures x in s'.racing <==> OpensFirst(s.queue, x) {
        OpensFirstIff(s.base, s.queue, x);
      }
      assert s'.racing <= s.open;
    }
  }

  lemma {:induction false} SinceSnapshot(run: seq<Sys>, j: nat, i: nat)
    requires IsRun(run) && LatestSnapshot(run, j, i)
    ensures run[i].synced && (run[i].racing == {} <==> !Races(run[j]))
  {
    SnapshotStep(run, i - 1);
    if i > j + 1 {
      SinceSnapshot(run, j, i - 1);
    }
  }

  /** Main result: from the first snapshot on, the mirror is exact if and only if, when the
      latest snapshot was taken, no window was open that the events still waiting would open
      first.  A window that they would close and open again does no harm. */
  lemma ExactIff(run: seq<Sys>, j: nat, i: nat)
    requires IsRun(run) && LatestSnapshot(run, j, i)
    ensures Exact(run[i]) <==> !Races(run[j])
  {
    SinceSnapshot(run, j, i);
    ExactIffNoneRaces(run, i);
  }

  lemma StaysLatest(run: seq<Sys>, j: nat, i: nat)
    requires 0 < i < |run| && LatestSnapshot(run, j, i - 1) && !TakesSnapshot(run, i - 1)
    ensures LatestSnapshot(run, j, i)
  {
  }

  /** Once a snapshot has been taken there is a latest one. */
  lemma {:induction false} SomeSnapshotIsLatest(run: seq<Sys>, i: nat) returns (j: nat)
    requires IsRun(run) && i < |run| && run[i].synced
    ensures LatestSnapshot(run, j, i)
  {
    SnapshotStep(run, i - 1);
    if TakesSnapshot(run, i - 1) {
      j := i - 1;
    } else {
      j := SomeSnapshotIsLatest(run, i - 1);
      StaysLatest(run, j, i);
    }
  }

  /** No open or close event is waiting. */
  predicate Quiet(queue: seq<Event>) {
    forall e :: e in queue ==> !e.Opened? && !e.Closed?
  }

  lemma {:induction false} QuietReplay(base: set<string>, queue: seq<Event>)
    requires Quiet(queue)
    ensures Replay(base, queue) == base
    decreases |queue|
  {
    if queue != [] {
      assert queue[0] in queue;
      QuietReplay(base, queue[1..]);
    }
  }

  /** Snapshots are only ever answered while no open or close event is waiting. */
  ghost predicate CalmListings(run: seq<Sys>) {
    forall i :: 0 <= i < |run| - 1 && run[i].phase.Waiting? && run[i + 1].phase.Listed? ==> Quiet(run[i].queue)
  }

  lemma {:induction false} CalmRunNeverRaces(run: seq<Sys>, i: nat)
    requires IsRun(run) && CalmListings(run) && i < |run|
    ensures run[i].racing == {}
  {
    if i > 0 {
      CalmRunNeverRaces(run, i - 1);
      RunKeepsInv(run, i - 1);
      var s, s' := run[i - 1], run[i];
      assert NextAt(run, i - 1);
      if answer :| ListWindows(s, s', answer) {
        QuietReplay(s.base, s.queue);
      }
    }
  }

  /** With calm listings the mirror is exact in every state from the first snapshot on. */
  lemma CalmRunIsExact(run: seq<Sys>, i: nat)
    requires IsRun(run) && CalmListings(run) && i < |run| && run[i].synced
    ensures Exact(run[i])
  {
    CalmRunNeverRaces(run, i);
    ExactIffNoneRaces(run, i);
  }

  /** All entries marked as focused have the same id, duplicates included. */
  lemma FocusedShareOneId(run: seq<Sys>, i: nat, a: Window, b: Window)
    requires IsRun(run) && i < |run|
    requires a in run[i].cache && b in run[i].cache && a.focused && b.focused
    ensures a.id == b.id
  {
    RunKeepsInv(run, i);
    var f :| OnlyFocused(run[i].cache, f);
  }

  // ------------------------------------------------------------------
  // The latest focus
  // ------------------------------------------------------------------

  /** The event thread works off a focus event, or learns which window is active. */
  ghost predicate FocusStep(s: Sys, s': Sys, id: string) {
    (ConsumeEvent(s, s') && s.queue[0] == Focused(id)) || MarkActive(s, s', Some(id))
  }

  /** A step that sets flags anew: a focus step, or a snapshot that takes the place of the list. */
  ghost predicate TouchesFocus(s: Sys, s': Sys) {
    || (exists id :: FocusStep(s, s', id))
    || (Install(s, s') && s.phase.answer.Some?)
  }

  /** Of `n` entries at the front, how many are left after the step. */
  ghost function StillListed(n: nat, s: Sys, s': Sys): nat
    requires n <= |s.cache|
  {
    if ConsumeEvent(s, s') && s.queue[0].Closed? && exists k :: 0 <= k < n && s.cache[k].id == s.queue[0].id
    then n - 1 else n
  }

  /** The first `n` entries are marked as they should be, those that came later are not marked. */
  ghost predicate FocusIs(ws: seq<Window>, n: nat, id: string) {
    n <= |ws| && forall k :: 0 <= k < |ws| ==> (ws[k].focused <==> k < n && ws[k].id == id)
  }

  /** How many entries listed right after step `i` are still there in state `j`. */
  ghost function Kept(run: seq<Sys>, i: nat, j: nat): nat
    requires i < j < |run|
  {
    if j == i + 1 then |run[j].cache|
    else
      var n := Kept(run, i, j - 1);
      if n <= |run[j - 1].cache| then StillListed(n, run[j - 1], run[j]) else 0
  }

  lemma DropKeepsFocus(ws: seq<Window>, ws': seq<Window>, n: nat, f: string, id: string)
    requires FocusIs(ws, n, f) && Drops(ws, ws', id)
    ensures FocusIs(ws', if exists k :: 0 <= k < n && ws[k].id == id then n - 1 else n, f)
  {
    if !Lacks(ws, id) {
      var i := FirstOf(ws, id);
      assert ws' == ws[..i] + ws[i + 1..];
      assert forall k :: 0 <= k < |ws'| ==> ws'[k] == ws[if k < i then k else k + 1];
    }
  }

  lemma {:induction false} FirstOf(ws: seq<Window>, id: string) returns (i: nat)
    requires !Lacks(ws, id)
    ensures FirstAt(ws, id, i)
  {
    i := 0;
    if ws[0].id != id {
      assert !Lacks(ws[1..], id) by {
        var k :| 0 <= k < |ws| && ws[k].id == id;
        assert ws[1..][k - 1].id == id;
      }
      var j := FirstOf(ws[1..], id);
      i := j + 1;
    }
  }

  lemma EditKeepsFlags(ws: seq<Window>, id: string, e: Edit, n: nat, f: string)
    requires FocusIs(ws, n, f)
    ensures FocusIs(EditFirst(ws, id, e), n, f)
  {
    ChangesFirst(ws, id, e);
    if !Lacks(ws, id) {
      var i := FirstOf(ws, id);
      assert Sets(ws[i], EditFirst(ws, id, e)[i], e);
    }
  }

  lemma ConsumeKeepsFlags(ws: seq<Window>, e: Event, n: nat, f: string)
    requires FocusIs(ws, n, f) && !e.Focused? && (e.Opened? ==> !e.window.focused)
    ensures FocusIs(Consume(ws, e), if e.Closed? && exists k :: 0 <= k < n && ws[k].id == e.id then n - 1 else n, f)
  {
    match e {
      case Closed(id) =>
        ChangesFirst(ws, id, SetFloating(false));
        DropKeepsFocus(ws, RemoveFirst(ws, id), n, f, id);
      case Edited(id, edit) => EditKeepsFlags(ws, id, edit, n, f);
      case _ =>
    }
  }

  lemma StepKeepsFlags(s: Sys, s': Sys, n: nat, f: string)
    requires Inv(s) && Next(s, s') && !TouchesFocus(s, s') && FocusIs(s.cache, n, f)
    ensures FocusIs(s'.cache, StillListed(n, s, s'), f)
  {
    if ConsumeEvent(s, s') {
      var e := s.queue[0];
      assert e.Focused? ==> FocusStep(s, s', e.id);
      ConsumeKeepsFlags(s.cache, e, n, f);
    } else if active :| MarkActive(s, s', active) {
      assert active.Some? ==> FocusStep(s, s', active.value);
    }
  }

  lemma FocusStepMarks(s: Sys, s': Sys, id: string)
    requires FocusStep(s, s', id)
    ensures FocusIs(s'.cache, |s'.cache|, id)
  {
    FocusMarks(s.cache, id);
  }

  ghost predicate TouchedAt(run: seq<Sys>, k: nat)
    requires k + 1 < |run|
  {
    TouchesFocus(run[k], run[k + 1])
  }

  /** No step between `i` and state `j` sets flags anew. */
  ghost predicate Untouched(run: seq<Sys>, i: nat, j: nat) {
    forall k :: i < k < j && k + 1 < |run| ==> !TouchedAt(run, k)
  }

  lemma LastStep(run: seq<Sys>, i: nat, j: nat)
    requires IsRun(run) && i + 1 < j < |run| && Untouched(run, i, j)
    ensures Next(run[j - 1], run[j]) && Inv(run[j - 1]) && !TouchesFocus(run[j - 1], run[j])
    ensures Untouched(run, i, j - 1)
  {
    RunKeepsInv(run, j - 1);
    assert NextAt(run, j - 1) && !TouchedAt(run, j - 1);
  }

  /** Main result, over every run: as long as the flags are not set anew, of the entries listed at
      the latest focus exactly those with its id are marked, and no entry that came later is. */
  lemma {:induction false} FocusLasts(run: seq<Sys>, i: nat, j: nat, id: string)
    requires IsRun(run) && i < j < |run| && FocusStep(run[i], run[i + 1], id) && Untouched(run, i, j)
    ensures FocusIs(run[j].cache, Kept(run, i, j), id)
    decreases j
  {
    if j == i + 1 {
      FocusStepMarks(run[i], run[j], id);
    } else {
      LastStep(run, i, j);
      FocusLasts(run, i, j - 1, id);
      StepKeepsFlags(run[j - 1], run[j], Kept(run, i, j - 1), id);
    }
  }

  ghost predicate ConsumesOpening(s: Sys, s': Sys) { ConsumeEvent(s, s') && s.queue[0].Opened? }

  ghost predicate OpeningAt(run: seq<Sys>, k: nat)
    requires k + 1 < |run|
  {
    ConsumesOpening(run[k], run[k + 1])
  }

  lemma StepKeepsAll(s: Sys, s': Sys)
    requires Next(s, s') && !TouchesFocus(s, s') && !ConsumesOpening(s, s')
    ensures |s'.cache| == StillListed(|s.cache|, s, s')
  {
    if ConsumeEvent(s, s') {
      var e := s.queue[0];
      assert e.Focused? ==> FocusStep(s, s', e.id);
      if e.Closed? {
        ChangesFirst(s.cache, e.id, SetFloating(false));
        if !Lacks(s.cache, e.id) {
          var i := FirstOf(s.cache, e.id);
          assert s.cache[i].id == e.id;
        }
      } else if e.Edited? {
        ChangesFirst(s.cache, e.id, e.edit);
        if !Lacks(s.cache, e.id) {
          var i := FirstOf(s.cache, e.id);
        }
      }
    } else if active :| MarkActive(s, s', active) {
      assert active.Some? ==> FocusStep(s, s', active.value);
    }
  }

  ghost predicate NothingOpens(run: seq<Sys>, i: nat, j: nat) {
    forall k :: i < k < j && k + 1 < |run| ==> !OpeningAt(run, k)
  }

  lemma {:induction false} AllKept(run: seq<Sys>, i: nat, j: nat)
    requires IsRun(run) && i < j < |run| && Untouched(run, i, j) && NothingOpens(run, i, j)
    ensures Kept(run, i, j) == |run[j].cache|
    decreases j
  {
    if j > i + 1 {
      LastStep(run, i, j);
      AllKept(run, i, j - 1);
      assert !OpeningAt(run, j - 1);
      StepKeepsAll(run[j - 1], run[j]);
    }
  }

  /** Without an opening in between, every entry is marked exactly if it has the id of the latest
      focus. */
  lemma FocusIsExact(run: seq<Sys>, i: nat, j: nat, id: string)
    requires IsRun(run) && i < j < |run| && FocusStep(run[i], run[i + 1], id)
    requires Untouched(run, i, j) && NothingOpens(run, i, j)
    ensures forall w :: w in run[j].cache ==> (w.focused <==> w.id == id)
  {
    AllKept(run, i, j);
    FocusLasts(run, i, j, id);
  }

  // ------------------------------------------------------------------
  // The race is real
  // ------------------------------------------------------------------

  /** A window opens between the request for a snapshot and its answer, and closes later. */
  function RacingRun(w: Window): seq<Sys> {
    var s0 := Sys({}, [], [], Waiting, {}, false, {});
    var s1 := s0.(queue := [Refresh]);
    var s2 := s1.(open := {w.id}, queue := [Refresh, Opened(w)]);
    var s3 := s2.(queue := [Opened(w)], phase := Listed(Some([w])), synced := true, racing := {w.id});
    var s4 := s3.(phase := Installed, cache := [w]);
    var s5 := s4.(phase := Waiting);
    var s6 := s5.(queue := [], cache := [w, w], base := {w.id});
    var s7 := s6.(open := {}, queue := [Closed(w.id)]);
    var s8 := s7.(queue := [], cache := [w], base := {});
    [s0, s1, s2, s3, s4, s5, s6, s7, s8]
  }

  lemma RacingRunIsRun(w: Window)
    requires !w.focused
    ensures IsRun(RacingRun(w))
  {
    var r := RacingRun(w);
    assert OnlyFocused(r[0].cache, "");
    assert OtherEvent(r[0], r[1], Refresh);
    assert WindowOpens(r[1], r[2], w);
    assert IsSnapshot([w], {w.id}) by {
      assert forall x :: Count([w], x) == (if w.id == x then 1 else 0) + Count([w][1..], x);
    }
    assert ListWindows(r[2], r[3], Some([w])) by { assert r[2].queue[1..] == [Opened(w)]; }
    assert Install(r[3], r[4]);
    assert MarkActive(r[4], r[5], None);
    assert ConsumeEvent(r[5], r[6]) by { assert [w] + [w] == [w, w]; }
    assert WindowCloses(r[6], r[7], w.id) by { assert r[6].open - {w.id} == {}; }
    assert ConsumeEvent(r[7], r[8]) by {
      assert RemoveFirst([w, w], w.id) == [w, w][1..] == [w];
      assert r[7].base - {w.id} == {};
    }
  }

  /** So a run can end with an empty queue and an entry for a window that is closed. */
  lemma StaleEntryHappens(w: Window)
    requires !w.focused
    ensures exists run: seq<Sys>, i: nat :: IsRun(run) && i < |run| && run[i].queue == [] && run[i].phase.Waiting?
                             && w in run[i].cache && w.id !in run[i].open
  {
    RacingRunIsRun(w);
    var run := RacingRun(w);
    assert run[8].cache[0] == w;
    assert IsRun(run) && 8 < |run| && run[8].queue == [] && run[8].phase.Waiting?
        && w in run[8].cache && w.id !in run[8].open;
  }
}
