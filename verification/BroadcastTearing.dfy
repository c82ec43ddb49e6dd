/** When a message shows a state the cache was really in. The broadcasting machine runs beside a record of every state
    of the cache and of the moments at which the arrays of a message were read. */
module BroadcastTearing {
  import opened Broadcast

  /** `past` holds the cache after every number of steps so far; `reading` are the moments of the
      reads of the idle thread's broadcast under way, and `read` those of each message in the
      log (empty for the other thread's messages).  A moment counts the steps up to the read. */
  datatype Watched = Watched(sys: Sys, past: seq<Stamp>, reading: seq<nat>, read: seq<seq<nat>>)

  const START_WATCHED := Watched(START, [NEVER], [], [])

  predicate ReadsNow(s: Sys, step: Step) {
    step == ReadArray(IdleThread) && s.idle.Reading? && |s.idle.read| < 3
  }

  predicate Sends(s: Sys, step: Step) {
    step.Send? && At(s, step.who).Writing? && At(s, step.who).next < |s.clients|
  }

  function Watch(w: Watched, step: Step): Watched {
    var s' := Take(w.sys, step);
    Watched(s', w.past + [s'.cache],
            if ReadsNow(w.sys, step) then w.reading + [|w.past|]
            else if s'.idle.Reading? && s'.idle.read == [] then []
            else w.reading,
            if Sends(w.sys, step) then w.read + [if step.who.IdleThread? then w.reading else []] else w.read)
  }

  function Follow(steps: seq<Step>): Watched {
    if steps == [] then START_WATCHED else Watch(Follow(steps[..|steps| - 1]), steps[|steps| - 1])
  }

  // ------------------------------------------------------------------
  // Invariant
  // ------------------------------------------------------------------

  /** Later states are not older. */
  ghost predicate Grows(past: seq<Stamp>) {
    forall m, n :: 0 <= m <= n < |past| ==> NotNewer(past[m], past[n])
  }

  /** The values were read at these moments, one after the other. */
  ghost predicate ReadAt(past: seq<Stamp>, values: seq<nat>, at: seq<nat>) {
    && |at| == |values| <= 3
    && (forall k :: 0 <= k < |at| ==> at[k] < |past| && values[k] == past[at[k]][k])
    && (forall j, k :: 0 <= j < k < |at| ==> at[j] < at[k])
  }

  ghost predicate ReadingOk(w: Watched) {
    match w.sys.idle
    case Reading(_, read) => ReadAt(w.past, read, w.reading)
    case Writing(_, dump, _) => ReadAt(w.past, dump, w.reading)
    case _ => true
  }

  ghost predicate MessageOk(w: Watched, i: nat)
    requires i < |w.sys.log| == |w.read|
  {
    w.sys.log[i].author.IdleThread? ==> ReadAt(w.past, w.sys.log[i].dump, w.read[i])
  }

  predicate WrittenAt(past: seq<Stamp>, n: nat, k: nat)
    requires k < 3
  {
    0 < n < |past| && past[n][k] != past[n - 1][k]
  }

  /** No step writes two arrays. */
  ghost predicate OneAtATime(past: seq<Stamp>) {
    forall n: nat, j, k :: 0 <= j < k < 3 && WrittenAt(past, n, j) ==> !WrittenAt(past, n, k)
  }

  ghost predicate WatchedInv(w: Watched) {
    && |w.past| > 0 && w.past[|w.past| - 1] == w.sys.cache && Grows(w.past) && OneAtATime(w.past)
    && ReadingOk(w)
    && |w.read| == |w.sys.log| && forall i :: 0 <= i < |w.read| ==> MessageOk(w, i)
  }

  lemma ReadAtStays(past: seq<Stamp>, now: Stamp, values: seq<nat>, at: seq<nat>)
    requires ReadAt(past, values, at)
    ensures ReadAt(past + [now], values, at)
  {
  }

  lemma CacheGrows(s: Sys, step: Step)
    ensures NotNewer(s.cache, Take(s, step).cache)
    ensures forall j, k :: 0 <= j < k < 3 && Take(s, step).cache[j] != s.cache[j] ==>
              Take(s, step).cache[k] == s.cache[k]
  {
  }

  lemma PastGrows(past: seq<Stamp>, now: Stamp)
    requires |past| > 0 && Grows(past) && NotNewer(past[|past| - 1], now)
    ensures Grows(past + [now])
  {
    forall m, n | 0 <= m <= n < |past| + 1 ensures NotNewer((past + [now])[m], (past + [now])[n]) {
      if m < |past| {
        assert NotNewer(past[m], past[|past| - 1]);
      }
    }
  }

  lemma OneMoreWrite(past: seq<Stamp>, now: Stamp)
    requires |past| > 0 && OneAtATime(past)
    requires var last := past[|past| - 1]; forall j, k :: 0 <= j < k < 3 && now[j] != last[j] ==> now[k] == last[k]
    ensures OneAtATime(past + [now])
  {
    forall n: nat, j, k | 0 <= j < k < 3 && WrittenAt(past + [now], n, j) ensures !WrittenAt(past + [now], n, k) {
      if n < |past| {
        assert WrittenAt(past, n, j) && !WrittenAt(past, n, k);
      } else {
        assert (past + [now])[n] == now && (past + [now])[n - 1] == past[n - 1];
      }
    }
  }

  lemma OneMoreRead(past: seq<Stamp>, cache: Stamp, values: seq<nat>, at: seq<nat>)
    requires ReadAt(past, values, at) && |values| < 3
    ensures ReadAt(past + [cache], values + [cache[|values|]], at + [|past|])
  {
  }

  /** What a step that is not a read leaves of the idle thread's broadcast. */
  lemma IdleAfter(s: Sys, step: Step)
    requires !ReadsNow(s, step)
    ensures var p, p' := s.idle, Take(s, step).idle;
            && (p'.Reading? && p'.read != [] ==> p.Reading? && p.read == p'.read)
            && (p'.Writing? ==> p.Writing? && p.dump == p'.dump)
  {
  }

  lemma ReadKeepsRecord(w: Watched, step: Step)
    requires WatchedInv(w) && ReadsNow(w.sys, step)
    ensures ReadingOk(Watch(w, step))
  {
    OneMoreRead(w.past, w.sys.cache, w.sys.idle.read, w.reading);
  }

  lemma ReadsKeepRecord(w: Watched, step: Step)
    requires WatchedInv(w)
    ensures ReadingOk(Watch(w, step))
  {
    var p', now := Take(w.sys, step).idle, Take(w.sys, step).cache;
    if ReadsNow(w.sys, step) {
      ReadKeepsRecord(w, step);
    } else {
      IdleAfter(w.sys, step);
      if p'.Reading? && p'.read != [] {
        ReadAtStays(w.past, now, p'.read, w.reading);
      } else if p'.Writing? {
        ReadAtStays(w.past, now, p'.dump, w.reading);
      }
    }
  }

  lemma MessagesKeepRecord(w: Watched, step: Step)
    requires WatchedInv(w)
    ensures var w' := Watch(w, step);
            |w'.read| == |w'.sys.log| && forall i :: 0 <= i < |w'.read| ==> MessageOk(w', i)
  {
    var w' := Watch(w, step);
    forall i | 0 <= i < |w'.read| ensures MessageOk(w', i) {
      if i < |w.read| {
        assert MessageOk(w, i) && w'.sys.log[i] == w.sys.log[i];
        if w.sys.log[i].author.IdleThread? {
          ReadAtStays(w.past, w'.sys.cache, w.sys.log[i].dump, w.read[i]);
        }
      } else if step.who.IdleThread? {
        ReadAtStays(w.past, w'.sys.cache, w.sys.idle.dump, w.reading);
      }
    }
  }

  lemma WatchKeepsInv(w: Watched, step: Step)
    requires WatchedInv(w)
    ensures WatchedInv(Watch(w, step))
  {
    CacheGrows(w.sys, step);
    PastGrows(w.past, Take(w.sys, step).cache);
    OneMoreWrite(w.past, Take(w.sys, step).cache);
    ReadsKeepRecord(w, step);
    MessagesKeepRecord(w, step);
  }

  lemma {:induction false} FollowKeepsInv(steps: seq<Step>)
    ensures WatchedInv(Follow(steps)) && Follow(steps).sys == Reach(steps) && |Follow(steps).past| == |steps| + 1
  {
    if steps != [] {
      FollowKeepsInv(steps[..|steps| - 1]);
      WatchKeepsInv(Follow(steps[..|steps| - 1]), steps[|steps| - 1]);
    }
  }

  // ------------------------------------------------------------------
  // Values read at different moments, and the states there were
  // ------------------------------------------------------------------

  predicate TornBy(past: seq<Stamp>, at: seq<nat>, j: nat, k: nat, a: nat, b: nat)
    requires |at| == 3
  {
    j < k < 3 && at[j] < a < b <= at[k] && WrittenAt(past, a, j) && WrittenAt(past, b, k)
  }

  /** An array was written after it was read, and later another one before it was read. */
  ghost predicate Torn(past: seq<Stamp>, at: seq<nat>)
    requires |at| == 3
  {
    exists j: nat, k: nat, a: nat, b: nat :: TornBy(past, at, j, k, a, b)
  }

  lemma {:induction false} FirstMoment(past: seq<Stamp>, k: nat, t: nat) returns (n: nat)
    requires k < 3 && t < |past|
    ensures n <= t && past[n][k] == past[t][k] && (n > 0 ==> WrittenAt(past, n, k))
  {
    n := t;
    if t > 0 && past[t - 1][k] == past[t][k] {
      n := FirstMoment(past, k, t - 1);
    }
  }

  lemma {:induction false} WriteBetween(past: seq<Stamp>, k: nat, m: nat, n: nat) returns (a: nat)
    requires k < 3 && m <= n < |past| && past[m][k] != past[n][k]
    ensures m < a <= n && WrittenAt(past, a, k)
  {
    a := n;
    if past[n - 1][k] == past[n][k] {
      a := WriteBetween(past, k, m, n - 1);
    }
  }

  lemma TornIsNoState(past: seq<Stamp>, dump: Stamp, at: seq<nat>, n: nat)
    requires Grows(past) && ReadAt(past, dump, at) && Torn(past, at) && n < |past|
    ensures past[n] != dump
  {
    var j: nat, k: nat, a: nat, b: nat :| TornBy(past, at, j, k, a, b);
    assert NotNewer(past[at[j]], past[a - 1]) && NotNewer(past[a - 1], past[a]);
    assert NotNewer(past[b - 1], past[b]) && NotNewer(past[b], past[at[k]]);
    if n >= a {
      assert NotNewer(past[a], past[n]);
    } else {
      assert NotNewer(past[n], past[b - 1]);
    }
  }

  lemma MovedOnIsTorn(past: seq<Stamp>, dump: Stamp, at: seq<nat>, n: nat, k: nat, j: nat)
    requires OneAtATime(past) && ReadAt(past, dump, at)
    requires j < 3 && k < 3 && at[j] < n <= at[k] && WrittenAt(past, n, k) && past[n][j] != dump[j]
    ensures Torn(past, at)
  {
    var a := WriteBetween(past, j, at[j], n);
    assert j < k;
    assert a != n;
    assert TornBy(past, at, j, k, a, n);
  }

  /** At the latest of the first moments, no array has moved on unless the reads are torn. */
  lemma LatestFirstMoment(past: seq<Stamp>, dump: Stamp, at: seq<nat>, n: nat, k: nat, j: nat)
    requires Grows(past) && OneAtATime(past) && ReadAt(past, dump, at) && !Torn(past, at)
    requires j < 3 && k < 3 && n <= at[k] && (n > 0 ==> WrittenAt(past, n, k))
    requires exists m: nat :: m <= n && past[m][j] == dump[j]
    ensures past[n][j] == dump[j]
  {
    var m: nat :| m <= n && past[m][j] == dump[j];
    assert NotNewer(past[m], past[n]);
    if n <= at[j] {
      assert NotNewer(past[n], past[at[j]]);
    } else if past[n][j] != dump[j] {
      MovedOnIsTorn(past, dump, at, n, k, j);
    }
  }

  lemma WholeIsState(past: seq<Stamp>, dump: Stamp, at: seq<nat>)
    requires Grows(past) && OneAtATime(past) && ReadAt(past, dump, at) && !Torn(past, at)
    ensures dump in past
  {
    var n0 := FirstMoment(past, 0, at[0]);
    var n1 := FirstMoment(past, 1, at[1]);
    var n2 := FirstMoment(past, 2, at[2]);
    var n, k := n0, 0;
    if n1 > n { n, k := n1, 1; }
    if n2 > n { n, k := n2, 2; }
    LatestFirstMoment(past, dump, at, n, k, 0);
    LatestFirstMoment(past, dump, at, n, k, 1);
    LatestFirstMoment(past, dump, at, n, k, 2);
    assert past[n] == dump;
  }

  // ------------------------------------------------------------------
  // In terms of the steps
  // ------------------------------------------------------------------

  lemma {:induction false} PastIsReach(steps: seq<Step>, n: nat)
    requires n <= |steps|
    ensures |Follow(steps).past| == |steps| + 1 && Follow(steps).past[n] == Reach(steps[..n]).cache
  {
    FollowKeepsInv(steps);
    if n == |steps| {
      assert steps[..n] == steps;
    } else {
      PastIsReach(steps[..|steps| - 1], n);
      assert steps[..|steps| - 1][..n] == steps[..n];
    }
  }

  /** The step that ends at moment `n` writes array `k`. */
  predicate Writes(steps: seq<Step>, n: nat, k: nat) {
    0 < n <= |steps| && steps[n - 1] == WriteArray(k) && Reach(steps[..n - 1]).event.Away?
  }

  lemma StepWritesIff(s: Sys, step: Step, k: nat)
    requires k < 3
    ensures Take(s, step).cache[k] != s.cache[k] <==> step == WriteArray(k) && s.event.Away?
  {
  }

  lemma PastStep(steps: seq<Step>, n: nat)
    requires n < |steps|
    ensures var past, s := Follow(steps).past, Reach(steps[..n]);
            |past| == |steps| + 1 && past[n] == s.cache && past[n + 1] == Take(s, steps[n]).cache
  {
    PastIsReach(steps, n);
    PastIsReach(steps, n + 1);
    ReachNext(steps, n);
  }

  lemma WrittenIff(steps: seq<Step>, n: nat, k: nat)
    requires k < 3
    ensures WrittenAt(Follow(steps).past, n, k) <==> Writes(steps, n, k)
  {
    FollowKeepsInv(steps);
    if 0 < n <= |steps| {
      StepWritesIff(Reach(steps[..n - 1]), steps[n - 1], k);
      PastStep(steps, n - 1);
    }
  }

  ghost predicate WrittenByItsSteps(past: seq<Stamp>, steps: seq<Step>) {
    forall n: nat, k: nat :: k < 3 ==> (WrittenAt(past, n, k) <==> Writes(steps, n, k))
  }

  lemma PastIsWrittenByItsSteps(steps: seq<Step>)
    ensures WrittenByItsSteps(Follow(steps).past, steps)
  {
    forall n: nat, k: nat | k < 3 ensures WrittenAt(Follow(steps).past, n, k) <==> Writes(steps, n, k) {
      WrittenIff(steps, n, k);
    }
  }

  predicate TornByWrites(steps: seq<Step>, at: seq<nat>, j: nat, k: nat, a: nat, b: nat)
    requires |at| == 3
  {
    j < k < 3 && at[j] < a < b <= at[k] && Writes(steps, a, j) && Writes(steps, b, k)
  }

  /** Array `j` is written after the message read it, and after that an array `k` that the
      message had yet to read. */
  ghost predicate TornSteps(steps: seq<Step>, at: seq<nat>)
    requires |at| == 3
  {
    exists j: nat, k: nat, a: nat, b: nat :: TornByWrites(steps, at, j, k, a, b)
  }

  lemma TornIff(past: seq<Stamp>, steps: seq<Step>, at: seq<nat>)
    requires |at| == 3 && WrittenByItsSteps(past, steps)
    ensures Torn(past, at) <==> TornSteps(steps, at)
  {
    if Torn(past, at) {
      var j: nat, k: nat, a: nat, b: nat :| TornBy(past, at, j, k, a, b);
      assert TornByWrites(steps, at, j, k, a, b);
    }
    if TornSteps(steps, at) {
      var j: nat, k: nat, a: nat, b: nat :| TornByWrites(steps, at, j, k, a, b);
      assert TornBy(past, at, j, k, a, b);
    }
  }

  /** The step that ends at moment `t` is a read of the idle thread. */
  predicate IsRead(steps: seq<Step>, t: nat) {
    0 < t <= |steps| && steps[t - 1] == ReadArray(IdleThread)
  }

  ghost predicate AllReads(steps: seq<Step>, at: seq<nat>) {
    forall k :: 0 <= k < |at| ==> IsRead(steps, at[k])
  }

  lemma {:induction false} MomentsAreReads(steps: seq<Step>)
    ensures var w := Follow(steps);
            AllReads(steps, w.reading) && forall i :: 0 <= i < |w.read| ==> AllReads(steps, w.read[i])
  {
    if steps != [] {
      var before := steps[..|steps| - 1];
      MomentsAreReads(before);
      FollowKeepsInv(before);
      assert forall t: nat :: IsRead(before, t) ==> IsRead(steps, t);
    }
  }

  /** The states the cache was in during the run. */
  ghost predicate WasState(steps: seq<Step>, stamp: Stamp) {
    exists n :: 0 <= n <= |steps| && Reach(steps[..n]).cache == stamp
  }

  lemma WasStateIff(steps: seq<Step>, stamp: Stamp)
    ensures WasState(steps, stamp) <==> stamp in Follow(steps).past
  {
    FollowKeepsInv(steps);
    forall n | 0 <= n <= |steps| ensures Follow(steps).past[n] == Reach(steps[..n]).cache {
      PastIsReach(steps, n);
    }
  }

  /** Three moments, one after the other, at which the arrays were as the dump shows them. */
  ghost predicate ShownAt(steps: seq<Step>, dump: Stamp, at: seq<nat>) {
    && |dump| == |at| == 3 && at[0] < at[1] < at[2] <= |steps|
    && forall k :: 0 <= k < 3 ==> dump[k] == Reach(steps[..at[k]]).cache[k]
  }

  /** The record kept beside the run holds the moments at which this message was read. */
  lemma MessageIsShownAtItsReads(steps: seq<Step>, i: nat)
    requires i < |Reach(steps).log| && Reach(steps).log[i].author.IdleThread?
    ensures var w := Follow(steps);
            && |w.read| == |Reach(steps).log| && AllReads(steps, w.read[i])
            && ShownAt(steps, Reach(steps).log[i].dump, w.read[i])
  {
    FollowKeepsInv(steps);
    MomentsAreReads(steps);
    var w := Follow(steps);
    assert MessageOk(w, i);
    forall k | 0 <= k < 3 ensures w.sys.log[i].dump[k] == Reach(steps[..w.read[i][k]]).cache[k] {
      PastIsReach(steps, w.read[i][k]);
    }
  }

  lemma ShownIsReadAt(steps: seq<Step>, dump: Stamp, at: seq<nat>)
    requires ShownAt(steps, dump, at)
    ensures ReadAt(Follow(steps).past, dump, at)
  {
    PastIsReach(steps, at[0]);
    PastIsReach(steps, at[1]);
    PastIsReach(steps, at[2]);
    ReadFrom(Follow(steps).past, dump, at);
  }

  lemma ReadFrom(past: seq<Stamp>, dump: Stamp, at: seq<nat>)
    requires |at| == 3 && at[0] < at[1] < at[2] < |past|
    requires dump[0] == past[at[0]][0] && dump[1] == past[at[1]][1] && dump[2] == past[at[2]][2]
    ensures ReadAt(past, dump, at)
  {
  }

  /** Main result, for every run and every message about an idle monitor, with the moments of its
      own reads or any others at which the arrays were as it shows them: the message shows a state
      that the cache was in exactly if no array was written after its moment and, later than that,
      another one before its own.  A state is given by how often each array was written. */
  lemma IdleMessageIsStateIff(steps: seq<Step>, i: nat, at: seq<nat>)
    requires i < |Reach(steps).log| && Reach(steps).log[i].author.IdleThread?
    requires ShownAt(steps, Reach(steps).log[i].dump, at)
    ensures WasState(steps, Reach(steps).log[i].dump) <==> !TornSteps(steps, at)
  {
    var past, dump := Follow(steps).past, Reach(steps).log[i].dump;
    FollowKeepsInv(steps);
    ShownIsReadAt(steps, dump, at);
    WasStateIff(steps, dump);
    PastIsWrittenByItsSteps(steps);
    TornIff(past, steps, at);
    if Torn(past, at) {
      forall n | 0 <= n < |past| ensures past[n] != dump {
        TornIsNoState(past, dump, at, n);
      }
    } else {
      WholeIsState(past, dump, at);
    }
  }
}
