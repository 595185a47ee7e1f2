/** What the pipeline's invariant means for timers, jobs and workers. */
module TimerPoolSafety {
  import opened Options
  import opened Sums
  import opened TimerPool
  import opened TimerPoolInvariant

  // ---------------------------------------------------------------- one place per job

  datatype Place =
    | HeapSlot(i: nat)
    | TimerHand
    | ClientHand(c: nat)
    | DequeSlot(q: nat, i: nat)
    | OnWorker(w: nat)
    | FinishedAt(i: nat)
    | DroppedAt(i: nat)

  ghost predicate Occupies(s: State, p: Place, j: JobId) {
    match p
    case HeapSlot(i) => i < |s.heap| && s.heap[i].j == j
    case TimerHand => WithTimer(s.timer, j) > 0
    case ClientHand(c) => c < |s.clients| && WithClient(j)(s.clients[c]) > 0
    case DequeSlot(q, i) => q < |s.deques| && i < |s.deques[q]| && s.deques[q][i] == j
    case OnWorker(w) => w < |s.workers| && s.workers[w] == Busy(j)
    case FinishedAt(i) => i < |s.finished| && s.finished[i] == j
    case DroppedAt(i) => i < |s.dropped| && s.dropped[i] == j
  }

  lemma PlaceCounts(s: State, p: Place, j: JobId)
    requires Occupies(s, p, j)
    ensures p.HeapSlot? ==> Sum(InHeap(j), s.heap) >= 1
    ensures p.ClientHand? ==> Sum(WithClient(j), s.clients) >= 1
    ensures p.DequeSlot? ==> Sum(InDeque(j), s.deques) >= 1
    ensures p.OnWorker? ==> Sum(WithWorker(j), s.workers) >= 1
    ensures p.FinishedAt? ==> multiset(s.finished)[j] >= 1
    ensures p.DroppedAt? ==> multiset(s.dropped)[j] >= 1
  {
    hide Sum;
    match p
    case HeapSlot(i) => SumHas(InHeap(j), s.heap, i);
    case TimerHand =>
    case ClientHand(c) => SumHas(WithClient(j), s.clients, c);
    case DequeSlot(q, i) => OneSlot(s.deques[q], i, j); SumHas(InDeque(j), s.deques, q);
    case OnWorker(w) => SumHas(WithWorker(j), s.workers, w);
    case FinishedAt(i) => OneSlot(s.finished, i, j);
    case DroppedAt(i) => OneSlot(s.dropped, i, j);
  }

  lemma SamePlace(s: State, p: Place, p': Place, j: JobId)
    requires Places(s, j) <= 1 && Occupies(s, p, j) && Occupies(s, p', j)
    ensures p == p'
  {
    hide Sum;
    PlaceCounts(s, p, j);
    PlaceCounts(s, p', j);
    match (p, p')
    case (HeapSlot(i), HeapSlot(k)) => if i != k { SumHasTwo(InHeap(j), s.heap, i, k); }
    case (ClientHand(c), ClientHand(d)) => if c != d { SumHasTwo(WithClient(j), s.clients, c, d); }
    case (DequeSlot(q, i), DequeSlot(r, k)) =>
      OneSlot(s.deques[q], i, j);
      OneSlot(s.deques[r], k, j);
      SumHas(InDeque(j), s.deques, q);
      if q != r { SumHasTwo(InDeque(j), s.deques, q, r); }
    case (OnWorker(w), OnWorker(v)) => if w != v { SumHasTwo(WithWorker(j), s.workers, w, v); }
    case (FinishedAt(i), FinishedAt(k)) => OneSlot(s.finished, i, j);
    case (DroppedAt(i), DroppedAt(k)) => OneSlot(s.dropped, i, j);
    case _ =>
  }

  lemma HasPlace(s: State, j: JobId) returns (p: Place)
    requires Places(s, j) > 0
    ensures Occupies(s, p, j)
  {
    hide Sum;
    if Sum(InHeap(j), s.heap) > 0 {
      var i := SumWitness(InHeap(j), s.heap);
      p := HeapSlot(i);
    } else if WithTimer(s.timer, j) > 0 {
      p := TimerHand;
    } else if Sum(WithClient(j), s.clients) > 0 {
      var c := SumWitness(WithClient(j), s.clients);
      p := ClientHand(c);
    } else if Sum(InDeque(j), s.deques) > 0 {
      var q := SumWitness(InDeque(j), s.deques);
      assert j in s.deques[q];
      var i :| 0 <= i < |s.deques[q]| && s.deques[q][i] == j;
      p := DequeSlot(q, i);
    } else if Sum(WithWorker(j), s.workers) > 0 {
      var w := SumWitness(WithWorker(j), s.workers);
      p := OnWorker(w);
    } else if multiset(s.finished)[j] > 0 {
      assert j in s.finished;
      var i :| 0 <= i < |s.finished| && s.finished[i] == j;
      p := FinishedAt(i);
    } else {
      assert j in s.dropped;
      var i :| 0 <= i < |s.dropped| && s.dropped[i] == j;
      p := DroppedAt(i);
    }
  }

  /**
   Conservation: in every reachable state each submitted job is in exactly one place of the
   pipeline; it is never lost, queued twice or run by two workers, and never runs again
   after it has finished or was dropped by the pool's shutdown.
   */
  lemma ExclusivePlace(s: State, j: JobId)
    requires Reachable(s)
    ensures j < |s.jobs| <==> exists p :: Occupies(s, p, j)
    ensures forall p, p' :: Occupies(s, p, j) && Occupies(s, p', j) ==> p == p'
  {
    ReachableInv(s);
    hide Reachable;
    hide Sum, Places;
    assert Places(s, j) == if j < |s.jobs| then 1 else 0;
    if j < |s.jobs| {
      var p := HasPlace(s, j);
    }
    forall p | Occupies(s, p, j) ensures Places(s, j) > 0 { PlaceIsCounted(s, p, j); }
    forall p, p' | Occupies(s, p, j) && Occupies(s, p', j) ensures p == p' {
      SamePlace(s, p, p', j);
    }
  }

  lemma PlaceIsCounted(s: State, p: Place, j: JobId)
    requires Occupies(s, p, j)
    ensures Places(s, j) > 0
  {
    hide Sum;
    PlaceCounts(s, p, j);
  }

  // ---------------------------------------------------------------- never early, on its own deque

  /** No job starts before its deadline, and none runs on a deque it was not pushed to. */
  lemma NeverEarly(s: State, j: JobId)
    requires Reachable(s) && j < |s.jobs|
    ensures s.jobs[j].started.Some? ==> s.jobs[j].due <= s.jobs[j].started.value <= s.now
    ensures forall w :: 0 <= w < |s.workers| && s.workers[w] == Busy(j) ==>
      s.jobs[j].started.Some? && s.jobs[j].deque == Some(w)
    ensures j in s.finished ==> s.jobs[j].started.Some?
    ensures j in s.dropped ==> s.jobs[j].started.None?
  {
    ReachableInv(s);
    hide Reachable;
    hide Sum, Places;
    if s.jobs[j].started.Some? { assert Started(s.jobs, s.now, j); }
    forall w | 0 <= w < |s.workers| && s.workers[w] == Busy(j)
      ensures s.jobs[j].started.Some? && s.jobs[j].deque == Some(w)
    {
      assert WorkerOk(s.workers[w], w, s.jobs, s.now);
    }
    if j in s.finished {
      var i :| 0 <= i < |s.finished| && s.finished[i] == j;
      assert Started(s.jobs, s.now, s.finished[i]);
    }
  }

  /** What is settled about a job stays settled: its times and, once it has started, its start. */
  ghost predicate SameHistory(s: State, s': State) {
    && |s.jobs| <= |s'.jobs|
    && forall j :: 0 <= j < |s.jobs| ==>
         && s'.jobs[j].registered == s.jobs[j].registered && s'.jobs[j].due == s.jobs[j].due
         && (s.jobs[j].started.Some? ==> s'.jobs[j].started == s.jobs[j].started)
  }

  /** A waiting worker finds only jobs that have not started. */
  lemma FrontIsFresh(s: State, w: nat)
    requires Inv(s) && w < |s.deques| && s.deques[w] != []
    ensures s.deques[w][0] < |s.jobs| && s.jobs[s.deques[w][0]].started.None?
    ensures forall i :: 0 <= i < |s.deques[w]| ==> s.deques[w][i] < |s.jobs|
    ensures forall i :: 1 <= i < |s.deques[w]| ==> s.jobs[s.deques[w][0]].ticket > s.jobs[s.deques[w][i]].ticket
  {
    hide Sum, Places;
    assert DequeOk(s.deques[w], w, s.jobs, s.now, s.pushes);
    forall i | 0 <= i < |s.deques[w]| ensures s.deques[w][i] < |s.jobs| {
      assert Queued(s.jobs, s.now, s.pushes, s.deques[w][i], w);
    }
    assert Queued(s.jobs, s.now, s.pushes, s.deques[w][0], w);
  }

  lemma ApplyHistory(s: State, e: Event)
    requires Inv(s)
    ensures SameHistory(s, Apply(s, e))
    ensures !s.accept ==> !Apply(s, e).accept
    ensures !s.accept ==> forall j :: 0 <= j < |s.jobs| ==> Apply(s, e).jobs[j].started == s.jobs[j].started
    ensures !s.running ==> !Apply(s, e).running
  {
    hide Inv, Roused, Flat;
    if Enabled(s, e) && e.Take? && s.deques[e.w] != [] {
      FrontIsFresh(s, e.w);
    }
  }

  /** A job starts at most once, and no job starts once the pool has been shut down. */
  lemma {:induction false} StartsAtMostOnce(s: State, events: seq<Event>)
    requires Inv(s)
    ensures SameHistory(s, Run(s, events))
    ensures !s.accept ==> forall j :: 0 <= j < |s.jobs| ==> Run(s, events).jobs[j].started == s.jobs[j].started
    decreases |events|
  {
    hide Inv, Apply;
    if events != [] {
      var s1 := Apply(s, events[0]);
      ApplyKeeps(s, events[0]);
      ApplyHistory(s, events[0]);
      StartsAtMostOnce(s1, events[1..]);
      var s2 := Run(s1, events[1..]);
      forall j | 0 <= j < |s.jobs|
        ensures s2.jobs[j].registered == s.jobs[j].registered && s2.jobs[j].due == s.jobs[j].due
        ensures s.jobs[j].started.Some? || !s.accept ==> s2.jobs[j].started == s.jobs[j].started
      {
        assert s1.jobs[j].due == s.jobs[j].due;
      }
    }
  }

  /** A worker that gets past its wait starts the job pushed last to its own deque. */
  lemma NewestFirst(s: State, w: nat)
    requires Reachable(s) && Enabled(s, Take(w)) && s.deques[w] != [] && s.accept
    ensures var s' := Apply(s, Take(w));
            exists j: JobId :: s'.workers[w] == Busy(j) && j in s.deques[w] && s'.jobs[j].started == Some(s.now)
              && forall k :: k in s.deques[w] && k != j ==> s.jobs[k].ticket < s.jobs[j].ticket
  {
    ReachableInv(s);
    hide Reachable;
    FrontIsFresh(s, w);
    StealIsUnreachable(s.deques, s.accept, w);
    var j := s.deques[w][0];
    assert Apply(s, Take(w)).workers[w] == Busy(j);
  }

  // ---------------------------------------------------------------- the timer thread

  /** What the timer thread takes is due, and nothing in the heap is due earlier. */
  lemma HandsOffADueMinimum(s: State, top: nat)
    requires Reachable(s) && Enabled(s, Lock(top)) && Apply(s, Lock(top)).timer.HandingOff?
    ensures var j := Apply(s, Lock(top)).timer.j;
            && j < |s.jobs| && s.jobs[j].due <= s.now
            && forall i :: 0 <= i < |s.heap| ==> s.heap[i].j < |s.jobs| && s.jobs[j].due <= s.jobs[s.heap[i].j].due
  {
    ReachableInv(s);
    hide Reachable;
    hide Sum, Places;
    forall i | 0 <= i < |s.heap|
      ensures s.heap[i].j < |s.jobs| && s.heap[top].at <= s.jobs[s.heap[i].j].due
    {
      assert Timed(s.jobs, s.heap[i].j);
    }
    assert Timed(s.jobs, s.heap[top].j);
  }

  /** The jobs the timer thread may still hand over once m_running is cleared. */
  function Pending(t: Timer): nat {
    if t.Locking? || t.HandingOff? || t.Queueing? then 1 else 0
  }

  /** After m_running is cleared at most one more job is handed to the pool. */
  lemma {:induction false} AtMostOneMoreHandOver(s: State, events: seq<Event>)
    requires !s.running
    ensures Run(s, events).handed <= s.handed + Pending(s.timer) <= s.handed + 1
    decreases |events|
  {
    hide Apply;
    if events != [] {
      OneStepHandOver(s, events[0]);
      AtMostOneMoreHandOver(Apply(s, events[0]), events[1..]);
    }
  }

  lemma OneStepHandOver(s: State, e: Event)
    requires !s.running
    ensures !Apply(s, e).running
    ensures Apply(s, e).handed + Pending(Apply(s, e).timer) <= s.handed + Pending(s.timer)
  {
    hide Roused, Flat, TakeJob;
  }

  /**
   No lost wakeup: a timer thread asleep without a deadline has an empty heap and has not
   been stopped, one asleep until t has its earliest deadline at t, and a worker asleep has
   an empty deque in an open pool; unless it has been, or is about to be, notified.
   */
  lemma NoLostWakeup(s: State)
    requires Reachable(s)
    ensures s.timer == Waiting(false) && !TimerNotice(s.clients) ==> s.heap == [] && s.running
    ensures s.timer.WaitingUntil? && !s.timer.notified && !TimerNotice(s.clients) ==>
      EarliestAt(s.heap, s.timer.until)
    ensures !PoolNotice(s.clients) && !s.timer.Waking? ==>
      forall w :: 0 <= w < |s.workers| && s.workers[w] == Asleep(false) && w < |s.deques| ==>
        s.deques[w] == [] && s.accept
  {
    ReachableInv(s);
    hide Reachable;
    hide Sum, Places;
  }

  // ---------------------------------------------------------------- a stop that is not noticed

  /** The timer thread sleeps until a deadline although it was stopped and the stop announced. */
  predicate SleepsOn(s: State) {
    s.timer.WaitingUntil? && !s.timer.notified
  }

  /**
   wait_until has no predicate. If m_running is cleared between the loop test and the lock,
   the notification finds nobody asleep, and the timer thread then sleeps until the next
   deadline while destroy waits to join it. Once a stop has been announced this can still
   happen exactly if the thread is past its loop test and no job is due.
   */
  lemma StopCanBeMissedIff(s: State, c: nat)
    requires Inv(s) && !s.running && !SleepsOn(s) && !TimerNotice(s.clients)
    requires c < |s.clients| && s.clients[c].Idle?
    ensures (exists events :: SleepsOn(Run(s, events)))
            <==> s.timer.Locking? && forall i :: 0 <= i < |s.heap| ==> s.heap[i].at > s.now
  {
    hide Inv;
    if s.timer.Locking? && forall i :: 0 <= i < |s.heap| ==> s.heap[i].at > s.now {
      var events := MissedRun(s, c);
    } else {
      forall events ensures !SleepsOn(Run(s, events)) {
        NotMissed(s, events);
      }
    }
  }

  /** The thread cannot come to sleep until a deadline any more. */
  ghost predicate Awake(s: State) {
    && !s.running && !SleepsOn(s)
    && (s.timer.Locking? ==> exists i :: 0 <= i < |s.heap| && s.heap[i].at <= s.now)
  }

  lemma AwakeStays(s: State, e: Event)
    requires Awake(s)
    ensures Awake(Apply(s, e))
  {
    hide Roused, Flat, TakeJob;
    var s' := Apply(s, e);
    if Enabled(s, e) && s.timer.Locking? {
      var i :| 0 <= i < |s.heap| && s.heap[i].at <= s.now;
      if s'.timer.Locking? {
        assert s'.heap[i] == s.heap[i];
      }
    }
  }

  lemma {:induction false} NotMissed(s: State, events: seq<Event>)
    requires Awake(s)
    ensures !SleepsOn(Run(s, events))
    decreases |events|
  {
    hide Apply, Awake;
    if events != [] {
      AwakeStays(s, events[0]);
      NotMissed(Apply(s, events[0]), events[1..]);
    } else {
      AwakeIsAwake(s);
    }
  }

  lemma AwakeIsAwake(s: State)
    requires Awake(s)
    ensures !SleepsOn(s)
  {
  }

  lemma RunOne(s: State, e: Event)
    ensures Run(s, [e]) == Apply(s, e)
  {
    hide Apply;
    assert [e][1..] == [];
  }

  lemma RunFour(s: State, a: Event, b: Event, c: Event, d: Event)
    ensures Run(s, [a, b, c, d]) == Apply(Apply(Apply(Apply(s, a), b), c), d)
  {
    hide Apply;
    var s1 := Apply(s, a);
    var s2 := Apply(s1, b);
    assert [a, b, c, d][1..] == [b, c, d];
    assert [b, c, d][1..] == [c, d];
    assert Run(s1, [b, c, d]) == Run(s2, [c, d]);
    assert [c, d][1..] == [d];
    RunOne(Apply(s2, c), d);
  }

  /** A job for a millisecond from now comes in between test and lock. */
  lemma FarJob(s: State, c: nat)
    requires s.timer.Locking? && c < |s.clients| && s.clients[c].Idle? && s.heap == []
    ensures var s3 := Apply(Apply(Apply(s, Register(c, 1)), Insert(c)), NotifyTimer(c));
            SleepsOn(Apply(s3, Lock(0)))
  {
    var s2 := Apply(Apply(s, Register(c, 1)), Insert(c));
    assert s2.heap == [Entry(s.now + 1, |s.jobs|)];
  }

  /** How it goes wrong: a job that is not due, then the lock. */
  lemma MissedRun(s: State, c: nat) returns (events: seq<Event>)
    requires s.timer.Locking? && c < |s.clients| && s.clients[c].Idle?
    requires forall i :: 0 <= i < |s.heap| ==> s.heap[i].at > s.now
    ensures SleepsOn(Run(s, events))
  {
    hide Run;
    if s.heap != [] {
      var i := Top(s.heap);
      events := [Lock(i)];
      RunOne(s, Lock(i));
    } else {
      hide Apply;
      events := [Register(c, 1), Insert(c), NotifyTimer(c), Lock(0)];
      RunFour(s, Register(c, 1), Insert(c), NotifyTimer(c), Lock(0));
      FarJob(s, c);
    }
  }

  /**
   It happens: the thread has read that it is to run, a client stops it and announces that, and
   the thread then goes to sleep until a deadline.
   */
  lemma StopIsMissed() returns (s: State, events: seq<Event>)
    ensures Reachable(s) && !s.running && !SleepsOn(s) && !TimerNotice(s.clients)
    ensures SleepsOn(Run(s, events))
  {
    hide Reachable, Run;
    var s0 := Init(1, 1, 0);
    InitReachable(1, 1, 0);
    ApplyReachable(s0, Check);
    var s1 := Apply(s0, Check);
    ApplyReachable(s1, Stop(0));
    var s2 := Apply(s1, Stop(0));
    ApplyReachable(s2, NotifyTimer(0));
    s := Apply(s2, NotifyTimer(0));
    events := MissedRun(s, 0);
  }

  /** A heap that is not empty has a top. */
  lemma {:induction false} Top(heap: seq<Entry>) returns (i: nat)
    requires heap != []
    ensures IsTop(heap, i)
    decreases |heap|
  {
    if |heap| == 1 {
      i := 0;
    } else {
      var k := Top(heap[1..]);
      i := if heap[0].at <= heap[k + 1].at then 0 else k + 1;
      forall m | 0 <= m < |heap| ensures heap[i].at <= heap[m].at {
        if m > 0 { assert heap[1..][m - 1] == heap[m]; }
      }
    }
  }

  // ---------------------------------------------------------------- consecutive sleeps

  /** Each timer is registered by what the one before it resumed. */
  ghost predicate IsChain(s: State, chain: seq<JobId>, d: nat) {
    && (forall i :: 0 <= i < |chain| ==> chain[i] < |s.jobs| && s.jobs[chain[i]].started.Some?)
    && (forall i :: 0 <= i < |chain| ==> s.jobs[chain[i]].due == s.jobs[chain[i]].registered + d)
    && (forall i :: 0 < i < |chain| ==> s.jobs[chain[i]].registered >= s.jobs[chain[i - 1]].started.value)
  }

  lemma OneMore(n: nat, d: nat)
    ensures (n + 1) * d == n * d + d && 0 * d == 0
  {
  }

  /** n consecutive timers of d do not finish before n * d has passed. */
  lemma {:induction false} ConsecutiveSleeps(s: State, chain: seq<JobId>, d: nat)
    requires Reachable(s) && chain != [] && IsChain(s, chain, d)
    ensures s.jobs[chain[|chain| - 1]].started.value >= s.jobs[chain[0]].registered + |chain| * d
    decreases |chain|
  {
    hide Reachable, Inv;
    var n := |chain| - 1;
    NeverEarly(s, chain[n]);
    OneMore(n, d);
    if n > 0 {
      ConsecutiveSleeps(s, chain[..n], d);
      assert chain[..n][n - 1] == chain[n - 1];
    }
  }
}
