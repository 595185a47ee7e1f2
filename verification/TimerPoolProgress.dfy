/** While the pool is open and the timer thread runs, every job can come to start. */
module TimerPoolProgress {
  import opened Options
  import opened RoundRobin
  import opened Sums
  import opened TimerPool
  import opened TimerPoolInvariant
  import opened TimerPoolSafety

  // ---------------------------------------------------------------- who is still there

  /** Threads leave and jobs are dropped only at the end; a ticket names a deque. */
  ghost predicate Posted(s: State) {
    && (s.timer.Exited? ==> !s.running)
    && (s.timer.Queueing? ==> s.timer.q < |s.deques|)
    && (forall w :: 0 <= w < |s.workers| && s.workers[w].Gone? ==> !s.accept)
    && (forall c :: 0 <= c < |s.clients| && s.clients[c].Submitting? ==> s.clients[c].q < |s.deques|)
    && (s.dropped != [] ==> !s.accept)
  }

  lemma PostedKept(s: State, e: Event)
    requires Posted(s)
    ensures Posted(Apply(s, e))
  {
    hide Flat, StealFrom, Around;
  }

  lemma {:induction false} PostedRun(s: State, events: seq<Event>)
    requires Posted(s)
    ensures Posted(Run(s, events))
    decreases |events|
  {
    hide Posted, Apply;
    if events != [] {
      PostedKept(s, events[0]);
      PostedRun(Apply(s, events[0]), events[1..]);
    }
  }

  lemma PostedReachable(s: State)
    requires Reachable(s)
    ensures Posted(s)
  {
    hide Run;
    var clients: nat, workers: nat, now: int, events: seq<Event> :|
      s == Run(Init(clients, workers, now), events);
    PostedRun(Init(clients, workers, now), events);
  }

  // ---------------------------------------------------------------- prompted steps

  /**
   A step that needs no luck: sleepers wake only because they were notified or their time has
   come, nobody submits anything new and nobody stops anything.
   */
  ghost predicate Prompted(s: State, e: Event) {
    && Enabled(s, e)
    && match e
       case Register(_, _) => false
       case Submit(_) => false
       case Stop(_) => false
       case Shutdown(_) => false
       case Wake => s.timer.notified || (s.timer.WaitingUntil? && s.timer.until <= s.now)
       case Take(w) => s.workers[w].Asleep? ==> s.workers[w].notified
       case _ => true
  }

  ghost predicate PromptedRun(s: State, events: seq<Event>)
    decreases |events|
  {
    events == [] || (Prompted(s, events[0]) && PromptedRun(Apply(s, events[0]), events[1..]))
  }

  /** An open system in which every job is due. */
  ghost predicate Going(s: State) {
    && Inv(s) && Posted(s) && s.running && s.accept && s.workers != []
    && forall j :: 0 <= j < |s.jobs| ==> s.jobs[j].due <= s.now
  }

  lemma GoingKept(s: State, e: Event)
    requires Going(s) && Prompted(s, e) && !e.Tick?
    ensures Going(Apply(s, e)) && |Apply(s, e).jobs| == |s.jobs|
  {
    ApplyKeeps(s, e);
    PostedKept(s, e);
    hide Inv, Posted, Flat, TakeJob;
  }

  // ---------------------------------------------------------------- what is left to do

  function ClientWork(c: Client): nat {
    match c
    case Idle => 0
    case Timing(_) => 9
    case NotifyingTimer => 1
    case Submitting(_, _) => 4
    case NotifyingPool => 1
  }

  function TimerWork(t: Timer): nat {
    match t
    case Checking => 5
    case Locking => 4
    case Waiting(_) => 6
    case WaitingUntil(_, _) => 6
    case HandingOff(_) => 10
    case Queueing(_, _) => 9
    case Waking => 6
    case Exited => 0
  }

  function DequeWork(deque: seq<JobId>): nat { 2 * |deque| }

  function WorkerWork(w: Worker): nat {
    if w.Busy? || w.BusyEmpty? then 1 else 0
  }

  function Work(s: State): nat {
    Sum(ClientWork, s.clients) + 7 * |s.heap| + TimerWork(s.timer) + Sum(DequeWork, s.deques)
    + Sum(WorkerWork, s.workers)
  }

  lemma {:induction false} RousedWork(workers: seq<Worker>)
    ensures Sum(WorkerWork, Roused(workers)) == Sum(WorkerWork, workers)
    decreases |workers|
  {
    if workers != [] {
      RousedWork(workers[1..]);
      assert Roused(workers)[1..] == Roused(workers[1..]);
    }
  }

  /** Client c takes its next step, which never waits for anything. */
  lemma ClientNext(s: State, c: nat) returns (e: Event)
    requires Going(s) && c < |s.clients| && !s.clients[c].Idle?
    ensures Prompted(s, e) && !e.Tick? && Work(Apply(s, e)) < Work(s)
  {
    hide Sum, Places, Roused;
    var k := s.clients[c];
    assert ClientOk(k, s.jobs, s.now);
    match k
    case Timing(j) =>
      e := Insert(c);
      SumUpdate(ClientWork, s.clients, c, NotifyingTimer);
    case NotifyingTimer =>
      e := NotifyTimer(c);
      SumUpdate(ClientWork, s.clients, c, Client.Idle);
    case Submitting(j, q) =>
      e := Push(c);
      SumUpdate(ClientWork, s.clients, c, NotifyingPool);
      SumUpdate(DequeWork, s.deques, q, [j] + s.deques[q]);
    case NotifyingPool =>
      e := NotifyPool(c);
      SumUpdate(ClientWork, s.clients, c, Client.Idle);
      RousedWork(s.workers);
  }

  /** With something in the heap or in its hands the timer thread gets on, or is about to be notified. */
  lemma TimerNext(s: State) returns (e: Event)
    requires Going(s) && (s.heap != [] || s.timer.HandingOff? || s.timer.Queueing? || s.timer.Waking?)
    ensures Prompted(s, e) && !e.Tick? && Work(Apply(s, e)) < Work(s)
  {
    if s.timer.Waiting? || s.timer.WaitingUntil? {
      e := SleeperNext(s);
      return;
    }
    hide Sum, Places, Roused;
    match s.timer
    case Checking => e := Check;
    case Locking =>
      var top := Top(s.heap);
      e := Lock(top);
      TopIsDue(s, top);
    case HandingOff(j) => e := Draw;
    case Queueing(j, q) =>
      e := HandOver;
      HandOverWorks(s);
    case Waking =>
      e := WakePool;
      RousedWork(s.workers);
  }

  lemma HandOverWorks(s: State)
    requires Going(s) && s.timer.Queueing?
    ensures Enabled(s, HandOver) && Work(Apply(s, HandOver)) < Work(s)
  {
    hide Sum, Places;
    SumUpdate(DequeWork, s.deques, s.timer.q, [s.timer.j] + s.deques[s.timer.q]);
  }

  lemma SleeperNext(s: State) returns (e: Event)
    requires Going(s) && s.heap != [] && (s.timer.Waiting? || s.timer.WaitingUntil?)
    ensures Prompted(s, e) && !e.Tick? && Work(Apply(s, e)) < Work(s)
  {
    hide Sum, Places;
    if s.timer.notified {
      e := Wake;
    } else if s.timer.Waiting? || TimerNotice(s.clients) {
      e := Announced(s);
    } else {
      SleepIsOver(s);
      e := Wake;
    }
  }

  lemma TopIsDue(s: State, top: nat)
    requires Going(s) && IsTop(s.heap, top)
    ensures s.heap[top].at <= s.now
  {
    hide Sum, Places;
    assert Timed(s.jobs, s.heap[top].j);
  }

  /** Wakeups, for the timer thread: an untimed sleeper with work to do is about to be notified. */
  lemma Announced(s: State) returns (e: Event)
    requires Going(s) && (TimerNotice(s.clients) || (s.timer == Waiting(false) && s.heap != []))
    ensures Prompted(s, e) && !e.Tick? && Work(Apply(s, e)) < Work(s)
  {
    hide Sum, Places;
    var c :| 0 <= c < |s.clients| && s.clients[c].NotifyingTimer?;
    e := ClientNext(s, c);
  }

  lemma SleepIsOver(s: State)
    requires Going(s) && s.timer.WaitingUntil? && !s.timer.notified && !TimerNotice(s.clients)
    ensures s.timer.until <= s.now
  {
    hide Sum, Places;
    var i: nat :| IsTop(s.heap, i) && s.heap[i].at == s.timer.until;
    TopIsDue(s, i);
  }

  /** With a job in its deque a worker gets on, or is about to be notified. */
  lemma WorkerNext(s: State, w: nat) returns (e: Event)
    requires Going(s) && w < |s.deques| && s.deques[w] != []
    ensures Prompted(s, e) && !e.Tick? && Work(Apply(s, e)) < Work(s)
  {
    FrontIsFresh(s, w);
    AtWork(s, w);
    hide Sum, Places, Inv;
    match s.workers[w]
    case Ready => e := Take(w); TakeWorks(s, w);
    case Asleep(notified) =>
      if notified {
        e := Take(w);
        TakeWorks(s, w);
      } else if s.timer.Waking? {
        e := TimerNext(s);
      } else {
        var c :| 0 <= c < |s.clients| && s.clients[c].NotifyingPool?;
        e := ClientNext(s, c);
      }
    case Busy(_) =>
      e := Finish(w);
      SumUpdate(WorkerWork, s.workers, w, Ready);
  }

  /** Wakeups, for worker w: an open pool still has it, and it does not sleep on with a job unannounced. */
  lemma AtWork(s: State, w: nat)
    requires Going(s) && w < |s.deques| && s.deques[w] != []
    ensures w < |s.workers| && !s.workers[w].Gone? && !s.workers[w].BusyEmpty?
    ensures s.workers[w] == Asleep(false) ==> s.timer.Waking? || PoolNotice(s.clients)
  {
    hide Sum, Places;
    assert WorkerOk(s.workers[w], w, s.jobs, s.now);
  }

  lemma TakeWorks(s: State, w: nat)
    requires w < |s.workers| && w < |s.deques| && s.deques[w] != [] && s.accept
    requires s.workers[w].Ready? || s.workers[w].Asleep?
    requires forall i :: 0 <= i < |s.deques[w]| ==> s.deques[w][i] < |s.jobs|
    ensures Enabled(s, Take(w)) && Work(Apply(s, Take(w))) < Work(s)
  {
    hide Sum;
    SumUpdate(WorkerWork, s.workers, w, Busy(s.deques[w][0]));
    SumUpdate(DequeWork, s.deques, w, s.deques[w][1..]);
  }

  /** As long as some job has not started, there is something to do, and it is one step less then. */
  lemma NextStep(s: State, j: JobId) returns (e: Event)
    requires Going(s) && j < |s.jobs| && s.jobs[j].started.None?
    ensures Prompted(s, e) && !e.Tick? && Work(Apply(s, e)) < Work(s)
  {
    var p := PendingPlace(s, j);
    hide Inv, Posted, Going, Prompted, Work, Apply;
    match p
    case ClientHand(c) => e := ClientNext(s, c);
    case DequeSlot(q, _) => e := WorkerNext(s, q);
    case _ => e := TimerNext(s);
  }

  /** A job that has not started is with a client, in the heap, with the timer thread or in a deque. */
  lemma PendingPlace(s: State, j: JobId) returns (p: Place)
    requires Going(s) && j < |s.jobs| && s.jobs[j].started.None?
    ensures Occupies(s, p, j)
    ensures p.HeapSlot? || p.TimerHand? || p.ClientHand? || p.DequeSlot?
  {
    hide Sum, Places;
    assert Places(s, j) == 1;
    BusyHasStarted(s, j);
    p := HasPlace(s, j);
  }

  lemma BusyHasStarted(s: State, j: JobId)
    requires Inv(s) && j < |s.jobs|
    ensures forall w :: 0 <= w < |s.workers| && s.workers[w] == Busy(j) ==> s.jobs[j].started.Some?
  {
    hide Sum, Places;
    forall w | 0 <= w < |s.workers| && s.workers[w] == Busy(j) ensures s.jobs[j].started.Some? {
      assert WorkerOk(s.workers[w], w, s.jobs, s.now);
    }
  }

  lemma {:induction false} CanStart(s: State, j: JobId) returns (events: seq<Event>)
    requires Going(s) && j < |s.jobs|
    ensures PromptedRun(s, events)
    ensures j < |Run(s, events).jobs| && Run(s, events).jobs[j].started.Some?
    decreases Work(s)
  {
    hide Going, Prompted, Work, Apply;
    if s.jobs[j].started.Some? {
      events := [];
    } else {
      var e := NextStep(s, j);
      GoingKept(s, e);
      var rest := CanStart(Apply(s, e), j);
      events := [e] + rest;
      assert events[1..] == rest;
    }
  }

  /** A time by which every job is due. */
  lemma {:induction false} Latest(jobs: seq<Job>) returns (time: int)
    ensures forall j :: 0 <= j < |jobs| ==> jobs[j].due <= time
    decreases |jobs|
  {
    if jobs == [] {
      time := 0;
    } else {
      time := Latest(jobs[1..]);
      if jobs[0].due > time { time := jobs[0].due; }
      forall j | 0 <= j < |jobs| ensures jobs[j].due <= time {
        assert j > 0 ==> jobs[j] == jobs[1..][j - 1];
      }
    }
  }

  /**
   Progress: from every reachable state with an open pool and a running timer thread, every
   submitted job, wherever it is, comes to start after finitely many steps in which nobody wakes
   without a notification or a deadline. No such state is stuck.
   */
  lemma EveryJobCanStart(s: State, j: JobId) returns (events: seq<Event>)
    requires Reachable(s) && s.running && s.accept && s.workers != [] && j < |s.jobs|
    ensures PromptedRun(s, events)
    ensures j < |Run(s, events).jobs| && Run(s, events).jobs[j].started.Some?
  {
    ReachableInv(s);
    PostedReachable(s);
    var time := Latest(s.jobs);
    var ms: nat := if time > s.now then time - s.now else 0;
    hide Reachable, Inv, Posted;
    var s' := Apply(s, Tick(ms));
    ApplyKeeps(s, Tick(ms));
    PostedKept(s, Tick(ms));
    var rest := CanStart(s', j);
    hide Apply, Prompted;
    events := [Tick(ms)] + rest;
    assert events[1..] == rest;
    TickIsPrompted(s, ms);
  }

  lemma TickIsPrompted(s: State, ms: nat)
    ensures Prompted(s, Tick(ms))
  {
  }
}
