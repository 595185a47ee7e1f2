/**
 Shutting down: once the timed scheduler and the thread pool have been told to stop, all their
 threads can end, and then it is settled what has become of every job.
 */
module TimerPoolShutdown {
  import opened Sums
  import opened TimerPool
  import opened TimerPoolInvariant
  import opened TimerPoolSafety
  import opened TimerPoolProgress

  // ---------------------------------------------------------------- the way down

  /** Both were told to stop; the deques are not cleared yet. */
  ghost predicate Down(s: State) {
    Inv(s) && Posted(s) && !s.running && !s.accept && s.deques != []
  }

  /** A step on the way down starts nothing and submits nothing. */
  lemma DownKept(s: State, e: Event)
    requires Down(s) && Prompted(s, e) && !e.Clear?
    ensures Down(Apply(s, e)) && SameJobs(s, Apply(s, e))
  {
    ApplyKeeps(s, e);
    PostedKept(s, e);
    ApplyHistory(s, e);
    hide Inv, Posted, Flat, TakeJob, Roused;
  }

  /** The same jobs, and none has started in between. */
  ghost predicate SameJobs(s: State, s': State) {
    |s'.jobs| == |s.jobs| && forall j :: 0 <= j < |s.jobs| ==> s'.jobs[j].started == s.jobs[j].started
  }

  /** Steps until the timer thread has come to its end. */
  function TimerLeft(t: Timer): nat {
    match t
    case Exited => 0
    case Checking => 1
    case Waking => 2
    case Queueing(_, _) => 3
    case HandingOff(_) => 4
    case Waiting(notified) => if notified then 2 else 3
    case WaitingUntil(_, notified) => if notified then 2 else 3
    case Locking => 5
  }

  function WorkerLeft(w: Worker): nat {
    match w
    case Gone => 0
    case Ready => 1
    case Asleep(notified) => if notified then 1 else 2
    case Busy(_) => 2
    case BusyEmpty => 2
  }

  function Left(s: State): nat {
    Sum(ClientWork, s.clients) + TimerLeft(s.timer) + Sum(WorkerLeft, s.workers)
  }

  /** How long the timer thread still sleeps if nobody wakes it. */
  function Sleep(s: State): nat {
    if s.timer.WaitingUntil? && !s.timer.notified && s.timer.until > s.now then s.timer.until - s.now else 0
  }

  lemma {:induction false} RousedLeft(workers: seq<Worker>)
    ensures Sum(WorkerLeft, Roused(workers)) <= Sum(WorkerLeft, workers)
    decreases |workers|
  {
    if workers != [] {
      RousedLeft(workers[1..]);
      assert Roused(workers)[1..] == Roused(workers[1..]);
    }
  }

  lemma ClientDown(s: State, c: nat) returns (e: Event)
    requires Down(s) && c < |s.clients| && !s.clients[c].Idle?
    ensures Prompted(s, e) && !e.Tick? && !e.Clear? && Left(Apply(s, e)) < Left(s)
  {
    hide Sum, Places, Roused;
    var k := s.clients[c];
    assert ClientOk(k, s.jobs, s.now);
    match k
    case Timing(j) =>
      e := Insert(c);
      SumUpdate(ClientWork, s.clients, c, NotifyingTimer);
    case NotifyingTimer =>
      e := NotifyTimer(c);
      SumUpdate(ClientWork, s.clients, c, Client.Idle);
    case Submitting(j, q) =>
      e := Push(c);
      SumUpdate(ClientWork, s.clients, c, NotifyingPool);
    case NotifyingPool =>
      e := NotifyPool(c);
      SumUpdate(ClientWork, s.clients, c, Client.Idle);
      RousedLeft(s.workers);
  }

  /** The timer thread, when no client has anything to do and its sleep, if it sleeps, is over. */
  lemma TimerDown(s: State) returns (e: Event)
    requires Down(s) && !TimerNotice(s.clients) && !s.timer.Exited? && Sleep(s) == 0
    ensures Prompted(s, e) && !e.Tick? && !e.Clear? && Left(Apply(s, e)) < Left(s)
  {
    hide Sum, Places, Roused;
    match s.timer
    case Checking => e := Check;
    case Locking =>
      var top: nat := 0;
      if s.heap != [] { top := Top(s.heap); }
      e := Lock(top);
    case HandingOff(j) => e := Draw;
    case Queueing(j, q) => e := HandOver;
    case Waking =>
      e := WakePool;
      RousedLeft(s.workers);
    case _ => e := Wake;
  }

  /** A worker leaves, or finishes its job first: nobody sleeps unnotified in a closed pool. */
  lemma WorkerDown(s: State, w: nat) returns (e: Event)
    requires Down(s) && !PoolNotice(s.clients) && !s.timer.Waking? && w < |s.workers| && !s.workers[w].Gone?
    ensures Prompted(s, e) && !e.Tick? && !e.Clear? && Left(Apply(s, e)) < Left(s)
  {
    hide Sum, Places;
    assert w < |s.deques| && s.workers[w] != Asleep(false);
    if s.workers[w].Busy? || s.workers[w].BusyEmpty? {
      e := Finish(w);
      SumUpdate(WorkerLeft, s.workers, w, Ready);
    } else {
      assert DequeOk(s.deques[w], w, s.jobs, s.now, s.pushes);
      forall i | 0 <= i < |s.deques[w]| ensures s.deques[w][i] < |s.jobs| {
        assert Queued(s.jobs, s.now, s.pushes, s.deques[w][i], w);
      }
      e := Take(w);
      SumUpdate(WorkerLeft, s.workers, w, Gone);
    }
  }

  /** Nobody has anything left to do. */
  ghost predicate AllOver(s: State) {
    && s.timer.Exited?
    && (forall c :: 0 <= c < |s.clients| ==> s.clients[c].Idle?)
    && forall w :: 0 <= w < |s.workers| ==> s.workers[w].Gone?
  }

  lemma DownNext(s: State) returns (e: Event)
    requires Down(s) && !AllOver(s)
    ensures Prompted(s, e) && !e.Clear?
    ensures Left(Apply(s, e)) < Left(s) || (Left(Apply(s, e)) == Left(s) && Sleep(Apply(s, e)) < Sleep(s))
  {
    hide Down, Left;
    if c :| 0 <= c < |s.clients| && !s.clients[c].Idle? {
      e := ClientDown(s, c);
    } else if Sleep(s) > 0 {
      e := Tick(Sleep(s));
      TickIsPrompted(s, Sleep(s));
      SleepPasses(s);
    } else if !s.timer.Exited? {
      e := TimerDown(s);
    } else {
      var w :| 0 <= w < |s.workers| && !s.workers[w].Gone?;
      e := WorkerDown(s, w);
    }
  }

  lemma SleepPasses(s: State)
    requires Sleep(s) > 0
    ensures Left(Apply(s, Tick(Sleep(s)))) == Left(s) && Sleep(Apply(s, Tick(Sleep(s)))) == 0
  {
    hide Sum;
  }

  lemma {:induction false} CanEnd(s: State) returns (events: seq<Event>)
    requires Down(s)
    ensures PromptedRun(s, events)
    ensures Down(Run(s, events)) && AllOver(Run(s, events)) && SameJobs(s, Run(s, events))
    decreases Left(s), Sleep(s)
  {
    hide Down, AllOver, Prompted, Left, Sleep, Apply, Sum;
    if AllOver(s) {
      events := [];
    } else {
      var e := DownNext(s);
      DownKept(s, e);
      var rest := CanEnd(Apply(s, e));
      events := [e] + rest;
      assert events[1..] == rest;
    }
  }

  // ---------------------------------------------------------------- what becomes of the jobs

  /** When all threads have ended the pool's deques are cleared, and what was in them is dropped. */
  lemma ClearEnds(s: State)
    requires Down(s) && AllOver(s)
    ensures Prompted(s, Clear) && Inv(Apply(s, Clear)) && AllOver(Apply(s, Clear)) && SameJobs(s, Apply(s, Clear))
    ensures Apply(s, Clear).deques == []
  {
    ApplyKeeps(s, Clear);
    hide Inv, Posted, Flat;
  }

  /** A job that is in no thread's hands and in no deque has finished, was dropped or was never due. */
  lemma WhatBecomes(s: State, j: JobId)
    requires Inv(s) && AllOver(s) && s.deques == [] && j < |s.jobs|
    ensures j in s.finished <==> s.jobs[j].started.Some?
    ensures s.jobs[j].started.None? ==> (j in s.dropped <==> !InHeapOf(s, j))
  {
    assert Places(s, j) == 1;
    var p := HasPlace(s, j);
    if j in s.finished {
      var i :| 0 <= i < |s.finished| && s.finished[i] == j;
      assert Started(s.jobs, s.now, s.finished[i]);
    }
    if j in s.dropped {
      var i :| 0 <= i < |s.dropped| && s.dropped[i] == j;
      assert s.jobs[s.dropped[i]].started.None?;
      if InHeapOf(s, j) {
        var k :| 0 <= k < |s.heap| && s.heap[k].j == j;
        SamePlace(s, DroppedAt(i), HeapSlot(k), j);
      }
    }
    hide Sum, Places;
    match p
    case HeapSlot(i) => assert Timed(s.jobs, s.heap[i].j);
    case _ =>
  }

  ghost predicate InHeapOf(s: State, j: JobId) {
    exists i :: 0 <= i < |s.heap| && s.heap[i].j == j
  }

  /** A run goes on. */
  lemma {:induction false} PromptedSnoc(s: State, events: seq<Event>, e: Event)
    requires PromptedRun(s, events) && Prompted(Run(s, events), e)
    ensures PromptedRun(s, events + [e])
    decreases |events|
  {
    hide Prompted, Apply;
    if events == [] {
      assert events + [e] == [e] && [e][1..] == [];
    } else {
      assert (events + [e])[1..] == events[1..] + [e];
      PromptedSnoc(Apply(s, events[0]), events[1..], e);
    }
  }

  /**
   Shutdown comes to its end: from every reachable state in which the timed scheduler and the
   pool have been told to stop, whoever is in the middle of what, finitely many steps without a
   spurious wakeup bring the timer thread, all workers and all clients to their ends and clear
   the deques. Then exactly the jobs that had started by the time of the stop have finished;
   each other job was dropped, or else is still in the heap of the timed scheduler.
   */
  lemma ShutdownEnds(s: State) returns (events: seq<Event>)
    requires Reachable(s) && !s.running && !s.accept && s.deques != []
    ensures PromptedRun(s, events)
    ensures var s' := Run(s, events);
            && AllOver(s') && s'.deques == [] && |s'.jobs| == |s.jobs|
            && forall j :: 0 <= j < |s.jobs| ==>
                 && (j in s'.finished <==> s.jobs[j].started.Some?)
                 && (s.jobs[j].started.None? ==> (j in s'.dropped <==> !InHeapOf(s', j)))
  {
    ReachableInv(s);
    PostedReachable(s);
    hide Reachable, Inv, Posted, AllOver, Apply, Prompted, InHeapOf;
    var most := CanEnd(s);
    var s1 := Run(s, most);
    ClearEnds(s1);
    PromptedSnoc(s, most, Clear);
    RunSnoc(s, most, Clear);
    events := most + [Clear];
    var s' := Run(s, events);
    forall j | 0 <= j < |s.jobs|
      ensures j in s'.finished <==> s.jobs[j].started.Some?
      ensures s.jobs[j].started.None? ==> (j in s'.dropped <==> !InHeapOf(s', j))
    {
      WhatBecomes(s', j);
      assert s1.jobs[j].started == s.jobs[j].started;
      assert s'.jobs[j].started == s1.jobs[j].started;
    }
  }
}
