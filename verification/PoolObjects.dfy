/**
 The thread pool of src/thread_pool.cpp and the timed scheduler of src/scheduler.hpp as
 objects updated in place, and how evenly the pool deals out its jobs.
 */
module PoolObjects {
  import opened Options
  import opened RoundRobin
  import opened TimerPool
  import opened TimerPoolInvariant
  import opened TimerPoolSafety

  // ---------------------------------------------------------------- tickets

  /** How many of the accepted calls get deque q, when the first ticket is `first`. */
  function Share(calls: seq<Option<JobId>>, first: nat, n: nat, q: nat): nat
    requires n > 0
  {
    if calls == [] then 0
    else if calls[0].None? then Share(calls[1..], first, n, q)
    else (if Around(first, n) == q then 1 else 0) + Share(calls[1..], first + 1, n, q)
  }

  function Accepted(calls: seq<Option<JobId>>): nat {
    if calls == [] then 0 else (if calls[0].Some? then 1 else 0) + Accepted(calls[1..])
  }

  lemma {:induction false} ShareIsBelow(calls: seq<Option<JobId>>, first: nat, n: nat, q: nat)
    requires q < n
    ensures Share(calls, first, n, q) + Below(first, n, q) == Below(first + Accepted(calls), n, q)
  {
    if calls != [] {
      if calls[0].Some? {
        BelowNext(first, n, q);
        ShareIsBelow(calls[1..], first + 1, n, q);
      } else {
        ShareIsBelow(calls[1..], first, n, q);
      }
    }
  }

  /**
   Ticket balance: whatever is queued, empty functions take no ticket and any two deques
   are given the same number of jobs, up to one.
   */
  lemma TicketBalance(calls: seq<Option<JobId>>, first: nat, n: nat, q: nat, r: nat)
    requires q < n && r < n
    ensures -1 <= Share(calls, first, n, q) - Share(calls, first, n, r) <= 1
  {
    ShareIsBelow(calls, first, n, q);
    ShareIsBelow(calls, first, n, r);
    WindowShare(first, Accepted(calls), n, q);
    WindowShare(first, Accepted(calls), n, r);
  }

  // ---------------------------------------------------------------- thread_pool

  class ThreadPool {
    var jobStack: seq<seq<JobId>>
    var acceptJobs: bool
    var nextQueue: nat

    /** The pool is the one of a state of the transition system. */
    ghost predicate PartOf(s: State)
      reads this
    {
      s.deques == jobStack && s.accept == acceptJobs && s.next == nextQueue
    }

    constructor (threads: nat)
      ensures jobStack == seq(threads, i => []) && acceptJobs && nextQueue == 0
    {
      jobStack, acceptJobs, nextQueue := seq(threads, i => []), true, 0;
    }

    /**
     An empty function is ignored; any other goes to the front of the next ticket's deque. For a
     client that is what submitting and then pushing does, and for the timer thread, with the
     job it hands off, what drawing the ticket and then handing over does.
     */
    method QueueJob(func: Option<JobId>)
      requires jobStack != []
      modifies this`jobStack, this`nextQueue
      ensures func.None? ==> jobStack == old(jobStack) && nextQueue == old(nextQueue)
      ensures func.Some? ==>
        && nextQueue == old(nextQueue) + 1
        && var index := old(Around(nextQueue, |jobStack|));
           jobStack == old(jobStack)[index := [func.value] + old(jobStack)[index]]
      ensures func.Some? ==> forall s: State, c: nat ::
        old(PartOf(s)) && Doing(s, c, Client.Idle) && func.value == |s.jobs| ==>
          Both(s, Submit(c), Push(c)) && PartOf(Apply(Apply(s, Submit(c)), Push(c)))
      ensures func.Some? ==> forall s: State ::
        old(PartOf(s)) && s.timer == HandingOff(func.value) && func.value < |s.jobs| ==>
          Both(s, Draw, TimerPool.HandOver) && PartOf(Apply(Apply(s, Draw), TimerPool.HandOver))
    {
      if func.Some? {
        var index := Around(nextQueue, |jobStack|);
        nextQueue := nextQueue + 1;
        jobStack := jobStack[index := [func.value] + jobStack[index]];
      }
    }

    /** A series of calls: each deque grows by its share of the tickets, in front. */
    method QueueAll(calls: seq<Option<JobId>>)
      requires jobStack != []
      modifies this`jobStack, this`nextQueue
      ensures |jobStack| == |old(jobStack)| && nextQueue == old(nextQueue) + Accepted(calls)
      ensures forall q :: 0 <= q < |jobStack| ==>
        |jobStack[q]| == |old(jobStack)[q]| + Share(calls, old(nextQueue), |jobStack|, q)
      ensures forall q, r :: 0 <= q < |jobStack| && 0 <= r < |jobStack| ==>
        |jobStack[q]| - |old(jobStack)[q]| <= |jobStack[r]| - |old(jobStack)[r]| + 1
    {
      ghost var n := |jobStack|;
      var i := 0;
      assert calls[0..] == calls;
      while i < |calls|
        invariant 0 <= i <= |calls| && |jobStack| == n
        invariant nextQueue + Accepted(calls[i..]) == old(nextQueue) + Accepted(calls)
        invariant forall q :: 0 <= q < n ==>
          |jobStack[q]| + Share(calls[i..], nextQueue, n, q) == |old(jobStack)[q]| + Share(calls, old(nextQueue), n, q)
      {
        assert calls[i..][1..] == calls[i + 1..];
        QueueJob(calls[i]);
        i := i + 1;
      }
      forall q, r | 0 <= q < n && 0 <= r < n
        ensures |jobStack[q]| - |old(jobStack)[q]| <= |jobStack[r]| - |old(jobStack)[r]| + 1
      {
        TicketBalance(calls, old(nextQueue), n, q, r);
      }
    }

    /**
     One round of a worker, from the end of its wait to the unlock. Every worker gets here
     with WaitOver, so by StealIsUnreachable it leaves or takes the front of its own deque.
     */
    method NextJob(index: nat) returns (leave: bool, job: Option<JobId>)
      requires index < |jobStack|
      modifies this`jobStack
      ensures var taken := TakeJob(old(jobStack), acceptJobs, index);
              && leave == taken.Leave?
              && job == (if taken.Got? then Some(taken.j) else None)
              && jobStack == (if taken.Got? then taken.deques else old(jobStack))
      ensures forall s: State ::
        old(PartOf(s)) && Enabled(s, Take(index)) && WaitOver(old(jobStack), acceptJobs, index) ==>
          && PartOf(Apply(s, Take(index)))
          && Apply(s, Take(index)).workers[index] == AfterTaking(leave, job)
    {
      leave, job := false, None;
      if !acceptJobs {
        leave := true;
      } else if jobStack[index] != [] {
        job := Some(jobStack[index][0]);
        jobStack := jobStack[index := jobStack[index][1..]];
      } else if |jobStack| > 1 {
        job := Steal(index);
      }
    }

    /** destroy, under the lock: nothing else is touched, and the notification is still to come. */
    method StopAccepting()
      modifies this`acceptJobs
      ensures !acceptJobs
      ensures forall s: State, c: nat :: old(PartOf(s)) && Doing(s, c, Client.Idle) ==>
        && Enabled(s, Shutdown(c)) && PartOf(Apply(s, Shutdown(c)))
        && Doing(Apply(s, Shutdown(c)), c, NotifyingPool)
    {
      acceptJobs := false;
    }

    /** The end of destroy, when all workers have been joined: what is left in the deques is dropped. */
    method ClearJobs()
      modifies this`jobStack
      ensures jobStack == []
      ensures forall s: State :: old(PartOf(s)) && Enabled(s, Clear) ==> PartOf(Apply(s, Clear))
      ensures forall s: State, j: JobId :: old(PartOf(s)) && Enabled(s, Clear) ==>
        (j in Apply(s, Clear).dropped <==> j in s.dropped || exists q :: 0 <= q < |old(jobStack)| && j in old(jobStack)[q])
    {
      forall s: State, j: JobId | PartOf(s)
        ensures j in Flat(s.deques) <==> exists q :: 0 <= q < |jobStack| && j in jobStack[q]
      {
        InFlat(s.deques, j);
      }
      hide Flat;
      jobStack := [];
    }

    /**
     The loop over victims: the oldest job of the first other deque, in circular order after
     the worker's own, that holds at least four; none exactly if every other deque holds fewer.
     */
    method Steal(index: nat) returns (job: Option<JobId>)
      requires index < |jobStack|
      modifies this`jobStack
      ensures job.None? <==>
        forall v :: 0 <= v < |old(jobStack)| && v != index ==> |old(jobStack)[v]| < 4
      ensures job.None? ==> jobStack == old(jobStack)
      ensures job.Some? ==>
        exists k :: 0 <= k < |old(jobStack)| && Robs(old(jobStack), index, k, Got(jobStack, job.value))
          && forall m :: 0 <= m < k ==> !Robbable(old(jobStack), index, VictimAt(|old(jobStack)|, index, m))
      ensures StealFrom(old(jobStack), index, 0) == if job.Some? then Got(jobStack, job.value) else GotNothing
    {
      hide StealFrom, VictimAt;
      var i := 0;
      while i < |jobStack|
        invariant jobStack == old(jobStack) && i <= |jobStack|
        invariant forall k :: 0 <= k < i ==> !Robbable(jobStack, index, VictimAt(|jobStack|, index, k))
        invariant StealFrom(jobStack, index, 0) == StealFrom(jobStack, index, i)
      {
        var victim := VictimAt(|jobStack|, index, i);
        StealUnfolds(jobStack, index, i);
        if |jobStack[victim]| >= 4 && victim != index {
          var n := |jobStack[victim]| - 1;
          job := Some(jobStack[victim][n]);
          jobStack := jobStack[victim := jobStack[victim][..n]];
          assert Robs(old(jobStack), index, i, Got(jobStack, job.value));
          return;
        }
        i := i + 1;
      }
      job := None;
      StealUnfolds(jobStack, index, i);
      forall v | 0 <= v < |jobStack| && v != index ensures |jobStack[v]| < 4 {
        var k := Turn(|jobStack|, index, v);
        assert !Robbable(jobStack, index, VictimAt(|jobStack|, index, k));
      }
    }
  }

  /** Where a worker of the transition system is after a round. */
  function AfterTaking(leave: bool, job: Option<JobId>): Worker {
    if leave then Gone else if job.Some? then Busy(job.value) else BusyEmpty
  }

  /** Two events can happen one after the other. */
  ghost predicate Both(s: State, first: Event, second: Event) {
    Enabled(s, first) && Enabled(Apply(s, first), second)
  }

  lemma {:induction false} InFlat(deques: seq<seq<JobId>>, j: JobId)
    ensures j in Flat(deques) <==> exists q :: 0 <= q < |deques| && j in deques[q]
  {
    if deques != [] {
      InFlat(deques[1..], j);
      if q :| 0 <= q < |deques| && j in deques[q] {
        assert q > 0 ==> j in deques[1..][q - 1];
      }
      if q :| 0 <= q < |deques[1..]| && j in deques[1..][q] {
        assert j in deques[q + 1];
      }
    }
  }

  lemma StealUnfolds(deques: seq<seq<JobId>>, w: nat, i: nat)
    requires w < |deques| && i <= |deques|
    ensures i == |deques| ==> StealFrom(deques, w, i) == GotNothing
    ensures i < |deques| ==>
      var v := VictimAt(|deques|, w, i);
      if !Robbable(deques, w, v) then StealFrom(deques, w, i) == StealFrom(deques, w, i + 1)
      else Robs(deques, w, i, StealFrom(deques, w, i))
  {
    hide VictimAt;
  }

  /** Every deque gets its turn in the search for a victim. */
  lemma Turn(n: nat, w: nat, v: nat) returns (k: nat)
    requires w < n && v < n
    ensures k < n && VictimAt(n, w, k) == v
  {
    if v > w {
      k := v - w - 1;
      DivModUnique(w + k + 1, n, 0, v);
    } else {
      k := v + n - w - 1;
      DivModUnique(w + k + 1, n, 1, v);
    }
  }

  // ---------------------------------------------------------------- the timed scheduler

  datatype Action = HandOff(j: JobId) | SleepUntil(time: int) | SleepUntimed | Retry

  /** Where the timer thread of the transition system is after an action. */
  function TimerAfter(action: Action): Timer {
    match action
    case HandOff(j) => HandingOff(j)
    case SleepUntil(time) => WaitingUntil(time, false)
    case SleepUntimed => Waiting(false)
    case Retry => Checking
  }

  /**
   The timed scheduler; s is the state of the transition system that the object is a part of,
   so that what holds of the reachable states holds of the object.
   */
  class TimedScheduler {
    var jobs: seq<Entry>
    var running: bool

    ghost predicate PartOf(s: State)
      reads this
    {
      s.heap == jobs && s.running == running
    }

    constructor (clients: nat, workers: nat, now: int)
      ensures jobs == [] && running && PartOf(Init(clients, workers, now))
    {
      jobs, running := [], true;
    }

    /** destroy, under the lock; the notification is still to come. */
    method StopRunning(ghost s: State, ghost c: nat)
      requires PartOf(s) && Doing(s, c, Client.Idle)
      modifies this`running
      ensures !running
      ensures Enabled(s, Stop(c)) && PartOf(Apply(s, Stop(c))) && Doing(Apply(s, Stop(c)), c, NotifyingTimer)
    {
      running := false;
    }

    /** execute_after: client c reads the clock, then enters the job. */
    method ExecuteAfter(now: int, delay: int, j: JobId, ghost s: State, ghost c: nat)
      requires PartOf(s) && s.now == now && Doing(s, c, Client.Idle) && j == |s.jobs|
      modifies this`jobs
      ensures jobs == old(jobs) + [Entry(now + delay, j)]
      ensures var s1 := Apply(s, Register(c, delay));
              && Enabled(s, Register(c, delay)) && Enabled(s1, Insert(c))
              && PartOf(Apply(s1, Insert(c))) && Doing(Apply(s1, Insert(c)), c, NotifyingTimer)
    {
      ghost var s1 := Apply(s, Register(c, delay));
      ExecuteAt(now + delay, j, s1, c);
    }

    /** execute_at under the lock, for a job whose deadline client c has computed. */
    method ExecuteAt(time: int, j: JobId, ghost s: State, ghost c: nat)
      requires PartOf(s) && Doing(s, c, Timing(j)) && j < |s.jobs| && s.jobs[j].due == time
      modifies this`jobs
      ensures jobs == old(jobs) + [Entry(time, j)]
      ensures Enabled(s, Insert(c)) && PartOf(Apply(s, Insert(c))) && Doing(Apply(s, Insert(c)), c, NotifyingTimer)
    {
      jobs := jobs + [Entry(time, j)];
    }

    /**
     One round of run under its lock: a due entry with the least deadline is taken out; with no
     due entry the heap is left alone and the thread sleeps until the earliest one. In a
     reachable state the job handed off is due, and no other is due earlier.
     */
    method RunRound(now: int, ghost s: State) returns (action: Action, ghost top: nat)
      requires PartOf(s) && s.now == now && s.timer.Locking?
      modifies this`jobs
      ensures old(jobs) == [] ==> jobs == [] && action == if running then SleepUntimed else Retry
      ensures old(jobs) != [] ==>
        && IsTop(old(jobs), top)
        && if old(jobs)[top].at <= now
           then action == HandOff(old(jobs)[top].j) && jobs == old(jobs)[..top] + old(jobs)[top + 1..]
           else action == SleepUntil(old(jobs)[top].at) && jobs == old(jobs)
      ensures Enabled(s, Lock(top)) && Apply(s, Lock(top)) == s.(heap := jobs, timer := TimerAfter(action))
      ensures Reachable(s) && action.HandOff? ==>
        && action.j < |s.jobs| && s.jobs[action.j].due <= now
        && forall i :: 0 <= i < |old(jobs)| ==>
             old(jobs)[i].j < |s.jobs| && s.jobs[action.j].due <= s.jobs[old(jobs)[i].j].due
    {
      hide Reachable;
      if jobs == [] {
        action := if running then SleepUntimed else Retry;
        top := 0;
        return;
      }
      var first := FindTop();
      top := first;
      if now >= jobs[first].at {
        action := HandOff(jobs[first].j);
        jobs := jobs[..first] + jobs[first + 1..];
        if Reachable(s) {
          HandsOffADueMinimum(s, top);
        }
      } else {
        action := SleepUntil(jobs[first].at);
      }
    }

    /** m_jobs.top(). */
    method FindTop() returns (top: nat)
      requires jobs != []
      ensures IsTop(jobs, top)
    {
      top := 0;
      var i := 1;
      while i < |jobs|
        invariant top < i <= |jobs|
        invariant forall k :: 0 <= k < i ==> jobs[top].at <= jobs[k].at
      {
        if jobs[i].at < jobs[top].at { top := i; }
        i := i + 1;
      }
    }
  }
}
