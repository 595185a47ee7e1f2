/**
 The scheduler object of src/async.hpp, its queues updated in place. Each method is proved
 against the transition system: what it does is a run of the calling thread's events.
 */
module AsyncScheduler {
  import opened Options
  import opened RoundRobin
  import opened Sums
  import opened AsyncProtocol
  import opened AsyncInvariant
  import opened AsyncPreservation
  import opened AsyncSafety
  import opened AsyncProgress
  import opened AsyncOutcome
  import opened AsyncTiming

  // ---------------------------------------------------------------- what one drain deals out

  /** The handles of a batch that round robin gives to deque q, the first ticket being n. */
  function Dealt(batch: seq<Handle>, n: nat, queues: nat, q: nat): seq<Handle>
    requires queues > 0
  {
    if batch == [] then []
    else (if Around(n, queues) == q then [batch[0]] else []) + Dealt(batch[1..], n + 1, queues, q)
  }

  function Reversed(hs: seq<Handle>): seq<Handle> {
    if hs == [] then [] else Reversed(hs[1..]) + [hs[0]]
  }

  lemma {:induction false} ReversedSnoc(hs: seq<Handle>, h: Handle)
    ensures Reversed(hs + [h]) == [h] + Reversed(hs)
  {
    if hs == [] {
      assert [h][1..] == [];
      assert Reversed([h]) == Reversed([]) + [h];
    } else {
      assert (hs + [h])[1..] == hs[1..] + [h];
      ReversedSnoc(hs[1..], h);
    }
  }

  lemma {:induction false} DealtSnoc(batch: seq<Handle>, h: Handle, n: nat, queues: nat, q: nat)
    requires queues > 0
    ensures Dealt(batch + [h], n, queues, q)
         == Dealt(batch, n, queues, q) + if Around(n + |batch|, queues) == q then [h] else []
  {
    hide Around;
    if batch == [] {
      assert batch + [h] == [h] && [h][1..] == [];
      assert Dealt([], n + 1, queues, q) == [];
    } else {
      assert (batch + [h])[1..] == batch[1..] + [h];
      assert n + 1 + |batch[1..]| == n + |batch|;
      DealtSnoc(batch[1..], h, n + 1, queues, q);
      var first := if Around(n, queues) == q then [batch[0]] else [];
      var last := if Around(n + |batch|, queues) == q then [h] else [];
      assert (first + Dealt(batch[1..], n + 1, queues, q)) + last == first + (Dealt(batch[1..], n + 1, queues, q) + last);
    }
  }

  /** Each deque has received its share of the batch, the latest entry first, ahead of what it held. */
  ghost predicate DealtOut(before: seq<seq<Handle>>, after: seq<seq<Handle>>, batch: seq<Handle>, n: nat) {
    && |before| == |after| > 0
    && forall q :: 0 <= q < |after| ==> after[q] == Reversed(Dealt(batch, n, |after|, q)) + before[q]
  }

  lemma DealOneMore(before: seq<seq<Handle>>, after: seq<seq<Handle>>, batch: seq<Handle>, n: nat, h: Handle)
    requires DealtOut(before, after, batch, n)
    ensures var k := Around(n + |batch|, |after|);
            DealtOut(before, after[k := [h] + after[k]], batch + [h], n)
  {
    var k := Around(n + |batch|, |after|);
    var after' := after[k := [h] + after[k]];
    forall q | 0 <= q < |after'| ensures after'[q] == Reversed(Dealt(batch + [h], n, |after'|, q)) + before[q] {
      var share := Dealt(batch, n, |after|, q);
      DealtSnoc(batch, h, n, |after|, q);
      ReversedSnoc(share, h);
      assert share + [] == share;
      assert [h] + (Reversed(share) + before[q]) == ([h] + Reversed(share)) + before[q];
    }
  }

  /** The drain takes exactly the due entries: all of the prefix, none of the rest. */
  lemma {:induction false} DueIsExact(es: seq<Entry>, now: int)
    requires Sorted(es)
    ensures forall i :: 0 <= i < DueCount(es, now) ==> es[i].at <= now
    ensures forall i :: DueCount(es, now) <= i < |es| ==> es[i].at > now
  {
    if es != [] && es[0].at <= now {
      DueIsExact(es[1..], now);
      forall i | 1 <= i < |es| ensures es[i] == es[1..][i - 1] {}
    } else if es != [] {
      forall i | 0 <= i < |es| ensures es[i].at > now {
        assert i == 0 || Before(es[0], es[i]);
      }
    }
  }

  /** A deque that get_next_task can steal from; one whose try_lock fails is passed over. */
  predicate Stealable(queues: seq<seq<Handle>>, idx: nat, locked: set<nat>, i: nat) {
    i < |queues| && i != idx && i !in locked && queues[i] != []
  }

  /** The first such deque from i on. */
  function Victim(queues: seq<seq<Handle>>, idx: nat, locked: set<nat>, i: nat): (v: Option<nat>)
    requires i <= |queues|
    ensures v.Some? ==> Stealable(queues, idx, locked, v.value) && i <= v.value
    ensures v.Some? ==> forall j :: i <= j < v.value ==> !Stealable(queues, idx, locked, j)
    ensures v.None? ==> forall j :: i <= j ==> !Stealable(queues, idx, locked, j)
    decreases |queues| - i
  {
    if i == |queues| then None
    else if Stealable(queues, idx, locked, i) then Some(i)
    else Victim(queues, idx, locked, i + 1)
  }

  /** What get_next_task amounts to for worker t: its own task, else a stolen one, else nothing. */
  function Taking(queues: seq<seq<Handle>>, t: nat, locked: set<nat>): (events: seq<Event>)
    requires t < |queues|
    ensures |events| <= 1
    ensures events == [] <==> queues[t] == [] && forall v :: !Stealable(queues, t, locked, v)
  {
    var v := Victim(queues, t, locked, 0);
    if queues[t] != [] then [PopLocal(t)]
    else if v.Some? then [Steal(t, v.value)]
    else []
  }

  // ---------------------------------------------------------------- runs of one thread

  /** Every event of the run is a real step. */
  ghost predicate Legal(s: State, events: seq<Event>)
    decreases |events|
  {
    events == [] || (Productive(events[0]) && Enabled(s, events[0]) && Legal(Apply(s, events[0]), events[1..]))
  }

  lemma {:induction false} LegalConcat(s: State, a: seq<Event>, b: seq<Event>)
    requires Legal(s, a) && Legal(Run(s, a), b)
    ensures Legal(s, a + b) && Run(s, a + b) == Run(Run(s, a), b)
    decreases |a|
  {
    hide Apply, Enabled;
    if a == [] {
      assert a + b == b;
    } else {
      assert (a + b)[1..] == a[1..] + b;
      LegalConcat(Apply(s, a[0]), a[1..], b);
    }
  }

  lemma {:induction false} LegalWorks(s: State, events: seq<Event>)
    requires Inv(s) && Legal(s, events)
    ensures Inv(Run(s, events)) && |events| + Work(Run(s, events)) <= Work(s)
    decreases |events|
  {
    hide Inv, Apply, Enabled, Work;
    if events != [] {
      ApplyKeeps(s, events[0]);
      EveryStepWorks(s, events[0]);
      LegalWorks(Apply(s, events[0]), events[1..]);
    }
  }

  lemma LegalOne(s: State, e: Event)
    requires Productive(e) && Enabled(s, e)
    ensures Legal(s, [e]) && Run(s, [e]) == Apply(s, e)
  {
    hide Apply, Enabled;
    assert [e][1..] == [];
    assert Legal(Apply(s, e), []);
  }

  lemma LegalTwo(s: State, a: Event, b: Event)
    requires Productive(a) && Enabled(s, a) && Productive(b) && Enabled(Apply(s, a), b)
    ensures Legal(s, [a, b]) && Run(s, [a, b]) == Apply(Apply(s, a), b)
  {
    hide Apply, Enabled;
    LegalOne(s, a);
    LegalOne(Apply(s, a), b);
    LegalConcat(s, [a], [b]);
    assert [a, b] == [a] + [b];
  }

  /** A run that keeps the invariant goes on. */
  lemma GoOn(s: State, a: seq<Event>, b: seq<Event>)
    requires Legal(s, a) && Inv(Run(s, a)) && Legal(Run(s, a), b)
    ensures Legal(s, a + b) && Run(s, a + b) == Run(Run(s, a), b) && Inv(Run(s, a + b))
  {
    hide Inv;
    LegalConcat(s, a, b);
    LegalWorks(Run(s, a), b);
  }

  /** Swapping and reaping by one worker that is not interrupted. */
  lemma SwapReap(s: State, t: nat)
    requires Inv(s) && IdleWorker(s, t) && s.cleanup != []
    ensures forall i :: 0 <= i < |s.cleanup| ==> s.cleanup[i] < |s.frames|
    ensures Legal(s, [Swap(t), Reap(t)])
    ensures Run(s, [Swap(t), Reap(t)]) == ReapAll(s.(cleanup := []), s.cleanup)
  {
    hide Sum, Owners;
    var s1 := Apply(s, Swap(t));
    forall i | 0 <= i < |s.cleanup| ensures s.cleanup[i] < |s.frames| {
      assert In(s.frames, s.cleanup[i], Retired) || In(s.frames, s.cleanup[i], Dropped);
    }
    assert s1.(threads := s1.threads[t := Idle]) == s.(cleanup := []);
    LegalTwo(s, Swap(t), Reap(t));
  }

  lemma PlaceIsLegal(s: State, t: nat, q: nat)
    requires Inv(s) && t < |s.threads| && s.threads[t].Moving? && q < |s.queues|
    ensures AboutToPlace(s, t, q) && !s.frames[s.threads[t].batch[0]].Done()
    ensures Legal(s, [Place(t, q)]) && Run(s, [Place(t, q)]) == PlaceStep(s, t, q)
  {
    hide Sum, Owners;
    assert Consistent(s.frames, s.threads[t]);
    assert In(s.frames, s.threads[t].batch[0], Live);
    LegalOne(s, Place(t, q));
  }

  class Scheduler {
    var localTaskQueues: seq<seq<Handle>>
    var delayedTasks: seq<Entry>
    var cleanupTasks: seq<Handle>
    var handleRefs: map<Handle, int>
    var nextThreadIdx: nat
    var frames: seq<Frame>
    var now: int                   // Clock::now()
    ghost var threads: seq<Thread> // where each thread is in its own code

    ghost function View(): State
      reads this
    {
      State(localTaskQueues, delayedTasks, cleanupTasks, handleRefs, frames, threads, now)
    }

    /** start_impl, or run_impl for one worker: empty deques and idle threads. */
    constructor (numThreads: nat, clients: nat, startTime: int)
      requires numThreads > 0
      ensures View() == Init(numThreads, clients, startTime) && Inv(View()) && nextThreadIdx == 0
    {
      localTaskQueues := seq(numThreads, i => []);
      delayedTasks, cleanupTasks, handleRefs, frames := [], [], map[], [];
      nextThreadIdx, now := 0, startTime;
      threads := seq(numThreads + clients, i => Idle);
      new;
      InitInv(numThreads, clients, startTime);
    }

    // ---------------------------------------------------------------- schedule

    method ScheduleImpl(h: Handle)
      requires h < |frames| && |localTaskQueues| > 0
      modifies this`localTaskQueues, this`handleRefs, this`frames, this`nextThreadIdx
      ensures View() == ScheduleAt(old(View()), h, old(Around(nextThreadIdx, |localTaskQueues|)))
      ensures nextThreadIdx == old(nextThreadIdx) + if old(frames[h]).Done() then 0 else 1
      ensures var q := old(Around(nextThreadIdx, |localTaskQueues|));
              if old(frames[h]).Done() || h in old(handleRefs) then
                localTaskQueues == old(localTaskQueues) && handleRefs == old(handleRefs)
              else
                && localTaskQueues == old(localTaskQueues)[q := old(localTaskQueues)[q] + [h]]
                && handleRefs == old(handleRefs)[h := 1]
    {
      if frames[h].Done() { return; }
      var threadIdx := Around(nextThreadIdx, |localTaskQueues|);
      nextThreadIdx := nextThreadIdx + 1;
      if h !in handleRefs {
        handleRefs := handleRefs[h := 1];
        localTaskQueues := localTaskQueues[threadIdx := localTaskQueues[threadIdx] + [h]];
        frames := frames[h := frames[h].(stage := Live)];
      }
    }

    method ScheduleAfterImpl(delay: int, h: Handle)
      requires h < |frames|
      modifies this`delayedTasks
      ensures View() == if frames[h].Done() then old(View()) else ScheduleAfter(old(View()), h, delay)
      ensures multiset(delayedTasks)
           == multiset(old(delayedTasks)) + if frames[h].Done() then multiset{} else multiset{Entry(now + delay, h)}
      ensures Sorted(old(delayedTasks)) ==> Sorted(delayedTasks)
    {
      hide Insert, Sorted;
      if frames[h].Done() { return; }
      InsertPermutes(Entry(now + delay, h), delayedTasks);
      if Sorted(delayedTasks) {
        InsertSorted(Entry(now + delay, h), delayedTasks);
      }
      delayedTasks := Insert(Entry(now + delay, h), delayedTasks);
    }

    method CleanupHandleImpl(h: Handle)
      modifies this`cleanupTasks
      ensures cleanupTasks == old(cleanupTasks) + [h]
    {
      cleanupTasks := cleanupTasks + [h];
    }

    // ---------------------------------------------------------------- get_next_task

    /**
     The oldest task of the own deque; only if that is empty, the newest task of the first
     other deque that can be locked and is not empty; nothing else is touched.
     */
    method GetNextTask(threadIdx: nat, locked: set<nat>) returns (task: Option<Handle>)
      requires threadIdx < |localTaskQueues|
      modifies this`localTaskQueues
      ensures var queues := old(localTaskQueues);
              var v := Victim(queues, threadIdx, locked, 0);
              if queues[threadIdx] != [] then
                && task == Some(queues[threadIdx][0])
                && localTaskQueues == queues[threadIdx := queues[threadIdx][1..]]
              else if v.Some? then
                && task == Some(queues[v.value][|queues[v.value]| - 1])
                && localTaskQueues == queues[v.value := queues[v.value][..|queues[v.value]| - 1]]
              else task.None? && localTaskQueues == queues
    {
      if localTaskQueues[threadIdx] != [] {
        task := Some(localTaskQueues[threadIdx][0]);
        localTaskQueues := localTaskQueues[threadIdx := localTaskQueues[threadIdx][1..]];
        return;
      }
      var i := 0;
      while i < |localTaskQueues|
        invariant localTaskQueues == old(localTaskQueues) && i <= |localTaskQueues|
        invariant Victim(localTaskQueues, threadIdx, locked, 0) == Victim(localTaskQueues, threadIdx, locked, i)
      {
        if i != threadIdx && i !in locked && localTaskQueues[i] != [] {
          var n := |localTaskQueues[i]| - 1;
          task := Some(localTaskQueues[i][n]);
          localTaskQueues := localTaskQueues[i := localTaskQueues[i][..n]];
          return;
        }
        i := i + 1;
      }
      task := None;
    }

    // ---------------------------------------------------------------- process_cleanup_tasks_impl

    /** The loop under handle_refs_mutex. */
    method ReapBatch(batch: seq<Handle>)
      requires forall i :: 0 <= i < |batch| ==> batch[i] < |frames|
      modifies this`handleRefs, this`frames
      ensures View() == ReapAll(old(View()), batch)
    {
      var local: seq<Handle> := batch;
      while local != []
        invariant forall i :: 0 <= i < |local| ==> local[i] < |frames|
        invariant ReapAll(View(), local) == ReapAll(old(View()), batch)
        decreases |local|
      {
        ghost var before := View();
        var h := local[0];
        local := local[1..];
        if h in handleRefs {
          handleRefs := handleRefs[h := handleRefs[h] - 1];
          if handleRefs[h] <= 0 {
            handleRefs := handleRefs - {h};
            assert handleRefs == before.refs - {h};
            if frames[h].Done() {
              frames := frames[h := frames[h].(destroyed := frames[h].destroyed + 1)];
            }
          }
        }
        assert View() == ReapOne(before, h);
      }
    }

    method ProcessCleanupTasks(t: nat) returns (ghost events: seq<Event>)
      requires Inv(View()) && IdleWorker(View(), t)
      modifies this`cleanupTasks, this`handleRefs, this`frames
      ensures cleanupTasks == []
      ensures events == if old(cleanupTasks) == [] then [] else [Swap(t), Reap(t)]
      ensures Legal(old(View()), events) && View() == Run(old(View()), events)
    {
      var local := cleanupTasks;
      events := if local == [] then [] else [Swap(t), Reap(t)];
      if local == [] { return; }
      SwapReap(View(), t);
      cleanupTasks := [];
      ReapBatch(local);
    }

    // ---------------------------------------------------------------- process_delayed_tasks_impl

    /** One round of the distribution loop: the next ticket's deque gets the task in front. */
    method PlaceOne(t: nat, h: Handle) returns (ghost events: seq<Event>)
      requires Inv(View()) && t < |threads| && threads[t].Moving? && threads[t].batch[0] == h && h < |frames|
      modifies this`localTaskQueues, this`nextThreadIdx, this`threads
      ensures Legal(old(View()), events) && View() == Run(old(View()), events)
      ensures |localTaskQueues| == |old(localTaskQueues)| && nextThreadIdx == old(nextThreadIdx) + 1
      ensures localTaskQueues == var q := old(Around(nextThreadIdx, |localTaskQueues|));
              old(localTaskQueues)[q := [h] + old(localTaskQueues)[q]]
      ensures threads == old(threads)[t := if |old(threads[t].batch)| == 1 then Idle else Moving(old(threads[t].batch)[1..])]
    {
      ghost var q := Around(nextThreadIdx, |localTaskQueues|);
      PlaceIsLegal(View(), t, q);
      events := [Place(t, q)];
      if !frames[h].Done() {
        var threadIdx := Around(nextThreadIdx, |localTaskQueues|);
        nextThreadIdx := nextThreadIdx + 1;
        localTaskQueues := localTaskQueues[threadIdx := [h] + localTaskQueues[threadIdx]];
      }
      threads := threads[t := if |threads[t].batch| == 1 then Idle else Moving(threads[t].batch[1..])];
    }

    /** The loop under delayed_mutex. */
    method TakeDue() returns (ready: seq<Handle>)
      modifies this`delayedTasks
      ensures var k := DueCount(old(delayedTasks), now);
              ready == Handles(old(delayedTasks))[..k] && delayedTasks == old(delayedTasks)[k..]
    {
      ghost var all := delayedTasks;
      ghost var n := 0;
      ready := [];
      while delayedTasks != [] && delayedTasks[0].at <= now
        invariant 0 <= n <= |all| && delayedTasks == all[n..] && ready == Handles(all)[..n]
        invariant n + DueCount(delayedTasks, now) == DueCount(all, now)
        decreases |delayedTasks|
      {
        ready := ready + [delayedTasks[0].h];
        delayedTasks := delayedTasks[1..];
        n := n + 1;
      }
    }

    /**
     The drain: exactly the due entries leave the heap and each comes to the front of the
     deque its ticket names, so a deque receives its share of the batch in reverse deadline
     order, ahead of what it held before.
     */
    method ProcessDelayedTasks(t: nat) returns (ghost events: seq<Event>)
      requires Inv(View()) && IdleWorker(View(), t)
      modifies this`delayedTasks, this`localTaskQueues, this`nextThreadIdx, this`threads
      ensures var k := DueCount(old(delayedTasks), now);
              && delayedTasks == old(delayedTasks)[k..]
              && nextThreadIdx == old(nextThreadIdx) + k
              && |localTaskQueues| == |old(localTaskQueues)|
              && (k == 0 ==> events == [])
              && DealtOut(old(localTaskQueues), localTaskQueues, Handles(old(delayedTasks))[..k], old(nextThreadIdx))
      ensures Legal(old(View()), events) && View() == Run(old(View()), events) && threads == old(threads)
    {
      ghost var s0 := View();
      ghost var due := delayedTasks != [] && delayedTasks[0].at <= now;
      if due { DrainIsLegal(View(), t); }
      var ready := TakeDue();
      events := [];
      if ready == [] {
        assert threads[t := Idle] == threads;
        return;
      }
      events := [Drain(t)];
      threads := threads[t := Moving(ready)];
      LegalWorks(s0, events);
      ghost var more := Distribute(t, ready);
      LegalConcat(s0, events, more);
      events := events + more;
    }

    method Distribute(t: nat, ready: seq<Handle>) returns (ghost events: seq<Event>)
      requires Inv(View()) && t < |threads| && ready != [] && threads[t] == Moving(ready)
      modifies this`localTaskQueues, this`nextThreadIdx, this`threads
      ensures nextThreadIdx == old(nextThreadIdx) + |ready|
      ensures DealtOut(old(localTaskQueues), localTaskQueues, ready, old(nextThreadIdx))
      ensures Legal(old(View()), events) && View() == Run(old(View()), events)
      ensures threads == old(threads)[t := Idle]
    {
      hide Inv, Legal, Run, DealtOut;
      events := [];
      ghost var s0 := View();
      NothingYet(s0, nextThreadIdx);
      var i := 0;
      while i < |ready|
        invariant 0 <= i <= |ready| && nextThreadIdx == old(nextThreadIdx) + i
        invariant DealtOut(s0.queues, localTaskQueues, ready[..i], old(nextThreadIdx))
        invariant Inv(View()) && Legal(s0, events) && View() == Run(s0, events)
        invariant threads == s0.threads[t := if i == |ready| then Idle else Moving(ready[i..])]
      {
        ghost var before := View();
        HeadIsLive(before, t);
        DealOneMore(s0.queues, localTaskQueues, ready[..i], old(nextThreadIdx), ready[i]);
        ghost var more := PlaceOne(t, ready[i]);
        GoOn(s0, events, more);
        events := events + more;
        assert ready[..i + 1] == ready[..i] + [ready[i]];
        i := i + 1;
      }
      assert ready[..|ready|] == ready;
    }

    // ---------------------------------------------------------------- resuming a coroutine

    /** TaskPromise's final awaiter; the result is the handle to transfer to. */
    method FinalSuspend(t: nat, h: Handle, threw: bool) returns (next: Option<Handle>, ghost events: seq<Event>)
      requires Inv(View()) && t < |threads| && threads[t] == Running(h) && h < |frames|
      requires frames[h].held.None? && frames[h].body == if threw then Throw else Return
      modifies this`frames, this`cleanupTasks, this`threads
      ensures next == old(frames[h]).continuation && cleanupTasks == old(cleanupTasks) + [h]
      ensures frames == old(frames)[h := old(frames[h]).(stage := AsyncProtocol.Stage.Retired, threw := threw)]
      ensures events == [Exec(t), Complete(t), Retire(t)]
      ensures Legal(old(View()), events) && View() == Run(old(View()), events)
      ensures threads == old(threads)[t := if next.Some? then Running(next.value) else Idle]
    {
      FinalIsLegal(View(), t, h, threw);
      events := [Exec(t), Complete(t), Retire(t)];
      frames := frames[h := frames[h].(stage := Final, threw := threw)];
      frames := frames[h := frames[h].(stage := Completed)];
      next := frames[h].continuation;
      CleanupHandleImpl(h);
      frames := frames[h := frames[h].(stage := AsyncProtocol.Stage.Retired)];
      threads := threads[t := if next.Some? then Running(next.value) else Idle];
    }

    /** SleepAwaiter and YieldAwaiter: the coroutine is due after the delay. */
    method Suspend(t: nat, h: Handle, delay: int, rest: Body) returns (ghost events: seq<Event>)
      requires Inv(View()) && t < |threads| && threads[t] == Running(h) && h < |frames|
      requires frames[h].held.None?
      requires if delay > 0 then frames[h].body == Sleep(delay, rest) else delay == 0 && frames[h].body == Yield(rest)
      modifies this`frames, this`delayedTasks, this`threads
      ensures multiset(delayedTasks) == multiset(old(delayedTasks)) + multiset{Entry(now + delay, h)}
      ensures frames == old(frames)[h := old(frames[h]).(body := rest)]
      ensures events == [Exec(t)] && threads == old(threads)[t := Idle]
      ensures Legal(old(View()), events) && View() == Run(old(View()), events)
    {
      hide Inv, Insert, Sorted, Legal, Run;
      ExecIsLegal(View(), t);
      events := [Exec(t)];
      frames := frames[h := frames[h].(body := rest)];
      ScheduleAfterImpl(delay, h);
      threads := threads[t := Idle];
    }

    /** async::await_suspend for parent h and child c. */
    method AwaitSuspendImpl(t: nat, h: Handle, c: Handle)
      requires t < |threads| && h < |frames| && c < |frames| && |localTaskQueues| > 0
      modifies this`frames, this`localTaskQueues, this`handleRefs, this`nextThreadIdx, this`threads
      ensures View() == EnqueueStep(AwaitSuspend(old(View()), t, h, c), t, old(Around(nextThreadIdx, |localTaskQueues|)))
    {
      if frames[c].Done() {
        ScheduleImpl(h);
      } else {
        frames := frames[c := frames[c].(continuation := Some(h))];
        ScheduleImpl(c);
      }
      threads := threads[t := Idle];
    }

    /** co_await on a fresh async: await_suspend links the parent and schedules the child. */
    method AwaitChild(t: nat, h: Handle) returns (ghost events: seq<Event>)
      requires Inv(View()) && t < |threads| && threads[t] == Running(h) && h < |frames|
      requires frames[h].held.None? && frames[h].body.Await?
      modifies this`frames, this`localTaskQueues, this`handleRefs, this`nextThreadIdx, this`threads
      ensures events == [Exec(t), Enqueue(t, old(Around(nextThreadIdx, |localTaskQueues|)))]
      ensures Legal(old(View()), events) && View() == Run(old(View()), events)
      ensures threads == old(threads)[t := Idle]
      ensures var f, c := old(frames[h]), |old(frames)|;
              frames == old(frames)[h := f.(held := Some(c))]
                        + [Fresh(f.body.child).(continuation := Some(h), stage := Live)]
      ensures var q := old(Around(nextThreadIdx, |localTaskQueues|));
              localTaskQueues == old(localTaskQueues)[q := old(localTaskQueues)[q] + [|old(frames)|]]
    {
      ghost var s0 := View();
      ghost var q := Around(nextThreadIdx, |localTaskQueues|);
      ChildIsLegal(s0, t, q);
      events := [Exec(t), Enqueue(t, q)];
      var c := |frames|;
      frames := frames + [Fresh(frames[h].body.child)];
      frames := frames[h := frames[h].(held := Some(c))];
      assert AwaitSuspend(View(), t, h, c) == ExecStep(s0, t, h);
      AwaitSuspendImpl(t, h, c);
    }

    /** fire_and_forget, detach and operator(): schedule and go on. */
    method LaunchChild(t: nat, h: Handle) returns (ghost events: seq<Event>)
      requires Inv(View()) && t < |threads| && threads[t] == Running(h) && h < |frames|
      requires frames[h].held.None? && frames[h].body.Launch?
      modifies this`frames, this`localTaskQueues, this`handleRefs, this`nextThreadIdx, this`threads
      ensures events == [Exec(t), Enqueue(t, old(Around(nextThreadIdx, |localTaskQueues|)))]
      ensures Legal(old(View()), events) && View() == Run(old(View()), events)
      ensures threads == old(threads)
      ensures var f := old(frames[h]);
              frames == old(frames)[h := f.(body := f.body.next)] + [Fresh(f.body.child).(stage := Live)]
      ensures var q := old(Around(nextThreadIdx, |localTaskQueues|));
              localTaskQueues == old(localTaskQueues)[q := old(localTaskQueues)[q] + [|old(frames)|]]
    {
      ghost var s0 := View();
      ghost var q := Around(nextThreadIdx, |localTaskQueues|);
      ChildIsLegal(s0, t, q);
      events := [Exec(t), Enqueue(t, q)];
      var c := |frames|;
      var child := frames[h].body.child;
      frames := frames[h := frames[h].(body := frames[h].body.next)] + [Fresh(child)];
      threads := threads[t := Launching(h, c)];
      assert View() == ExecStep(s0, t, h);
      ScheduleImpl(c);
      threads := threads[t := Running(h)];
      assert threads == s0.threads;
    }

    /** await_resume for child c; then the async object goes out of scope and hands c to cleanup. */
    method AwaitResumeImpl(t: nat, h: Handle, c: Handle) returns (ghost events: seq<Event>)
      requires Inv(View()) && t < |threads| && threads[t] == Running(h) && h < |frames|
      requires frames[h].held == Some(c)
      modifies this`frames, this`cleanupTasks
      ensures |frames| == |old(frames)| && frames[h].held.None? && cleanupTasks == old(cleanupTasks) + [c]
      ensures old(frames[h]).body.Await? && c < |old(frames)| && c != h && old(frames[c]).Done()
      ensures var f := old(frames[h]);
              frames[h].body == if old(frames[c]).threw then f.body.onThrow else f.body.onValue
      ensures events == [Exec(t)] && Legal(old(View()), events) && View() == Run(old(View()), events)
    {
      ExecIsLegal(View(), t);
      ChildIsDone(View(), t);
      events := [Exec(t)];
      var f := frames[h];
      var body := if frames[c].threw then f.body.onThrow else f.body.onValue;
      frames := frames[h := f.(body := body, held := None)];
      CleanupHandleImpl(c);
    }

    /** An async that is created and dropped again: its destructor hands the handle to cleanup. */
    method DiscardChild(t: nat, h: Handle) returns (ghost events: seq<Event>)
      requires Inv(View()) && t < |threads| && threads[t] == Running(h) && h < |frames|
      requires frames[h].held.None? && frames[h].body.Discard?
      modifies this`frames, this`cleanupTasks
      ensures var f := old(frames[h]);
              frames == old(frames)[h := f.(body := f.body.next)] + [Fresh(f.body.child).(stage := Dropped)]
      ensures cleanupTasks == old(cleanupTasks) + [|old(frames)|]
      ensures events == [Exec(t)] && Legal(old(View()), events) && View() == Run(old(View()), events)
    {
      ExecIsLegal(View(), t);
      events := [Exec(t)];
      var f := frames[h];
      frames := frames[h := f.(body := f.body.next)] + [Fresh(f.body.child).(stage := Dropped)];
      CleanupHandleImpl(|frames| - 1);
    }

    /** One step of a running coroutine, and what its worker runs next. */
    method Step(t: nat, h: Handle) returns (next: Option<Handle>, ghost events: seq<Event>)
      requires Inv(View()) && t < |threads| && threads[t] == Running(h) && h < |frames|
      modifies this
      ensures events != [] && Legal(old(View()), events) && View() == Run(old(View()), events)
      ensures threads == old(threads)[t := if next.Some? then Running(next.value) else Idle]
      ensures now == old(now)
    {
      ExecIsLegal(View(), t);
      events := [Exec(t)];
      next := Some(h);
      var f := frames[h];
      if f.held.Some? {
        events := AwaitResumeImpl(t, h, f.held.value);
        return;
      }
      match f.body {
        case Return => next, events := FinalSuspend(t, h, false);
        case Throw => next, events := FinalSuspend(t, h, true);
        case Sleep(ms, rest) =>
          if ms <= 0 {
            frames := frames[h := f.(body := rest)];
          } else {
            events := Suspend(t, h, ms, rest);
            next := None;
          }
        case Yield(rest) => events := Suspend(t, h, 0, rest); next := None;
        case Await(_, _, _) => events := AwaitChild(t, h); next := None;
        case Launch(_, _) => events := LaunchChild(t, h);
        case Discard(_, _) => events := DiscardChild(t, h);
      }
    }

    /** h.resume(): the coroutine and whatever it transfers to run until one of them suspends. */
    method Resume(t: nat, h: Handle) returns (ghost events: seq<Event>)
      requires Inv(View()) && t < |threads| && threads[t] == Running(h) && h < |frames|
      modifies this
      ensures Legal(old(View()), events) && View() == Run(old(View()), events)
      ensures threads == old(threads)[t := Idle] && now == old(now)
    {
      hide Inv, Legal, Run;
      ghost var s0 := View();
      EmptyRun(s0);
      events := [];
      var current := Some(h);
      while current.Some?
        invariant |threads| == |s0.threads|
        invariant threads == s0.threads[t := if current.Some? then Running(current.value) else Idle]
        invariant now == s0.now
        invariant Inv(View()) && Legal(s0, events) && View() == Run(s0, events)
        decreases Work(View()), current.Some?
      {
        ghost var before := View();
        RunningIsLive(before, t);
        ghost var more;
        current, more := Step(t, current.value);
        LegalWorks(before, more);
        GoOn(s0, events, more);
        events := events + more;
      }
    }

    /** get_next_task as a step of worker t, which then has the task in hand. */
    method TakeTask(t: nat, locked: set<nat>) returns (task: Option<Handle>, ghost events: seq<Event>)
      requires Inv(View()) && IdleWorker(View(), t)
      modifies this`localTaskQueues, this`threads
      ensures Legal(old(View()), events) && View() == Run(old(View()), events) && Inv(View())
      ensures task.Some? ==> task.value < |frames| && !frames[task.value].Done() && events != []
      ensures threads == old(threads)[t := if task.Some? then Running(task.value) else Idle]
      ensures |localTaskQueues| == |old(localTaskQueues)|
      ensures task.None? ==> old(localTaskQueues[t]) == [] && events == []
      ensures events == Taking(old(localTaskQueues), t, locked)
    {
      hide Inv, Legal, Run;
      ghost var s0 := View();
      ghost var v := Victim(localTaskQueues, t, locked, 0);
      if s0.queues[t] != [] {
        OwnTaskIsLegal(s0, t);
      } else if v.Some? {
        StolenTaskIsLegal(s0, t, v.value);
      }
      EmptyRun(s0);
      task := GetNextTask(t, locked);
      if task.Some? {
        events := if s0.queues[t] != [] then [PopLocal(t)] else [Steal(t, v.value)];
        threads := threads[t := Running(task.value)];
      } else {
        events := [];
      }
    }

    /**
     tick_impl, up to its sleep; true if there was a task. First the due entries are dealt out,
     all of them; then the worker resumes what get_next_task finds in the deques as they are now,
     and only if that is nothing does it drain cleanup.
     */
    method TickImpl(t: nat, locked: set<nat>) returns (worked: bool, ghost drained: seq<Event>, ghost rest: seq<Event>)
      requires Inv(View()) && IdleWorker(View(), t)
      modifies this
      ensures Legal(old(View()), drained + rest) && View() == Run(old(View()), drained + rest) && Inv(View())
      ensures threads == old(threads) && now == old(now)
      ensures |localTaskQueues| == |old(localTaskQueues)|
      ensures var k, mid := DueCount(old(delayedTasks), now), Run(old(View()), drained);
              && mid.delayed == old(delayedTasks)[k..]
              && DealtOut(old(localTaskQueues), mid.queues, Handles(old(delayedTasks))[..k], old(nextThreadIdx))
              && (worked <==> Taking(mid.queues, t, locked) != [])
              && (worked ==> rest != [] && [rest[0]] == Taking(mid.queues, t, locked))
      ensures !worked ==> cleanupTasks == [] && rest == if old(cleanupTasks) == [] then [] else [Swap(t), Reap(t)]
      ensures old(localTaskQueues[t]) != [] ==> worked
    {
      hide Inv, Legal, Run, DealtOut, Taking;
      ghost var s0 := View();
      drained := ProcessDelayedTasks(t);
      LegalWorks(s0, drained);
      LongerQueues(s0.queues, localTaskQueues, Handles(s0.delayed)[..DueCount(s0.delayed, now)], old(nextThreadIdx), t);
      ghost var mid := View();
      var task, taken := TakeTask(t, locked);
      rest := taken;
      worked := task.Some?;
      ghost var more := [];
      EmptyRun(View());
      if task.None? {
        more := ProcessCleanupTasks(t);
      } else if !frames[task.value].Done() {
        more := Resume(t, task.value);
      }
      GoOn(mid, taken, more);
      rest := taken + more;
      GoOn(s0, drained, rest);
      RunShape(s0, drained + rest);
    }

    // ---------------------------------------------------------------- run

    /** Some time passes, at least ms. */
    method PassTime(ms: nat) returns (ghost events: seq<Event>)
      modifies this`now
      ensures now >= old(now) + ms
      ensures View() == Run(old(View()), events) == old(View()).(now := now)
      ensures NoSubmit(events)
    {
      var extra: nat :| 0 <= extra;
      now := now + ms + extra;
      events := [Tick(ms + extra)];
      RunOne(old(View()), Tick(ms + extra));
    }

    /** One round of run_impl's loop. */
    method RunRound() returns (finished: bool, ghost events: seq<Event>)
      requires Inv(View()) && |localTaskQueues| == 1 && AllIdle(threads)
      modifies this
      ensures Inv(View()) && |localTaskQueues| == 1 && threads == old(threads)
      ensures View() == Run(old(View()), events) && NoSubmit(events)
      ensures finished ==> Settled(View())
      ensures !finished ==> Work(View()) <= Work(old(View()))
      ensures !finished && Work(View()) == Work(old(View())) ==> Wait(View()) < Wait(old(View()))
    {
      hide Inv, Run, Legal, DealtOut, Work;
      ghost var s0 := View();
      ThreadsExist(s0);
      var hasWork := localTaskQueues[0] != [];
      ghost var due := Handles(delayedTasks)[..DueCount(delayedTasks, now)];
      events := ProcessDelayedTasks(0);
      LongerQueues(s0.queues, localTaskQueues, due, old(nextThreadIdx), 0);
      LegalWorks(s0, events);
      ghost var more := ProcessCleanupTasks(0);
      GoOn(s0, events, more);
      events := events + more;
      if hasWork {
        var worked;
        ghost var drained;
        worked, drained, more := TickImpl(0, {});
        GoOn(s0, events, drained + more);
        events := events + (drained + more);
        LegalWorks(s0, events);
        LegalIsProductive(s0, events);
        finished := false;
      } else {
        LegalWorks(s0, events);
        LegalIsProductive(s0, events);
        finished := localTaskQueues[0] == [] && delayedTasks == [] && cleanupTasks == [];
        if !finished {
          ghost var s1 := View();
          if events == [] { EmptyRun(s0); }
          more := PassTime(1);
          RunConcat(s0, events, more);
          events := events + more;
          TimeOnly(s1, now);
        }
      }
    }

    /**
     run_impl: it returns only when nothing is left, and it does return, because bodies are
     finite and the clock advances. Then every coroutine ever scheduled has finished and its
     frame has been destroyed, once.
     */
    method RunImpl() returns (ghost events: seq<Event>)
      requires Inv(View()) && |localTaskQueues| == 1 && AllIdle(threads)
      modifies this
      ensures Inv(View()) && Settled(View()) && |localTaskQueues| == 1 && threads == old(threads)
      ensures View() == Run(old(View()), events) && NoSubmit(events)
      ensures handleRefs == map[]
      ensures forall h :: 0 <= h < |frames| && frames[h].Scheduled() ==> frames[h].Done() && frames[h].destroyed == 1
    {
      hide Inv, Run, Work, Wait, Settled;
      ghost var s0 := View();
      EmptyRun(s0);
      events := [];
      while true
        invariant Inv(View()) && |localTaskQueues| == 1 && threads == s0.threads
        invariant View() == Run(s0, events) && NoSubmit(events)
        decreases Work(View()), Wait(View())
      {
        var finished, more := RunRound();
        RunConcat(s0, events, more);
        events := events + more;
        if finished { break; }
      }
      SettledIsOver(View());
    }

    /**
     run_sync: schedule one task, run everything, take its outcome. The async object then
     goes out of scope and pushes the handle a second time.
     */
    method RunSync(body: Body) returns (threw: bool, ghost events: seq<Event>)
      requires Inv(View()) && Faithful(frames) && |localTaskQueues| == 1 && AllIdle(threads) && |threads| > 1
      modifies this
      ensures Inv(View()) && Faithful(frames) && Quiet(View())
      ensures cleanupTasks == [old(|frames|)] && old(|frames|) < |frames| && frames[old(|frames|)].destroyed == 1
      ensures threw <==> Throws(body)
      ensures now >= old(now) + Slept(body)
    {
      hide Inv, Run, Settled, Quiet, Faithful, Slept, Throws;
      ghost var s0 := View();
      var h := |frames|;
      SubmitIsLegal(s0, body);
      frames := frames + [Fresh(body)];
      threads := threads[1 := Scheduling(h)];
      ScheduleImpl(h);
      threads := threads[1 := Idle];
      ghost var s2 := View();
      events := RunImpl();
      RunConcat(Apply(s0, Submit(1, body)), [Enqueue(1, 0)], events);
      CreatedOutcome(s0, Submit(1, body), [Enqueue(1, 0)] + events);
      CreatedTime(s0, Submit(1, body), [Enqueue(1, 0)] + events);
      RunOutcomes(s2, events);
      RunAdvances(s2, events);
      SettledIsOver(View());
      threw := frames[h].threw;
      PushAgain(View(), h);
      CleanupHandleImpl(h);
    }

    /**
     run_sync of a coroutine that sleeps k times for ms, under n awaits: it throws exactly if the
     innermost body does, and not before k * ms.
     */
    method RunSyncThrough(n: nat, k: nat, ms: nat, error: bool) returns (threw: bool)
      requires Inv(View()) && Faithful(frames) && |localTaskQueues| == 1 && AllIdle(threads) && |threads| > 1
      modifies this
      ensures threw == error && now >= old(now) + k * ms
    {
      hide Inv, Faithful;
      var last := if error then Throw else Return;
      SleepsAddUp(k, ms, last);
      ThroughKeeps(Sleeps(k, ms, last), n);
      assert Throws(last) == error;
      ghost var events;
      threw, events := RunSync(Through(Sleeps(k, ms, last), n));
    }
  }

  /** A client submits a coroutine and its schedule call is the only thing going on. */
  lemma SubmitIsLegal(s: State, body: Body)
    requires Inv(s) && Faithful(s.frames) && |s.queues| == 1 && |s.threads| > 1 && AllIdle(s.threads)
    ensures var s1 := Apply(s, Submit(1, body));
            && Enabled(s, Submit(1, body))
            && s1 == s.(frames := s.frames + [Fresh(body)], threads := s.threads[1 := Scheduling(|s.frames|)])
            && var s2 := EnqueueStep(s1, 1, 0);
               && |s.frames| !in s.refs
               && s2 == Run(s1, [Enqueue(1, 0)])
               && s2.threads == s.threads && s2.queues == [s.queues[0] + [|s.frames|]]
               && Inv(s2) && Faithful(s2.frames) && s2.frames[|s.frames|].stage.Live?
  {
    hide Inv, Faithful;
    NotYetReferenced(s);
    var s1 := Apply(s, Submit(1, body));
    ApplyKeeps(s, Submit(1, body));
    ApplyOutcomes(s, Submit(1, body));
    RunOne(s1, Enqueue(1, 0));
    ApplyKeeps(s1, Enqueue(1, 0));
    ApplyOutcomes(s1, Enqueue(1, 0));
    assert s.threads[1 := Scheduling(|s.frames|)][1 := Idle] == s.threads;
  }

  lemma PushAgain(s: State, h: Handle)
    requires Inv(s) && Settled(s) && h < |s.frames| && s.frames[h].Done()
    ensures var s' := s.(cleanup := s.cleanup + [h]); Inv(s') && Quiet(s') && s'.cleanup == [h]
  {
    hide Sum;
    NobodyWaits(s, h);
    var s' := s.(cleanup := s.cleanup + [h]);
    assert forall k: Handle :: Owners(s', k) == Owners(s, k);
    CollectableKeep(s.frames, s.frames, s.cleanup, s'.cleanup, s.threads, s.threads);
  }

  ghost predicate AllIdle(threads: seq<Thread>) {
    forall t :: 0 <= t < |threads| ==> threads[t].Idle?
  }

  ghost predicate NoSubmit(events: seq<Event>) {
    forall i :: 0 <= i < |events| ==> !events[i].Submit?
  }

  /** How long the clock still has to advance before the next deadline. */
  function Wait(s: State): nat {
    if s.delayed != [] && s.delayed[0].at > s.now then s.delayed[0].at - s.now else 0
  }

  lemma TimeOnly(s: State, now: int)
    requires now > s.now
    ensures var s' := s.(now := now);
            Work(s') == Work(s) && (Inv(s) ==> Inv(s')) &&
            (s.delayed != [] && s.delayed[0].at > s.now ==> Wait(s') < Wait(s))
  {
    if Inv(s) { TickKeeps(s, now - s.now); }
  }

  lemma RunOne(s: State, e: Event)
    ensures Run(s, [e]) == Apply(s, e)
  {
    hide Apply;
    assert [e][1..] == [];
  }

  lemma {:induction false} RunConcat(s: State, a: seq<Event>, b: seq<Event>)
    ensures Run(s, a + b) == Run(Run(s, a), b)
    decreases |a|
  {
    hide Apply;
    if a == [] {
      assert a + b == b;
    } else {
      assert (a + b)[1..] == a[1..] + b;
      RunConcat(Apply(s, a[0]), a[1..], b);
    }
  }

  lemma {:induction false} LegalIsProductive(s: State, events: seq<Event>)
    requires Legal(s, events)
    ensures NoSubmit(events)
    decreases |events|
  {
    hide Apply, Enabled;
    if events != [] {
      LegalIsProductive(Apply(s, events[0]), events[1..]);
      forall i | 0 <= i < |events| ensures !events[i].Submit? {
        if i > 0 { assert events[i] == events[1..][i - 1]; }
      }
    }
  }

  lemma SettledIsOver(s: State)
    requires Inv(s) && Settled(s)
    ensures s.refs == map[]
    ensures forall h :: 0 <= h < |s.frames| && s.frames[h].Scheduled() ==>
      s.frames[h].Done() && s.frames[h].destroyed == 1
  {
    hide Inv;
    QuiescenceIsCompletion(s);
    DrainedMeansDestroyed(s);
  }

  lemma {:induction false} ReapAllShape(s: State, batch: seq<Handle>)
    requires forall i :: 0 <= i < |batch| ==> batch[i] < |s.frames|
    ensures |ReapAll(s, batch).queues| == |s.queues| && |ReapAll(s, batch).threads| == |s.threads|
    decreases |batch|
  {
    if batch != [] { ReapAllShape(ReapOne(s, batch[0]), batch[1..]); }
  }

  lemma ApplyShape(s: State, e: Event)
    ensures |Apply(s, e).queues| == |s.queues| && |Apply(s, e).threads| == |s.threads|
  {
    if Enabled(s, e) && e.Reap? {
      ReapAllShape(s.(threads := s.threads[e.t := Idle]), s.threads[e.t].batch);
    }
  }

  /** The deques and the threads stay the same in number. */
  lemma {:induction false} RunShape(s: State, events: seq<Event>)
    ensures |Run(s, events).queues| == |s.queues| && |Run(s, events).threads| == |s.threads|
    decreases |events|
  {
    hide Apply;
    if events != [] {
      ApplyShape(s, events[0]);
      RunShape(Apply(s, events[0]), events[1..]);
    }
  }

  lemma ThreadsExist(s: State)
    requires Inv(s)
    ensures 0 < |s.queues| <= |s.threads|
  {
    hide Sum, Owners;
  }

  lemma EmptyRun(s: State)
    ensures Legal(s, []) && Run(s, []) == s
  {
  }

  /** A drain only adds to a deque. */
  lemma LongerQueues(before: seq<seq<Handle>>, after: seq<seq<Handle>>, batch: seq<Handle>, n: nat, q: nat)
    requires DealtOut(before, after, batch, n) && q < |before|
    ensures |after| == |before| && (before[q] != [] ==> after[q] != [])
  {
  }

  lemma OwnTaskIsLegal(s: State, t: nat)
    requires Inv(s) && IdleWorker(s, t) && s.queues[t] != []
    ensures var h := s.queues[t][0];
      && In(s.frames, h, Live) && Legal(s, [PopLocal(t)])
      && Run(s, [PopLocal(t)]) == s.(queues := s.queues[t := s.queues[t][1..]], threads := s.threads[t := Running(h)])
      && Inv(Run(s, [PopLocal(t)]))
  {
    hide Inv, Legal, Run;
    QueuedIsLive(s, t, 0);
    LegalOne(s, PopLocal(t));
    ApplyKeeps(s, PopLocal(t));
  }

  lemma StolenTaskIsLegal(s: State, t: nat, v: nat)
    requires Inv(s) && IdleWorker(s, t) && Stealable(s.queues, t, {}, v)
    ensures var n := |s.queues[v]| - 1;
      var h := s.queues[v][n];
      && In(s.frames, h, Live) && Legal(s, [Steal(t, v)])
      && Run(s, [Steal(t, v)]) == s.(queues := s.queues[v := s.queues[v][..n]], threads := s.threads[t := Running(h)])
      && Inv(Run(s, [Steal(t, v)]))
  {
    hide Inv, Legal, Run;
    QueuedIsLive(s, v, |s.queues[v]| - 1);
    LegalOne(s, Steal(t, v));
    ApplyKeeps(s, Steal(t, v));
  }

  lemma QueuedIsLive(s: State, q: nat, i: nat)
    requires Inv(s) && q < |s.queues| && i < |s.queues[q]|
    ensures In(s.frames, s.queues[q][i], Live)
  {
    hide Sum, Owners;
    assert AllLive(s.frames, s.queues[q]);
  }

  lemma NothingYet(s: State, n: nat)
    requires Inv(s)
    ensures DealtOut(s.queues, s.queues, [], n)
    ensures Legal(s, []) && Run(s, []) == s
  {
    hide Owners, Sum;
  }

  /** A running coroutine can take its step: no await_resume blocks. */
  lemma ExecIsLegal(s: State, t: nat)
    requires Inv(s) && t < |s.threads| && s.threads[t].Running?
    ensures In(s.frames, s.threads[t].h, Live)
    ensures var f := s.frames[s.threads[t].h];
            f.held.Some? ==> f.body.Await? && f.held.value < |s.frames|
    ensures Legal(s, [Exec(t)]) && Run(s, [Exec(t)]) == ExecStep(s, t, s.threads[t].h)
  {
    hide Inv;
    var h := s.threads[t].h;
    RunningIsLive(s, t);
    HeldIsAwaited(s, h);
    if s.frames[h].held.Some? { AwaitedIsRetired(s, t, h); }
    LegalOne(s, Exec(t));
  }

  lemma ChildIsDone(s: State, t: nat)
    requires Inv(s) && t < |s.threads| && s.threads[t].Running?
    ensures In(s.frames, s.threads[t].h, Live)
    ensures var h := s.threads[t].h;
      s.frames[h].held.Some? ==>
        var c := s.frames[h].held.value;
        s.frames[h].body.Await? && c < |s.frames| && c != h && s.frames[c].Done()
  {
    hide Inv;
    RunningIsLive(s, t);
    var h := s.threads[t].h;
    HeldIsAwaited(s, h);
    if s.frames[h].held.Some? {
      AwaitedIsRetired(s, t, h);
    }
  }

  lemma ChildComesNext(s: State, t: nat, q: nat, h: Handle)
    requires t < |s.threads| && q < |s.queues| && h < |s.frames| && s.frames[h].held.None?
    requires s.frames[h].body.Await? || s.frames[h].body.Launch?
    ensures AboutToSchedule(ExecStep(s, t, h), t, q)
  {
  }

  lemma EnqueueIsLegal(s: State, t: nat, q: nat)
    requires AboutToSchedule(s, t, q)
    ensures Legal(s, [Enqueue(t, q)]) && Run(s, [Enqueue(t, q)]) == EnqueueStep(s, t, q)
  {
    hide EnqueueStep;
    LegalOne(s, Enqueue(t, q));
  }

  lemma ChildIsLegal(s: State, t: nat, q: nat)
    requires Inv(s) && t < |s.threads| && s.threads[t].Running? && q < |s.queues|
    requires s.threads[t].h < |s.frames| && s.frames[s.threads[t].h].held.None?
    requires var b := s.frames[s.threads[t].h].body; b.Await? || b.Launch?
    ensures var s1 := ExecStep(s, t, s.threads[t].h);
            AboutToSchedule(s1, t, q) && |s.frames| !in s.refs &&
            Legal(s, [Exec(t), Enqueue(t, q)]) && Run(s, [Exec(t), Enqueue(t, q)]) == EnqueueStep(s1, t, q)
  {
    hide Inv, Legal, Run, ExecStep, EnqueueStep;
    var s1 := ExecStep(s, t, s.threads[t].h);
    ExecIsLegal(s, t);
    NotYetReferenced(s);
    ChildComesNext(s, t, q, s.threads[t].h);
    EnqueueIsLegal(s1, t, q);
    LegalConcat(s, [Exec(t)], [Enqueue(t, q)]);
    assert [Exec(t)] + [Enqueue(t, q)] == [Exec(t), Enqueue(t, q)];
  }

  lemma NotYetReferenced(s: State)
    requires Inv(s)
    ensures |s.frames| !in s.refs
  {
    hide Sum, Owners;
  }

  lemma EndingSteps(s: State, t: nat, h: Handle, threw: bool)
    requires t < |s.threads| && h < |s.frames|
    ensures var s1 := AtEnd(s, t, h, threw);
            var s2 := CompleteStep(s1, t, h);
            && Enabled(s1, Complete(t)) && Apply(s1, Complete(t)) == s2
            && Enabled(s2, Retire(t)) && Apply(s2, Retire(t)) == RetireStep(s2, t, h, s.frames[h].continuation)
  {
    hide RetireStep;
  }

  lemma ExecEnds(s: State, t: nat, h: Handle, threw: bool)
    requires t < |s.threads| && h < |s.frames|
    requires s.frames[h].held.None? && s.frames[h].body == if threw then Throw else Return
    ensures ExecStep(s, t, h) == AtEnd(s, t, h, threw)
  {
    hide AtEnd;
  }

  lemma FinalIsLegal(s: State, t: nat, h: Handle, threw: bool)
    requires Inv(s) && t < |s.threads| && s.threads[t] == Running(h) && h < |s.frames|
    requires s.frames[h].held.None? && s.frames[h].body == if threw then Throw else Return
    ensures Legal(s, [Exec(t), Complete(t), Retire(t)])
    ensures Run(s, [Exec(t), Complete(t), Retire(t)])
         == RetireStep(CompleteStep(AtEnd(s, t, h, threw), t, h), t, h, s.frames[h].continuation)
  {
    ExecIsLegal(s, t);
    ExecEnds(s, t, h, threw);
    EndingSteps(s, t, h, threw);
    hide Inv, ExecStep, Enabled, Apply, Legal, Run, RetireStep;
    var s1 := AtEnd(s, t, h, threw);
    LegalTwo(s1, Complete(t), Retire(t));
    LegalConcat(s, [Exec(t)], [Complete(t), Retire(t)]);
    assert [Exec(t)] + [Complete(t), Retire(t)] == [Exec(t), Complete(t), Retire(t)];
  }

  lemma HeadIsLive(s: State, t: nat)
    requires Inv(s) && t < |s.threads| && s.threads[t].Moving?
    ensures s.threads[t].batch != [] && s.threads[t].batch[0] < |s.frames|
  {
    hide Sum, Owners;
    assert Consistent(s.frames, s.threads[t]);
    assert In(s.frames, s.threads[t].batch[0], Live);
  }

  lemma DrainIsLegal(s: State, t: nat)
    requires IdleWorker(s, t) && s.delayed != [] && s.delayed[0].at <= s.now
    ensures Legal(s, [Drain(t)]) && Run(s, [Drain(t)]) == Apply(s, Drain(t))
    ensures DueCount(s.delayed, s.now) > 0
  {
    LegalOne(s, Drain(t));
  }
}
