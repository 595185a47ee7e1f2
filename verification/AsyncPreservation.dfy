/** Every event of the scheduler keeps the invariant, so every schedule does. */
module AsyncPreservation {
  import opened Options
  import opened Sums
  import opened AsyncProtocol
  import opened AsyncInvariant

  /** Owners and final awaiters change exactly as the stages of the frames do. */
  ghost predicate Balanced(s: State, s': State, h: Handle) {
    && Owners(s', h) + Unfinished(s.frames, h) == Owners(s, h) + Unfinished(s'.frames, h)
    && Sum(Ending(h), s'.threads) + Unretired(s.frames, h) == Sum(Ending(h), s.threads) + Unretired(s'.frames, h)
  }

  lemma BalancedKeeps(s: State, s': State)
    requires Owned(s) && Ended(s.threads, s.frames) && forall h: Handle :: Balanced(s, s', h)
    ensures Owned(s') && Ended(s'.threads, s'.frames)
  {
    hide Sum, Owners;
    forall h: Handle
      ensures Owners(s', h) == Unfinished(s'.frames, h)
      ensures Sum(Ending(h), s'.threads) == Unretired(s'.frames, h)
    {
      assert Balanced(s, s', h);
    }
  }

  // ---------------------------------------------------------------- schedule_impl

  /** What schedule_impl does to a coroutine that was never scheduled. */
  lemma EnqueueEffect(s: State, t: nat, q: nat)
    requires AboutToSchedule(s, t, q) && s.threads[t].child !in s.refs && In(s.frames, s.threads[t].child, Created)
    ensures var c := s.threads[t].child; var th := s.threads[t];
            EnqueueStep(s, t, q) ==
            State(s.queues[q := s.queues[q] + [c]], s.delayed, s.cleanup, s.refs[c := 1],
                  s.frames[c := s.frames[c].(stage := Live)],
                  s.threads[t := if th.Launching? then Running(th.h) else Idle], s.now)
  {
  }

  lemma EnqueueBalanced(s: State, t: nat, q: nat, h: Handle)
    requires AboutToSchedule(s, t, q) && s.threads[t].child !in s.refs && In(s.frames, s.threads[t].child, Created)
    ensures Balanced(s, EnqueueStep(s, t, q), h)
  {
    hide Sum;
    EnqueueEffect(s, t, q);
    var c := s.threads[t].child;
    var th' := if s.threads[t].Launching? then Running(s.threads[t].h) else Idle;
    PushBack(s.queues, q, c, h);
    Rehand(s.threads, t, th', h);
    Rewait(s.frames, c, s.frames[c].(stage := Live), h);
    assert Hand(h)(th') + Is(h, c) == Hand(h)(s.threads[t]);
  }

  lemma EnqueueKeeps(s: State, t: nat, q: nat)
    requires Inv(s) && AboutToSchedule(s, t, q)
    ensures Inv(EnqueueStep(s, t, q))
  {
    hide Sum, Owners;
    var s' := EnqueueStep(s, t, q);
    var c := s.threads[t].child;
    assert Consistent(s.frames, s.threads[t]);
    assert RefersTo(s.frames[c], s.refs, c);
    EnqueueEffect(s, t, q);
    forall h: Handle ensures Balanced(s, s', h) { EnqueueBalanced(s, t, q, h); }
    BalancedKeeps(s, s');
    Lone(s, t, c);
    QueuedKeep(s.queues, s.frames, s'.frames, c);
    DelayedKeep(s.delayed, s.frames, s'.frames, c);
    ThreadedKeep(s.threads, t, s'.threads[t], s.frames, s'.frames, c);
    CorpsesKeep(s.frames, s'.frames, s.cleanup, c);
    LinkedSame(s.frames, c, s'.frames[c]);
    CollectableKeep(s.frames, s'.frames, s.cleanup, s'.cleanup, s.threads, s'.threads);
  }

  // ---------------------------------------------------------------- taking a task

  lemma ThreadedSame(threads: seq<Thread>, t: nat, th: Thread, frames: seq<Frame>)
    requires Threaded(threads, frames) && t < |threads| && Consistent(frames, th)
    ensures Threaded(threads[t := th], frames)
  {
  }

  lemma QueuedChange(queues: seq<seq<Handle>>, q: nat, queue: seq<Handle>, frames: seq<Frame>)
    requires Queued(queues, frames) && q < |queues| && AllLive(frames, queue)
    ensures Queued(queues[q := queue], frames)
  {
  }

  lemma PopKeeps(s: State, t: nat)
    requires Inv(s) && IdleWorker(s, t) && s.queues[t] != [] && s.queues[t][0] < |s.frames|
    ensures Inv(ResumeStep(s.(queues := s.queues[t := s.queues[t][1..]]), t, s.queues[t][0]))
  {
    hide Sum;
    var x := s.queues[t][0];
    var s' := ResumeStep(s.(queues := s.queues[t := s.queues[t][1..]]), t, x);
    assert AllLive(s.frames, s.queues[t]);
    assert AllLive(s.frames, s.queues[t][1..]);
    assert s'.threads == s.threads[t := Running(x)];
    forall h: Handle ensures Balanced(s, s', h) {
      PopFront(s.queues, t, h);
      Rehand(s.threads, t, Running(x), h);
    }
    Resumed(s, s', t, t, s.queues[t][1..], Running(x));
  }

  lemma StealKeeps(s: State, t: nat, v: nat)
    requires Inv(s) && IdleWorker(s, t) && v < |s.queues| && s.queues[v] != []
    requires s.queues[v][|s.queues[v]| - 1] < |s.frames|
    ensures var n := |s.queues[v]| - 1;
            Inv(ResumeStep(s.(queues := s.queues[v := s.queues[v][..n]]), t, s.queues[v][n]))
  {
    hide Sum;
    var n := |s.queues[v]| - 1;
    var x := s.queues[v][n];
    var s' := ResumeStep(s.(queues := s.queues[v := s.queues[v][..n]]), t, x);
    assert AllLive(s.frames, s.queues[v]);
    assert AllLive(s.frames, s.queues[v][..n]);
    assert s'.threads == s.threads[t := Running(x)];
    forall h: Handle ensures Balanced(s, s', h) {
      PopBack(s.queues, v, h);
      Rehand(s.threads, t, Running(x), h);
    }
    Resumed(s, s', t, v, s.queues[v][..n], Running(x));
  }

  /** A thread and a deque change, the frames do not. */
  lemma Resumed(s: State, s': State, t: nat, q: nat, queue: seq<Handle>, th: Thread)
    requires Inv(s) && t < |s.threads| && q < |s.queues| && !s.threads[t].Reaping?
    requires s' == s.(queues := s.queues[q := queue], threads := s.threads[t := th])
    requires AllLive(s.frames, queue) && Consistent(s.frames, th)
    requires forall h: Handle :: Balanced(s, s', h)
    ensures Inv(s')
  {
    hide Sum, Owners;
    BalancedKeeps(s, s');
    QueuedChange(s.queues, q, queue, s.frames);
    ThreadedSame(s.threads, t, th, s.frames);
    CollectableKeep(s.frames, s'.frames, s.cleanup, s'.cleanup, s.threads, s'.threads);
  }

  // ---------------------------------------------------------------- the delay heap

  lemma {:induction false} DrainSplit(es: seq<Entry>, k: nat, h: Handle)
    requires k <= |es|
    ensures Sum(At(h), es) == multiset(Handles(es)[..k])[h] + Sum(At(h), es[k..])
  {
    if k > 0 {
      DrainSplit(es[1..], k - 1, h);
      assert es[1..][k - 1..] == es[k..];
      assert Handles(es)[..k] == [es[0].h] + Handles(es[1..])[..k - 1];
    } else {
      assert es[0..] == es;
    }
  }

  lemma DrainBalanced(s: State, t: nat, h: Handle)
    requires t < |s.threads| && s.threads[t].Idle?
    ensures var k := DueCount(s.delayed, s.now);
            Balanced(s, s.(delayed := s.delayed[k..], threads := s.threads[t := Moving(Handles(s.delayed)[..k])]), h)
  {
    hide Sum;
    var k := DueCount(s.delayed, s.now);
    DrainSplit(s.delayed, k, h);
    Rehand(s.threads, t, Moving(Handles(s.delayed)[..k]), h);
  }

  lemma DrainKeeps(s: State, t: nat)
    requires Inv(s) && IdleWorker(s, t) && s.delayed != [] && s.delayed[0].at <= s.now
    ensures var k := DueCount(s.delayed, s.now);
            Inv(s.(delayed := s.delayed[k..], threads := s.threads[t := Moving(Handles(s.delayed)[..k])]))
  {
    hide Sum, Owners;
    var k := DueCount(s.delayed, s.now);
    var batch := Handles(s.delayed)[..k];
    var s' := s.(delayed := s.delayed[k..], threads := s.threads[t := Moving(batch)]);
    forall h: Handle ensures Balanced(s, s', h) { DrainBalanced(s, t, h); }
    BalancedKeeps(s, s');
    assert k > 0 && batch[0] == s.delayed[0].h;
    assert Consistent(s.frames, Moving(batch)) by {
      forall i | 0 <= i < |batch| ensures In(s.frames, batch[i], Live) {
        assert batch[i] == s.delayed[i].h;
      }
    }
    ThreadedSame(s.threads, t, Moving(batch), s.frames);
    CollectableKeep(s.frames, s'.frames, s.cleanup, s'.cleanup, s.threads, s'.threads);
  }

  lemma PlaceKeeps(s: State, t: nat, q: nat)
    requires Inv(s) && AboutToPlace(s, t, q)
    ensures Inv(PlaceStep(s, t, q))
  {
    hide Sum;
    var b := s.threads[t].batch;
    var s' := PlaceStep(s, t, q);
    var th := if |b| == 1 then Idle else Moving(b[1..]);
    assert Consistent(s.frames, s.threads[t]);
    assert In(s.frames, b[0], Live);
    assert AllLive(s.frames, s.queues[q]);
    assert AllLive(s.frames, [b[0]] + s.queues[q]);
    assert AllLive(s.frames, b[1..]);
    assert b == [b[0]] + b[1..];
    forall h: Handle ensures Balanced(s, s', h) {
      PushFront(s.queues, q, b[0], h);
      Rehand(s.threads, t, th, h);
      assert multiset(b)[h] == Is(h, b[0]) + multiset(b[1..])[h];
    }
    Resumed(s, s', t, q, [b[0]] + s.queues[q], th);
  }

  // ---------------------------------------------------------------- cleanup

  lemma SwapKeeps(s: State, t: nat)
    requires Inv(s) && IdleWorker(s, t) && s.cleanup != []
    ensures Inv(s.(cleanup := [], threads := s.threads[t := Reaping(s.cleanup)]))
  {
    hide Sum;
    var th := Reaping(s.cleanup);
    var s' := s.(cleanup := [], threads := s.threads[t := th]);
    forall h: Handle ensures Balanced(s, s', h) { Rehand(s.threads, t, th, h); }
    Swapped(s, s', t);
  }

  lemma Swapped(s: State, s': State, t: nat)
    requires Inv(s) && IdleWorker(s, t) && s.cleanup != []
    requires s' == s.(cleanup := [], threads := s.threads[t := Reaping(s.cleanup)])
    requires forall h: Handle :: Balanced(s, s', h)
    ensures Inv(s')
  {
    hide Sum, Owners;
    BalancedKeeps(s, s');
    ThreadedSame(s.threads, t, Reaping(s.cleanup), s.frames);
    forall h | 0 <= h < |s.frames| && s.frames[h].stage.Retired? && s.frames[h].destroyed == 0
      ensures OnTheWay([], s'.threads, h)
    {
      assert OnTheWay(s.cleanup, s.threads, h);
      if h in s.cleanup {
        assert BeingReaped(s'.threads[t], h);
      } else {
        var u :| 0 <= u < |s.threads| && BeingReaped(s.threads[u], h);
        assert BeingReaped(s'.threads[u], h);
      }
    }
  }

  // ---------------------------------------------------------------- no stage changes

  /** Frames may be added and may change in other ways, but keep stage and continuation. */
  ghost predicate SameStages(frames: seq<Frame>, frames': seq<Frame>) {
    && |frames| <= |frames'|
    && forall h :: 0 <= h < |frames| ==>
         frames'[h].stage == frames[h].stage && frames'[h].continuation == frames[h].continuation
  }

  lemma ConsistentSame(frames: seq<Frame>, frames': seq<Frame>, th: Thread)
    requires Consistent(frames, th) && SameStages(frames, frames')
    ensures Consistent(frames', th)
  {
    if th.Moving? {
      assert AllLive(frames', th.batch);
    } else if th.Reaping? {
      assert Corpses(frames', th.batch);
    }
  }

  lemma PlacesSame(s: State, frames': seq<Frame>)
    requires SameStages(s.frames, frames')
    requires Queued(s.queues, s.frames) && Delayed(s.delayed, s.frames)
    requires Threaded(s.threads, s.frames) && Corpses(s.frames, s.cleanup)
    ensures Queued(s.queues, frames') && Delayed(s.delayed, frames')
    ensures Threaded(s.threads, frames') && Corpses(frames', s.cleanup)
  {
    forall q | 0 <= q < |s.queues| ensures AllLive(frames', s.queues[q]) {
      assert AllLive(s.frames, s.queues[q]);
    }
    forall t | 0 <= t < |s.threads| ensures Consistent(frames', s.threads[t]) {
      ConsistentSame(s.frames, frames', s.threads[t]);
    }
  }

  // ---------------------------------------------------------------- destroying

  /** The invariant while a batch is being reaped. */
  ghost predicate MidReap(s: State, batch: seq<Handle>) {
    && Shape(s) && Owned(s) && Ended(s.threads, s.frames)
    && Queued(s.queues, s.frames) && Delayed(s.delayed, s.frames)
    && Threaded(s.threads, s.frames) && Corpses(s.frames, s.cleanup)
    && Linked(s.frames) && Referenced(s.frames, s.refs) && Corpses(s.frames, batch)
    && forall h :: 0 <= h < |s.frames| && s.frames[h].stage.Retired? && s.frames[h].destroyed == 0 ==>
         OnTheWay(s.cleanup, s.threads, h) || h in batch
  }

  lemma ReapOneEffect(s: State, h: Handle)
    requires h < |s.frames| && Referenced(s.frames, s.refs)
    requires s.frames[h].stage.Retired? || s.frames[h].stage.Dropped?
    ensures if s.frames[h].stage.Retired? && s.frames[h].destroyed == 0
            then ReapOne(s, h) == s.(refs := s.refs - {h}, frames := s.frames[h := s.frames[h].(destroyed := 1)])
            else ReapOne(s, h) == s
  {
    assert RefersTo(s.frames[h], s.refs, h);
  }

  lemma ReapOneKeeps(s: State, batch: seq<Handle>)
    requires batch != [] && MidReap(s, batch)
    ensures MidReap(ReapOne(s, batch[0]), batch[1..])
  {
    hide Sum, Owners;
    var x := batch[0];
    assert In(s.frames, x, Retired) || In(s.frames, x, Dropped);
    var s' := ReapOne(s, x);
    ReapOneEffect(s, x);
    assert batch == [x] + batch[1..];
    if s' != s {
      assert SameStages(s.frames, s'.frames);
      PlacesSame(s, s'.frames);
      assert HoldsChild(s.frames, x);
      LinkedSame(s.frames, x, s'.frames[x]);
      forall h: Handle ensures Balanced(s, s', h) { Destroyed(s, s', x, h); }
      BalancedKeeps(s, s');
      forall h | 0 <= h < |s'.frames| ensures RefersTo(s'.frames[h], s'.refs, h) {
        assert RefersTo(s.frames[h], s.refs, h);
      }
    }
  }

  lemma Destroyed(s: State, s': State, x: Handle, h: Handle)
    requires x < |s.frames|
    requires s' == s.(refs := s.refs - {x}, frames := s.frames[x := s.frames[x].(destroyed := 1)])
    ensures Balanced(s, s', h)
  {
    hide Sum;
    Rewait(s.frames, x, s'.frames[x], h);
  }

  lemma {:induction false} ReapAllKeeps(s: State, batch: seq<Handle>)
    requires MidReap(s, batch)
    ensures forall i :: 0 <= i < |batch| ==> batch[i] < |s.frames|
    ensures MidReap(ReapAll(s, batch), [])
    decreases |batch|
  {
    hide Sum, Owners;
    assert forall i :: 0 <= i < |batch| ==> batch[i] < |s.frames| by {
      forall i | 0 <= i < |batch| ensures batch[i] < |s.frames| {
        assert In(s.frames, batch[i], Retired) || In(s.frames, batch[i], Dropped);
      }
    }
    if batch != [] {
      ReapOneKeeps(s, batch);
      ReapAllKeeps(ReapOne(s, batch[0]), batch[1..]);
    }
  }

  lemma ReapKeeps(s: State, t: nat)
    requires Inv(s) && t < |s.threads| && s.threads[t].Reaping?
    requires forall i :: 0 <= i < |s.threads[t].batch| ==> s.threads[t].batch[i] < |s.frames|
    ensures Inv(ReapAll(s.(threads := s.threads[t := Idle]), s.threads[t].batch))
  {
    hide Sum;
    var b := s.threads[t].batch;
    var s0 := s.(threads := s.threads[t := Idle]);
    forall h: Handle ensures Balanced(s, s0, h) { Rehand(s.threads, t, Idle, h); }
    ReapStarts(s, s0, t);
    ReapAllKeeps(s0, b);
  }

  lemma ReapStarts(s: State, s0: State, t: nat)
    requires Inv(s) && t < |s.threads| && s.threads[t].Reaping? && s0 == s.(threads := s.threads[t := Idle])
    requires forall h: Handle :: Balanced(s, s0, h)
    ensures MidReap(s0, s.threads[t].batch)
  {
    hide Sum, Owners;
    BalancedKeeps(s, s0);
    assert Consistent(s.frames, s.threads[t]);
    ThreadedSame(s.threads, t, Idle, s.frames);
    forall h | 0 <= h < |s.frames| && s.frames[h].stage.Retired? && s.frames[h].destroyed == 0
      ensures OnTheWay(s0.cleanup, s0.threads, h) || h in s.threads[t].batch
    {
      assert OnTheWay(s.cleanup, s.threads, h);
      if h !in s.cleanup {
        var u :| 0 <= u < |s.threads| && BeingReaped(s.threads[u], h);
        assert u != t ==> BeingReaped(s0.threads[u], h);
      }
    }
  }

  // ---------------------------------------------------------------- the final awaiter

  /** At the final suspend point nobody else knows the coroutine. */
  lemma EndKeeps(s: State, t: nat, h: Handle, threw: bool)
    requires Inv(s) && t < |s.threads| && s.threads[t] == Running(h) && h < |s.frames| && s.frames[h].held.None?
    ensures Inv(AtEnd(s, t, h, threw))
  {
    hide Sum, Owners;
    var s' := AtEnd(s, t, h, threw);
    assert Consistent(s.frames, s.threads[t]);
    forall k: Handle ensures Balanced(s, s', k) { EndBalanced(s, t, h, threw, k); }
    BalancedKeeps(s, s');
    Lone(s, t, h);
    NoEnding(s, h);
    Restaged(s, s', t, h);
    ReferencedSame(s.frames, s.refs, h, s'.frames[h]);
    LinkedSame(s.frames, h, s'.frames[h]);
    CollectableKeep(s.frames, s'.frames, s.cleanup, s'.cleanup, s.threads, s'.threads);
  }

  lemma EndBalanced(s: State, t: nat, h: Handle, threw: bool, k: Handle)
    requires t < |s.threads| && s.threads[t] == Running(h) && In(s.frames, h, Live)
    ensures Balanced(s, AtEnd(s, t, h, threw), k)
  {
    hide Sum;
    var s' := AtEnd(s, t, h, threw);
    Rehand(s.threads, t, AtFinal(h), k);
    Rewait(s.frames, h, s'.frames[h], k);
  }

  /** A coroutine that is not finishing is in no final awaiter. */
  lemma NoEnding(s: State, h: Handle)
    requires Ended(s.threads, s.frames) && Unretired(s.frames, h) == 0
    ensures forall u :: 0 <= u < |s.threads| ==> Ending(h)(s.threads[u]) == 0
  {
    forall u | 0 <= u < |s.threads| ensures Ending(h)(s.threads[u]) == 0 {
      SumHas(Ending(h), s.threads, u);
    }
  }

  /** Only thread t knows the frame whose stage changes. */
  lemma Restaged(s: State, s': State, t: nat, x: Handle)
    requires Queued(s.queues, s.frames) && Delayed(s.delayed, s.frames)
    requires Threaded(s.threads, s.frames) && Corpses(s.frames, s.cleanup)
    requires t < |s.threads| && SameBut(s.frames, s'.frames, x)
    requires !In(s.frames, x, Retired) && !In(s.frames, x, Dropped)
    requires s'.queues == s.queues && s'.delayed == s.delayed
    requires |s'.threads| == |s.threads| && s'.threads == s.threads[t := s'.threads[t]]
    requires Consistent(s'.frames, s'.threads[t])
    requires forall q :: 0 <= q < |s.queues| ==> x !in s.queues[q]
    requires forall i :: 0 <= i < |s.delayed| ==> s.delayed[i].h != x
    requires forall u :: 0 <= u < |s.threads| && u != t ==> Clear(s.threads[u], x)
    ensures Queued(s'.queues, s'.frames) && Delayed(s'.delayed, s'.frames)
    ensures Threaded(s'.threads, s'.frames) && Corpses(s'.frames, s.cleanup)
  {
    QueuedKeep(s.queues, s.frames, s'.frames, x);
    DelayedKeep(s.delayed, s.frames, s'.frames, x);
    ThreadedKeep(s.threads, t, s'.threads[t], s.frames, s'.frames, x);
    CorpsesKeep(s.frames, s'.frames, s.cleanup, x);
  }

  /** A finished coroutine has no owner; only its final awaiter knows it. */
  lemma Ownerless(s: State, t: nat, x: Handle)
    requires Owners(s, x) == 0 && t < |s.threads|
    requires Sum(Ending(x), s.threads) <= 1 && Ending(x)(s.threads[t]) > 0
    ensures forall q :: 0 <= q < |s.queues| ==> x !in s.queues[q]
    ensures forall i :: 0 <= i < |s.delayed| ==> s.delayed[i].h != x
    ensures forall u :: 0 <= u < |s.threads| && u != t ==> Clear(s.threads[u], x)
  {
    hide Sum;
    forall q | 0 <= q < |s.queues| ensures x !in s.queues[q] {
      SumHas(InDeque(x), s.queues, q);
      assert multiset(s.queues[q])[x] == 0;
    }
    forall i | 0 <= i < |s.delayed| ensures s.delayed[i].h != x {
      SumHas(At(x), s.delayed, i);
    }
    forall u | 0 <= u < |s.threads| && u != t ensures Clear(s.threads[u], x) {
      SumHas(Hand(x), s.threads, u);
      SumHasTwo(Ending(x), s.threads, t, u);
    }
  }

  lemma CompleteBalanced(s: State, t: nat, h: Handle, k: Handle)
    requires t < |s.threads| && s.threads[t] == AtFinal(h) && In(s.frames, h, Final)
    ensures Balanced(s, CompleteStep(s, t, h), k)
  {
    hide Sum;
    var s' := CompleteStep(s, t, h);
    Rehand(s.threads, t, s'.threads[t], k);
    Rewait(s.frames, h, s'.frames[h], k);
  }

  lemma CompleteKeeps(s: State, t: nat, h: Handle)
    requires Inv(s) && t < |s.threads| && s.threads[t] == AtFinal(h) && h < |s.frames|
    ensures Inv(CompleteStep(s, t, h))
  {
    hide Sum, Owners;
    var s' := CompleteStep(s, t, h);
    assert Consistent(s.frames, s.threads[t]);
    assert HoldsChild(s.frames, h);
    forall k: Handle ensures Balanced(s, s', k) { CompleteBalanced(s, t, h, k); }
    BalancedKeeps(s, s');
    Ownerless(s, t, h);
    Restaged(s, s', t, h);
    ReferencedSame(s.frames, s.refs, h, s'.frames[h]);
    LinkedSame(s.frames, h, s'.frames[h]);
    CollectableKeep(s.frames, s'.frames, s.cleanup, s'.cleanup, s.threads, s'.threads);
  }

  lemma RetireBalanced(s: State, t: nat, h: Handle, next: Option<Handle>, k: Handle)
    requires t < |s.threads| && s.threads[t] == Finishing(h, next) && In(s.frames, h, Completed)
    ensures Balanced(s, RetireStep(s, t, h, next), k)
  {
    hide Sum;
    var s' := RetireStep(s, t, h, next);
    Rehand(s.threads, t, s'.threads[t], k);
    Rewait(s.frames, h, s'.frames[h], k);
  }

  lemma RetireKeeps(s: State, t: nat, h: Handle, next: Option<Handle>)
    requires Inv(s) && t < |s.threads| && s.threads[t] == Finishing(h, next) && h < |s.frames|
    ensures Inv(RetireStep(s, t, h, next))
  {
    hide Sum, Owners;
    var s' := RetireStep(s, t, h, next);
    assert Consistent(s.frames, s.threads[t]);
    assert HoldsChild(s.frames, h) && KnowsParent(s.frames, h);
    if next.Some? {
      assert HoldsChild(s.frames, next.value);
      assert In(s.frames, next.value, Live);
    }
    forall k: Handle ensures Balanced(s, s', k) { RetireBalanced(s, t, h, next, k); }
    BalancedKeeps(s, s');
    Ownerless(s, t, h);
    Restaged(s, s', t, h);
    assert RefersTo(s.frames[h], s.refs, h);
    ReferencedSame(s.frames, s.refs, h, s'.frames[h]);
    LinkedSame(s.frames, h, s'.frames[h]);
    CollectableKeep(s.frames, s'.frames, s.cleanup, s'.cleanup, s.threads, s'.threads);
  }

  // ---------------------------------------------------------------- running a body

  /** The coroutine moves on in its body and awaits nothing. */
  lemma BodyKeeps(s: State, h: Handle, body: Body)
    requires Inv(s) && In(s.frames, h, Live) && s.frames[h].held.None?
    ensures Inv(s.(frames := s.frames[h := s.frames[h].(body := body)]))
  {
    hide Sum, Owners;
    var s' := s.(frames := s.frames[h := s.frames[h].(body := body)]);
    forall k: Handle ensures Balanced(s, s', k) { Reframed(s, s', h, k); }
    BalancedKeeps(s, s');
    PlacesSame(s, s'.frames);
    LinkedSame(s.frames, h, s'.frames[h]);
    ReferencedSame(s.frames, s.refs, h, s'.frames[h]);
  }

  lemma Reframed(s: State, s': State, x: Handle, h: Handle)
    requires x < |s.frames| && |s'.frames| == |s.frames| && s'.frames == s.frames[x := s'.frames[x]]
    requires s'.queues == s.queues && s'.delayed == s.delayed && s'.threads == s.threads
    requires s'.frames[x].stage == s.frames[x].stage && s'.frames[x].continuation == s.frames[x].continuation
    ensures Balanced(s, s', h)
  {
    hide Sum;
    Rewait(s.frames, x, s'.frames[x], h);
  }

  /** sleep_for and yield: the running coroutine moves to the delay heap. */
  lemma DelayKeeps(s: State, t: nat, h: Handle, ms: int)
    requires Inv(s) && t < |s.threads| && s.threads[t] == Running(h)
    ensures Inv(ScheduleAfter(s, h, ms).(threads := s.threads[t := Idle]))
  {
    hide Sum;
    var e := Entry(s.now + ms, h);
    var s' := ScheduleAfter(s, h, ms).(threads := s.threads[t := Idle]);
    forall k: Handle ensures Balanced(s, s', k) {
      InsertOne(e, s.delayed, k);
      Rehand(s.threads, t, Idle, k);
    }
    DelayPlaces(s, s', t, h, e);
  }

  lemma DelayPlaces(s: State, s': State, t: nat, h: Handle, e: Entry)
    requires Inv(s) && t < |s.threads| && s.threads[t] == Running(h) && e.h == h
    requires s' == s.(delayed := Insert(e, s.delayed), threads := s.threads[t := Idle])
    requires forall k: Handle :: Balanced(s, s', k)
    ensures Inv(s')
  {
    hide Sum, Owners;
    BalancedKeeps(s, s');
    InsertSorted(e, s.delayed);
    assert Consistent(s.frames, s.threads[t]);
    forall i | 0 <= i < |s'.delayed| ensures In(s.frames, s'.delayed[i].h, Live) {
      InsertMember(e, s.delayed, s'.delayed[i]);
      assert s'.delayed[i] in s'.delayed;
    }
    ThreadedSame(s.threads, t, Idle, s.frames);
    CollectableKeep(s.frames, s.frames, s.cleanup, s.cleanup, s.threads, s'.threads);
  }

  /** A thread creates a coroutine and is about to schedule it. */
  lemma CreateKeeps(s: State, t: nat, th: Thread, body: Body)
    requires Inv(s) && t < |s.threads|
    requires || (s.threads[t].Idle? && th == Scheduling(|s.frames|))
             || (s.threads[t].Running? && th == Launching(s.threads[t].h, |s.frames|))
    ensures Inv(s.(frames := s.frames + [Fresh(body)], threads := s.threads[t := th]))
  {
    hide Sum, Owners;
    var f := Fresh(body);
    var s' := s.(frames := s.frames + [f], threads := s.threads[t := th]);
    forall k: Handle ensures Balanced(s, s', k) { CreateBalanced(s, t, th, f, k); }
    BalancedKeeps(s, s');
    PlacesSame(s, s'.frames);
    assert Consistent(s.frames, s.threads[t]);
    ThreadedSame(s.threads, t, th, s'.frames);
    LinkedAppend(s.frames, f);
    ReferencedAppend(s.frames, s.refs, f);
    CollectableKeep(s.frames, s'.frames, s.cleanup, s'.cleanup, s.threads, s'.threads);
  }

  lemma CreateBalanced(s: State, t: nat, th: Thread, f: Frame, k: Handle)
    requires t < |s.threads| && f.stage.Created? && f.continuation.None?
    requires || (s.threads[t].Idle? && th == Scheduling(|s.frames|))
             || (s.threads[t].Running? && th == Launching(s.threads[t].h, |s.frames|))
    ensures Balanced(s, s.(frames := s.frames + [f], threads := s.threads[t := th]), k)
  {
    hide Sum;
    SumAppend(Waiting(k), s.frames, f);
    Rehand(s.threads, t, th, k);
    var frames' := s.frames + [f];
    assert k < |s.frames| ==> frames'[k] == s.frames[k];
    assert frames'[|s.frames|] == f;
  }

  /** An async destroyed without being scheduled leaves its handle in the cleanup queue. */
  lemma DiscardKeeps(s: State, body: Body)
    requires Inv(s)
    ensures Inv(s.(frames := s.frames + [Fresh(body).(stage := Dropped)], cleanup := s.cleanup + [|s.frames|]))
  {
    hide Sum, Owners;
    var f := Fresh(body).(stage := Dropped);
    var c := |s.frames|;
    var s' := s.(frames := s.frames + [f], cleanup := s.cleanup + [c]);
    forall k: Handle ensures Balanced(s, s', k) { DiscardBalanced(s, f, c, k); }
    BalancedKeeps(s, s');
    PlacesSame(s, s'.frames);
    assert In(s'.frames, c, Dropped);
    LinkedAppend(s.frames, f);
    ReferencedAppend(s.frames, s.refs, f);
    CollectableKeep(s.frames, s'.frames, s.cleanup, s'.cleanup, s.threads, s'.threads);
  }

  lemma DiscardBalanced(s: State, f: Frame, c: Handle, k: Handle)
    requires f.stage.Dropped? && f.continuation.None?
    ensures Balanced(s, s.(frames := s.frames + [f], cleanup := s.cleanup + [c]), k)
  {
    hide Sum;
    SumAppend(Waiting(k), s.frames, f);
    var frames' := s.frames + [f];
    assert k < |s.frames| ==> frames'[k] == s.frames[k];
    assert frames'[|s.frames|] == f;
  }

  // ---------------------------------------------------------------- awaiting

  lemma AwaitBalanced(s: State, s': State, t: nat, h: Handle, f: Frame, g: Frame, k: Handle)
    requires t < |s.threads| && s.threads[t] == Running(h) && In(s.frames, h, Live)
    requires f.stage.Live? && f.continuation == s.frames[h].continuation
    requires g.stage.Created? && g.continuation == Some(h)
    requires s' == s.(frames := s.frames[h := f] + [g], threads := s.threads[t := Scheduling(|s.frames|)])
    ensures Balanced(s, s', k)
  {
    hide Sum;
    Rewait(s.frames, h, f, k);
    SumAppend(Waiting(k), s.frames[h := f], g);
    Rehand(s.threads, t, Scheduling(|s.frames|), k);
    assert k < |s.frames| ==> s'.frames[k] == s.frames[h := f][k];
    assert s'.frames[|s.frames|] == g;
  }

  /** co_await: the parent moves into the continuation slot of its fresh child. */
  lemma AwaitKeeps(s: State, t: nat, h: Handle)
    requires Inv(s) && t < |s.threads| && s.threads[t] == Running(h) && h < |s.frames|
    requires s.frames[h].held.None? && s.frames[h].body.Await?
    ensures Inv(ExecStep(s, t, h))
  {
    hide Sum, Owners;
    var c := |s.frames|;
    var f := s.frames[h].(held := Some(c));
    var g := Fresh(f.body.child).(continuation := Some(h));
    var s' := s.(frames := s.frames[h := f] + [g], threads := s.threads[t := Scheduling(c)]);
    assert s' == ExecStep(s, t, h);
    assert Consistent(s.frames, s.threads[t]);
    forall k: Handle ensures Balanced(s, s', k) { AwaitBalanced(s, s', t, h, f, g, k); }
    BalancedKeeps(s, s');
    PlacesSame(s, s'.frames);
    ThreadedSame(s.threads, t, Scheduling(c), s'.frames);
    AwaitLinks(s.frames, h, f, g);
    ReferencedSame(s.frames, s.refs, h, f);
    ReferencedAppend(s.frames[h := f], s.refs, g);
    CollectableKeep(s.frames, s'.frames, s.cleanup, s'.cleanup, s.threads, s'.threads);
  }

  lemma AwaitLinks(frames: seq<Frame>, h: Handle, f: Frame, g: Frame)
    requires Linked(frames) && In(frames, h, Live) && frames[h].held.None? && frames[h].body.Await?
    requires f == frames[h].(held := Some(|frames|))
    requires g.held.None? && g.stage.Created? && g.continuation == Some(h)
    ensures Linked(frames[h := f] + [g])
  {
    var frames' := frames[h := f] + [g];
    forall k | 0 <= k < |frames'| ensures HoldsChild(frames', k) && KnowsParent(frames', k) {
      if k < |frames| {
        assert HoldsChild(frames, k) && KnowsParent(frames, k);
      }
    }
  }

  /**
   A coroutine that runs while it still holds the async it awaited has been resumed by the
   child's final awaiter: the child is not only completed, it is already up for cleanup.
   */
  lemma AwaitedIsRetired(s: State, t: nat, h: Handle)
    requires Inv(s) && t < |s.threads| && s.threads[t] == Running(h)
    requires h < |s.frames| && s.frames[h].held.Some?
    ensures In(s.frames, s.frames[h].held.value, Retired)
  {
    hide Sum, Owners;
    var c := s.frames[h].held.value;
    assert Consistent(s.frames, s.threads[t]);
    assert HoldsChild(s.frames, h);
    assert KnowsParent(s.frames, c);
    if s.frames[c].stage.Completed? {
      var u := SumWitness(Ending(c), s.threads);
      assert Consistent(s.frames, s.threads[u]);
      assert Hand(h)(s.threads[u]) == 1 && u != t;
    }
    assert !s.frames[c].IsCompleted() ==> Waiting(h)(s.frames[c]) == 1;
    Lone(s, t, h);
  }

  /** await_resume: the child's outcome is taken and the async object destroyed. */
  lemma AwaitResumeKeeps(s: State, t: nat, h: Handle)
    requires Inv(s) && t < |s.threads| && s.threads[t] == Running(h)
    requires h < |s.frames| && s.frames[h].held.Some? && s.frames[h].held.value < |s.frames|
    ensures Inv(AwaitResume(s, h, s.frames[h].held.value))
  {
    hide Sum, Owners;
    var c := s.frames[h].held.value;
    var s' := AwaitResume(s, h, c);
    AwaitedIsRetired(s, t, h);
    assert Consistent(s.frames, s.threads[t]);
    forall k: Handle ensures Balanced(s, s', k) { Reframed(s, s', h, k); }
    BalancedKeeps(s, s');
    PlacesSame(s, s'.frames);
    ReleaseLinks(s.frames, h, s'.frames[h]);
    ReferencedSame(s.frames, s.refs, h, s'.frames[h]);
    CollectableKeep(s.frames, s'.frames, s.cleanup, s'.cleanup, s.threads, s'.threads);
  }

  lemma ReleaseLinks(frames: seq<Frame>, h: Handle, f: Frame)
    requires Linked(frames) && h < |frames| && frames[h].held.Some?
    requires frames[h].held.value < |frames| && frames[frames[h].held.value].stage.Retired?
    requires f == frames[h].(body := f.body, held := None)
    ensures Linked(frames[h := f])
  {
    var frames' := frames[h := f];
    forall k | 0 <= k < |frames'| ensures HoldsChild(frames', k) && KnowsParent(frames', k) {
      assert HoldsChild(frames, k) && KnowsParent(frames, k);
    }
  }

  lemma ExecKeeps(s: State, t: nat, h: Handle)
    requires Inv(s) && t < |s.threads| && s.threads[t] == Running(h) && h < |s.frames|
    requires s.frames[h].held.Some? ==> s.frames[h].held.value < |s.frames|
    ensures Inv(ExecStep(s, t, h))
  {
    hide Inv, ScheduleAfter;
    var f := s.frames[h];
    assert In(s.frames, h, Live) by { RunningIsLive(s, t); }
    if f.held.Some? {
      AwaitResumeKeeps(s, t, h);
    } else {
      match f.body
      case Return => EndKeeps(s, t, h, false);
      case Throw => EndKeeps(s, t, h, true);
      case Sleep(ms, next) =>
        BodyKeeps(s, h, next);
        if ms > 0 { DelayKeeps(s.(frames := s.frames[h := f.(body := next)]), t, h, ms); }
      case Yield(next) =>
        BodyKeeps(s, h, next);
        DelayKeeps(s.(frames := s.frames[h := f.(body := next)]), t, h, 0);
      case Await(_, _, _) => AwaitKeeps(s, t, h);
      case Launch(child, next) =>
        BodyKeeps(s, h, next);
        CreateKeeps(s.(frames := s.frames[h := f.(body := next)]), t, Launching(h, |s.frames|), child);
      case Discard(child, next) =>
        BodyKeeps(s, h, next);
        DiscardKeeps(s.(frames := s.frames[h := f.(body := next)]), child);
    }
  }

  lemma RunningIsLive(s: State, t: nat)
    requires Inv(s) && t < |s.threads| && s.threads[t].Running?
    ensures In(s.frames, s.threads[t].h, Live)
  {
    hide Sum, Owners;
    assert Consistent(s.frames, s.threads[t]);
  }

  // ---------------------------------------------------------------- every schedule

  lemma ApplyKeeps(s: State, e: Event)
    requires Inv(s)
    ensures Inv(Apply(s, e))
  {
    hide Inv, EnqueueStep, PlaceStep, ResumeStep, ExecStep, CompleteStep, RetireStep, ReapAll;
    if Enabled(s, e) {
      match e
      case Tick(ms) => TickKeeps(s, ms);
      case Submit(t, body) => CreateKeeps(s, t, Scheduling(|s.frames|), body);
      case Enqueue(t, q) => EnqueueKeeps(s, t, q);
      case Drain(t) => DrainKeeps(s, t);
      case Place(t, q) => PlaceKeeps(s, t, q);
      case PopLocal(t) => PopKeeps(s, t);
      case Steal(t, v) => StealKeeps(s, t, v);
      case Exec(t) => ExecKeeps(s, t, s.threads[t].h);
      case Complete(t) => CompleteKeeps(s, t, s.threads[t].h);
      case Retire(t) => RetireKeeps(s, t, s.threads[t].h, s.threads[t].next);
      case Swap(t) => SwapKeeps(s, t);
      case Reap(t) => ReapKeeps(s, t);
    }
  }

  lemma TickKeeps(s: State, ms: nat)
    requires Inv(s)
    ensures Inv(s.(now := s.now + ms))
  {
    hide Sum;
    var s' := s.(now := s.now + ms);
    assert forall h: Handle :: Owners(s', h) == Owners(s, h);
  }

  lemma InitInv(workers: nat, clients: nat, now: int)
    requires workers > 0
    ensures Inv(Init(workers, clients, now))
  {
    var s := Init(workers, clients, now);
    forall h: Handle
      ensures Owners(s, h) == Unfinished(s.frames, h)
      ensures Sum(Ending(h), s.threads) == Unretired(s.frames, h)
    {
      SumZero(InDeque(h), s.queues);
      SumZero(Hand(h), s.threads);
      SumZero(Ending(h), s.threads);
    }
  }

  lemma {:induction false} RunKeeps(s: State, events: seq<Event>)
    requires Inv(s)
    ensures Inv(Run(s, events))
    decreases |events|
  {
    hide Inv, Apply;
    if events != [] {
      ApplyKeeps(s, events[0]);
      RunKeeps(Apply(s, events[0]), events[1..]);
    }
  }

  /** The invariant holds in every state any number of workers and clients can reach. */
  lemma EveryReachableState(workers: nat, clients: nat, now: int, events: seq<Event>)
    requires workers > 0
    ensures Inv(Run(Init(workers, clients, now), events))
  {
    hide Inv, Init, Run;
    InitInv(workers, clients, now);
    RunKeeps(Init(workers, clients, now), events);
  }

  /** Some schedule of some workers and clients leads here. */
  ghost predicate Reachable(s: State) {
    exists workers: nat, clients: nat, now: int, events: seq<Event> ::
      workers > 0 && s == Run(Init(workers, clients, now), events)
  }

  lemma ReachableInv(s: State)
    requires Reachable(s)
    ensures Inv(s)
  {
    hide Inv, Init, Run;
    var workers: nat, clients: nat, now: int, events: seq<Event> :|
      workers > 0 && s == Run(Init(workers, clients, now), events);
    EveryReachableState(workers, clients, now, events);
  }

  lemma {:induction false} RunSnoc(s: State, events: seq<Event>, e: Event)
    ensures Run(s, events + [e]) == Apply(Run(s, events), e)
    decreases |events|
  {
    hide Apply;
    if events == [] {
      assert events + [e] == [e] && [e][1..] == [];
    } else {
      assert (events + [e])[1..] == events[1..] + [e];
      RunSnoc(Apply(s, events[0]), events[1..], e);
    }
  }

  lemma InitReachable(workers: nat, clients: nat, now: int)
    requires workers > 0
    ensures Reachable(Init(workers, clients, now))
  {
    hide Init;
    assert Run(Init(workers, clients, now), []) == Init(workers, clients, now);
  }

  /** What a reachable state leads to is reachable. */
  lemma ApplyReachable(s: State, e: Event)
    requires Reachable(s)
    ensures Reachable(Apply(s, e))
  {
    hide Apply, Init, Run;
    var workers: nat, clients: nat, now: int, events: seq<Event> :|
      workers > 0 && s == Run(Init(workers, clients, now), events);
    RunSnoc(Init(workers, clients, now), events, e);
  }
}
