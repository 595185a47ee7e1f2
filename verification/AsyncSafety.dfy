/** What the invariant means to a user of the scheduler, in every reachable state. */
module AsyncSafety {
  import opened Options
  import opened Sums
  import opened AsyncProtocol
  import opened AsyncInvariant
  import opened AsyncPreservation

  // ---------------------------------------------------------------- exclusive place

  /** The places in which a scheduled, unfinished coroutine can be. */
  datatype Place =
    | QueueSlot(q: nat, i: nat)
    | DelaySlot(i: nat)
    | BatchSlot(t: nat, i: nat)   // between delay heap and deque, in the hands of one worker
    | OnThread(t: nat)            // running, or being transferred to by a final awaiter
    | ContinuationOf(c: Handle)   // of an unfinished child

  ghost predicate Occupies(s: State, p: Place, h: Handle) {
    match p
    case QueueSlot(q, i) => q < |s.queues| && i < |s.queues[q]| && s.queues[q][i] == h
    case DelaySlot(i) => i < |s.delayed| && s.delayed[i].h == h
    case BatchSlot(t, i) =>
      t < |s.threads| && s.threads[t].Moving? && i < |s.threads[t].batch| && s.threads[t].batch[i] == h
    case OnThread(t) => t < |s.threads| && Runs(s.threads[t], h)
    case ContinuationOf(c) => c < |s.frames| && !s.frames[c].IsCompleted() && s.frames[c].continuation == Some(h)
  }

  predicate Runs(th: Thread, h: Handle) {
    match th
    case Running(k) => k == h
    case Launching(k, _) => k == h
    case Finishing(_, next) => next == Some(h)
    case _ => false
  }

  /** An occupied place is worth an owner. */
  lemma PlaceCounts(s: State, p: Place, h: Handle)
    requires Occupies(s, p, h)
    ensures p.QueueSlot? ==> Sum(InDeque(h), s.queues) >= 1
    ensures p.DelaySlot? ==> Sum(At(h), s.delayed) >= 1
    ensures p.BatchSlot? || p.OnThread? ==> Sum(Hand(h), s.threads) >= 1
    ensures p.ContinuationOf? ==> Sum(Waiting(h), s.frames) >= 1
  {
    hide Sum;
    match p
    case QueueSlot(q, i) => OneSlot(s.queues[q], i, h); SumHas(InDeque(h), s.queues, q);
    case DelaySlot(i) => SumHas(At(h), s.delayed, i);
    case BatchSlot(t, i) => OneSlot(s.threads[t].batch, i, h); SumHas(Hand(h), s.threads, t);
    case OnThread(t) => SumHas(Hand(h), s.threads, t);
    case ContinuationOf(c) => SumHas(Waiting(h), s.frames, c);
  }

  lemma SamePlace(s: State, p: Place, p': Place, h: Handle)
    requires Owners(s, h) <= 1 && Occupies(s, p, h) && Occupies(s, p', h)
    ensures p == p'
  {
    hide Sum;
    PlaceCounts(s, p, h);
    PlaceCounts(s, p', h);
    match (p, p')
    case (QueueSlot(q, i), QueueSlot(q', i')) =>
      OneSlot(s.queues[q], i, h);
      OneSlot(s.queues[q'], i', h);
      SumHas(InDeque(h), s.queues, q);
      if q != q' { SumHasTwo(InDeque(h), s.queues, q, q'); }
    case (DelaySlot(i), DelaySlot(i')) =>
      if i != i' { SumHasTwo(At(h), s.delayed, i, i'); }
    case (ContinuationOf(c), ContinuationOf(c')) =>
      if c != c' { SumHasTwo(Waiting(h), s.frames, c, c'); }
    case _ =>
      if (p.BatchSlot? || p.OnThread?) && (p'.BatchSlot? || p'.OnThread?) {
        SameThread(s, p, p', h);
      }
  }

  lemma SameThread(s: State, p: Place, p': Place, h: Handle)
    requires Owners(s, h) <= 1 && Occupies(s, p, h) && Occupies(s, p', h)
    requires (p.BatchSlot? || p.OnThread?) && (p'.BatchSlot? || p'.OnThread?)
    ensures p == p'
  {
    hide Sum;
    if p.BatchSlot? { OneSlot(s.threads[p.t].batch, p.i, h); }
    if p'.BatchSlot? { OneSlot(s.threads[p'.t].batch, p'.i, h); }
    SumHas(Hand(h), s.threads, p.t);
    if p.t != p'.t { SumHasTwo(Hand(h), s.threads, p.t, p'.t); }
  }

  /** Every scheduled, unfinished coroutine has a place. */
  lemma HasPlace(s: State, h: Handle) returns (p: Place)
    requires Inv(s) && In(s.frames, h, Live)
    ensures Occupies(s, p, h)
  {
    hide Sum;
    assert Owners(s, h) == 1;
    if Sum(InDeque(h), s.queues) > 0 {
      var q := SumWitness(InDeque(h), s.queues);
      assert h in s.queues[q];
      var i :| 0 <= i < |s.queues[q]| && s.queues[q][i] == h;
      p := QueueSlot(q, i);
    } else if Sum(At(h), s.delayed) > 0 {
      var i := SumWitness(At(h), s.delayed);
      p := DelaySlot(i);
    } else if Sum(Waiting(h), s.frames) > 0 {
      var c := SumWitness(Waiting(h), s.frames);
      p := ContinuationOf(c);
    } else {
      var t := SumWitness(Hand(h), s.threads);
      p := HandPlace(s, t, h);
    }
  }

  lemma HandPlace(s: State, t: nat, h: Handle) returns (p: Place)
    requires Threaded(s.threads, s.frames) && In(s.frames, h, Live)
    requires t < |s.threads| && Hand(h)(s.threads[t]) > 0
    ensures Occupies(s, p, h)
  {
    assert Consistent(s.frames, s.threads[t]);
    if s.threads[t].Moving? {
      assert h in s.threads[t].batch;
      var i :| 0 <= i < |s.threads[t].batch| && s.threads[t].batch[i] == h;
      p := BatchSlot(t, i);
    } else {
      p := OnThread(t);
    }
  }

  /**
   Exclusive place: a scheduled, unfinished coroutine is in exactly one place, and no
   finished one is in any. So no handle is lost, queued twice or resumed by two workers.
   */
  lemma ExclusivePlace(s: State, h: Handle)
    requires Reachable(s)
    ensures In(s.frames, h, Live) <==> exists p :: Occupies(s, p, h)
    ensures forall p, p' :: Occupies(s, p, h) && Occupies(s, p', h) ==> p == p'
  {
    ReachableInv(s);
    hide Reachable;
    hide Sum, Owners;
    if In(s.frames, h, Live) {
      var p := HasPlace(s, h);
    }
    forall p | Occupies(s, p, h) ensures In(s.frames, h, Live) { PlaceIsLive(s, p, h); }
    forall p, p' | Occupies(s, p, h) && Occupies(s, p', h) ensures p == p' {
      SamePlace(s, p, p', h);
    }
  }

  lemma PlaceIsLive(s: State, p: Place, h: Handle)
    requires Inv(s) && Occupies(s, p, h)
    ensures In(s.frames, h, Live)
  {
    hide Sum, Owners;
    match p
    case QueueSlot(q, i) => assert AllLive(s.frames, s.queues[q]);
    case DelaySlot(i) =>
    case BatchSlot(t, i) => assert Consistent(s.frames, s.threads[t]);
    case OnThread(t) => OnThreadIsLive(s, t, h);
    case ContinuationOf(c) =>
      assert KnowsParent(s.frames, c);
      assert HoldsChild(s.frames, h);
  }

  lemma OnThreadIsLive(s: State, t: nat, h: Handle)
    requires Inv(s) && t < |s.threads| && Runs(s.threads[t], h)
    ensures In(s.frames, h, Live)
  {
    hide Sum, Owners;
    assert Consistent(s.frames, s.threads[t]);
    if s.threads[t].Finishing? {
      assert KnowsParent(s.frames, s.threads[t].h);
      assert HoldsChild(s.frames, h);
    }
  }

  // ---------------------------------------------------------------- destruction

  /**
   destroy() is called at most once, and only on a coroutine whose final awaiter is over;
   until then handle_refs has the handle exactly once, afterwards not at all.
   */
  lemma DestroyedAtMostOnce(s: State, h: Handle)
    requires Reachable(s) && h < |s.frames|
    ensures s.frames[h].destroyed <= 1
    ensures s.frames[h].destroyed == 1 ==> s.frames[h].Done() && s.frames[h].stage.Retired?
    ensures h in s.refs <==> s.frames[h].Scheduled() && s.frames[h].destroyed == 0
    ensures h in s.refs ==> s.refs[h] == 1
  {
    ReachableInv(s);
    hide Reachable;
    hide Sum, Owners;
    assert RefersTo(s.frames[h], s.refs, h);
  }

  /** A destroyed frame is in no place and no final awaiter is still using it. */
  lemma NoUseAfterDestroy(s: State, h: Handle)
    requires Reachable(s) && h < |s.frames| && s.frames[h].destroyed > 0
    ensures forall p :: !Occupies(s, p, h)
    ensures forall t :: 0 <= t < |s.threads| ==> Ending(h)(s.threads[t]) == 0
  {
    ReachableInv(s);
    hide Reachable;
    hide Sum, Owners;
    assert RefersTo(s.frames[h], s.refs, h);
    forall p | Occupies(s, p, h) ensures false { PlaceIsLive(s, p, h); }
    NoEnding(s, h);
  }

  // ---------------------------------------------------------------- quiescence

  /** Nothing is queued, delayed or in any thread's hands. */
  ghost predicate Quiet(s: State) {
    && (forall q :: 0 <= q < |s.queues| ==> s.queues[q] == [])
    && s.delayed == []
    && (forall t :: 0 <= t < |s.threads| ==> s.threads[t].Idle?)
  }

  /** Await links lead from child to older parent, so every chain of parents ends. */
  lemma {:induction false} NobodyWaits(s: State, h: Handle)
    requires Inv(s) && Quiet(s) && h < |s.frames|
    ensures s.frames[h].stage.Retired? || s.frames[h].stage.Dropped?
    decreases |s.frames| - h
  {
    hide Sum;
    SumZero(Ending(h), s.threads);
    assert Sum(Ending(h), s.threads) == Unretired(s.frames, h);
    if s.frames[h].stage.Created? || s.frames[h].stage.Live? {
      assert Owners(s, h) == 1;
      SumZero(InDeque(h), s.queues);
      SumZero(At(h), s.delayed);
      SumZero(Hand(h), s.threads);
      var c := SumWitness(Waiting(h), s.frames);
      assert KnowsParent(s.frames, c);
      NobodyWaits(s, c);
    }
  }

  /**
   Quiescence means completion: when nothing is queued, delayed or running, no coroutine is
   stuck in an await; everything ever scheduled has finished.
   */
  lemma QuiescenceIsCompletion(s: State)
    requires Inv(s) && Quiet(s)
    ensures forall h :: 0 <= h < |s.frames| ==> !s.frames[h].stage.Created?
    ensures forall h :: 0 <= h < |s.frames| && s.frames[h].Scheduled() ==> s.frames[h].Done()
  {
    hide Inv, Quiet;
    forall h | 0 <= h < |s.frames|
      ensures !s.frames[h].stage.Created? && (s.frames[h].Scheduled() ==> s.frames[h].Done())
    {
      NobodyWaits(s, h);
    }
  }

  /** Once cleanup is drained too, every scheduled frame was destroyed, exactly once. */
  lemma DrainedMeansDestroyed(s: State)
    requires Inv(s) && Quiet(s) && s.cleanup == []
    ensures s.refs == map[]
    ensures forall h :: 0 <= h < |s.frames| ==>
      s.frames[h].destroyed == if s.frames[h].Scheduled() then 1 else 0
  {
    hide Sum, Owners;
    forall h | 0 <= h < |s.frames|
      ensures s.frames[h].destroyed == if s.frames[h].Scheduled() then 1 else 0
    {
      NobodyWaits(s, h);
      assert RefersTo(s.frames[h], s.refs, h);
      assert !OnTheWay(s.cleanup, s.threads, h);
    }
    forall h: Handle ensures h !in s.refs {
      assert h < |s.frames| ==> RefersTo(s.frames[h], s.refs, h);
    }
  }

  // ---------------------------------------------------------------- the fallback of await_suspend

  /**
   await_suspend on a child that has finished since await_ready looked hands the parent to
   schedule_impl instead of linking it. The parent is still in handle_refs, so nothing is queued; its thread goes
   back to the loop and the parent is in no place any more. Linking an unfinished child
   keeps the parent owned. A parent therefore survives co_await exactly if its child had
   not finished, which is why an async may have only one client.
   */
  function AwaitSuspend(s: State, t: nat, h: Handle, c: Handle): State
    requires t < |s.threads| && h < |s.frames| && c < |s.frames|
  {
    if s.frames[c].Done() then s.(threads := s.threads[t := Scheduling(h)])
    else s.(frames := s.frames[c := s.frames[c].(continuation := Some(h))],
            threads := s.threads[t := Scheduling(c)])
  }

  lemma AwaitKeepsParentIffUnfinished(s: State, t: nat, q: nat, h: Handle, c: Handle)
    requires Inv(s) && t < |s.threads| && q < |s.queues| && s.threads[t] == Running(h)
    requires h < |s.frames| && c < |s.frames| && h != c && s.frames[c].continuation.None?
    ensures (exists p :: Occupies(EnqueueStep(AwaitSuspend(s, t, h, c), t, q), p, h)) <==> !s.frames[c].Done()
  {
    hide Sum, Owners;
    var s1 := AwaitSuspend(s, t, h, c);
    var s2 := EnqueueStep(s1, t, q);
    assert Consistent(s.frames, s.threads[t]);
    assert RefersTo(s.frames[h], s.refs, h);
    Lone(s, t, h);
    if s.frames[c].Done() {
      assert s2 == s.(threads := s.threads[t := Idle]);
      forall p | Occupies(s2, p, h) ensures false { Gone(s, s2, t, p, h); }
    } else {
      assert s2.frames[c].continuation == Some(h) && !s2.frames[c].IsCompleted();
      assert Occupies(s2, ContinuationOf(c), h);
    }
  }

  lemma Gone(s: State, s2: State, t: nat, p: Place, h: Handle)
    requires Owners(s, h) <= 1 && t < |s.threads| && s.threads[t] == Running(h)
    requires s2 == s.(threads := s.threads[t := Idle])
    ensures !Occupies(s2, p, h)
  {
    hide Sum, Owners;
    if Occupies(s2, p, h) {
      assert Occupies(s, p, h);
      assert Occupies(s, OnThread(t), h);
      SamePlace(s, p, OnThread(t), h);
    }
  }

  /** A worker takes up a coroutine that a client has just scheduled on its empty deque. */
  lemma TakenUp(s: State, c: nat, w: nat, body: Body)
    requires Reachable(s) && w < |s.queues| <= c < |s.threads| && s.queues[w] == []
    requires s.threads[c].Idle? && s.threads[w].Idle?
    ensures var s' := Apply(Apply(Apply(s, Submit(c, body)), Enqueue(c, w)), PopLocal(w));
            && Reachable(s') && |s'.queues| == |s.queues|
            && s'.frames == s.frames + [Fresh(body).(stage := Live)]
            && s'.threads == s.threads[w := Running(|s.frames|)] && s'.queues == s.queues
  {
    ReachableInv(s);
    NothingReferred(s);
    hide Reachable, Inv;
    var h := |s.frames|;
    var s1 := Apply(s, Submit(c, body));
    var s2 := Apply(s1, Enqueue(c, w));
    ApplyReachable(s, Submit(c, body));
    ApplyReachable(s1, Enqueue(c, w));
    ApplyReachable(s2, PopLocal(w));
    assert s2 == EnqueueStep(s1, c, w);
    assert s1.threads[c := Idle] == s.threads;
    assert s.queues[w] + [h] == [h] && [h][1..] == [];
    assert s2.queues == s.queues[w := [h]];
    assert s.queues[w := [h]][w := []] == s.queues;
  }

  lemma NothingReferred(s: State)
    requires Inv(s)
    ensures |s.frames| !in s.refs
  {
    hide Sum, Owners;
  }

  /**
   It happens: two workers run two coroutines, c is not completed when h looks at it in
   await_ready, and reaches its end before h is in await_suspend. Then h is unfinished and in
   no place.
   */
  lemma ParentIsLost() returns (s: State, c: Handle, h: Handle)
    ensures Reachable(s) && |s.queues| == 2 && |s.threads| == 3 && c < |s.frames| && h < |s.frames|
    ensures s.threads[0] == Running(c) && s.threads[1] == Running(h) && !s.frames[c].IsCompleted()
    ensures var ended := Apply(s, Exec(0));
            && Reachable(ended) && ended.threads[1] == Running(h) && c < |ended.frames| && h < |ended.frames|
            && var after := EnqueueStep(AwaitSuspend(ended, 1, h, c), 1, 0);
               In(after.frames, h, Live) && forall p :: !Occupies(after, p, h)
  {
    hide Reachable, Inv, Occupies;
    var s0 := Init(2, 1, 0);
    InitReachable(2, 1, 0);
    TakenUp(s0, 2, 0, Return);
    var s1 := Apply(Apply(Apply(s0, Submit(2, Return)), Enqueue(2, 0)), PopLocal(0));
    hide Init;
    TakenUp(s1, 2, 1, Return);
    s := Apply(Apply(Apply(s1, Submit(2, Return)), Enqueue(2, 1)), PopLocal(1));
    c, h := 0, 1;
    LosesParent(s, c, h);
  }

  lemma LosesParent(s: State, c: Handle, h: Handle)
    requires Reachable(s) && |s.queues| == 2 && |s.threads| == 3 && c < |s.frames| && h < |s.frames| && c != h
    requires s.threads[0] == Running(c) && s.threads[1] == Running(h)
    requires s.frames[c] == Fresh(Return).(stage := Live) && In(s.frames, h, Live)
    ensures var ended := Apply(s, Exec(0));
            && Reachable(ended) && ended.threads[1] == Running(h) && c < |ended.frames| && h < |ended.frames|
            && var after := EnqueueStep(AwaitSuspend(ended, 1, h, c), 1, 0);
               In(after.frames, h, Live) && forall p :: !Occupies(after, p, h)
  {
    hide Reachable, Inv, Occupies;
    ApplyReachable(s, Exec(0));
    var ended := Apply(s, Exec(0));
    assert ended == AtEnd(s, 0, c, false);
    ReachableInv(ended);
    HasReference(ended, h);
    AwaitKeepsParentIffUnfinished(ended, 1, 0, h, c);
  }

  lemma HasReference(s: State, h: Handle)
    requires Inv(s) && In(s.frames, h, Live)
    ensures h in s.refs
  {
    hide Sum, Owners;
    assert RefersTo(s.frames[h], s.refs, h);
  }

  // ---------------------------------------------------------------- frames only move forward

  function Age(stage: Stage): nat {
    match stage
    case Created => 0
    case Live => 1
    case Final => 2
    case Completed => 3
    case Retired => 4
    case Dropped => 5
  }

  /** No frame is revived or scheduled after its async was dropped; destructions only add up. */
  ghost predicate Advances(frames: seq<Frame>, frames': seq<Frame>) {
    && |frames| <= |frames'|
    && forall h :: 0 <= h < |frames| ==>
         && Age(frames[h].stage) <= Age(frames'[h].stage)
         && (frames[h].stage.Dropped? <==> frames'[h].stage.Dropped?)
         && frames[h].destroyed <= frames'[h].destroyed
  }

  lemma {:induction false} ReapAllAdvances(s: State, batch: seq<Handle>)
    requires forall i :: 0 <= i < |batch| ==> batch[i] < |s.frames|
    ensures Advances(s.frames, ReapAll(s, batch).frames)
    decreases |batch|
  {
    if batch != [] { ReapAllAdvances(ReapOne(s, batch[0]), batch[1..]); }
  }

  lemma ThreadStages(s: State, t: nat)
    requires Inv(s) && t < |s.threads|
    ensures s.threads[t].Scheduling? || s.threads[t].Launching? ==> In(s.frames, s.threads[t].child, Created)
    ensures s.threads[t].Running? ==> In(s.frames, s.threads[t].h, Live)
    ensures s.threads[t].AtFinal? ==> In(s.frames, s.threads[t].h, Final)
    ensures s.threads[t].Finishing? ==> In(s.frames, s.threads[t].h, Completed)
  {
    hide Sum, Owners;
    assert Consistent(s.frames, s.threads[t]);
  }

  lemma ApplyAdvances(s: State, e: Event)
    requires Inv(s)
    ensures Advances(s.frames, Apply(s, e).frames)
  {
    hide Inv, ReapAll;
    if Enabled(s, e) && !e.Tick? {
      if e.t < |s.threads| { ThreadStages(s, e.t); }
      if e.Reap? { ReapAllAdvances(s.(threads := s.threads[e.t := Idle]), s.threads[e.t].batch); }
    }
  }

  lemma {:induction false} RunAdvances(s: State, events: seq<Event>)
    requires Inv(s)
    ensures Advances(s.frames, Run(s, events).frames)
    decreases |events|
  {
    hide Inv, Apply;
    if events != [] {
      var s1 := Apply(s, events[0]);
      ApplyKeeps(s, events[0]);
      ApplyAdvances(s, events[0]);
      RunAdvances(s1, events[1..]);
      var s2 := Run(s1, events[1..]);
      forall h | 0 <= h < |s.frames|
        ensures Age(s.frames[h].stage) <= Age(s2.frames[h].stage)
        ensures s.frames[h].stage.Dropped? <==> s2.frames[h].stage.Dropped?
        ensures s.frames[h].destroyed <= s2.frames[h].destroyed
      {
        assert Age(s1.frames[h].stage) <= Age(s2.frames[h].stage);
      }
    }
  }

  lemma NeverDestroyedUnlessRetired(s: State, h: Handle)
    requires Inv(s) && h < |s.frames| && !s.frames[h].stage.Retired?
    ensures s.frames[h].destroyed == 0
  {
    hide Sum, Owners;
    assert RefersTo(s.frames[h], s.refs, h);
  }

  /**
   An async destroyed before it was ever scheduled leaks its frame: the handle it pushes is
   not in handle_refs, so no schedule of any length ever destroys the frame.
   */
  lemma DiscardedFrameLeaks(s: State, h: Handle, events: seq<Event>)
    requires Inv(s) && In(s.frames, h, Dropped)
    ensures var s' := Run(s, events); In(s'.frames, h, Dropped) && s'.frames[h].destroyed == 0
  {
    hide Inv, Run;
    RunKeeps(s, events);
    RunAdvances(s, events);
    NeverDestroyedUnlessRetired(Run(s, events), h);
  }

  /** It happens: a coroutine that drops an async it never used leaves a frame that is never destroyed. */
  lemma FrameIsLeaked() returns (s: State, h: Handle)
    ensures Reachable(s) && In(s.frames, h, Dropped)
    ensures forall events :: h < |Run(s, events).frames| && Run(s, events).frames[h].destroyed == 0
  {
    hide Reachable, Inv;
    var s0 := Init(1, 1, 0);
    InitReachable(1, 1, 0);
    TakenUp(s0, 1, 0, Discard(Return, Return));
    var s1 := Apply(Apply(Apply(s0, Submit(1, Discard(Return, Return))), Enqueue(1, 0)), PopLocal(0));
    ApplyReachable(s1, Exec(0));
    s, h := Apply(s1, Exec(0)), 1;
    assert s == ExecStep(s1, 0, 0);
    ReachableInv(s);
    hide Run;
    forall events ensures h < |Run(s, events).frames| && Run(s, events).frames[h].destroyed == 0 {
      DiscardedFrameLeaks(s, h, events);
    }
  }
}
