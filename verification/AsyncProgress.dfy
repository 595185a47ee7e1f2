/** No reachable state is stuck, and every schedule does only finitely much work. */
module AsyncProgress {
  import opened Options
  import opened Sums
  import opened AsyncProtocol
  import opened AsyncInvariant
  import opened AsyncPreservation
  import opened AsyncSafety

  function Max(a: nat, b: nat): nat {
    if a < b then b else a
  }

  /** How many events a body can still cause, its children included. */
  function BodyWork(b: Body): nat {
    match b
    case Return => 5
    case Throw => 5
    case Sleep(_, next) => 4 + BodyWork(next)
    case Yield(next) => 4 + BodyWork(next)
    case Await(child, v, x) => 6 + BodyWork(child) + Max(BodyWork(v), BodyWork(x))
    case Launch(child, next) => 3 + BodyWork(child) + BodyWork(next)
    case Discard(_, next) => 3 + BodyWork(next)
  }

  function FrameWork(f: Frame): nat {
    if !f.stage.Created? && !f.stage.Live? then 0
    else if f.held.Some? && f.body.Await? then 3 + Max(BodyWork(f.body.onValue), BodyWork(f.body.onThrow))
    else BodyWork(f.body)
  }

  function ThreadWork(th: Thread): nat {
    match th
    case Moving(b) => 2 * |b|
    case Scheduling(_) => 2
    case Launching(_, _) => 2
    case AtFinal(_) => 4
    case Finishing(_, _) => 3
    case Reaping(_) => 1
    case _ => 0
  }

  function QueueWork(queue: seq<Handle>): nat { |queue| }

  function Work(s: State): nat {
    Sum(QueueWork, s.queues) + 3 * |s.delayed| + 2 * |s.cleanup|
    + Sum(FrameWork, s.frames) + Sum(ThreadWork, s.threads)
  }

  /** Everything but the passing of time and new submissions. */
  predicate Productive(e: Event) {
    !e.Tick? && !e.Submit?
  }

  // ---------------------------------------------------------------- work runs out

  lemma ExecWorks(s: State, t: nat, h: Handle)
    requires Inv(s) && t < |s.threads| && s.threads[t] == Running(h) && h < |s.frames|
    requires s.frames[h].held.Some? ==> s.frames[h].held.value < |s.frames|
    ensures Work(ExecStep(s, t, h)) < Work(s)
  {
    hide Sum, Owners, Inv;
    RunningIsLive(s, t);
    HeldIsAwaited(s, h);
    var s' := ExecStep(s, t, h);
    var f := s.frames[h];
    SumUpdate(ThreadWork, s.threads, t, Idle);
    if f.held.Some? {
      SumUpdate(FrameWork, s.frames, h, s'.frames[h]);
    } else {
      match f.body
      case Return => EndWorks(s, t, h, false);
      case Throw => EndWorks(s, t, h, true);
      case Sleep(ms, next) => DelayWorks(s, t, h, next, ms);
      case Yield(next) => DelayWorks(s, t, h, next, 0);
      case Await(child, _, _) =>
        var g := Fresh(child).(continuation := Some(h));
        CreateWorks(s, t, h, f.(held := Some(|s.frames|)), g, Scheduling(|s.frames|));
      case Launch(child, next) =>
        CreateWorks(s, t, h, f.(body := next), Fresh(child), Launching(h, |s.frames|));
      case Discard(child, next) =>
        var g := Fresh(child).(stage := Dropped);
        SumUpdate(FrameWork, s.frames, h, f.(body := next));
        SumAppend(FrameWork, s.frames[h := f.(body := next)], g);
    }
  }

  lemma HeldIsAwaited(s: State, h: Handle)
    requires Inv(s) && h < |s.frames|
    ensures s.frames[h].held.Some? ==> s.frames[h].body.Await?
  {
    hide Sum, Owners;
    assert HoldsChild(s.frames, h);
  }

  lemma EndWorks(s: State, t: nat, h: Handle, threw: bool)
    requires t < |s.threads| && s.threads[t] == Running(h) && In(s.frames, h, Live) && s.frames[h].held.None?
    requires BodyWork(s.frames[h].body) == 5
    ensures Work(AtEnd(s, t, h, threw)) < Work(s)
  {
    hide Sum;
    SumUpdate(ThreadWork, s.threads, t, AtFinal(h));
    SumUpdate(FrameWork, s.frames, h, s.frames[h].(stage := Final, threw := threw));
  }

  lemma {:induction false} InsertLength(e: Entry, es: seq<Entry>)
    ensures |Insert(e, es)| == |es| + 1
  {
    if es != [] && !Before(e, es[0]) {
      InsertLength(e, es[1..]);
    }
  }

  lemma DelayWorks(s: State, t: nat, h: Handle, next: Body, ms: int)
    requires t < |s.threads| && s.threads[t] == Running(h) && In(s.frames, h, Live) && s.frames[h].held.None?
    requires BodyWork(s.frames[h].body) == 4 + BodyWork(next)
    ensures var s' := s.(frames := s.frames[h := s.frames[h].(body := next)]);
            Work(s') < Work(s) && Work(ScheduleAfter(s', h, ms).(threads := s.threads[t := Idle])) < Work(s)
  {
    hide Sum;
    SumUpdate(ThreadWork, s.threads, t, Idle);
    SumUpdate(FrameWork, s.frames, h, s.frames[h].(body := next));
    InsertLength(Entry(s.now + ms, h), s.delayed);
  }

  lemma CreateWorks(s: State, t: nat, h: Handle, f: Frame, g: Frame, th: Thread)
    requires t < |s.threads| && s.threads[t] == Running(h) && h < |s.frames|
    requires FrameWork(f) + FrameWork(g) + ThreadWork(th) < FrameWork(s.frames[h])
    ensures Work(s.(frames := s.frames[h := f] + [g], threads := s.threads[t := th])) < Work(s)
  {
    hide Sum;
    SumUpdate(ThreadWork, s.threads, t, th);
    SumUpdate(FrameWork, s.frames, h, f);
    SumAppend(FrameWork, s.frames[h := f], g);
  }

  lemma EnqueueWorks(s: State, t: nat, q: nat)
    requires Inv(s) && AboutToSchedule(s, t, q)
    ensures Work(EnqueueStep(s, t, q)) < Work(s)
  {
    hide Sum, Owners;
    var s' := EnqueueStep(s, t, q);
    var c := s.threads[t].child;
    assert Consistent(s.frames, s.threads[t]);
    assert RefersTo(s.frames[c], s.refs, c);
    EnqueueEffect(s, t, q);
    SumUpdate(QueueWork, s.queues, q, s.queues[q] + [c]);
    SumUpdate(FrameWork, s.frames, c, s'.frames[c]);
    SumUpdate(ThreadWork, s.threads, t, s'.threads[t]);
  }

  lemma PlaceWorks(s: State, t: nat, q: nat)
    requires AboutToPlace(s, t, q)
    ensures Work(PlaceStep(s, t, q)) < Work(s)
  {
    hide Sum;
    var s' := PlaceStep(s, t, q);
    SumUpdate(QueueWork, s.queues, q, [s.threads[t].batch[0]] + s.queues[q]);
    SumUpdate(ThreadWork, s.threads, t, s'.threads[t]);
  }

  lemma ResumeWorks(s: State, t: nat, q: nat, queue: seq<Handle>, h: Handle)
    requires t < |s.threads| && s.threads[t].Idle? && h < |s.frames| && q < |s.queues| && |queue| < |s.queues[q]|
    ensures Work(ResumeStep(s.(queues := s.queues[q := queue]), t, h)) < Work(s)
  {
    hide Sum;
    var s' := ResumeStep(s.(queues := s.queues[q := queue]), t, h);
    SumUpdate(QueueWork, s.queues, q, queue);
    SumUpdate(ThreadWork, s.threads, t, s'.threads[t]);
  }

  lemma DrainWorks(s: State, t: nat)
    requires IdleWorker(s, t) && s.delayed != [] && s.delayed[0].at <= s.now
    ensures var k := DueCount(s.delayed, s.now);
            Work(s.(delayed := s.delayed[k..], threads := s.threads[t := Moving(Handles(s.delayed)[..k])])) < Work(s)
  {
    hide Sum;
    SumUpdate(ThreadWork, s.threads, t, Moving(Handles(s.delayed)[..DueCount(s.delayed, s.now)]));
  }

  lemma FinishWorks(s: State, t: nat, h: Handle)
    requires t < |s.threads| && h < |s.frames|
    ensures s.threads[t] == AtFinal(h) && In(s.frames, h, Final) ==> Work(CompleteStep(s, t, h)) < Work(s)
    ensures (forall next :: s.threads[t] == Finishing(h, next) && In(s.frames, h, Completed)
                            ==> Work(RetireStep(s, t, h, next)) < Work(s))
  {
    hide Sum;
    SumUpdate(FrameWork, s.frames, h, s.frames[h].(stage := Completed));
    SumUpdate(FrameWork, s.frames, h, s.frames[h].(stage := Retired));
    SumUpdate(ThreadWork, s.threads, t, Finishing(h, s.frames[h].continuation));
    forall next | s.threads[t] == Finishing(h, next) && In(s.frames, h, Completed)
      ensures Work(RetireStep(s, t, h, next)) < Work(s)
    {
      SumUpdate(ThreadWork, s.threads, t, if next.Some? then Running(next.value) else Idle);
    }
  }

  lemma {:induction false} ReapAllWorks(s: State, batch: seq<Handle>)
    requires forall i :: 0 <= i < |batch| ==> batch[i] < |s.frames|
    ensures Work(ReapAll(s, batch)) == Work(s)
    decreases |batch|
  {
    hide Sum;
    if batch != [] {
      var h := batch[0];
      SumUpdate(FrameWork, s.frames, h, s.frames[h].(destroyed := s.frames[h].destroyed + 1));
      ReapAllWorks(ReapOne(s, h), batch[1..]);
    }
  }

  lemma CleanupWorks(s: State, t: nat)
    requires t < |s.threads|
    ensures IdleWorker(s, t) && s.cleanup != [] ==>
      Work(s.(cleanup := [], threads := s.threads[t := Reaping(s.cleanup)])) < Work(s)
    ensures s.threads[t].Reaping? ==> Work(s.(threads := s.threads[t := Idle])) < Work(s)
  {
    hide Sum;
    SumUpdate(ThreadWork, s.threads, t, Reaping(s.cleanup));
    SumUpdate(ThreadWork, s.threads, t, Idle);
  }

  lemma FinishingIsConsistent(s: State, t: nat)
    requires Inv(s) && t < |s.threads|
    ensures s.threads[t].AtFinal? ==> In(s.frames, s.threads[t].h, Final)
    ensures s.threads[t].Finishing? ==> In(s.frames, s.threads[t].h, Completed)
  {
    hide Sum, Owners;
    assert Consistent(s.frames, s.threads[t]);
  }

  /** Every enabled event but Tick and Submit uses up work. */
  lemma EveryStepWorks(s: State, e: Event)
    requires Inv(s) && Enabled(s, e) && Productive(e)
    ensures Work(Apply(s, e)) < Work(s)
  {
    hide Inv, Work, EnqueueStep, PlaceStep, ResumeStep, ExecStep, CompleteStep, RetireStep, ReapAll;
    match e
    case Tick(_) =>
    case Submit(_, _) =>
    case Enqueue(t, q) => EnqueueWorks(s, t, q);
    case Drain(t) => DrainWorks(s, t);
    case Place(t, q) => PlaceWorks(s, t, q);
    case PopLocal(t) => ResumeWorks(s, t, t, s.queues[t][1..], s.queues[t][0]);
    case Steal(t, v) =>
      var n := |s.queues[v]| - 1;
      ResumeWorks(s, t, v, s.queues[v][..n], s.queues[v][n]);
    case Exec(t) => ExecWorks(s, t, s.threads[t].h);
    case Complete(t) => FinishingIsConsistent(s, t); FinishWorks(s, t, s.threads[t].h);
    case Retire(t) => FinishingIsConsistent(s, t); FinishWorks(s, t, s.threads[t].h);
    case Swap(t) => CleanupWorks(s, t);
    case Reap(t) =>
      CleanupWorks(s, t);
      ReapAllWorks(s.(threads := s.threads[t := Idle]), s.threads[t].batch);
  }

  /** The number of enabled steps of a schedule, not counting the clock. */
  ghost function Steps(s: State, events: seq<Event>): nat
    decreases |events|
  {
    if events == [] then 0
    else (if Productive(events[0]) && Enabled(s, events[0]) then 1 else 0)
         + Steps(Apply(s, events[0]), events[1..])
  }

  /**
   Termination in every interleaving: without new submissions, a schedule of any length
   contains at most Work(s) steps; the rest is polling and waiting for the clock.
   */
  lemma {:induction false} BoundedWork(s: State, events: seq<Event>)
    requires Inv(s) && forall i :: 0 <= i < |events| ==> !events[i].Submit?
    ensures Steps(s, events) + Work(Run(s, events)) <= Work(s)
    decreases |events|
  {
    hide Inv, Apply, Enabled, Work;
    if events != [] {
      var e := events[0];
      ApplyKeeps(s, e);
      BoundedWork(Apply(s, e), events[1..]);
      if Enabled(s, e) && Productive(e) {
        EveryStepWorks(s, e);
      } else {
        IdleStepWorks(s, e);
      }
    }
  }

  lemma IdleStepWorks(s: State, e: Event)
    requires !e.Submit? && (!Enabled(s, e) || e.Tick?)
    ensures Work(Apply(s, e)) == Work(s)
  {
  }

  // ---------------------------------------------------------------- something can always be done

  ghost predicate Settled(s: State) {
    Quiet(s) && s.cleanup == []
  }

  /**
   No reachable state is stuck: unless everything is finished and destroyed, some thread
   can take a step, now or as soon as the earliest deadline has come. In particular no
   await_resume ever blocks its worker.
   */
  lemma Progress(s: State) returns (e: Event)
    requires Inv(s) && !Settled(s)
    ensures Enabled(s, e) && !e.Submit?
    ensures e.Tick? ==> 0 < e.ms && Enabled(Apply(s, e), Drain(0))
  {
    hide Sum, Owners, Apply;
    if t :| 0 <= t < |s.threads| && !s.threads[t].Idle? {
      e := ThreadProgress(s, t);
    } else if q :| 0 <= q < |s.queues| && s.queues[q] != [] {
      assert AllLive(s.frames, s.queues[q]);
      e := PopLocal(q);
    } else if s.cleanup != [] {
      e := Swap(0);
    } else {
      assert s.delayed != [];
      if s.delayed[0].at <= s.now {
        e := Drain(0);
      } else {
        e := Tick(s.delayed[0].at - s.now);
        TickEnables(s, s.delayed[0].at - s.now);
      }
    }
  }

  lemma TickEnables(s: State, ms: nat)
    requires IdleWorker(s, 0) && s.delayed != [] && s.delayed[0].at <= s.now + ms
    ensures Enabled(Apply(s, Tick(ms)), Drain(0))
  {
  }

  /** A busy thread can go on. */
  lemma ThreadProgress(s: State, t: nat) returns (e: Event)
    requires Inv(s) && t < |s.threads| && !s.threads[t].Idle?
    ensures Enabled(s, e) && Productive(e)
  {
    hide Sum, Owners;
    var th := s.threads[t];
    assert Consistent(s.frames, th);
    match th
    case Moving(b) => assert In(s.frames, b[0], Live); e := Place(t, 0);
    case Running(h) =>
      if s.frames[h].held.Some? { AwaitedIsRetired(s, t, h); }
      e := Exec(t);
    case Scheduling(_) => e := Enqueue(t, 0);
    case Launching(_, _) => e := Enqueue(t, 0);
    case AtFinal(_) => e := Complete(t);
    case Finishing(_, _) => e := Retire(t);
    case Reaping(b) =>
      forall i | 0 <= i < |b| ensures b[i] < |s.frames| {
        assert In(s.frames, b[i], Retired) || In(s.frames, b[i], Dropped);
      }
      e := Reap(t);
  }

  /** From every reachable state the scheduler can finish everything. */
  lemma {:induction false} CanSettle(s: State) returns (events: seq<Event>)
    requires Inv(s)
    ensures Inv(Run(s, events)) && Settled(Run(s, events))
    decreases Work(s)
  {
    hide Inv, Apply, Enabled, Work, Settled;
    if Settled(s) {
      events := [];
    } else {
      var e := Progress(s);
      var s1 := Apply(s, e);
      ApplyKeeps(s, e);
      if e.Tick? {
        IdleStepWorks(s, e);
        ApplyKeeps(s1, Drain(0));
        EveryStepWorks(s1, Drain(0));
        var rest := CanSettle(Apply(s1, Drain(0)));
        events := [e, Drain(0)] + rest;
        assert events[1..] == [Drain(0)] + rest && ([Drain(0)] + rest)[1..] == rest;
        assert Run(s, events) == Run(s1, [Drain(0)] + rest);
      } else {
        EveryStepWorks(s, e);
        var rest := CanSettle(s1);
        events := [e] + rest;
        assert events[1..] == rest;
      }
    }
  }
}
