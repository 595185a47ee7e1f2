/**
 Await chains mean what direct evaluation means: however the workers interleave, a coroutine
 ends with a value or with an exception exactly as a recursive evaluation of its body says.
 */
module AsyncOutcome {
  import opened Options
  import opened Sums
  import opened AsyncProtocol
  import opened AsyncInvariant
  import opened AsyncPreservation
  import opened AsyncSafety

  /** Whether the direct evaluation of a body ends with an exception. */
  predicate Throws(b: Body) {
    match b
    case Return => false
    case Throw => true
    case Sleep(_, next) => Throws(next)
    case Yield(next) => Throws(next)
    case Await(child, v, x) => if Throws(child) then Throws(x) else Throws(v)
    case Launch(_, next) => Throws(next)
    case Discard(_, next) => Throws(next)
  }

  /** What a frame has come to, or will come to. */
  predicate Outcome(f: Frame) {
    if f.Done() then f.threw else Throws(f.body)
  }

  /** An awaited child still means the body it was created with. */
  ghost predicate Faithful(frames: seq<Frame>) {
    forall p :: 0 <= p < |frames| ==> FaithfulAt(frames, p)
  }

  ghost predicate FaithfulAt(frames: seq<Frame>, p: Handle)
    requires p < |frames|
  {
    var f := frames[p];
    f.held.Some? && f.held.value < |frames| && f.body.Await? ==>
      Outcome(frames[f.held.value]) == Throws(f.body.child)
  }

  ghost predicate SameOutcomes(frames: seq<Frame>, frames': seq<Frame>) {
    |frames| <= |frames'| && forall h :: 0 <= h < |frames| ==> Outcome(frames'[h]) == Outcome(frames[h])
  }

  /** One frame changes without changing what it means or awaits. */
  lemma FaithfulChange(frames: seq<Frame>, h: Handle, f: Frame)
    requires Faithful(frames) && h < |frames| && Outcome(f) == Outcome(frames[h])
    requires f.held.None? || (f.held == frames[h].held && f.body == frames[h].body)
    ensures Faithful(frames[h := f]) && SameOutcomes(frames, frames[h := f])
  {
    var frames' := frames[h := f];
    forall p | 0 <= p < |frames'| ensures FaithfulAt(frames', p) {
      assert FaithfulAt(frames, p);
    }
  }

  lemma FaithfulAppend(frames: seq<Frame>, g: Frame)
    requires Faithful(frames) && g.held.None?
    requires forall p :: 0 <= p < |frames| && frames[p].held.Some? ==> frames[p].held.value < |frames|
    ensures Faithful(frames + [g]) && SameOutcomes(frames, frames + [g])
  {
    var frames' := frames + [g];
    forall p | 0 <= p < |frames'| ensures FaithfulAt(frames', p) {
      if p < |frames| { assert FaithfulAt(frames, p); }
    }
  }

  lemma {:induction false} ReapAllOutcomes(s: State, batch: seq<Handle>)
    requires forall i :: 0 <= i < |batch| ==> batch[i] < |s.frames|
    requires Faithful(s.frames)
    ensures Faithful(ReapAll(s, batch).frames) && SameOutcomes(s.frames, ReapAll(s, batch).frames)
    decreases |batch|
  {
    if batch != [] {
      var h := batch[0];
      FaithfulChange(s.frames, h, s.frames[h].(destroyed := s.frames[h].destroyed + 1));
      ReapAllOutcomes(ReapOne(s, h), batch[1..]);
    }
  }

  lemma HeldExists(s: State)
    requires Inv(s)
    ensures forall p :: 0 <= p < |s.frames| && s.frames[p].held.Some? ==>
      s.frames[p].held.value < |s.frames| && s.frames[p].body.Await? && s.frames[p].stage.Live?
  {
    hide Sum, Owners;
    forall p | 0 <= p < |s.frames| && s.frames[p].held.Some?
      ensures s.frames[p].held.value < |s.frames| && s.frames[p].body.Await? && s.frames[p].stage.Live?
    {
      assert HoldsChild(s.frames, p);
    }
  }

  lemma ExecOutcomes(s: State, t: nat, h: Handle)
    requires Inv(s) && Faithful(s.frames) && t < |s.threads| && s.threads[t] == Running(h) && h < |s.frames|
    requires s.frames[h].held.Some? ==> s.frames[h].held.value < |s.frames|
    ensures Faithful(ExecStep(s, t, h).frames) && SameOutcomes(s.frames, ExecStep(s, t, h).frames)
  {
    hide Inv, Sum;
    RunningIsLive(s, t);
    HeldExists(s);
    var s' := ExecStep(s, t, h);
    var f := s.frames[h];
    assert FaithfulAt(s.frames, h);
    if f.held.Some? {
      AwaitedIsRetired(s, t, h);
      FaithfulChange(s.frames, h, s'.frames[h]);
    } else {
      match f.body
      case Await(child, v, x) => AwaitOutcomes(s.frames, h, Fresh(child).(continuation := Some(h)));
      case Launch(child, next) =>
        FaithfulChange(s.frames, h, f.(body := next));
        FaithfulAppend(s.frames[h := f.(body := next)], Fresh(child));
      case Discard(child, next) =>
        FaithfulChange(s.frames, h, f.(body := next));
        FaithfulAppend(s.frames[h := f.(body := next)], Fresh(child).(stage := Dropped));
      case _ => FaithfulChange(s.frames, h, s'.frames[h]);
    }
  }

  lemma AwaitOutcomes(frames: seq<Frame>, h: Handle, g: Frame)
    requires Faithful(frames) && h < |frames| && frames[h].body.Await?
    requires forall p :: 0 <= p < |frames| && frames[p].held.Some? ==> frames[p].held.value < |frames|
    requires g.held.None? && !g.Done() && g.body == frames[h].body.child
    ensures var frames' := frames[h := frames[h].(held := Some(|frames|))] + [g];
            Faithful(frames') && SameOutcomes(frames, frames')
  {
    var frames' := frames[h := frames[h].(held := Some(|frames|))] + [g];
    forall p | 0 <= p < |frames'| ensures FaithfulAt(frames', p) {
      if p < |frames| { assert FaithfulAt(frames, p); }
    }
  }

  lemma ApplyOutcomes(s: State, e: Event)
    requires Inv(s) && Faithful(s.frames)
    ensures Faithful(Apply(s, e).frames) && SameOutcomes(s.frames, Apply(s, e).frames)
  {
    hide Inv, ExecStep, ReapAll;
    if Enabled(s, e) {
      HeldExists(s);
      match e
      case Submit(t, body) => FaithfulAppend(s.frames, Fresh(body));
      case Enqueue(t, q) =>
        ThreadStages(s, t);
        var c := s.threads[t].child;
        FaithfulChange(s.frames, c, s.frames[c].(stage := Live));
      case Exec(t) => ExecOutcomes(s, t, s.threads[t].h);
      case Complete(t) =>
        ThreadStages(s, t);
        var h := s.threads[t].h;
        FaithfulChange(s.frames, h, s.frames[h].(stage := Completed));
      case Retire(t) =>
        ThreadStages(s, t);
        var h := s.threads[t].h;
        FaithfulChange(s.frames, h, s.frames[h].(stage := AsyncProtocol.Stage.Retired));
      case Reap(t) => ReapAllOutcomes(s.(threads := s.threads[t := Idle]), s.threads[t].batch);
      case _ =>
    }
  }

  lemma {:induction false} RunOutcomes(s: State, events: seq<Event>)
    requires Inv(s) && Faithful(s.frames)
    ensures Faithful(Run(s, events).frames) && SameOutcomes(s.frames, Run(s, events).frames)
    decreases |events|
  {
    hide Inv, Apply;
    if events != [] {
      var s1 := Apply(s, events[0]);
      ApplyKeeps(s, events[0]);
      ApplyOutcomes(s, events[0]);
      RunOutcomes(s1, events[1..]);
      var s2 := Run(s1, events[1..]);
      forall h | 0 <= h < |s.frames| ensures Outcome(s2.frames[h]) == Outcome(s.frames[h]) {
        assert Outcome(s1.frames[h]) == Outcome(s.frames[h]);
      }
    }
  }

  lemma FaithfulReachable(s: State)
    requires Reachable(s)
    ensures Faithful(s.frames)
  {
    hide Inv, Run;
    var workers: nat, clients: nat, now: int, events: seq<Event> :|
      workers > 0 && s == Run(Init(workers, clients, now), events);
    InitInv(workers, clients, now);
    RunOutcomes(Init(workers, clients, now), events);
  }

  /** The body of the coroutine that an event creates to be run: by a client, co_await or a launch. */
  ghost function Born(s: State, e: Event): Option<Body> {
    if !Enabled(s, e) then None else
    match e
    case Submit(_, body) => Some(body)
    case Exec(t) =>
      var f := s.frames[s.threads[t].h];
      if f.held.Some? then None
      else if f.body.Await? || f.body.Launch? then Some(f.body.child)
      else None
    case _ => None
  }

  lemma CreatedIsFresh(s: State, e: Event)
    requires Born(s, e).Some?
    ensures |Apply(s, e).frames| == |s.frames| + 1
    ensures Outcome(Apply(s, e).frames[|s.frames|]) == Throws(Born(s, e).value)
  {
  }

  /** A coroutine that is done has thrown exactly if its body throws, in an invariant state. */
  lemma CreatedOutcome(s: State, e: Event, events: seq<Event>)
    requires Inv(s) && Faithful(s.frames) && Born(s, e).Some?
    ensures var s' := Run(Apply(s, e), events);
            && |s.frames| < |s'.frames|
            && (s'.frames[|s.frames|].Done() ==> (s'.frames[|s.frames|].threw <==> Throws(Born(s, e).value)))
  {
    CreatedIsFresh(s, e);
    hide Inv, Run, Apply, Born, Enabled;
    ApplyKeeps(s, e);
    ApplyOutcomes(s, e);
    RunOutcomes(Apply(s, e), events);
  }

  /**
   The outcome does not depend on the schedule: in whatever reachable state a coroutine is
   submitted, awaited or launched, and whatever happens then, once it is done it has thrown
   exactly if its body throws when it is evaluated directly.
   */
  lemma OutcomeIsEvaluation(s: State, e: Event, events: seq<Event>)
    requires Reachable(s) && Born(s, e).Some?
    ensures var s' := Run(Apply(s, e), events);
            && |s.frames| < |s'.frames|
            && (s'.frames[|s.frames|].Done() ==> (s'.frames[|s.frames|].threw <==> Throws(Born(s, e).value)))
  {
    hide Reachable, Run, Apply, Born, Enabled;
    ReachableInv(s);
    FaithfulReachable(s);
    CreatedOutcome(s, e, events);
  }
}
