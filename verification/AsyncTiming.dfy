/**
 How long coroutines sleep: over every schedule a sleeper stays in the delay heap until its
 deadline, and no coroutine finishes before all sleeps on its path have passed.
 */
module AsyncTiming {
  import opened Options
  import opened Sums
  import opened AsyncProtocol
  import opened AsyncInvariant
  import opened AsyncPreservation
  import opened AsyncSafety
  import opened AsyncOutcome

  // ---------------------------------------------------------------- one sleep

  /** sleep_for puts the coroutine into the delay heap, at now plus its duration. */
  lemma SleepEnters(s: State, t: nat, h: Handle, ms: int, next: Body)
    requires t < |s.threads| && s.threads[t] == Running(h) && h < |s.frames|
    requires s.frames[h].held.None? && s.frames[h].body == Sleep(ms, next) && ms > 0
    ensures Entry(s.now + ms, h) in Apply(s, Exec(t)).delayed
    ensures multiset(Apply(s, Exec(t)).delayed) == multiset(s.delayed) + multiset{Entry(s.now + ms, h)}
  {
    InsertPermutes(Entry(s.now + ms, h), s.delayed);
    InsertMember(Entry(s.now + ms, h), s.delayed, Entry(s.now + ms, h));
    hide Insert;
    assert Apply(s, Exec(t)) == ExecStep(s, t, h);
  }

  lemma {:induction false} DueLeave(es: seq<Entry>, now: int, e: Entry)
    requires e in es && e.at > now
    ensures e in es[DueCount(es, now)..]
    decreases |es|
  {
    if es[0].at <= now {
      assert e in es[1..] by {
        assert es == [es[0]] + es[1..];
      }
      DueLeave(es[1..], now, e);
      assert es[1..][DueCount(es[1..], now)..] == es[DueCount(es, now)..];
    }
  }

  /** An entry whose time has not come stays in the heap, whatever happens. */
  lemma StaysInHeap(s: State, e: Event, entry: Entry)
    requires entry in s.delayed && Apply(s, e).now < entry.at
    ensures entry in Apply(s, e).delayed && s.now <= Apply(s, e).now
  {
    hide Insert, ReapAll;
    if Enabled(s, e) {
      match e
      case Drain(t) => DueLeave(s.delayed, s.now, entry);
      case Exec(t) => ExecKeepsEntry(s, t, s.threads[t].h, entry);
      case Reap(t) => ReapKeepsHeap(s.(threads := s.threads[t := Idle]), s.threads[t].batch);
      case _ =>
    }
  }

  lemma ExecKeepsEntry(s: State, t: nat, h: Handle, entry: Entry)
    requires t < |s.threads| && h < |s.frames| && entry in s.delayed
    requires s.frames[h].held.Some? ==> s.frames[h].held.value < |s.frames|
    ensures entry in ExecStep(s, t, h).delayed && ExecStep(s, t, h).now == s.now
  {
    hide Insert;
    var f := s.frames[h];
    if f.held.None? && f.body.Sleep? {
      InsertMember(Entry(s.now + f.body.ms, h), s.delayed, entry);
    } else if f.held.None? && f.body.Yield? {
      InsertMember(Entry(s.now + 0, h), s.delayed, entry);
    }
  }

  lemma {:induction false} ReapKeepsHeap(s: State, batch: seq<Handle>)
    requires forall i :: 0 <= i < |batch| ==> batch[i] < |s.frames|
    ensures ReapAll(s, batch).delayed == s.delayed && ReapAll(s, batch).now == s.now
    decreases |batch|
  {
    if batch != [] {
      ReapKeepsHeap(ReapOne(s, batch[0]), batch[1..]);
    }
  }

  lemma ClockGrows(s: State, e: Event)
    ensures s.now <= Apply(s, e).now
  {
    hide Insert, ReapAll;
    if Enabled(s, e) && e.Reap? {
      ReapKeepsHeap(s.(threads := s.threads[e.t := Idle]), s.threads[e.t].batch);
    }
  }

  lemma {:induction false} RunStaysInHeap(s: State, events: seq<Event>, entry: Entry)
    requires entry in s.delayed
    ensures s.now <= Run(s, events).now
    ensures Run(s, events).now < entry.at ==> entry in Run(s, events).delayed
    decreases |events|
  {
    hide Apply;
    if events != [] {
      var s1 := Apply(s, events[0]);
      ClockGrows(s, events[0]);
      RunClockGrows(s1, events[1..]);
      if Run(s, events).now < entry.at {
        StaysInHeap(s, events[0], entry);
        RunStaysInHeap(s1, events[1..], entry);
      }
    }
  }

  lemma {:induction false} RunClockGrows(s: State, events: seq<Event>)
    ensures s.now <= Run(s, events).now
    decreases |events|
  {
    hide Apply;
    if events != [] {
      ClockGrows(s, events[0]);
      RunClockGrows(Apply(s, events[0]), events[1..]);
    }
  }

  /**
   Never early: a coroutine that executes sleep_for(ms) is in the delay heap with the deadline
   now + ms, and over every schedule it is there, and nowhere else, as long as the clock has not
   reached that.
   */
  lemma NeverEarly(s: State, t: nat, h: Handle, ms: int, next: Body, events: seq<Event>)
    requires Reachable(s) && t < |s.threads| && s.threads[t] == Running(h) && h < |s.frames|
    requires s.frames[h].held.None? && s.frames[h].body == Sleep(ms, next) && ms > 0
    ensures var s' := Run(Apply(s, Exec(t)), events);
            s'.now < s.now + ms ==>
              && Entry(s.now + ms, h) in s'.delayed
              && forall p :: Occupies(s', p, h) ==> p.DelaySlot? && s'.delayed[p.i] == Entry(s.now + ms, h)
  {
    hide Reachable, Run, Apply;
    SleepEnters(s, t, h, ms, next);
    ApplyReachable(s, Exec(t));
    RunReachable(Apply(s, Exec(t)), events);
    var s' := Run(Apply(s, Exec(t)), events);
    var entry := Entry(s.now + ms, h);
    RunStaysInHeap(Apply(s, Exec(t)), events, entry);
    if s'.now < entry.at {
      var i :| 0 <= i < |s'.delayed| && s'.delayed[i] == entry;
      ExclusivePlace(s', h);
      assert Occupies(s', DelaySlot(i), h);
    }
  }

  lemma {:induction false} RunReachable(s: State, events: seq<Event>)
    requires Reachable(s)
    ensures Reachable(Run(s, events))
    decreases |events|
  {
    hide Reachable, Apply;
    if events != [] {
      ApplyReachable(s, events[0]);
      RunReachable(Apply(s, events[0]), events[1..]);
    }
  }

  // ---------------------------------------------------------------- all sleeps of a coroutine

  function Duration(ms: int): nat {
    if ms < 0 then 0 else ms
  }

  /** The sleeps on a body's path, those of the children it awaits included. */
  function Slept(b: Body): nat {
    match b
    case Return => 0
    case Throw => 0
    case Sleep(ms, next) => Duration(ms) + Slept(next)
    case Yield(next) => Slept(next)
    case Await(child, v, x) => Slept(child) + if Throws(child) then Slept(x) else Slept(v)
    case Launch(_, next) => Slept(next)
    case Discard(_, next) => Slept(next)
  }

  /** When h can run at the earliest: at once, or when its first entry in the heap is due. */
  function WakesAt(es: seq<Entry>, h: Handle, now: int): int {
    if es == [] then now
    else if es[0].h == h then (if es[0].at > now then es[0].at else now)
    else WakesAt(es[1..], h, now)
  }

  /** What h still has to wait for once the child it awaits is done. */
  function Rest(frames: seq<Frame>, h: Handle): Body
    requires h < |frames| && Awaits(frames, h)
  {
    if Outcome(frames[frames[h].held.value]) then frames[h].body.onThrow else frames[h].body.onValue
  }

  predicate Awaits(frames: seq<Frame>, h: Handle)
    requires h < |frames|
  {
    var f := frames[h];
    !f.Done() && f.held.Some? && f.body.Await? && h < f.held.value < |frames|
  }

  /** A time before which h cannot be done. */
  function DoneAt(s: State, h: Handle): int
    requires h < |s.frames|
    decreases |s.frames| - h
  {
    var f := s.frames[h];
    if f.Done() then s.now
    else if Awaits(s.frames, h) then DoneAt(s, f.held.value) + Slept(Rest(s.frames, h))
    else WakesAt(s.delayed, h, s.now) + Slept(f.body)
  }

  lemma {:induction false} WakesLater(es: seq<Entry>, h: Handle, now: int, now': int)
    requires now <= now'
    ensures now <= WakesAt(es, h, now) <= WakesAt(es, h, now')
    decreases |es|
  {
    if es != [] {
      WakesLater(es[1..], h, now, now');
    }
  }

  lemma {:induction false} WakesAfterDrain(es: seq<Entry>, h: Handle, now: int)
    ensures WakesAt(es, h, now) <= WakesAt(es[DueCount(es, now)..], h, now)
    decreases |es|
  {
    if es != [] && es[0].at <= now {
      WakesAfterDrain(es[1..], h, now);
      assert es[1..][DueCount(es[1..], now)..] == es[DueCount(es, now)..];
      WakesLater(es[DueCount(es, now)..], h, now, now);
    }
  }

  lemma {:induction false} WakesAfterInsert(e: Entry, es: seq<Entry>, h: Handle, now: int)
    ensures h != e.h ==> WakesAt(Insert(e, es), h, now) == WakesAt(es, h, now)
    ensures (forall i :: 0 <= i < |es| ==> es[i].h != e.h) ==>
      WakesAt(Insert(e, es), e.h, now) == if e.at > now then e.at else now
    decreases |es|
  {
    if es == [] || Before(e, es[0]) {
      assert ([e] + es)[1..] == es;
    } else {
      WakesAfterInsert(e, es[1..], h, now);
      var r := [es[0]] + Insert(e, es[1..]);
      assert r[1..] == Insert(e, es[1..]);
    }
  }

  lemma {:induction false} WakesNow(es: seq<Entry>, h: Handle, now: int)
    requires forall i :: 0 <= i < |es| ==> es[i].h != h
    ensures WakesAt(es, h, now) == now
    decreases |es|
  {
    if es != [] {
      WakesNow(es[1..], h, now);
    }
  }

  /** Only frame x changes in what its end depends on. */
  ghost predicate OnlyDiffers(s: State, s': State, x: Handle) {
    && |s.frames| <= |s'.frames| && s.now <= s'.now
    && forall h :: 0 <= h < |s.frames| && h != x ==> SameCourse(s, s', h)
  }

  ghost predicate SameCourse(s: State, s': State, h: Handle)
    requires h < |s.frames| <= |s'.frames|
  {
    && s'.frames[h].Done() == s.frames[h].Done()
    && s'.frames[h].body == s.frames[h].body && s'.frames[h].held == s.frames[h].held
    && WakesAt(s.delayed, h, s.now) <= WakesAt(s'.delayed, h, s'.now)
  }

  lemma {:induction false} OthersLater(s: State, s': State, x: Handle, h: Handle)
    requires OnlyDiffers(s, s', x) && SameOutcomes(s.frames, s'.frames) && h < |s.frames|
    requires x < |s.frames| ==> DoneAt(s, x) <= DoneAt(s', x)
    requires forall p :: 0 <= p < |s.frames| && s.frames[p].held.Some? ==> s.frames[p].held.value < |s.frames|
    ensures DoneAt(s, h) <= DoneAt(s', h)
    decreases |s.frames| - h
  {
    hide Slept, WakesAt, Outcome;
    if h != x {
      assert SameCourse(s, s', h);
      if Awaits(s.frames, h) {
        var c := s.frames[h].held.value;
        OthersLater(s, s', x, c);
        assert Outcome(s'.frames[c]) == Outcome(s.frames[c]);
      }
    }
  }

  /** The step of a running coroutine pays for itself. */
  lemma ExecTime(s: State, t: nat, h: Handle)
    requires Inv(s) && Faithful(s.frames) && t < |s.threads| && s.threads[t] == Running(h) && h < |s.frames|
    requires s.frames[h].held.Some? ==> s.frames[h].held.value < |s.frames|
    ensures var s' := ExecStep(s, t, h);
            OnlyDiffers(s, s', h) && DoneAt(s, h) <= DoneAt(s', h)
  {
    RunningIsLive(s, t);
    NotInHeap(s, t, h);
    HeldExists(s);
    AwaitedDone(s, t, h);
    hide Inv, Insert, Faithful;
    var f := s.frames[h];
    WakesNow(s.delayed, h, s.now);
    if f.held.Some? {
      ResumeTime(s, h);
    } else {
      match f.body
      case Sleep(ms, next) => DelayTime(s, t, h, next, if ms > 0 then ms else 0, ms > 0);
      case Yield(next) => DelayTime(s, t, h, next, 0, true);
      case Await(child, _, _) => AwaitTime(s, t, h);
      case _ => LeafTime(s, t, h);
    }
  }

  lemma NotInHeap(s: State, t: nat, h: Handle)
    requires Inv(s) && t < |s.threads| && s.threads[t] == Running(h) && h < |s.frames|
    ensures forall i :: 0 <= i < |s.delayed| ==> s.delayed[i].h != h
    ensures s.frames[h].held.Some? ==> h < s.frames[h].held.value
  {
    hide Sum;
    assert Consistent(s.frames, s.threads[t]);
    assert HoldsChild(s.frames, h);
    Lone(s, t, h);
  }

  lemma AwaitedDone(s: State, t: nat, h: Handle)
    requires Inv(s) && t < |s.threads| && s.threads[t] == Running(h) && h < |s.frames|
    ensures s.frames[h].held.Some? ==>
      s.frames[h].held.value < |s.frames| && s.frames[s.frames[h].held.value].Done()
  {
    hide Inv;
    if s.frames[h].held.Some? {
      AwaitedIsRetired(s, t, h);
    }
  }

  /** await_resume: the child is done, what is left is the rest. */
  lemma ResumeTime(s: State, h: Handle)
    requires h < |s.frames| && s.frames[h].stage.Live? && s.frames[h].held.Some? && s.frames[h].body.Await?
    requires h < s.frames[h].held.value < |s.frames| && s.frames[s.frames[h].held.value].Done()
    requires WakesAt(s.delayed, h, s.now) == s.now
    ensures var s' := AwaitResume(s, h, s.frames[h].held.value);
            OnlyDiffers(s, s', h) && DoneAt(s, h) <= DoneAt(s', h)
  {
    hide WakesAt, Slept;
    var c := s.frames[h].held.value;
    assert DoneAt(s, c) == s.now;
  }

  /** Sleeping and yielding: what the coroutine has slept already has become its deadline. */
  lemma DelayTime(s: State, t: nat, h: Handle, next: Body, ms: nat, suspends: bool)
    requires t < |s.threads| && h < |s.frames| && s.frames[h].stage.Live? && s.frames[h].held.None?
    requires forall i :: 0 <= i < |s.delayed| ==> s.delayed[i].h != h
    requires WakesAt(s.delayed, h, s.now) == s.now
    requires Slept(s.frames[h].body) == ms + Slept(next) && (!suspends ==> ms == 0)
    ensures var s0 := s.(frames := s.frames[h := s.frames[h].(body := next)]);
            var s' := if suspends then ScheduleAfter(s0, h, ms).(threads := s.threads[t := Idle]) else s0;
            OnlyDiffers(s, s', h) && DoneAt(s, h) <= DoneAt(s', h)
  {
    hide WakesAt, Slept, Insert;
    var e := Entry(s.now + ms, h);
    forall k ensures k != h ==> WakesAt(Insert(e, s.delayed), k, s.now) == WakesAt(s.delayed, k, s.now) {
      WakesAfterInsert(e, s.delayed, k, s.now);
    }
    WakesAfterInsert(e, s.delayed, h, s.now);
  }

  /** co_await: the time of the child and the rest. */
  lemma AwaitTime(s: State, t: nat, h: Handle)
    requires t < |s.threads| && h < |s.frames| && s.frames[h].stage.Live? && s.frames[h].held.None?
    requires s.frames[h].body.Await? && WakesAt(s.delayed, h, s.now) == s.now
    ensures var s' := ExecStep(s, t, h);
            OnlyDiffers(s, s', h) && DoneAt(s, h) <= DoneAt(s', h)
  {
    var s' := ExecStep(s, t, h);
    var c := |s.frames|;
    WakesLater(s.delayed, c, s.now, s.now);
    hide WakesAt;
    assert s'.frames[c] == Fresh(s.frames[h].body.child).(continuation := Some(h));
    assert DoneAt(s', c) == WakesAt(s.delayed, c, s.now) + Slept(s.frames[h].body.child);
    assert Awaits(s'.frames, h);
  }

  lemma LeafTime(s: State, t: nat, h: Handle)
    requires t < |s.threads| && h < |s.frames| && s.frames[h].stage.Live? && s.frames[h].held.None?
    requires var b := s.frames[h].body; b.Return? || b.Throw? || b.Launch? || b.Discard?
    requires WakesAt(s.delayed, h, s.now) == s.now
    ensures var s' := ExecStep(s, t, h);
            OnlyDiffers(s, s', h) && DoneAt(s, h) <= DoneAt(s', h)
  {
    hide WakesAt;
  }

  lemma {:induction false} ReapSame(s: State, batch: seq<Handle>, h: Handle)
    requires (forall i :: 0 <= i < |batch| ==> batch[i] < |s.frames|) && h < |s.frames|
    ensures var f, g := s.frames[h], ReapAll(s, batch).frames[h];
            g.Done() == f.Done() && g.body == f.body && g.held == f.held
    decreases |batch|
  {
    if batch != [] {
      var s1 := ReapOne(s, batch[0]);
      ReapSame(s1, batch[1..], h);
    }
  }

  lemma ReapTime(s: State, batch: seq<Handle>)
    requires forall i :: 0 <= i < |batch| ==> batch[i] < |s.frames|
    ensures var s' := ReapAll(s, batch); OnlyDiffers(s, s', |s.frames|)
  {
    hide WakesAt, ReapAll;
    ReapKeepsHeap(s, batch);
    forall h | 0 <= h < |s.frames| ensures SameCourse(s, ReapAll(s, batch), h) {
      ReapSame(s, batch, h);
    }
  }

  /** No event of any thread brings the end of any coroutine forward. */
  lemma ApplyTime(s: State, e: Event, h: Handle)
    requires Inv(s) && Faithful(s.frames) && h < |s.frames|
    ensures h < |Apply(s, e).frames| && DoneAt(s, h) <= DoneAt(Apply(s, e), h)
  {
    hide Inv, Faithful, DoneAt, SameOutcomes;
    ApplyOutcomes(s, e);
    HeldExists(s);
    var s' := Apply(s, e);
    var x := Actor(s, e);
    ApplyDiffers(s, e);
    GrowsIn(s, s');
    OthersLater(s, s', x, h);
  }

  lemma GrowsIn(s: State, s': State)
    requires SameOutcomes(s.frames, s'.frames)
    ensures |s.frames| <= |s'.frames|
  {
  }

  /** The coroutine that an event moves on in its body, if any. */
  ghost function Actor(s: State, e: Event): Handle {
    if Enabled(s, e) && e.Exec? then s.threads[e.t].h else |s.frames|
  }

  lemma ApplyDiffers(s: State, e: Event)
    requires Inv(s) && Faithful(s.frames)
    ensures var s', x := Apply(s, e), Actor(s, e);
            OnlyDiffers(s, s', x) && (x < |s.frames| ==> DoneAt(s, x) <= DoneAt(s', x))
  {
    hide Inv, Faithful, DoneAt, OnlyDiffers;
    if !Enabled(s, e) {
      NoneDiffers(s, s);
    } else {
      hide ExecStep, ReapAll, EnqueueStep, PlaceStep, ResumeStep, CompleteStep, RetireStep;
      match e
      case Tick(ms) => TickTime(s, ms);
      case Drain(t) => DrainTime(s, t);
      case Exec(t) => ExecTime(s, t, s.threads[t].h);
      case Reap(t) => ReapEventTime(s, t);
      case _ =>
        QuietEvent(s, e);
        NoneDiffers(s, Apply(s, e));
    }
  }

  lemma NoneDiffers(s: State, s': State)
    requires |s.frames| <= |s'.frames| && s'.now == s.now && s'.delayed == s.delayed
    requires forall h :: 0 <= h < |s.frames| ==>
      && s'.frames[h].Done() == s.frames[h].Done()
      && s'.frames[h].body == s.frames[h].body && s'.frames[h].held == s.frames[h].held
    ensures OnlyDiffers(s, s', |s.frames|)
  {
    hide WakesAt;
  }

  /** Most events touch neither the heap nor the clock nor what a coroutine still has to do. */
  lemma QuietEvent(s: State, e: Event)
    requires Inv(s) && Enabled(s, e) && !e.Tick? && !e.Drain? && !e.Exec? && !e.Reap?
    ensures var s' := Apply(s, e);
            && |s.frames| <= |s'.frames| && s'.now == s.now && s'.delayed == s.delayed
            && forall h :: 0 <= h < |s.frames| ==>
                 && s'.frames[h].Done() == s.frames[h].Done()
                 && s'.frames[h].body == s.frames[h].body && s'.frames[h].held == s.frames[h].held
  {
    hide Inv;
    ThreadStages(s, e.t);
  }

  lemma TickTime(s: State, ms: nat)
    ensures OnlyDiffers(s, s.(now := s.now + ms), |s.frames|)
  {
    hide WakesAt;
    forall h ensures WakesAt(s.delayed, h, s.now) <= WakesAt(s.delayed, h, s.now + ms) {
      WakesLater(s.delayed, h, s.now, s.now + ms);
    }
  }

  lemma DrainTime(s: State, t: nat)
    requires Enabled(s, Drain(t))
    ensures OnlyDiffers(s, Apply(s, Drain(t)), |s.frames|)
  {
    hide WakesAt, DueCount;
    forall h ensures WakesAt(s.delayed, h, s.now) <= WakesAt(s.delayed[DueCount(s.delayed, s.now)..], h, s.now) {
      WakesAfterDrain(s.delayed, h, s.now);
    }
  }

  lemma ReapEventTime(s: State, t: nat)
    requires Enabled(s, Reap(t))
    ensures OnlyDiffers(s, Apply(s, Reap(t)), |s.frames|)
  {
    hide WakesAt, ReapAll;
    var s0 := s.(threads := s.threads[t := Idle]);
    ReapTime(s0, s.threads[t].batch);
    forall h | 0 <= h < |s.frames| ensures SameCourse(s, Apply(s, Reap(t)), h) {
      assert SameCourse(s0, Apply(s, Reap(t)), h);
    }
  }

  lemma {:induction false} RunTime(s: State, events: seq<Event>, h: Handle)
    requires Inv(s) && Faithful(s.frames) && h < |s.frames|
    ensures h < |Run(s, events).frames| && DoneAt(s, h) <= DoneAt(Run(s, events), h)
    decreases |events|
  {
    hide Inv, Faithful, Apply, DoneAt;
    if events != [] {
      var s1 := Apply(s, events[0]);
      ApplyKeeps(s, events[0]);
      ApplyOutcomes(s, events[0]);
      ApplyTime(s, events[0], h);
      RunTime(s1, events[1..], h);
    }
  }

  lemma FreshTime(s: State, e: Event)
    requires Born(s, e).Some?
    ensures |s.frames| < |Apply(s, e).frames|
    ensures s.now + Slept(Born(s, e).value) <= DoneAt(Apply(s, e), |s.frames|)
  {
    var s' := Apply(s, e);
    WakesLater(s'.delayed, |s.frames|, s'.now, s'.now);
    hide WakesAt;
  }

  /** In an invariant state: what is created now is not done before all sleeps on its path. */
  lemma CreatedTime(s: State, e: Event, events: seq<Event>)
    requires Inv(s) && Faithful(s.frames) && Born(s, e).Some?
    ensures var s' := Run(Apply(s, e), events);
            && |s.frames| < |s'.frames|
            && (s'.frames[|s.frames|].Done() ==> s.now + Slept(Born(s, e).value) <= s'.now)
  {
    hide Inv, Faithful, Apply, Run, Born, Slept;
    FreshTime(s, e);
    ApplyKeeps(s, e);
    ApplyOutcomes(s, e);
    RunTime(Apply(s, e), events, |s.frames|);
  }

  /**
   Sleeps add up: in whatever reachable state a coroutine is submitted, awaited or launched, and
   whatever happens then, it is not done before all sleeps on its path, those of the children it
   awaits included, have passed.
   */
  lemma NotDoneEarly(s: State, e: Event, events: seq<Event>)
    requires Reachable(s) && Born(s, e).Some?
    ensures var s' := Run(Apply(s, e), events);
            && |s.frames| < |s'.frames|
            && (s'.frames[|s.frames|].Done() ==> s.now + Slept(Born(s, e).value) <= s'.now)
  {
    hide Reachable, Inv, Faithful, Apply, Run, Born, Slept;
    ReachableInv(s);
    FaithfulReachable(s);
    CreatedTime(s, e, events);
  }

  // ---------------------------------------------------------------- what awaiting and sleeping mean

  /** A body under n awaits, each of which returns if it gets a value and rethrows an exception. */
  function Through(b: Body, n: nat): Body {
    if n == 0 then b else Await(Through(b, n - 1), Return, Throw)
  }

  /** Awaiting hands on values and exceptions alike, and takes no time. */
  lemma {:induction false} ThroughKeeps(b: Body, n: nat)
    ensures Throws(Through(b, n)) == Throws(b) && Slept(Through(b, n)) == Slept(b)
  {
    if n > 0 {
      ThroughKeeps(b, n - 1);
    }
  }

  /** A body that catches what n awaits hand on, and then goes on with one of two bodies. */
  lemma CaughtThrough(b: Body, n: nat, onValue: Body, onThrow: Body)
    ensures var caught := Await(Through(b, n), onValue, onThrow);
            && Throws(caught) == Throws(if Throws(b) then onThrow else onValue)
            && Slept(caught) == Slept(b) + Slept(if Throws(b) then onThrow else onValue)
  {
    ThroughKeeps(b, n);
  }

  /** n sleeps of d, and then another body. */
  function Sleeps(n: nat, d: nat, last: Body): Body {
    if n == 0 then last else Sleep(d, Sleeps(n - 1, d, last))
  }

  lemma {:induction false} SleepsAddUp(n: nat, d: nat, last: Body)
    ensures Slept(Sleeps(n, d, last)) == n * d + Slept(last) && Throws(Sleeps(n, d, last)) == Throws(last)
  {
    if n > 0 {
      SleepsAddUp(n - 1, d, last);
      OneMore(n - 1, d);
    } else {
      OneMore(0, d);
    }
  }

  lemma OneMore(n: nat, d: nat)
    ensures (n + 1) * d == n * d + d && 0 * d == 0
  {
  }
}
