/**
 What the mutexes of src/async.hpp are for. Each operation comes, in order, through sections in
 which it holds the locks of all the fields it reads or writes together; every step of the
 coroutine protocol changes only fields of one such section; and no two threads are ever in
 sections with a common field.
 */
module AsyncSections {
  import opened Options
  import opened AsyncLocks
  import AsyncProtocol
  import AsyncInvariant
  import AsyncSafety

  /** The shared data of the scheduler; Result is what CoroutineState holds of a coroutine. */
  datatype Field = Deque(index: nat) | RefTable | CleanupQueue | DelayHeap | Result(frame: nat)

  /** The mutex that protects a field. */
  function Guard(f: Field): Lock {
    match f
    case Deque(i) => Queue(i)
    case RefTable => Refs
    case CleanupQueue => Cleanup
    case DelayHeap => Delayed
    case Result(h) => State(h)
  }

  function Guards(section: set<Field>): set<Lock> {
    set f | f in section :: Guard(f)
  }

  function EachDeque(queues: seq<nat>): seq<set<Field>> {
    if queues == [] then [] else [{Deque(queues[0])}] + EachDeque(queues[1..])
  }

  function Repeated(section: set<Field>, n: nat): seq<set<Field>> {
    if n == 0 then [] else [section] + Repeated(section, n - 1)
  }

  /** The fields that an operation reads or writes together, one set after the other. */
  function Sections(op: Op): seq<set<Field>> {
    match op
    case Schedule(q) => [{Deque(q), RefTable}]
    case ScheduleAfter => [{DelayHeap}]
    case Await(child, q) => [{Result(child), Deque(q), RefTable}]
    case SetResult(f) => [{Result(f)}]
    case GetResult(f) => [{Result(f)}]
    case Finish(f) => [{Result(f)}, {CleanupQueue}]
    case Discard => [{CleanupQueue}]
    case Reap(owned) => [{CleanupQueue}, {RefTable}] + Repeated({RefTable, CleanupQueue}, owned)
    case Drain(queues) => [{DelayHeap}] + EachDeque(queues)
    case NextTask(own, victims) => [{Deque(own)}] + EachDeque(victims)
    case Peek(q) => [{Deque(q)}]
    case Then(f, _, _, q) => [{Result(f)}] + if q.Some? then [{Result(f), Deque(q.value), RefTable}] else []
  }

  // ---------------------------------------------------------------- scripts come through their sections

  function After(held: set<Lock>, a: Action): set<Lock> {
    match a
    case Acquire(l) => held + {l}
    case TryAcquire(l) => held + {l}
    case Release(l) => held - {l}
  }

  function HeldAfter(held: set<Lock>, script: seq<Action>): set<Lock>
    decreases |script|
  {
    if script == [] then held else HeldAfter(After(held, script[0]), script[1..])
  }

  /** Going through the script, there are points, one after the other, with all locks of each section held. */
  predicate Passes(held: set<Lock>, script: seq<Action>, sections: seq<set<Field>>)
    decreases |script| + |sections|
  {
    || sections == []
    || (Guards(sections[0]) <= held && Passes(held, script, sections[1..]))
    || (script != [] && Passes(After(held, script[0]), script[1..], sections))
  }

  lemma {:induction false} PassesLater(held: set<Lock>, a: seq<Action>, b: seq<Action>, sections: seq<set<Field>>)
    requires Passes(HeldAfter(held, a), b, sections)
    ensures Passes(held, a + b, sections)
    decreases |a|
  {
    if a == [] {
      assert a + b == b;
    } else {
      assert (a + b)[1..] == a[1..] + b;
      PassesLater(After(held, a[0]), a[1..], b, sections);
    }
  }

  lemma {:induction false} PassesConcat(held: set<Lock>, a: seq<Action>, b: seq<Action>,
                                        first: seq<set<Field>>, second: seq<set<Field>>)
    requires Passes(held, a, first) && Passes(HeldAfter(held, a), b, second)
    ensures Passes(held, a + b, first + second)
    decreases |a| + |first|
  {
    if first == [] {
      assert first + second == second;
      PassesLater(held, a, b, second);
    } else if Guards(first[0]) <= held && Passes(held, a, first[1..]) {
      PassesConcat(held, a, b, first[1..], second);
      assert (first + second)[1..] == first[1..] + second;
    } else {
      assert (a + b)[1..] == a[1..] + b;
      PassesConcat(After(held, a[0]), a[1..], b, first, second);
    }
  }

  lemma {:induction false} HeldAfterConcat(held: set<Lock>, a: seq<Action>, b: seq<Action>)
    ensures HeldAfter(held, a + b) == HeldAfter(HeldAfter(held, a), b)
    decreases |a|
  {
    if a == [] {
      assert a + b == b;
    } else {
      assert (a + b)[1..] == a[1..] + b;
      HeldAfterConcat(After(held, a[0]), a[1..], b);
    }
  }

  lemma OneAction(held: set<Lock>, x: Action)
    ensures HeldAfter(held, [x]) == After(held, x)
  {
    assert [x][1..] == [];
  }

  /** A guarded block: its sections are passed with the lock held. */
  lemma GuardedPasses(held: set<Lock>, l: Lock, block: seq<Action>, sections: seq<set<Field>>)
    requires Passes(held + {l}, block, sections)
    requires l !in held && HeldAfter(held + {l}, block) == held + {l}
    ensures Passes(held, Guarded(l, block), sections)
    ensures HeldAfter(held, Guarded(l, block)) == held
  {
    OneAction(held, Acquire(l));
    OneAction(held + {l}, Release(l));
    assert held + {l} - {l} == held;
    var rest := block + [Release(l)];
    HeldAfterConcat(held + {l}, block, [Release(l)]);
    assert sections + [] == sections;
    PassesConcat(held + {l}, block, [Release(l)], sections, []);
    PassesLater(held, [Acquire(l)], rest, sections);
    HeldAfterConcat(held, [Acquire(l)], rest);
    assert Guarded(l, block) == [Acquire(l)] + rest;
  }

  lemma Nothing(held: set<Lock>, section: set<Field>)
    requires Guards(section) <= held
    ensures Passes(held, [], [section]) && HeldAfter(held, []) == held
  {
    assert [section][1..] == [];
  }

  /** A lock that is taken and given back, with one section in between. */
  lemma Simple(held: set<Lock>, l: Lock, section: set<Field>)
    requires l !in held && Guards(section) <= held + {l}
    ensures Passes(held, Guarded(l, []), [section]) && HeldAfter(held, Guarded(l, [])) == held
  {
    Nothing(held + {l}, section);
    GuardedPasses(held, l, [], [section]);
  }

  /** schedule_impl: deque and reference table together. */
  lemma SchedulePasses(held: set<Lock>, q: nat, section: set<Field>)
    requires Queue(q) !in held && Refs !in held && Guards(section) <= held + {Queue(q), Refs}
    ensures Passes(held, Guarded(Queue(q), Guarded(Refs, [])), [section])
    ensures HeldAfter(held, Guarded(Queue(q), Guarded(Refs, []))) == held
  {
    assert held + {Queue(q)} + {Refs} == held + {Queue(q), Refs};
    Simple(held + {Queue(q)}, Refs, section);
    GuardedPasses(held, Queue(q), Guarded(Refs, []), [section]);
  }

  lemma {:induction false} EachPasses(queues: seq<nat>)
    ensures Passes({}, GuardEach(queues), EachDeque(queues))
    ensures Passes({}, TryEach(queues), EachDeque(queues))
    decreases |queues|
  {
    if queues != [] {
      hide Passes, HeldAfter, Guarded;
      var l, section := Queue(queues[0]), {Deque(queues[0])};
      EachPasses(queues[1..]);
      Simple({}, l, section);
      PassesConcat({}, Guarded(l, []), GuardEach(queues[1..]), [section], EachDeque(queues[1..]));
      TryPasses(l, section);
      PassesConcat({}, [TryAcquire(l), Release(l)], TryEach(queues[1..]), [section], EachDeque(queues[1..]));
    }
  }

  lemma TryPasses(l: Lock, section: set<Field>)
    requires Guards(section) <= {l}
    ensures Passes({}, [TryAcquire(l), Release(l)], [section])
    ensures HeldAfter({}, [TryAcquire(l), Release(l)]) == {}
  {
    var script := [TryAcquire(l), Release(l)];
    assert script[1..] == [Release(l)];
    OneAction({} + {l}, Release(l));
    assert {} + {l} == {l} && {l} - {l} == {};
    assert [section][1..] == [];
    assert Passes({l}, [Release(l)], [section]);
  }

  lemma {:induction false} TimesPasses(n: nat)
    ensures Passes({Refs}, Times(Guarded(Cleanup, []), n), Repeated({RefTable, CleanupQueue}, n))
    ensures HeldAfter({Refs}, Times(Guarded(Cleanup, []), n)) == {Refs}
    decreases n
  {
    if n > 0 {
      hide Passes, HeldAfter, Guarded;
      var section := {RefTable, CleanupQueue};
      TimesPasses(n - 1);
      Simple({Refs}, Cleanup, section);
      var one, more := Guarded(Cleanup, []), Times(Guarded(Cleanup, []), n - 1);
      PassesConcat({Refs}, one, more, [section], Repeated(section, n - 1));
      HeldAfterConcat({Refs}, one, more);
    } else {
      assert HeldAfter({Refs}, []) == {Refs};
    }
  }

  lemma ReapPasses(owned: nat)
    ensures Passes({}, Script(Reap(owned)), Sections(Reap(owned)))
  {
    hide Passes, HeldAfter, Guarded;
    var block := Times(Guarded(Cleanup, []), owned);
    var inner := Repeated({RefTable, CleanupQueue}, owned);
    Simple({}, Cleanup, {CleanupQueue});
    TimesPasses(owned);
    PassFirst({Refs}, block, {RefTable}, inner);
    assert {} + {Refs} == {Refs};
    GuardedPasses({}, Refs, block, [{RefTable}] + inner);
    PassesConcat({}, Guarded(Cleanup, []), Guarded(Refs, block), [{CleanupQueue}], [{RefTable}] + inner);
    assert Sections(Reap(owned)) == [{CleanupQueue}] + ([{RefTable}] + inner);
  }

  lemma PassFirst(held: set<Lock>, script: seq<Action>, section: set<Field>, sections: seq<set<Field>>)
    requires Guards(section) <= held && Passes(held, script, sections)
    ensures Passes(held, script, [section] + sections)
  {
    assert ([section] + sections)[1..] == sections;
  }

  lemma ThenPasses(f: nat, completed: bool, isVoid: bool, q: Option<nat>)
    requires Safe(Then(f, completed, isVoid, q))
    ensures Passes({}, Script(Then(f, completed, isVoid, q)), Sections(Then(f, completed, isVoid, q)))
  {
    hide Passes, HeldAfter, Guarded;
    var none: set<Lock> := {};
    assert none + {State(f)} == {State(f)};
    if q.Some? {
      var section := {Result(f), Deque(q.value), RefTable};
      var block := Guarded(Queue(q.value), Guarded(Refs, []));
      SchedulePasses({State(f)}, q.value, section);
      PassFirst({State(f)}, block, {Result(f)}, [section]);
      GuardedPasses({}, State(f), block, [{Result(f)}] + [section]);
      assert [] + block == block;
    } else {
      Simple({}, State(f), {Result(f)});
      var nothing: seq<Action> := [];
      assert nothing + nothing == nothing;
      assert Sections(Then(f, completed, isVoid, q)) == [{Result(f)}];
    }
  }

  /**
   Every operation comes through its sections, with all their locks held at once: a then that
   locks twice never comes through at all.
   */
  lemma ScriptPasses(op: Op)
    requires Safe(op)
    ensures Passes({}, Script(op), Sections(op))
  {
    hide Passes, HeldAfter, Guarded;
    match op
    case Schedule(q) => SchedulePasses({}, q, {Deque(q), RefTable});
    case ScheduleAfter => Simple({}, Delayed, {DelayHeap});
    case Await(child, q) =>
      var none: set<Lock> := {};
      assert none + {State(child)} == {State(child)};
      SchedulePasses({State(child)}, q, {Result(child), Deque(q), RefTable});
      GuardedPasses({}, State(child), Guarded(Queue(q), Guarded(Refs, [])), Sections(op));
    case SetResult(f) => Simple({}, State(f), {Result(f)});
    case GetResult(f) => Simple({}, State(f), {Result(f)});
    case Finish(f) =>
      Simple({}, State(f), {Result(f)});
      Simple({}, Cleanup, {CleanupQueue});
      PassesConcat({}, Guarded(State(f), []), Guarded(Cleanup, []), [{Result(f)}], [{CleanupQueue}]);
      assert Sections(op) == [{Result(f)}] + [{CleanupQueue}];
    case Discard => Simple({}, Cleanup, {CleanupQueue});
    case Reap(owned) => ReapPasses(owned);
    case Drain(queues) =>
      Simple({}, Delayed, {DelayHeap});
      EachPasses(queues);
      PassesConcat({}, Guarded(Delayed, []), GuardEach(queues), [{DelayHeap}], EachDeque(queues));
    case NextTask(own, victims) =>
      Simple({}, Queue(own), {Deque(own)});
      EachPasses(victims);
      PassesConcat({}, Guarded(Queue(own), []), TryEach(victims), [{Deque(own)}], EachDeque(victims));
    case Peek(q) => Simple({}, Queue(q), {Deque(q)});
    case Then(f, completed, isVoid, q) => ThenPasses(f, completed, isVoid, q);
  }

  // ---------------------------------------------------------------- what the protocol changes

  /** completed, exception_set and continuation of a coroutine's state; a new one has none of them. */
  function ResultOf(frames: seq<AsyncProtocol.Frame>, h: nat): (bool, bool, Option<nat>) {
    if h < |frames| then (frames[h].IsCompleted(), frames[h].threw, frames[h].continuation) else (false, false, None)
  }

  ghost predicate Differs(s: AsyncProtocol.State, s': AsyncProtocol.State, f: Field) {
    match f
    case Deque(i) => i < |s.queues| && i < |s'.queues| && s.queues[i] != s'.queues[i]
    case RefTable => s.refs != s'.refs
    case CleanupQueue => s.cleanup != s'.cleanup
    case DelayHeap => s.delayed != s'.delayed
    case Result(h) => ResultOf(s.frames, h) != ResultOf(s'.frames, h)
  }

  /** The operation that a step of the protocol is part of; the clock and submissions are none. */
  ghost function Performs(s: AsyncProtocol.State, e: AsyncProtocol.Event): Option<Op>
    requires AsyncProtocol.Enabled(s, e)
  {
    match e
    case Tick(_) => None
    case Submit(_, _) => None
    case Enqueue(t, q) =>
      var c := s.threads[t].child;
      Some(if s.frames[c].continuation.Some? then Await(c, q) else Schedule(q))
    case Drain(_) => Some(Drain([]))
    case Place(_, q) => Some(Drain([q]))
    case PopLocal(t) => Some(NextTask(t, []))
    case Steal(t, v) => Some(NextTask(t, [v]))
    case Exec(t) => Runs(s.frames[s.threads[t].h], s.threads[t].h, |s.frames|)
    case Complete(t) => Some(Finish(s.threads[t].h))
    case Retire(t) => Some(Finish(s.threads[t].h))
    case Swap(_) => Some(Reap(0))
    case Reap(_) => Some(Reap(0))
  }

  /** For a step of coroutine h itself; c is the child it may create. */
  function Runs(f: AsyncProtocol.Frame, h: nat, c: nat): Option<Op> {
    if f.held.Some? then Some(Discard)
    else
      match f.body
      case Return => Some(SetResult(h))
      case Throw => Some(SetResult(h))
      case Sleep(_, _) => Some(ScheduleAfter)
      case Yield(_) => Some(ScheduleAfter)
      case Await(_, _, _) => Some(Await(c, 0))
      case Launch(_, _) => None
      case Discard(_, _) => Some(Discard)
  }

  lemma {:induction false} ReapChanges(s: AsyncProtocol.State, batch: seq<AsyncProtocol.Handle>)
    requires forall i :: 0 <= i < |batch| ==> batch[i] < |s.frames|
    ensures forall f :: Differs(s, AsyncProtocol.ReapAll(s, batch), f) ==> f == RefTable
    ensures var r := AsyncProtocol.ReapAll(s, batch); |r.queues| == |s.queues|
    decreases |batch|
  {
    if batch != [] {
      var s1 := AsyncProtocol.ReapOne(s, batch[0]);
      ReapChanges(s1, batch[1..]);
      var s2 := AsyncProtocol.ReapAll(s1, batch[1..]);
      forall f | Differs(s, s2, f) ensures f == RefTable {
        assert Differs(s1, s2, f) || Differs(s, s1, f);
      }
    }
  }

  /** All fields that differ belong to the k-th section of an operation. */
  ghost predicate Covered(s: AsyncProtocol.State, s': AsyncProtocol.State, op: Op, k: nat) {
    k < |Sections(op)| && forall f :: Differs(s, s', f) ==> f in Sections(op)[k]
  }

  lemma ExecChanges(s: AsyncProtocol.State, t: nat)
    requires AsyncInvariant.Inv(s) && AsyncProtocol.Enabled(s, AsyncProtocol.Exec(t))
    ensures var s', op := AsyncProtocol.Apply(s, AsyncProtocol.Exec(t)), Performs(s, AsyncProtocol.Exec(t));
            if op.Some? then Covered(s, s', op.value, 0) else forall f :: !Differs(s, s', f)
  {
    AsyncSafety.ThreadStages(s, t);
    var h := s.threads[t].h;
    hide AsyncInvariant.Inv, Covered, Differs, AsyncProtocol.ExecStep;
    if s.frames[h].held.Some? || s.frames[h].body.Await? || s.frames[h].body.Discard? {
      CreateChanges(s, t, h);
    } else {
      StepChanges(s, t, h);
    }
  }

  lemma CreateChanges(s: AsyncProtocol.State, t: nat, h: nat)
    requires t < |s.threads| && h < |s.frames|
    requires s.frames[h].held.Some? ==> s.frames[h].held.value < |s.frames|
    requires s.frames[h].held.Some? || s.frames[h].body.Await? || s.frames[h].body.Discard?
    ensures var op := Runs(s.frames[h], h, |s.frames|);
            op.Some? && Covered(s, AsyncProtocol.ExecStep(s, t, h), op.value, 0)
  {
  }

  lemma StepChanges(s: AsyncProtocol.State, t: nat, h: nat)
    requires t < |s.threads| && h < |s.frames| && s.frames[h].held.None? && s.frames[h].stage.Live?
    requires !s.frames[h].body.Await? && !s.frames[h].body.Discard?
    ensures var op, s' := Runs(s.frames[h], h, |s.frames|), AsyncProtocol.ExecStep(s, t, h);
            if op.Some? then Covered(s, s', op.value, 0) else forall f :: !Differs(s, s', f)
  {
    hide AsyncProtocol.Insert;
  }

  lemma QueueChanges(s: AsyncProtocol.State, e: AsyncProtocol.Event)
    requires AsyncInvariant.Inv(s) && AsyncProtocol.Enabled(s, e)
    requires e.Enqueue? || e.Place? || e.PopLocal? || e.Steal?
    ensures Performs(s, e).Some? && Safe(Performs(s, e).value)
    ensures Covered(s, AsyncProtocol.Apply(s, e), Performs(s, e).value, if e.Place? || e.Steal? then 1 else 0)
  {
    AsyncSafety.ThreadStages(s, e.t);
    hide AsyncInvariant.Inv;
    if e.Place? {
      assert EachDeque([e.q]) == [{Deque(e.q)}];
    } else if e.Steal? {
      assert EachDeque([e.victim]) == [{Deque(e.victim)}];
    }
  }

  lemma FinalChanges(s: AsyncProtocol.State, e: AsyncProtocol.Event)
    requires AsyncInvariant.Inv(s) && AsyncProtocol.Enabled(s, e)
    requires e.Complete? || e.Retire?
    ensures Performs(s, e).Some? && Safe(Performs(s, e).value)
    ensures Covered(s, AsyncProtocol.Apply(s, e), Performs(s, e).value, if e.Retire? then 1 else 0)
  {
    AsyncSafety.ThreadStages(s, e.t);
    hide AsyncInvariant.Inv;
  }

  lemma BatchChanges(s: AsyncProtocol.State, e: AsyncProtocol.Event)
    requires AsyncProtocol.Enabled(s, e)
    requires e.Drain? || e.Swap? || e.Reap?
    ensures Performs(s, e).Some? && Safe(Performs(s, e).value)
    ensures Covered(s, AsyncProtocol.Apply(s, e), Performs(s, e).value, if e.Reap? then 1 else 0)
  {
    hide AsyncProtocol.ReapAll, AsyncProtocol.DueCount;
    if e.Reap? {
      var s0 := s.(threads := s.threads[e.t := AsyncProtocol.Idle]);
      ReapChanges(s0, s.threads[e.t].batch);
      forall f | Differs(s, AsyncProtocol.Apply(s, e), f) ensures f == RefTable {
        assert Differs(s0, AsyncProtocol.Apply(s, e), f);
      }
    }
  }

  /**
   Whatever a step of the protocol changes, it changes within one section of the operation it is
   part of; a step that is part of none changes nothing that is shared.
   */
  lemma ChangesAreGuarded(s: AsyncProtocol.State, e: AsyncProtocol.Event)
    requires AsyncInvariant.Inv(s) && AsyncProtocol.Enabled(s, e)
    ensures var s', op := AsyncProtocol.Apply(s, e), Performs(s, e);
            if op.Some? then Safe(op.value) && exists k :: Covered(s, s', op.value, k)
            else forall f :: !Differs(s, s', f)
  {
    hide AsyncInvariant.Inv, AsyncProtocol.Enabled, AsyncProtocol.Apply, Covered, Differs, Performs, Safe;
    match e
    case Tick(_) => ClockChangesNothing(s, e);
    case Submit(_, _) => ClockChangesNothing(s, e);
    case Exec(t) => ExecIsSafe(s, t); ExecChanges(s, t);
    case Complete(_) => FinalChanges(s, e);
    case Retire(_) => FinalChanges(s, e);
    case Drain(_) => BatchChanges(s, e);
    case Swap(_) => BatchChanges(s, e);
    case Reap(_) => BatchChanges(s, e);
    case _ => QueueChanges(s, e);
  }

  lemma ExecIsSafe(s: AsyncProtocol.State, t: nat)
    requires AsyncProtocol.Enabled(s, AsyncProtocol.Exec(t))
    ensures var op := Performs(s, AsyncProtocol.Exec(t)); op.Some? ==> Safe(op.value)
  {
  }

  lemma ClockChangesNothing(s: AsyncProtocol.State, e: AsyncProtocol.Event)
    requires AsyncProtocol.Enabled(s, e) && (e.Tick? || e.Submit?)
    ensures Performs(s, e).None? && forall f :: !Differs(s, AsyncProtocol.Apply(s, e), f)
  {
  }

  // ---------------------------------------------------------------- no races

  ghost predicate OneOwner(ts: seq<Thread>) {
    forall i, j :: 0 <= i < j < |ts| ==> ts[i].held !! ts[j].held
  }

  lemma {:induction false} RunKeepsOwners(ts: seq<Thread>, schedule: seq<nat>)
    requires OneOwner(ts)
    ensures OneOwner(Run(ts, schedule))
    decreases |schedule|
  {
    hide OneOwner, Step;
    if schedule != [] {
      StepKeepsOwners(ts, schedule[0]);
      RunKeepsOwners(Step(ts, schedule[0]), schedule[1..]);
    }
  }

  lemma StepKeepsOwners(ts: seq<Thread>, i: nat)
    requires OneOwner(ts)
    ensures OneOwner(Step(ts, i))
  {
    if CanStep(ts, i) {
      var r := Step(ts, i);
      assert forall l :: l in Advance(ts, i).held ==> l in ts[i].held || !Held(ts, l);
      forall a, b | 0 <= a < b < |r| ensures r[a].held !! r[b].held {
        assert ts[a].held !! ts[b].held;
      }
    }
  }

  /** A thread that is in a section: it holds all its locks. */
  ghost predicate IsIn(t: Thread, section: set<Field>) {
    Guards(section) <= t.held
  }

  /**
   No data race: in every interleaving of any threads with any lists of operations, sections that
   two threads are in at the same time have no field in common.
   */
  lemma NoRace(work: seq<seq<Op>>, schedule: seq<nat>, i: nat, j: nat, mine: set<Field>, yours: set<Field>)
    requires i < |work| && j < |work| && i != j
    requires IsIn(Run(Start(work), schedule)[i], mine) && IsIn(Run(Start(work), schedule)[j], yours)
    ensures mine !! yours
  {
    var ts := Run(Start(work), schedule);
    RunKeepsOwners(Start(work), schedule);
    forall f | f in mine ensures f !in yours {
      assert Guard(f) in ts[i].held;
      assert Guard(f) !in ts[j].held;
    }
  }
}
