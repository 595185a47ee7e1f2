/**
 The mutexes behind the atomic steps of the coroutine scheduler in src/async.hpp. Every
 operation is a script of lock calls; any number of threads run any lists of operations. All
 blocking acquisitions follow one order, so that no thread ever waits in a circle.
 */
module AsyncLocks {
  import opened Options

  datatype Lock =
    | State(frame: nat)
    | Queue(index: nat)
    | Refs
    | Cleanup
    | Delayed

  datatype Action = Acquire(lock: Lock) | TryAcquire(lock: Lock) | Release(lock: Lock)

  /** What a thread of the program can be doing with the scheduler's locks. */
  datatype Op =
    | Schedule(queue: nat)
    | ScheduleAfter
    | Await(child: nat, queue: nat)
    | SetResult(frame: nat)
    | GetResult(frame: nat)
    | Finish(frame: nat)
    | Discard
    | Reap(owned: nat)
    | Drain(queues: seq<nat>)
    | NextTask(own: nat, victims: seq<nat>)
    | Peek(queue: nat)
    | Then(frame: nat, completed: bool, isVoid: bool, scheduled: Option<nat>)

  /** lock_guard around a block. */
  function Guarded(l: Lock, block: seq<Action>): seq<Action> {
    [Acquire(l)] + block + [Release(l)]
  }

  function Times(block: seq<Action>, n: nat): seq<Action> {
    if n == 0 then [] else block + Times(block, n - 1)
  }

  function GuardEach(queues: seq<nat>): seq<Action> {
    if queues == [] then [] else Guarded(Queue(queues[0]), []) + GuardEach(queues[1..])
  }

  function TryEach(queues: seq<nat>): seq<Action> {
    if queues == [] then [] else [TryAcquire(Queue(queues[0])), Release(Queue(queues[0]))] + TryEach(queues[1..])
  }

  /** The lock calls of one operation, nested as in the code. */
  function Script(op: Op): seq<Action> {
    match op
    case Schedule(q) => Guarded(Queue(q), Guarded(Refs, []))
    case ScheduleAfter => Guarded(Delayed, [])
    case Await(child, q) => Guarded(State(child), Guarded(Queue(q), Guarded(Refs, [])))
    case SetResult(f) => Guarded(State(f), [])
    case GetResult(f) => Guarded(State(f), [])
    case Finish(f) => Guarded(State(f), []) + Guarded(Cleanup, [])
    case Discard => Guarded(Cleanup, [])
    // destroying a frame destroys the async parameters it owns, which are handed to cleanup in turn
    case Reap(owned) => Guarded(Cleanup, []) + Guarded(Refs, Times(Guarded(Cleanup, []), owned))
    case Drain(queues) => Guarded(Delayed, []) + GuardEach(queues)
    case NextTask(own, victims) => Guarded(Queue(own), []) + TryEach(victims)
    case Peek(q) => Guarded(Queue(q), [])
    // async<T>::then reads the result of a completed coroutine, which locks its state again;
    // async<void>::then does not. detach schedules a coroutine that is not done.
    case Then(f, completed, isVoid, q) =>
      Guarded(State(f), (if completed && !isVoid then Guarded(State(f), []) else [])
                        + if q.Some? then Guarded(Queue(q.value), Guarded(Refs, [])) else [])
  }

  function Scripts(ops: seq<Op>): seq<Action> {
    if ops == [] then [] else Script(ops[0]) + Scripts(ops[1..])
  }

  // ---------------------------------------------------------------- threads

  datatype Thread = Thread(script: seq<Action>, held: set<Lock>)

  predicate Held(ts: seq<Thread>, l: Lock) {
    exists j :: 0 <= j < |ts| && l in ts[j].held
  }

  /** A thread is stuck only in a blocking acquisition of a lock that somebody holds, itself included. */
  predicate CanStep(ts: seq<Thread>, i: nat) {
    && i < |ts| && ts[i].script != []
    && (ts[i].script[0].Acquire? ==> !Held(ts, ts[i].script[0].lock))
  }

  /** One lock call; a try_lock that fails also skips the unlock that goes with it. */
  function Advance(ts: seq<Thread>, i: nat): Thread
    requires CanStep(ts, i)
  {
    var Thread(script, held) := ts[i];
    match script[0]
    case Acquire(l) => Thread(script[1..], held + {l})
    case Release(l) => Thread(script[1..], held - {l})
    case TryAcquire(l) =>
      if !Held(ts, l) then Thread(script[1..], held + {l})
      else if |script| >= 2 then Thread(script[2..], held)
      else Thread([], held)
  }

  function Step(ts: seq<Thread>, i: nat): (r: seq<Thread>)
    ensures |r| == |ts|
  {
    if CanStep(ts, i) then ts[i := Advance(ts, i)] else ts
  }

  function Run(ts: seq<Thread>, schedule: seq<nat>): (r: seq<Thread>)
    ensures |r| == |ts|
    decreases |schedule|
  {
    if schedule == [] then ts else Run(Step(ts, schedule[0]), schedule[1..])
  }

  /** All threads at the start of their lists of operations. */
  function Start(work: seq<seq<Op>>): (r: seq<Thread>)
    ensures |r| == |work|
  {
    seq(|work|, i requires 0 <= i < |work| => Thread(Scripts(work[i]), {}))
  }

  // ---------------------------------------------------------------- the order

  function Rank(l: Lock): nat {
    match l
    case State(_) => 0
    case Queue(_) => 1
    case Refs => 2
    case Cleanup => 3
    case Delayed => 4
  }

  predicate Above(l: Lock, held: set<Lock>) {
    forall k :: k in held ==> Rank(k) < Rank(l)
  }

  /** From here on the script takes locks in order, gives back only what it has, and all of it. */
  predicate Ordered(held: set<Lock>, script: seq<Action>)
    decreases |script|
  {
    if script == [] then held == {}
    else
      match script[0]
      case Acquire(l) => Above(l, held) && Ordered(held + {l}, script[1..])
      case Release(l) => l in held && Ordered(held - {l}, script[1..])
      case TryAcquire(l) =>
        && l !in held && |script| >= 2 && script[1] == Release(l)
        && Ordered(held, script[2..])
  }

  lemma {:induction false} OrderedConcat(held: set<Lock>, a: seq<Action>, base: set<Lock>, b: seq<Action>)
    requires held !! base && Ordered(held, a) && Ordered(base, b)
    requires forall l :: Acquire(l) in a ==> Above(l, base)
    requires forall l :: TryAcquire(l) in a ==> l !in base
    ensures Ordered(held + base, a + b)
    decreases |a|
  {
    if a == [] {
      assert a + b == b && held + base == base;
    } else {
      assert (a + b)[1..] == a[1..] + b;
      match a[0]
      case Acquire(l) =>
        OrderedConcat(held + {l}, a[1..], base, b);
        assert held + base + {l} == held + {l} + base;
      case Release(l) =>
        OrderedConcat(held - {l}, a[1..], base, b);
        assert held + base - {l} == (held - {l}) + base;
      case TryAcquire(l) =>
        assert (a + b)[2..] == a[2..] + b;
        OrderedConcat(held, a[2..], base, b);
    }
  }

  /** A block takes only locks of ranks beyond r, and waits for all of them. */
  predicate Beyond(block: seq<Action>, r: int) {
    forall x :: x in block ==> !x.TryAcquire? && (x.Acquire? ==> Rank(x.lock) > r)
  }

  /** A guarded block is in order if what is inside goes further up. */
  lemma GuardedInOrder(l: Lock, block: seq<Action>, r: int)
    requires Ordered({}, block) && Beyond(block, Rank(l))
    requires r < Rank(l)
    ensures Ordered({}, Guarded(l, block))
    ensures Beyond(Guarded(l, block), r)
  {
    hide Rank;
    var rest := block + [Release(l)];
    assert Ordered({l}, [Release(l)]) by {
      assert {l} - {l} == {} && [Release(l)][1..] == [];
    }
    OrderedConcat({}, block, {l}, [Release(l)]);
    assert {} + {l} == {l};
    assert Guarded(l, block)[1..] == rest;
    assert Guarded(l, block) == [Acquire(l)] + rest;
  }

  lemma InSequence(a: seq<Action>, b: seq<Action>)
    requires Ordered({}, a) && Ordered({}, b)
    ensures Ordered({}, a + b)
  {
    hide Ordered;
    var none: set<Lock> := {};
    OrderedConcat(none, a, none, b);
    assert none + none == none;
  }

  lemma {:induction false} TimesInOrder(block: seq<Action>, n: nat, r: int)
    requires Ordered({}, block) && Beyond(block, r)
    ensures Ordered({}, Times(block, n)) && Beyond(Times(block, n), r)
    decreases n
  {
    if n > 0 {
      TimesInOrder(block, n - 1, r);
      InSequence(block, Times(block, n - 1));
    }
  }

  lemma {:induction false} EachInOrder(queues: seq<nat>)
    ensures Ordered({}, GuardEach(queues)) && Ordered({}, TryEach(queues))
    decreases |queues|
  {
    if queues != [] {
      EachInOrder(queues[1..]);
      var l := Queue(queues[0]);
      GuardedInOrder(l, [], 0);
      InSequence(Guarded(l, []), GuardEach(queues[1..]));
      assert TryEach(queues)[2..] == TryEach(queues[1..]);
    }
  }

  /** Whether an operation locks no mutex that it holds already. */
  predicate Safe(op: Op) {
    op.Then? ==> !op.completed || op.isVoid
  }

  /** Every safe operation takes its locks in order. */
  lemma SafeInOrder(op: Op)
    requires Safe(op)
    ensures Ordered({}, Script(op))
  {
    hide Ordered, Beyond, Guarded;
    NothingInOrder();
    match op
    case Schedule(q) =>
      GuardedInOrder(Refs, [], 1);
      GuardedInOrder(Queue(q), Guarded(Refs, []), 0);
    case ScheduleAfter => GuardedInOrder(Delayed, [], 0);
    case Await(child, q) =>
      GuardedInOrder(Refs, [], 1);
      GuardedInOrder(Queue(q), Guarded(Refs, []), 0);
      GuardedInOrder(State(child), Guarded(Queue(q), Guarded(Refs, [])), -1);
    case SetResult(f) => GuardedInOrder(State(f), [], -1);
    case GetResult(f) => GuardedInOrder(State(f), [], -1);
    case Finish(f) =>
      GuardedInOrder(State(f), [], -1);
      GuardedInOrder(Cleanup, [], 0);
      InSequence(Guarded(State(f), []), Guarded(Cleanup, []));
    case Discard => GuardedInOrder(Cleanup, [], 0);
    case Reap(owned) =>
      GuardedInOrder(Cleanup, [], 2);
      TimesInOrder(Guarded(Cleanup, []), owned, 2);
      GuardedInOrder(Refs, Times(Guarded(Cleanup, []), owned), 0);
      InSequence(Guarded(Cleanup, []), Guarded(Refs, Times(Guarded(Cleanup, []), owned)));
    case Drain(queues) =>
      GuardedInOrder(Delayed, [], 0);
      EachInOrder(queues);
      InSequence(Guarded(Delayed, []), GuardEach(queues));
    case NextTask(own, victims) =>
      GuardedInOrder(Queue(own), [], 0);
      EachInOrder(victims);
      InSequence(Guarded(Queue(own), []), TryEach(victims));
    case Peek(q) => GuardedInOrder(Queue(q), [], 0);
    case Then(f, _, _, q) =>
      if q.Some? {
        GuardedInOrder(Refs, [], 1);
        GuardedInOrder(Queue(q.value), Guarded(Refs, []), 0);
        var inner := Guarded(Queue(q.value), Guarded(Refs, []));
        assert [] + inner == inner;
        GuardedInOrder(State(f), inner, -1);
      } else {
        var nothing: seq<Action> := [];
        assert nothing + nothing == nothing;
        GuardedInOrder(State(f), [], -1);
      }
  }

  // ---------------------------------------------------------------- locking twice

  /** However it is scheduled, the script comes to block on a lock that its own thread holds. */
  predicate Doomed(held: set<Lock>, script: seq<Action>)
    decreases |script|
  {
    script != [] &&
    match script[0]
    case Acquire(l) => l in held || Doomed(held + {l}, script[1..])
    case Release(l) => Doomed(held - {l}, script[1..])
    case TryAcquire(l) => l !in held && |script| >= 2 && script[1] == Release(l) && Doomed(held, script[2..])
  }

  lemma {:induction false} OrderedIsNotDoomed(held: set<Lock>, script: seq<Action>)
    requires Ordered(held, script)
    ensures !Doomed(held, script)
    decreases |script|
  {
    if script != [] {
      match script[0]
      case Acquire(l) => OrderedIsNotDoomed(held + {l}, script[1..]);
      case Release(l) => OrderedIsNotDoomed(held - {l}, script[1..]);
      case TryAcquire(l) => OrderedIsNotDoomed(held, script[2..]);
    }
  }

  lemma UnsafeIsDoomed(op: Op)
    requires !Safe(op)
    ensures Doomed({}, Script(op))
  {
    var l, script := State(op.frame), Script(op);
    assert script[0] == Acquire(l) && script[1] == Acquire(l);
    assert script[1..][0] == Acquire(l);
  }

  /**
   The operations that take their locks in order are exactly the safe ones: everything but
   async<T>::then, T not void, on a completed coroutine.
   */
  lemma ScriptInOrderIff(op: Op)
    ensures Ordered({}, Script(op)) <==> Safe(op)
  {
    hide Ordered, Doomed, Script;
    if Safe(op) {
      SafeInOrder(op);
    } else {
      UnsafeIsDoomed(op);
      if Ordered({}, Script(op)) {
        OrderedIsNotDoomed({}, Script(op));
      }
    }
  }

  lemma {:induction false} DoomedFirst(held: set<Lock>, a: seq<Action>, b: seq<Action>)
    requires Doomed(held, a)
    ensures Doomed(held, a + b)
    decreases |a|
  {
    assert (a + b)[1..] == a[1..] + b;
    match a[0]
    case Acquire(l) =>
      if l !in held {
        DoomedFirst(held + {l}, a[1..], b);
      }
    case Release(l) => DoomedFirst(held - {l}, a[1..], b);
    case TryAcquire(l) =>
      assert (a + b)[2..] == a[2..] + b;
      DoomedFirst(held, a[2..], b);
  }

  lemma {:induction false} DoomedLater(held: set<Lock>, a: seq<Action>, b: seq<Action>)
    requires Ordered(held, a) && Doomed({}, b)
    ensures Doomed(held, a + b)
    decreases |a|
  {
    if a == [] {
      assert a + b == b;
    } else {
      assert (a + b)[1..] == a[1..] + b;
      match a[0]
      case Acquire(l) => DoomedLater(held + {l}, a[1..], b);
      case Release(l) => DoomedLater(held - {l}, a[1..], b);
      case TryAcquire(l) =>
        assert (a + b)[2..] == a[2..] + b;
        DoomedLater(held, a[2..], b);
    }
  }


  lemma NothingInOrder()
    ensures Ordered({}, []) && forall r :: Beyond([], r)
  {
  }

  predicate AllSafe(ops: seq<Op>) {
    forall i :: 0 <= i < |ops| ==> Safe(ops[i])
  }

  lemma {:induction false} ScriptsInOrder(ops: seq<Op>)
    requires AllSafe(ops)
    ensures Ordered({}, Scripts(ops))
    decreases |ops|
  {
    hide Ordered, Script, Safe;
    if ops == [] {
      NothingInOrder();
    } else {
      ScriptsInOrder(ops[1..]);
      SafeInOrder(ops[0]);
      InSequence(Script(ops[0]), Scripts(ops[1..]));
    }
  }

  lemma {:induction false} ScriptsDoomed(ops: seq<Op>)
    requires !AllSafe(ops)
    ensures Doomed({}, Scripts(ops))
    decreases |ops|
  {
    hide Ordered, Doomed, Script, Safe;
    if !Safe(ops[0]) {
      UnsafeIsDoomed(ops[0]);
      DoomedFirst({}, Script(ops[0]), Scripts(ops[1..]));
    } else {
      var i :| 0 <= i < |ops| && !Safe(ops[i]);
      assert ops[1..][i - 1] == ops[i];
      ScriptsDoomed(ops[1..]);
      SafeInOrder(ops[0]);
      DoomedLater({}, Script(ops[0]), Scripts(ops[1..]));
    }
  }
}
