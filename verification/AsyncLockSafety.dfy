/** What the lock order means for any number of threads: no circle of waiting, no deadlock. */
module AsyncLockSafety {
  import opened Sums
  import opened AsyncLocks

  // ---------------------------------------------------------------- every reachable state

  /** No lock has two owners, and every thread goes on in order. */
  ghost predicate Inv(ts: seq<Thread>) {
    && (forall i, j :: 0 <= i < j < |ts| ==> ts[i].held !! ts[j].held)
    && forall i :: 0 <= i < |ts| ==> Ordered(ts[i].held, ts[i].script)
  }

  lemma AdvanceInOrder(ts: seq<Thread>, i: nat)
    requires CanStep(ts, i) && Ordered(ts[i].held, ts[i].script)
    ensures Ordered(Advance(ts, i).held, Advance(ts, i).script)
    ensures forall l :: l in Advance(ts, i).held ==> l in ts[i].held || !Held(ts, l)
  {
    var Thread(script, held) := ts[i];
    if script[0].TryAcquire? {
      var l := script[0].lock;
      assert script[1..][0] == Release(l);
      assert script[1..][1..] == script[2..];
      assert held + {l} - {l} == held;
    }
  }

  lemma StepKeeps(ts: seq<Thread>, i: nat)
    requires Inv(ts)
    ensures Inv(Step(ts, i))
  {
    hide Ordered, Advance;
    if CanStep(ts, i) {
      AdvanceInOrder(ts, i);
      var r := Step(ts, i);
      forall a, b | 0 <= a < b < |r| ensures r[a].held !! r[b].held {
        assert ts[a].held !! ts[b].held;
      }
    }
  }

  lemma {:induction false} RunKeeps(ts: seq<Thread>, schedule: seq<nat>)
    requires Inv(ts)
    ensures Inv(Run(ts, schedule))
    decreases |schedule|
  {
    hide Inv, Step;
    if schedule != [] {
      StepKeeps(ts, schedule[0]);
      RunKeeps(Step(ts, schedule[0]), schedule[1..]);
    }
  }

  /** The lists of operations without a then that locks twice. */
  predicate Harmless(work: seq<seq<Op>>) {
    forall i :: 0 <= i < |work| ==> AllSafe(work[i])
  }

  lemma StartsInOrder(work: seq<seq<Op>>)
    requires Harmless(work)
    ensures Inv(Start(work))
  {
    hide Ordered, Scripts, AllSafe;
    forall i | 0 <= i < |work| ensures Ordered({}, Scripts(work[i])) {
      ScriptsInOrder(work[i]);
    }
  }

  // ---------------------------------------------------------------- no circle, no deadlock

  /** Thread i waits for a lock that thread j holds. */
  predicate WaitsFor(ts: seq<Thread>, i: nat, j: nat) {
    && i < |ts| && j < |ts|
    && ts[i].script != [] && ts[i].script[0].Acquire?
    && ts[i].script[0].lock in ts[j].held
  }

  /** Threads that wait for each other in a circle; a circle of one waits for itself. */
  predicate Circle(ts: seq<Thread>, c: seq<nat>) {
    && c != []
    && WaitsFor(ts, c[|c| - 1], c[0])
    && forall k :: 0 <= k < |c| - 1 ==> WaitsFor(ts, c[k], c[k + 1])
  }

  /** The rank of the lock a thread is after. */
  function Wanted(ts: seq<Thread>, i: nat): (r: nat)
    ensures r <= 4
  {
    if i < |ts| && ts[i].script != [] then Rank(ts[i].script[0].lock) else 0
  }

  /** Who holds what another thread waits for waits, if at all, for something higher up. */
  lemma WaitingClimbs(ts: seq<Thread>, i: nat, j: nat, k: nat)
    requires Inv(ts) && WaitsFor(ts, i, j) && WaitsFor(ts, j, k)
    ensures Wanted(ts, i) < Wanted(ts, j)
  {
    hide Rank;
    assert Ordered(ts[j].held, ts[j].script);
  }

  lemma {:induction false} ChainClimbs(ts: seq<Thread>, c: seq<nat>, n: nat)
    requires Inv(ts) && Circle(ts, c) && n < |c|
    ensures Wanted(ts, c[0]) + n <= Wanted(ts, c[n])
    decreases n
  {
    hide Inv, Rank, Ordered, Wanted;
    if n > 0 {
      assert WaitsFor(ts, c[n - 1], c[n]);
      var next := if n == |c| - 1 then c[0] else c[n + 1];
      assert WaitsFor(ts, c[n], next);
      ChainClimbs(ts, c, n - 1);
      WaitingClimbs(ts, c[n - 1], c[n], next);
    }
  }

  lemma NoCircle(ts: seq<Thread>, c: seq<nat>)
    requires Inv(ts)
    ensures !Circle(ts, c)
  {
    hide Inv, Rank, Ordered, Wanted;
    if Circle(ts, c) {
      var last := c[|c| - 1];
      var second := if |c| == 1 then c[0] else c[1];
      assert WaitsFor(ts, c[0], second);
      ChainClimbs(ts, c, |c| - 1);
      WaitingClimbs(ts, last, c[0], second);
    }
  }

  /** Following the owners up, one comes to a thread that can go on. */
  lemma {:induction false} SomebodyCanStep(ts: seq<Thread>, i: nat) returns (k: nat)
    requires Inv(ts) && i < |ts| && ts[i].script != []
    ensures CanStep(ts, k)
    decreases 4 - Wanted(ts, i)
  {
    if CanStep(ts, i) {
      return i;
    }
    var l := ts[i].script[0].lock;
    var j: nat :| j < |ts| && l in ts[j].held;
    assert Ordered(ts[j].held, ts[j].script);
    if CanStep(ts, j) {
      return j;
    }
    var m := ts[j].script[0].lock;
    var n: nat :| n < |ts| && m in ts[n].held;
    WaitingClimbs(ts, i, j, n);
    k := SomebodyCanStep(ts, j);
  }

  function Length(t: Thread): nat { |t.script| }

  /** The lock calls that are left. */
  function Left(ts: seq<Thread>): nat { Sum(Length, ts) }

  lemma StepUses(ts: seq<Thread>, i: nat)
    requires CanStep(ts, i)
    ensures Left(Step(ts, i)) < Left(ts)
  {
    SumUpdate(Length, ts, i, Advance(ts, i));
  }

  predicate AllDone(ts: seq<Thread>) {
    forall i :: 0 <= i < |ts| ==> ts[i].script == []
  }

  /** From every reachable state all threads can get through, whatever happened before. */
  lemma {:induction false} EverybodyGetsThrough(ts: seq<Thread>) returns (schedule: seq<nat>)
    requires Inv(ts)
    ensures AllDone(Run(ts, schedule))
    decreases Left(ts)
  {
    hide Inv, Left;
    if AllDone(ts) {
      return [];
    }
    var i: nat :| i < |ts| && ts[i].script != [];
    var k := SomebodyCanStep(ts, i);
    StepKeeps(ts, k);
    StepUses(ts, k);
    var rest := EverybodyGetsThrough(Step(ts, k));
    schedule := [k] + rest;
    assert schedule[1..] == rest;
  }

  /** A run of steps that are all possible. */
  predicate Busy(ts: seq<Thread>, schedule: seq<nat>)
    decreases |schedule|
  {
    schedule == [] || (CanStep(ts, schedule[0]) && Busy(Step(ts, schedule[0]), schedule[1..]))
  }

  /** And every run gets there: it stops only when all threads are through, after so many steps at most. */
  lemma {:induction false} EveryRunGetsThrough(ts: seq<Thread>, schedule: seq<nat>)
    requires Inv(ts) && Busy(ts, schedule)
    ensures |schedule| + Left(Run(ts, schedule)) <= Left(ts)
    ensures AllDone(Run(ts, schedule)) || exists k :: CanStep(Run(ts, schedule), k)
    decreases |schedule|
  {
    hide Inv, Left, Step, CanStep;
    if schedule == [] {
      if !AllDone(ts) {
        var i: nat :| i < |ts| && ts[i].script != [];
        var k := SomebodyCanStep(ts, i);
      }
    } else {
      StepKeeps(ts, schedule[0]);
      StepUses(ts, schedule[0]);
      EveryRunGetsThrough(Step(ts, schedule[0]), schedule[1..]);
    }
  }

  // ---------------------------------------------------------------- the exact condition

  /** Nobody but thread i holds a lock. */
  predicate Alone(ts: seq<Thread>, i: nat) {
    forall j :: 0 <= j < |ts| && j != i ==> ts[j].held == {}
  }

  lemma AdvanceDoomed(ts: seq<Thread>, i: nat)
    requires CanStep(ts, i) && Doomed(ts[i].held, ts[i].script)
    ensures Doomed(Advance(ts, i).held, Advance(ts, i).script)
  {
    var Thread(script, held) := ts[i];
    if script[0].TryAcquire? {
      var l := script[0].lock;
      assert script[1..][0] == Release(l);
      assert script[1..][1..] == script[2..];
      assert held + {l} - {l} == held;
    }
  }

  /** A doomed thread stays doomed whatever the others do, and is never through. */
  lemma {:induction false} DoomedNeverDone(ts: seq<Thread>, i: nat, schedule: seq<nat>)
    requires i < |ts| && Doomed(ts[i].held, ts[i].script)
    ensures !AllDone(Run(ts, schedule))
    decreases |schedule|
  {
    hide Doomed, Advance, CanStep;
    if schedule == [] {
      DoomedHasMore(ts[i]);
    } else {
      if CanStep(ts, schedule[0]) && schedule[0] == i {
        AdvanceDoomed(ts, i);
      }
      DoomedNeverDone(Step(ts, schedule[0]), i, schedule[1..]);
    }
  }

  lemma DoomedHasMore(t: Thread)
    requires Doomed(t.held, t.script)
    ensures t.script != []
  {
  }

  /** Left alone, a doomed thread comes to wait for itself. */
  lemma {:induction false} DoomedWaitsForItself(ts: seq<Thread>, i: nat) returns (schedule: seq<nat>)
    requires i < |ts| && Doomed(ts[i].held, ts[i].script) && Alone(ts, i)
    ensures Circle(Run(ts, schedule), [i])
    decreases |ts[i].script|
  {
    hide Doomed;
    DoomedHasMore(ts[i]);
    if CanStep(ts, i) {
      AdvanceDoomed(ts, i);
      AdvanceShortens(ts, i);
      hide Advance;
      var rest := DoomedWaitsForItself(Step(ts, i), i);
      schedule := [i] + rest;
      assert schedule[1..] == rest;
    } else {
      assert WaitsFor(ts, i, i);
      schedule := [];
    }
  }

  lemma AdvanceShortens(ts: seq<Thread>, i: nat)
    requires CanStep(ts, i)
    ensures |Advance(ts, i).script| < |ts[i].script|
  {
  }

  lemma StartsDoomed(work: seq<seq<Op>>) returns (i: nat)
    requires !Harmless(work)
    ensures i < |work| && Doomed(Start(work)[i].held, Start(work)[i].script) && Alone(Start(work), i)
  {
    hide Doomed, Scripts, AllSafe;
    i :| 0 <= i < |work| && !AllSafe(work[i]);
    ScriptsDoomed(work[i]);
  }

  /**
   Any number of threads with any lists of operations: there is no interleaving in which threads
   wait for each other's locks in a circle, exactly if no thread calls async<T>::then, T not
   void, on a completed coroutine.
   */
  lemma NoReachableCircle(work: seq<seq<Op>>)
    ensures Harmless(work) <==> forall schedule, c :: !Circle(Run(Start(work), schedule), c)
  {
    hide Inv, Circle, Harmless, Run, Start;
    if Harmless(work) {
      StartsInOrder(work);
      forall schedule, c ensures !Circle(Run(Start(work), schedule), c) {
        RunKeeps(Start(work), schedule);
        NoCircle(Run(Start(work), schedule), c);
      }
    } else {
      var i := StartsDoomed(work);
      var schedule := DoomedWaitsForItself(Start(work), i);
    }
  }

  /** On the same condition all threads can get through their operations. */
  lemma AllGetThroughIff(work: seq<seq<Op>>)
    ensures Harmless(work) <==> exists schedule :: AllDone(Run(Start(work), schedule))
  {
    hide Inv, AllDone, Harmless, Run, Start;
    if Harmless(work) {
      StartsInOrder(work);
      var schedule := EverybodyGetsThrough(Start(work));
    } else {
      var i := StartsDoomed(work);
      forall schedule ensures !AllDone(Run(Start(work), schedule)) {
        DoomedNeverDone(Start(work), i, schedule);
      }
    }
  }
}
