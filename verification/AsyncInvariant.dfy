/**
 What every schedule keeps: each unfinished coroutine has exactly one owner, each finished
 one is pushed for cleanup by exactly one final awaiter and destroyed exactly once.
 */
module AsyncInvariant {
  import opened Options
  import opened Sums
  import opened AsyncProtocol

  // ---------------------------------------------------------------- places

  /** How often h occurs in a deque. */
  function InDeque(h: Handle): seq<Handle> -> nat {
    (queue: seq<Handle>) => multiset(queue)[h]
  }

  function Is(h: Handle, k: Handle): nat {
    if h == k then 1 else 0
  }

  function At(h: Handle): Entry -> nat {
    (e: Entry) => Is(h, e.h)
  }

  /** How often a thread is responsible for the unfinished coroutine h. */
  function Hand(h: Handle): Thread -> nat {
    (th: Thread) =>
      match th
      case Moving(batch) => multiset(batch)[h]
      case Running(k) => Is(h, k)
      case Scheduling(c) => Is(h, c)
      case Launching(k, c) => Is(h, k) + Is(h, c)
      case Finishing(_, next) => if next.Some? then Is(h, next.value) else 0
      case _ => 0
  }

  /** Whether h is the parent in the continuation slot of an unfinished child. */
  function Waiting(h: Handle): Frame -> nat {
    (f: Frame) => if !f.IsCompleted() && f.continuation.Some? then Is(h, f.continuation.value) else 0
  }

  /** The number of owners of a handle. */
  function Owners(s: State, h: Handle): nat {
    Sum(InDeque(h), s.queues) + Sum(At(h), s.delayed) + Sum(Hand(h), s.threads) + Sum(Waiting(h), s.frames)
  }

  /** Whether a thread is inside the final awaiter of h. */
  function Ending(h: Handle): Thread -> nat {
    (th: Thread) =>
      match th
      case AtFinal(k) => Is(h, k)
      case Finishing(k, _) => Is(h, k)
      case _ => 0
  }

  // ---------------------------------------------------------------- the invariant

  ghost predicate In(frames: seq<Frame>, h: Handle, stage: Stage) {
    h < |frames| && frames[h].stage == stage
  }

  ghost predicate Shape(s: State) {
    0 < |s.queues| <= |s.threads| && Sorted(s.delayed)
  }

  /** Every unfinished coroutine has exactly one owner; nothing else has any. */
  ghost predicate Owned(s: State) {
    forall h: Handle ::
      Owners(s, h) == Unfinished(s.frames, h)
  }

  ghost function Unfinished(frames: seq<Frame>, h: Handle): nat {
    if In(frames, h, Created) || In(frames, h, Live) then 1 else 0
  }

  /** Every coroutine that finishes is inside exactly one final awaiter. */
  ghost predicate Ended(threads: seq<Thread>, frames: seq<Frame>) {
    forall h: Handle :: Sum(Ending(h), threads) == Unretired(frames, h)
  }

  ghost function Unretired(frames: seq<Frame>, h: Handle): nat {
    if In(frames, h, Final) || In(frames, h, Completed) then 1 else 0
  }

  ghost predicate AllLive(frames: seq<Frame>, queue: seq<Handle>) {
    forall i :: 0 <= i < |queue| ==> In(frames, queue[i], Live)
  }

  ghost predicate Queued(queues: seq<seq<Handle>>, frames: seq<Frame>) {
    forall q :: 0 <= q < |queues| ==> AllLive(frames, queues[q])
  }

  ghost predicate Delayed(delayed: seq<Entry>, frames: seq<Frame>) {
    forall i :: 0 <= i < |delayed| ==> In(frames, delayed[i].h, Live)
  }

  /** What may be in the cleanup queue. */
  ghost predicate Corpses(frames: seq<Frame>, batch: seq<Handle>) {
    forall i :: 0 <= i < |batch| ==> In(frames, batch[i], Retired) || In(frames, batch[i], Dropped)
  }

  ghost predicate Consistent(frames: seq<Frame>, th: Thread) {
    match th
    case Idle => true
    case Moving(b) => b != [] && AllLive(frames, b)
    case Running(h) => In(frames, h, Live)
    case Scheduling(c) => In(frames, c, Created)
    case Launching(h, c) => In(frames, h, Live) && In(frames, c, Created)
    case AtFinal(h) => In(frames, h, Final)
    case Finishing(h, next) => In(frames, h, Completed) && next == frames[h].continuation
    case Reaping(b) => b != [] && Corpses(frames, b)
  }

  ghost predicate Threaded(threads: seq<Thread>, frames: seq<Frame>) {
    forall t :: 0 <= t < |threads| ==> Consistent(frames, threads[t])
  }

  /** A frame awaits a younger frame that it created itself. */
  ghost predicate HoldsChild(frames: seq<Frame>, p: Handle)
    requires p < |frames|
  {
    var f := frames[p];
    f.held.Some? ==>
      && f.body.Await? && f.stage.Live?
      && p < f.held.value < |frames|
      && frames[f.held.value].continuation == Some(p)
  }

  ghost predicate KnowsParent(frames: seq<Frame>, c: Handle)
    requires c < |frames|
  {
    var f := frames[c];
    f.continuation.Some? ==>
      && !f.stage.Dropped?
      && f.continuation.value < c
      && (!f.stage.Retired? ==> frames[f.continuation.value].held == Some(c))
  }

  ghost predicate Linked(frames: seq<Frame>) {
    forall h :: 0 <= h < |frames| ==> HoldsChild(frames, h) && KnowsParent(frames, h)
  }

  /** handle_refs holds exactly the scheduled, not yet destroyed frames, each once. */
  ghost predicate Referenced(frames: seq<Frame>, refs: map<Handle, int>) {
    && (forall h :: 0 <= h < |frames| ==> RefersTo(frames[h], refs, h))
    && (forall h: Handle :: h in refs ==> h < |frames| && refs[h] == 1)
  }

  ghost predicate RefersTo(f: Frame, refs: map<Handle, int>, h: Handle) {
    && (h in refs <==> f.Scheduled() && f.destroyed == 0)
    && f.destroyed <= if f.stage.Retired? then 1 else 0
  }

  /** A retired frame is destroyed or still on its way there. */
  ghost predicate Collectable(frames: seq<Frame>, cleanup: seq<Handle>, threads: seq<Thread>) {
    forall h :: 0 <= h < |frames| && frames[h].stage.Retired? && frames[h].destroyed == 0 ==>
      OnTheWay(cleanup, threads, h)
  }

  ghost predicate OnTheWay(cleanup: seq<Handle>, threads: seq<Thread>, h: Handle) {
    h in cleanup || exists t :: 0 <= t < |threads| && BeingReaped(threads[t], h)
  }

  ghost predicate BeingReaped(th: Thread, h: Handle) {
    th.Reaping? && h in th.batch
  }

  ghost predicate Inv(s: State) {
    && Shape(s) && Owned(s) && Ended(s.threads, s.frames)
    && Queued(s.queues, s.frames) && Delayed(s.delayed, s.frames)
    && Threaded(s.threads, s.frames) && Corpses(s.frames, s.cleanup)
    && Linked(s.frames) && Referenced(s.frames, s.refs)
    && Collectable(s.frames, s.cleanup, s.threads)
  }

  // ---------------------------------------------------------------- exclusive ownership

  /** A handle in a thread's hands is nowhere else. */
  lemma Lone(s: State, t: nat, h: Handle)
    requires Owners(s, h) <= 1 && t < |s.threads| && Hand(h)(s.threads[t]) > 0
    ensures Hand(h)(s.threads[t]) == 1
    ensures forall q :: 0 <= q < |s.queues| ==> h !in s.queues[q]
    ensures forall i :: 0 <= i < |s.delayed| ==> s.delayed[i].h != h
    ensures forall u :: 0 <= u < |s.threads| && u != t ==> Hand(h)(s.threads[u]) == 0
    ensures forall c :: 0 <= c < |s.frames| ==> Waiting(h)(s.frames[c]) == 0
  {
    SumHas(Hand(h), s.threads, t);
    forall q | 0 <= q < |s.queues| ensures h !in s.queues[q] {
      SumHas(InDeque(h), s.queues, q);
      assert multiset(s.queues[q])[h] == 0;
    }
    forall i | 0 <= i < |s.delayed| ensures s.delayed[i].h != h {
      SumHas(At(h), s.delayed, i);
    }
    forall u | 0 <= u < |s.threads| && u != t ensures Hand(h)(s.threads[u]) == 0 {
      SumHasTwo(Hand(h), s.threads, t, u);
    }
    forall c | 0 <= c < |s.frames| ensures Waiting(h)(s.frames[c]) == 0 {
      SumHas(Waiting(h), s.frames, c);
    }
  }

  // ---------------------------------------------------------------- one frame changes its stage

  /** Only frame x may change its stage or its continuation; frames may be added. */
  ghost predicate SameBut(frames: seq<Frame>, frames': seq<Frame>, x: Handle) {
    && |frames| <= |frames'|
    && forall h :: 0 <= h < |frames| && h != x ==>
         frames'[h].stage == frames[h].stage && frames'[h].continuation == frames[h].continuation
  }

  predicate Clear(th: Thread, x: Handle) {
    Hand(x)(th) == 0 && Ending(x)(th) == 0
  }

  lemma ConsistentKeep(frames: seq<Frame>, frames': seq<Frame>, th: Thread, x: Handle)
    requires Consistent(frames, th) && SameBut(frames, frames', x) && Clear(th, x)
    requires !In(frames, x, Retired) && !In(frames, x, Dropped)
    ensures Consistent(frames', th)
  {
    if th.Moving? {
      forall i | 0 <= i < |th.batch| ensures In(frames', th.batch[i], Live) {
        assert th.batch[i] in multiset(th.batch);
        assert In(frames, th.batch[i], Live);
      }
    } else if th.Reaping? {
      assert Corpses(frames', th.batch);
    }
  }

  lemma ThreadedKeep(threads: seq<Thread>, t: nat, th: Thread, frames: seq<Frame>, frames': seq<Frame>, x: Handle)
    requires Threaded(threads, frames) && t < |threads| && SameBut(frames, frames', x)
    requires !In(frames, x, Retired) && !In(frames, x, Dropped)
    requires forall u :: 0 <= u < |threads| && u != t ==> Clear(threads[u], x)
    requires Consistent(frames', th)
    ensures Threaded(threads[t := th], frames')
  {
    forall u | 0 <= u < |threads| && u != t ensures Consistent(frames', threads[u]) {
      ConsistentKeep(frames, frames', threads[u], x);
    }
  }

  lemma QueuedKeep(queues: seq<seq<Handle>>, frames: seq<Frame>, frames': seq<Frame>, x: Handle)
    requires Queued(queues, frames) && SameBut(frames, frames', x)
    requires forall q :: 0 <= q < |queues| ==> x !in queues[q]
    ensures Queued(queues, frames')
  {
    forall q | 0 <= q < |queues| ensures AllLive(frames', queues[q]) {
      assert AllLive(frames, queues[q]);
    }
  }

  lemma DelayedKeep(delayed: seq<Entry>, frames: seq<Frame>, frames': seq<Frame>, x: Handle)
    requires Delayed(delayed, frames) && SameBut(frames, frames', x)
    requires forall i :: 0 <= i < |delayed| ==> delayed[i].h != x
    ensures Delayed(delayed, frames')
  {
  }

  lemma CorpsesKeep(frames: seq<Frame>, frames': seq<Frame>, batch: seq<Handle>, x: Handle)
    requires Corpses(frames, batch) && SameBut(frames, frames', x)
    requires !In(frames, x, Retired) && !In(frames, x, Dropped)
    ensures Corpses(frames', batch)
  {
  }

  // ---------------------------------------------------------------- links

  /** A frame changes, its links do not. */
  lemma LinkedSame(frames: seq<Frame>, i: Handle, f: Frame)
    requires Linked(frames) && i < |frames|
    requires f.held == frames[i].held && f.continuation == frames[i].continuation
    requires f.held.Some? ==> f.body == frames[i].body && f.stage.Live?
    requires f.continuation.Some? ==> !f.stage.Dropped? && (frames[i].stage.Retired? ==> f.stage.Retired?)
    ensures Linked(frames[i := f])
  {
    var frames' := frames[i := f];
    forall h | 0 <= h < |frames'| ensures HoldsChild(frames', h) && KnowsParent(frames', h) {
      assert HoldsChild(frames, h) && KnowsParent(frames, h);
    }
  }

  /** A frame that is linked to nothing is added. */
  lemma LinkedAppend(frames: seq<Frame>, f: Frame)
    requires Linked(frames) && f.held.None? && f.continuation.None?
    ensures Linked(frames + [f])
  {
    var frames' := frames + [f];
    forall h | 0 <= h < |frames'| ensures HoldsChild(frames', h) && KnowsParent(frames', h) {
      if h < |frames| {
        assert HoldsChild(frames, h) && KnowsParent(frames, h);
      }
    }
  }

  // ---------------------------------------------------------------- references

  /** A frame changes, but not in what handle_refs depends on. */
  lemma ReferencedSame(frames: seq<Frame>, refs: map<Handle, int>, i: Handle, f: Frame)
    requires Referenced(frames, refs) && i < |frames|
    requires f.Scheduled() == frames[i].Scheduled() && f.destroyed == frames[i].destroyed
    requires frames[i].stage.Retired? ==> f.stage.Retired?
    ensures Referenced(frames[i := f], refs)
  {
    var frames' := frames[i := f];
    forall h | 0 <= h < |frames'| ensures RefersTo(frames'[h], refs, h) {
      assert RefersTo(frames[h], refs, h);
    }
  }

  lemma ReferencedAppend(frames: seq<Frame>, refs: map<Handle, int>, f: Frame)
    requires Referenced(frames, refs) && !f.Scheduled() && f.destroyed == 0
    ensures Referenced(frames + [f], refs)
  {
    var frames' := frames + [f];
    forall h | 0 <= h < |frames'| ensures RefersTo(frames'[h], refs, h) {
      if h < |frames| {
        assert RefersTo(frames[h], refs, h);
      }
    }
  }

  // ---------------------------------------------------------------- collection

  /** Nothing leaves the cleanup queue and every newly retired frame enters it. */
  lemma CollectableKeep(frames: seq<Frame>, frames': seq<Frame>, cleanup: seq<Handle>, cleanup': seq<Handle>,
                        threads: seq<Thread>, threads': seq<Thread>)
    requires Collectable(frames, cleanup, threads)
    requires forall u :: 0 <= u < |threads| && threads[u].Reaping? ==> u < |threads'| && threads'[u] == threads[u]
    requires forall h :: h in cleanup ==> h in cleanup'
    requires forall h :: 0 <= h < |frames'| && frames'[h].stage.Retired? && frames'[h].destroyed == 0 ==>
      h in cleanup' || (h < |frames| && frames[h].stage.Retired? && frames[h].destroyed == 0)
    ensures Collectable(frames', cleanup', threads')
  {
    forall h | 0 <= h < |frames'| && frames'[h].stage.Retired? && frames'[h].destroyed == 0
      ensures OnTheWay(cleanup', threads', h)
    {
      if h !in cleanup' {
        assert OnTheWay(cleanup, threads, h);
        var u :| 0 <= u < |threads| && BeingReaped(threads[u], h);
        assert BeingReaped(threads'[u], h);
      }
    }
  }

  // ---------------------------------------------------------------- counting one change

  lemma PushBack(queues: seq<seq<Handle>>, q: nat, c: Handle, h: Handle)
    requires q < |queues|
    ensures Sum(InDeque(h), queues[q := queues[q] + [c]]) == Sum(InDeque(h), queues) + Is(h, c)
  {
    SumUpdate(InDeque(h), queues, q, queues[q] + [c]);
  }

  lemma PushFront(queues: seq<seq<Handle>>, q: nat, c: Handle, h: Handle)
    requires q < |queues|
    ensures Sum(InDeque(h), queues[q := [c] + queues[q]]) == Sum(InDeque(h), queues) + Is(h, c)
  {
    SumUpdate(InDeque(h), queues, q, [c] + queues[q]);
  }

  lemma PopFront(queues: seq<seq<Handle>>, q: nat, h: Handle)
    requires q < |queues| && queues[q] != []
    ensures Sum(InDeque(h), queues) == Sum(InDeque(h), queues[q := queues[q][1..]]) + Is(h, queues[q][0])
  {
    assert queues[q] == [queues[q][0]] + queues[q][1..];
    SumUpdate(InDeque(h), queues, q, queues[q][1..]);
  }

  lemma PopBack(queues: seq<seq<Handle>>, q: nat, h: Handle)
    requires q < |queues| && queues[q] != []
    ensures var n := |queues[q]| - 1;
            Sum(InDeque(h), queues) == Sum(InDeque(h), queues[q := queues[q][..n]]) + Is(h, queues[q][n])
  {
    var n := |queues[q]| - 1;
    assert queues[q] == queues[q][..n] + [queues[q][n]];
    SumUpdate(InDeque(h), queues, q, queues[q][..n]);
  }

  /** A thread changes hands. */
  lemma Rehand(threads: seq<Thread>, t: nat, th: Thread, h: Handle)
    requires t < |threads|
    ensures Sum(Hand(h), threads[t := th]) + Hand(h)(threads[t]) == Sum(Hand(h), threads) + Hand(h)(th)
    ensures Sum(Ending(h), threads[t := th]) + Ending(h)(threads[t]) == Sum(Ending(h), threads) + Ending(h)(th)
  {
    SumUpdate(Hand(h), threads, t, th);
    SumUpdate(Ending(h), threads, t, th);
  }

  /** A frame changes. */
  lemma Rewait(frames: seq<Frame>, i: nat, f: Frame, h: Handle)
    requires i < |frames|
    ensures Sum(Waiting(h), frames[i := f]) + Waiting(h)(frames[i]) == Sum(Waiting(h), frames) + Waiting(h)(f)
  {
    SumUpdate(Waiting(h), frames, i, f);
  }

  lemma {:induction false} InsertOne(e: Entry, es: seq<Entry>, h: Handle)
    ensures Sum(At(h), Insert(e, es)) == Sum(At(h), es) + Is(h, e.h)
  {
    if es != [] && !Before(e, es[0]) {
      InsertOne(e, es[1..], h);
    }
  }

  lemma {:induction false} InsertMember(e: Entry, es: seq<Entry>, x: Entry)
    ensures x in Insert(e, es) <==> x == e || x in es
  {
    if es != [] && !Before(e, es[0]) {
      InsertMember(e, es[1..], x);
      assert es == [es[0]] + es[1..];
    }
  }

  lemma {:induction false} InsertPermutes(e: Entry, es: seq<Entry>)
    ensures multiset(Insert(e, es)) == multiset(es) + multiset{e}
  {
    if es != [] && !Before(e, es[0]) {
      InsertPermutes(e, es[1..]);
      assert es == [es[0]] + es[1..];
    }
  }

  lemma {:induction false} InsertSorted(e: Entry, es: seq<Entry>)
    requires Sorted(es)
    ensures Sorted(Insert(e, es))
  {
    if es != [] && !Before(e, es[0]) {
      InsertSorted(e, es[1..]);
      var r := Insert(e, es[1..]);
      forall i | 0 <= i < |r| ensures Before(es[0], r[i]) {
        InsertMember(e, es[1..], r[i]);
        assert r[i] in r;
      }
    }
  }
}
