/** The re-queueing loop of src/orchestrator.cpp. */
module Orchestrator {
  import opened Sums

  type Handle = nat

  /** A handle that cannot be resumed: the null handle (out of range), or a done coroutine. */
  predicate Spent(left: seq<nat>, h: Handle) {
    h >= |left| || left[h] == 0
  }

  function Itself(n: nat): nat { n }

  /** All the resumes that are still to come. */
  function Remaining(left: seq<nat>): nat {
    Sum(Itself, left)
  }

  lemma ResumeUses(left: seq<nat>, h: Handle)
    requires !Spent(left, h)
    ensures Remaining(left[h := left[h] - 1]) == Remaining(left) - 1
  {
    SumUpdate(Itself, left, h, left[h] - 1);
  }

  // ---------------------------------------------------------------- the loop's trace

  /** The order in which the loop resumes a queue of coroutines until all are done. */
  function Trace(queue: seq<Handle>, left: seq<nat>): seq<Handle>
    decreases Remaining(left), |queue|
  {
    if queue == [] then []
    else if Spent(left, queue[0]) then Trace(queue[1..], left)
    else
      var h := queue[0];
      var left' := left[h := left[h] - 1];
      ResumeUses(left, h);
      [h] + Trace(queue[1..] + if Spent(left', h) then [] else [h], left')
  }

  /** The handles that need more than r resumes, in their order. */
  function MoreThan(hs: seq<Handle>, f: seq<nat>, r: nat): seq<Handle> {
    if hs == [] then []
    else (if hs[0] < |f| && f[hs[0]] > r then [hs[0]] else []) + MoreThan(hs[1..], f, r)
  }

  /** Round r and all later ones. */
  function Rounds(hs: seq<Handle>, f: seq<nat>, r: nat): seq<Handle>
    decreases Remaining(f) - r
  {
    if MoreThan(hs, f, r) == [] then []
    else
      SomeoneNeeds(hs, f, r);
      MoreThan(hs, f, r) + Rounds(hs, f, r + 1)
  }

  lemma {:induction false} SomeoneNeeds(hs: seq<Handle>, f: seq<nat>, r: nat)
    requires MoreThan(hs, f, r) != []
    ensures r < Remaining(f)
  {
    if hs[0] < |f| && f[hs[0]] > r {
      SumHas(Itself, f, hs[0]);
    } else {
      SomeoneNeeds(hs[1..], f, r);
    }
  }

  predicate Distinct(hs: seq<Handle>) {
    forall i, j :: 0 <= i < j < |hs| ==> hs[i] != hs[j]
  }

  /** One resume less for everybody in hs. */
  function Less(left: seq<nat>, hs: seq<Handle>): (r: seq<nat>)
    ensures |r| == |left|
  {
    seq(|left|, h requires 0 <= h < |left| => if h in hs && left[h] > 0 then left[h] - 1 else left[h])
  }

  lemma TraceStep(h: Handle, rest: seq<Handle>, left: seq<nat>)
    requires !Spent(left, h)
    ensures var left' := left[h := left[h] - 1];
            Trace([h] + rest, left) == [h] + Trace(rest + if Spent(left', h) then [] else [h], left')
  {
    assert ([h] + rest)[1..] == rest;
  }

  lemma MoreThanStep(h: Handle, rest: seq<Handle>, f: seq<nat>, r: nat)
    ensures MoreThan([h] + rest, f, r) == (if h < |f| && f[h] > r then [h] else []) + MoreThan(rest, f, r)
  {
    assert ([h] + rest)[1..] == rest;
  }

  lemma LessStep(h: Handle, rest: seq<Handle>, left: seq<nat>)
    requires !Spent(left, h) && h !in rest
    ensures Less(left, [h] + rest) == Less(left[h := left[h] - 1], rest)
  {
  }

  /** A whole round: everybody in a is resumed once, and whoever is not done queues up again. */
  lemma {:induction false} OneRound(a: seq<Handle>, b: seq<Handle>, left: seq<nat>)
    requires Distinct(a) && forall i :: 0 <= i < |a| ==> !Spent(left, a[i])
    ensures Trace(a + b, left) == a + Trace(b + MoreThan(a, left, 1), Less(left, a))
    decreases |a|
  {
    if a == [] {
      assert a + b == b && b + [] == b;
      assert Less(left, a) == left;
    } else {
      hide Trace, MoreThan, Less;
      var h, rest := a[0], a[1..];
      var left' := left[h := left[h] - 1];
      var again := if Spent(left', h) then [] else [h];
      forall i | 0 <= i < |rest| ensures rest[i] != h && !Spent(left', rest[i]) {
        assert rest[i] == a[i + 1];
      }
      var more := MoreThan(rest, left', 1);
      var after := Trace((b + again) + more, Less(left', rest));
      calc {
        Trace(a + b, left);
        { assert a + b == [h] + (rest + b); TraceStep(h, rest + b, left); Assoc(rest, b, again); }
        [h] + Trace(rest + (b + again), left');
        { OneRound(rest, b + again, left'); }
        [h] + (rest + after);
        { Assoc([h], rest, after); assert a == [h] + rest; }
        a + after;
      }
      assert a == [h] + rest;
      MoreThanStep(h, rest, left, 1);
      SameNeeds(rest, left, left', 1);
      assert MoreThan(a, left, 1) == again + more;
      Assoc(b, again, more);
      LessStep(h, rest, left);
    }
  }

  lemma Assoc(a: seq<Handle>, b: seq<Handle>, c: seq<Handle>)
    ensures (a + b) + c == a + (b + c)
  {
  }

  lemma {:induction false} SameNeeds(hs: seq<Handle>, f: seq<nat>, g: seq<nat>, r: nat)
    requires |f| == |g| && forall i :: 0 <= i < |hs| && hs[i] < |f| ==> f[hs[i]] == g[hs[i]]
    ensures MoreThan(hs, f, r) == MoreThan(hs, g, r)
  {
    if hs != [] {
      SameNeeds(hs[1..], f, g, r);
    }
  }

  /** What everybody in hs still needs after r rounds. */
  function AfterRounds(f: seq<nat>, hs: seq<Handle>, r: nat): (left: seq<nat>)
    ensures |left| == |f|
  {
    seq(|f|, h requires 0 <= h < |f| => if h !in hs then f[h] else if f[h] > r then f[h] - r else 0)
  }

  lemma {:induction false} MoreThanMember(hs: seq<Handle>, f: seq<nat>, r: nat)
    ensures forall h :: h in MoreThan(hs, f, r) <==> h in hs && h < |f| && f[h] > r
    ensures Distinct(hs) ==> Distinct(MoreThan(hs, f, r))
  {
    if hs != [] {
      MoreThanMember(hs[1..], f, r);
      assert hs == [hs[0]] + hs[1..];
      if Distinct(hs) && hs[0] < |f| && f[hs[0]] > r {
        var rest := MoreThan(hs[1..], f, r);
        forall i | 0 <= i < |rest| ensures rest[i] != hs[0] {
          assert rest[i] in hs[1..];
        }
      }
    }
  }

  /** Whoever needs more than one of the remaining resumes needs more than r + 1 in all. */
  lemma {:induction false} NextRound(hs: seq<Handle>, all: seq<Handle>, f: seq<nat>, r: nat)
    requires forall i :: 0 <= i < |hs| ==> hs[i] in all
    ensures MoreThan(MoreThan(hs, f, r), AfterRounds(f, all, r), 1) == MoreThan(hs, f, r + 1)
  {
    if hs != [] {
      assert hs[0] in all;
      assert forall i :: 0 <= i < |hs[1..]| ==> hs[1..][i] in all;
      NextRound(hs[1..], all, f, r);
      var g := AfterRounds(f, all, r);
      if hs[0] < |f| && f[hs[0]] > r {
        MoreThanStep(hs[0], MoreThan(hs[1..], f, r), g, 1);
      } else {
        assert MoreThan(hs, f, r) == MoreThan(hs[1..], f, r);
        assert MoreThan(hs, f, r + 1) == MoreThan(hs[1..], f, r + 1);
      }
    }
  }

  lemma {:induction false} RoundsAreTraced(hs: seq<Handle>, f: seq<nat>, r: nat)
    requires Distinct(hs)
    ensures Trace(MoreThan(hs, f, r), AfterRounds(f, hs, r)) == Rounds(hs, f, r)
    decreases Remaining(f) - r
  {
    var now := MoreThan(hs, f, r);
    var left := AfterRounds(f, hs, r);
    if now != [] {
      SomeoneNeeds(hs, f, r);
      MoreThanMember(hs, f, r);
      forall i | 0 <= i < |now| ensures !Spent(left, now[i]) {
        assert now[i] in now;
      }
      OneRound(now, [], left);
      assert now + [] == now;
      NextRound(hs, hs, f, r);
      assert [] + MoreThan(now, left, 1) == MoreThan(hs, f, r + 1);
      assert Less(left, now) == AfterRounds(f, hs, r + 1) by {
        forall h | 0 <= h < |f| ensures Less(left, now)[h] == AfterRounds(f, hs, r + 1)[h] {
          assert h in now <==> h in hs && f[h] > r;
        }
      }
      RoundsAreTraced(hs, f, r + 1);
    }
  }

  /**
   Round robin: distinct handles that need f[h] resumes are resumed in rounds; round r
   consists of all handles that need more than r resumes, in their original order.
   */
  lemma RoundRobin(hs: seq<Handle>, f: seq<nat>)
    requires Distinct(hs)
    ensures Trace(hs, f) == Rounds(hs, f, 0)
  {
    assert AfterRounds(f, hs, 0) == f;
    RoundsAreTraced(hs, f, 0);
    OnlyNeedyTraced(hs, f);
  }

  /** Done handles in the queue leave no trace. */
  lemma {:induction false} OnlyNeedyTraced(hs: seq<Handle>, f: seq<nat>)
    requires Distinct(hs)
    ensures Trace(hs, f) == Trace(MoreThan(hs, f, 0), f)
  {
    SkipSpent(hs, [], f);
    assert hs + [] == hs && MoreThan(hs, f, 0) + [] == MoreThan(hs, f, 0);
  }

  lemma {:induction false} SkipSpent(a: seq<Handle>, b: seq<Handle>, f: seq<nat>)
    requires Distinct(a)
    ensures Trace(a + b, f) == Trace(MoreThan(a, f, 0) + b, f)
    decreases |a|
  {
    if a != [] {
      var h, rest := a[0], a[1..];
      assert (a + b)[1..] == rest + b;
      if Spent(f, h) {
        SkipSpent(rest, b, f);
        assert MoreThan(a, f, 0) == MoreThan(rest, f, 0);
      } else {
        var f' := f[h := f[h] - 1];
        var again := if Spent(f', h) then [] else [h];
        var needy := MoreThan(rest, f, 0);
        assert (rest + b) + again == rest + (b + again);
        SkipSpent(rest, b + again, f');
        SameNeeds(rest, f, f', 0);
        assert ([h] + needy + b)[1..] == needy + b;
        assert (needy + b) + again == needy + (b + again);
        assert MoreThan(a, f, 0) + b == [h] + needy + b;
      }
    } else {
      assert a + b == b;
    }
  }

  // ---------------------------------------------------------------- the orchestrator

  /** h was in the queue at the start or has been enqueued by one of the first k batches. */
  ghost predicate Mentioned(queue: seq<Handle>, batches: seq<seq<Handle>>, k: nat, h: Handle) {
    h in queue || exists i :: 0 <= i < k && i < |batches| && h in batches[i]
  }

  /** What is left after h has had its turn: one resume less, unless it was done already. */
  function After(h: Handle, left: seq<nat>): seq<nat> {
    if Spent(left, h) then left else left[h := left[h] - 1]
  }

  /** What is queued again. */
  function Again(h: Handle, left: seq<nat>): seq<Handle> {
    if Spent(left, h) || Spent(After(h, left), h) then [] else [h]
  }

  /** What has been resumed. */
  function Resumed(h: Handle, left: seq<nat>): seq<Handle> {
    if Spent(left, h) then [] else [h]
  }

  class Orchestrator {
    var queue: seq<Handle>
    var stopped: bool
    var left: seq<nat>            // the coroutines: how many resumes each still needs
    ghost var trace: seq<Handle>  // the resumes so far

    /** enqueue_impl: null and done handles are not accepted. */
    method Enqueue(h: Handle)
      modifies this`queue
      ensures queue == if Spent(left, h) then old(queue) else old(queue) + [h]
    {
      if Spent(left, h) { return; }
      queue := queue + [h];
    }

    method Stop()
      modifies this`stopped
      ensures stopped
    {
      stopped := true;
    }

    /** h.resume(), on a coroutine that is not done. */
    method Resume(h: Handle)
      requires !Spent(left, h)
      modifies this`left, this`trace
      ensures left == old(left)[h := old(left)[h] - 1] && trace == old(trace) + [h]
    {
      left := left[h := left[h] - 1];
      trace := trace + [h];
    }

    /** Other threads enqueue a batch of handles. */
    method EnqueueAll(hs: seq<Handle>)
      modifies this`queue
      ensures forall h :: h in queue <==> h in old(queue) || (h in hs && !Spent(left, h))
      ensures hs == [] ==> queue == old(queue)
    {
      var i := 0;
      while i < |hs|
        invariant 0 <= i <= |hs|
        invariant hs == [] ==> queue == old(queue)
        invariant forall h :: h in queue <==> h in old(queue) || (h in hs[..i] && !Spent(left, h))
      {
        assert hs[..i + 1] == hs[..i] + [hs[i]];
        Enqueue(hs[i]);
        i := i + 1;
      }
      assert hs[..|hs|] == hs;
    }

    /**
     One round after the wait: a done handle is skipped, any other resumed and queued again,
     behind what other threads enqueue in the meantime.
     */
    method TakeTurn(meanwhile: seq<Handle>)
      requires queue != []
      modifies this`queue, this`left, this`trace
      ensures var h, rest := old(queue)[0], old(queue)[1..];
              var again := Again(h, old(left));
              && left == After(h, old(left)) && trace == old(trace) + Resumed(h, old(left))
              && (forall x :: x in queue <==> x in rest + again || (x in meanwhile && !Spent(left, x)))
              && (meanwhile == [] ==> queue == rest + again)
    {
      var h := queue[0];
      queue := queue[1..];
      var skip := Spent(left, h);
      if !skip {
        Resume(h);
      }
      EnqueueAll(meanwhile);
      if skip { return; }
      if !Spent(left, h) {
        Enqueue(h);
      }
    }

    /**
     The loop. Other threads enqueue batches of handles, duplicates and done ones included,
     before the loop looks at the queue and while it resumes a coroutine; somebody calls stop
     after `stopAt` of the batches. The loop then ends, with an empty queue and after the first
     `k` batches: every handle in one of them has been resumed exactly as often as it needed
     and nothing else has been touched. Batches that come even later are lost.
     */
    method Loop(batches: seq<seq<Handle>>, stopAt: nat) returns (k: nat)
      requires !stopped && stopAt <= |batches|
      modifies this
      ensures stopped && queue == [] && |left| == |old(left)| && stopAt <= k <= |batches|
      ensures forall h :: 0 <= h < |left| ==>
        left[h] == if Mentioned(old(queue), batches, k, h) then 0 else old(left)[h]
      ensures forall h :: 0 <= h < |left| ==>
        multiset(trace)[h] + left[h] == multiset(old(trace))[h] + old(left)[h]
      ensures batches == [] ==> trace == old(trace) + Trace(old(queue), old(left))
      ensures batches == [] && Distinct(old(queue)) ==> trace == old(trace) + Rounds(old(queue), old(left), 0)
    {
      ghost var queue0: seq<Handle>, left0: seq<nat>, trace0: seq<Handle> := queue, left, trace;
      k := 0;
      hide StandsAt, Trace, Rounds, Remaining, After, Again, Resumed;
      Outset(queue, left, trace, batches);
      if stopAt == 0 { Stop(); }
      while true
        invariant k <= |batches| && stopped == (k >= stopAt)
        invariant Progress(queue0, left0, trace0, batches, k)
        invariant batches == [] ==> trace + Trace(queue, left) == trace0 + Trace(queue0, left0)
        decreases |batches| - k, Remaining(left), |queue|
      {
        k := Arrive(batches, k, stopAt, queue0, left0, trace0);
        if queue == [] {
          if stopped { break; }
          continue;
        }
        Turned(queue0, left0, trace0, batches, k);
        TraceOfTurn(trace, queue, left);
        ghost var after := queue[1..] + Again(queue[0], left);
        TakeTurn(if k < |batches| then batches[k] else []);
        k := Note(batches, k, stopAt, after, queue0, left0, trace0);
      }
      NothingLeft(left, trace, queue0, left0, trace0, batches, k);
      if Distinct(queue0) { RoundRobin(queue0, left0); }
    }

    /** The next batch, if any, and the stop that may come with it. */
    method Arrive(batches: seq<seq<Handle>>, k: nat, stopAt: nat,
                  ghost queue0: seq<Handle>, ghost left0: seq<nat>, ghost trace0: seq<Handle>) returns (next: nat)
      requires k <= |batches| && stopped == (k >= stopAt) && Progress(queue0, left0, trace0, batches, k)
      modifies this`queue, this`stopped
      ensures next == (if k < |batches| then k + 1 else k) && stopped == (next >= stopAt)
      ensures Progress(queue0, left0, trace0, batches, next)
      ensures k == |batches| ==> queue == old(queue)
    {
      hide StandsAt;
      ghost var before := queue;
      if k < |batches| { EnqueueAll(batches[k]); }
      next := Note(batches, k, stopAt, before, queue0, left0, trace0);
    }

    /** The next batch has come; perhaps it is time to stop. */
    method Note(batches: seq<seq<Handle>>, k: nat, stopAt: nat, ghost before: seq<Handle>,
                ghost queue0: seq<Handle>, ghost left0: seq<nat>, ghost trace0: seq<Handle>) returns (next: nat)
      requires k <= |batches| && stopped == (k >= stopAt)
      requires StandsAt(before, left, trace, queue0, left0, trace0, batches, k)
      requires forall h :: h in queue <==> h in before || (k < |batches| && h in batches[k] && !Spent(left, h))
      modifies this`stopped
      ensures next == (if k < |batches| then k + 1 else k) && stopped == (next >= stopAt)
      ensures Progress(queue0, left0, trace0, batches, next)
    {
      next := k;
      if k < |batches| {
        Arrived(queue0, left0, trace0, batches, k, before);
        next := k + 1;
        if next == stopAt { Stop(); }
      } else {
        SameMembers(queue0, left0, trace0, batches, k, before);
      }
    }

    lemma SameMembers(queue0: seq<Handle>, left0: seq<nat>, trace0: seq<Handle>,
                      batches: seq<seq<Handle>>, k: nat, before: seq<Handle>)
      requires StandsAt(before, left, trace, queue0, left0, trace0, batches, k)
      requires forall h :: h in queue <==> h in before
      ensures Progress(queue0, left0, trace0, batches, k)
    {
      forall h | 0 <= h < |left0| ensures HandleStandsAt(queue, left, trace, queue0, left0, trace0, batches, k, h) {
        assert HandleStandsAt(before, left, trace, queue0, left0, trace0, batches, k, h);
      }
    }

    /** Where the loop stands after k batches. */
    ghost predicate Progress(queue0: seq<Handle>, left0: seq<nat>, trace0: seq<Handle>,
                             batches: seq<seq<Handle>>, k: nat)
      reads this
    {
      StandsAt(queue, left, trace, queue0, left0, trace0, batches, k)
    }

    lemma Arrived(queue0: seq<Handle>, left0: seq<nat>, trace0: seq<Handle>,
                  batches: seq<seq<Handle>>, k: nat, before: seq<Handle>)
      requires k < |batches| && StandsAt(before, left, trace, queue0, left0, trace0, batches, k)
      requires forall h :: h in queue <==> h in before || (h in batches[k] && !Spent(left, h))
      ensures Progress(queue0, left0, trace0, batches, k + 1)
    {
      var next := k + 1;
      forall h | 0 <= h < |left0| ensures HandleStandsAt(queue, left, trace, queue0, left0, trace0, batches, next, h) {
        assert HandleStandsAt(before, left, trace, queue0, left0, trace0, batches, k, h);
      }
    }

    lemma Turned(queue0: seq<Handle>, left0: seq<nat>, trace0: seq<Handle>, batches: seq<seq<Handle>>, k: nat)
      requires queue != [] && Progress(queue0, left0, trace0, batches, k)
      ensures StandsAt(queue[1..] + Again(queue[0], left), After(queue[0], left),
                       trace + Resumed(queue[0], left), queue0, left0, trace0, batches, k)
    {
      var h, rest := queue[0], queue[1..];
      assert queue == [h] + rest;
      var left', queue', trace' := After(h, left), rest + Again(h, left), trace + Resumed(h, left);
      forall x | 0 <= x < |left0| ensures HandleStandsAt(queue', left', trace', queue0, left0, trace0, batches, k, x) {
        assert HandleStandsAt(queue, left, trace, queue0, left0, trace0, batches, k, x);
      }
    }
  }

  lemma TraceUnfolds(queue: seq<Handle>, left: seq<nat>)
    requires queue != []
    ensures var h := queue[0];
            Trace(queue, left) == Resumed(h, left) + Trace(queue[1..] + Again(h, left), After(h, left))
  {
    if Spent(left, queue[0]) {
      assert queue[1..] + [] == queue[1..];
      assert [] + Trace(queue[1..], left) == Trace(queue[1..], left);
    }
  }

  lemma TraceOfTurn(trace: seq<Handle>, queue: seq<Handle>, left: seq<nat>)
    requires queue != []
    ensures var h, rest := queue[0], queue[1..];
            && trace + Trace(queue, left)
               == (trace + Resumed(h, left)) + Trace(rest + Again(h, left), After(h, left))
            && Remaining(After(h, left)) <= Remaining(left)
            && (!Spent(left, h) ==> Remaining(After(h, left)) < Remaining(left))
            && (Spent(left, h) ==> After(h, left) == left && Again(h, left) == [])
  {
    hide Trace, Resumed, Remaining;
    var h := queue[0];
    TraceUnfolds(queue, left);
    Assoc(trace, Resumed(h, left), Trace(queue[1..] + Again(h, left), After(h, left)));
    if !Spent(left, h) {
      ResumeUses(left, h);
    }
  }

  lemma Outset(queue: seq<Handle>, left: seq<nat>, trace: seq<Handle>, batches: seq<seq<Handle>>)
    ensures StandsAt(queue, left, trace, queue, left, trace, batches, 0)
  {
  }

  lemma NothingLeft(left: seq<nat>, trace: seq<Handle>, queue0: seq<Handle>, left0: seq<nat>, trace0: seq<Handle>,
                    batches: seq<seq<Handle>>, k: nat)
    requires StandsAt([], left, trace, queue0, left0, trace0, batches, k)
    ensures |left| == |left0| && trace + Trace([], left) == trace
    ensures forall h :: 0 <= h < |left| ==>
      left[h] == if Mentioned(queue0, batches, k, h) then 0 else left0[h]
    ensures forall h :: 0 <= h < |left| ==> multiset(trace)[h] + left[h] == multiset(trace0)[h] + left0[h]
  {
    forall h | 0 <= h < |left|
      ensures left[h] == if Mentioned(queue0, batches, k, h) then 0 else left0[h]
      ensures multiset(trace)[h] + left[h] == multiset(trace0)[h] + left0[h]
    {
      assert HandleStandsAt([], left, trace, queue0, left0, trace0, batches, k, h);
    }
  }

  ghost predicate StandsAt(queue: seq<Handle>, left: seq<nat>, trace: seq<Handle>, queue0: seq<Handle>,
                           left0: seq<nat>, trace0: seq<Handle>, batches: seq<seq<Handle>>, k: nat) {
    |left| == |left0| && forall h :: 0 <= h < |left0| ==>
      HandleStandsAt(queue, left, trace, queue0, left0, trace0, batches, k, h)
  }

  /** A mentioned handle that is not done is queued; one that nobody mentioned is untouched. */
  ghost predicate HandleStandsAt(queue: seq<Handle>, left: seq<nat>, trace: seq<Handle>, queue0: seq<Handle>,
                                 left0: seq<nat>, trace0: seq<Handle>, batches: seq<seq<Handle>>, k: nat, h: Handle)
    requires |left| == |left0| && h < |left|
  {
    && multiset(trace)[h] + left[h] == multiset(trace0)[h] + left0[h]
    && (h in queue ==> Mentioned(queue0, batches, k, h))
    && (if Mentioned(queue0, batches, k, h) then left[h] > 0 ==> h in queue else left[h] == left0[h])
  }
}
