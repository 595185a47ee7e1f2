/**
 The work-stealing coroutine scheduler and the async protocol of src/async.hpp, as a
 transition system over any number of worker and client threads.

 One event is what a thread does inside one critical section (or between two of them).
 An event that is not enabled leaves the state alone, so any sequence of events is a
 schedule of the threads and every schedule is such a sequence. Frames are numbered in
 creation order and numbers are never reused.
 */
module AsyncProtocol {
  import opened Options

  type Handle = nat

  /**
   What a coroutine does until it ends. Await carries both continuations because
   await_resume either returns or rethrows.
   */
  datatype Body =
    | Return
    | Throw
    | Sleep(ms: int, next: Body)
    | Yield(next: Body)
    | Await(child: Body, onValue: Body, onThrow: Body)
    | Launch(child: Body, next: Body)
    | Discard(child: Body, next: Body)

  /**
   The life of a frame: Created until scheduled for the first time (or Dropped, if its
   async dies before that), Live while it can be resumed, Final once it is suspended at
   its final suspend point, Completed once the final awaiter has stored `completed`, and
   Retired once the final awaiter has pushed the handle for cleanup.
   */
  datatype Stage = Created | Dropped | Live | Final | Completed | Retired

  datatype Frame = Frame(
    body: Body,
    stage: Stage,
    threw: bool,
    held: Option<Handle>,         // the async object this frame is awaiting
    continuation: Option<Handle>, // CoroutineState::continuation
    destroyed: nat)               // how often destroy() was called
  {
    predicate Done() { stage.Final? || IsCompleted() }
    predicate IsCompleted() { stage.Completed? || stage.Retired? }
    predicate Scheduled() { stage.Live? || Done() }
  }

  datatype Entry = Entry(at: int, h: Handle)

  /** What a thread has in its hands between two critical sections. */
  datatype Thread =
    | Idle
    | Moving(batch: seq<Handle>)                  // drained from the delay heap, not yet queued
    | Running(h: Handle)
    | Scheduling(child: Handle)                   // about to enter schedule_impl
    | Launching(h: Handle, child: Handle)         // the same, for a coroutine that goes on running
    | AtFinal(h: Handle)                          // final suspend reached, state not yet completed
    | Finishing(h: Handle, next: Option<Handle>)  // completed, handle not yet pushed for cleanup
    | Reaping(batch: seq<Handle>)                 // swapped out of the cleanup queue

  datatype State = State(
    queues: seq<seq<Handle>>,   // local_task_queues
    delayed: seq<Entry>,        // delayed_tasks, in the order top() and pop() deliver it
    cleanup: seq<Handle>,       // cleanup_tasks
    refs: map<Handle, int>,     // handle_refs
    frames: seq<Frame>,
    threads: seq<Thread>,       // the first |queues| are workers, the others are clients
    now: int)

  datatype Event =
    | Tick(ms: nat)
    | Submit(t: nat, body: Body)
    | Enqueue(t: nat, q: nat)
    | Drain(t: nat)
    | Place(t: nat, q: nat)
    | PopLocal(t: nat)
    | Steal(t: nat, victim: nat)
    | Exec(t: nat)
    | Complete(t: nat)
    | Retire(t: nat)
    | Swap(t: nat)
    | Reap(t: nat)

  function Fresh(body: Body): Frame {
    Frame(body, Created, false, None, None, 0)
  }

  function Init(workers: nat, clients: nat, now: int): State {
    State(seq(workers, i => []), [], [], map[], [], seq(workers + clients, i => Idle), now)
  }

  // ---------------------------------------------------------------- the delay heap

  predicate Before(a: Entry, b: Entry) {
    a.at < b.at || (a.at == b.at && a.h <= b.h)
  }

  predicate Sorted(es: seq<Entry>) {
    forall i, j :: 0 <= i < j < |es| ==> Before(es[i], es[j])
  }

  function Insert(e: Entry, es: seq<Entry>): seq<Entry> {
    if es == [] || Before(e, es[0]) then [e] + es else [es[0]] + Insert(e, es[1..])
  }

  /** How many entries the drain loop pops. */
  function DueCount(es: seq<Entry>, now: int): (k: nat)
    ensures k <= |es|
  {
    if es == [] || es[0].at > now then 0 else 1 + DueCount(es[1..], now)
  }

  function Handles(es: seq<Entry>): seq<Handle> {
    seq(|es|, i requires 0 <= i < |es| => es[i].h)
  }

  // ---------------------------------------------------------------- scheduling

  /** The critical section of schedule_impl: at most one reference per handle. */
  function ScheduleAt(s: State, h: Handle, q: nat): State
    requires h < |s.frames| && q < |s.queues|
  {
    if s.frames[h].Done() || h in s.refs then s
    else s.(refs := s.refs[h := 1],
            queues := s.queues[q := s.queues[q] + [h]],
            frames := s.frames[h := s.frames[h].(stage := Live)])
  }

  /** schedule_after_impl. */
  function ScheduleAfter(s: State, h: Handle, ms: int): State {
    s.(delayed := Insert(Entry(s.now + ms, h), s.delayed))
  }

  // ---------------------------------------------------------------- reaping

  /** The loop of process_cleanup_tasks_impl over a swapped-out batch. */
  function ReapAll(s: State, batch: seq<Handle>): (reaped: State)
    requires forall i :: 0 <= i < |batch| ==> batch[i] < |s.frames|
    ensures |reaped.frames| == |s.frames|
    decreases |batch|
  {
    if batch == [] then s else ReapAll(ReapOne(s, batch[0]), batch[1..])
  }

  function ReapOne(s: State, h: Handle): (reaped: State)
    requires h < |s.frames|
    ensures |reaped.frames| == |s.frames|
  {
    if h !in s.refs then s
    else if s.refs[h] - 1 <= 0 then
      var s' := s.(refs := s.refs - {h});
      if s.frames[h].Done() then
        s'.(frames := s.frames[h := s.frames[h].(destroyed := s.frames[h].destroyed + 1)])
      else s'
    else s.(refs := s.refs[h := s.refs[h] - 1])
  }

  // ---------------------------------------------------------------- events

  ghost predicate Enabled(s: State, e: Event) {
    match e
    case Tick(_) => true
    case Submit(t, _) => |s.queues| <= t < |s.threads| && s.threads[t].Idle?
    case Enqueue(t, q) => AboutToSchedule(s, t, q)
    case Drain(t) =>
      IdleWorker(s, t) && s.delayed != [] && s.delayed[0].at <= s.now
    case Place(t, q) => AboutToPlace(s, t, q)
    case PopLocal(t) =>
      IdleWorker(s, t) && s.queues[t] != [] && s.queues[t][0] < |s.frames|
    case Steal(t, v) =>
      && IdleWorker(s, t) && v < |s.queues| && v != t
      && s.queues[v] != [] && s.queues[v][|s.queues[v]| - 1] < |s.frames|
    case Exec(t) =>
      && t < |s.threads| && s.threads[t].Running? && s.threads[t].h < |s.frames|
      // await_resume waits on the child's condition variable until the child is completed
      && var held := s.frames[s.threads[t].h].held;
         held.Some? ==> held.value < |s.frames| && s.frames[held.value].IsCompleted()
    case Complete(t) =>
      t < |s.threads| && s.threads[t].AtFinal? && s.threads[t].h < |s.frames|
    case Retire(t) =>
      t < |s.threads| && s.threads[t].Finishing? && s.threads[t].h < |s.frames|
    case Swap(t) => IdleWorker(s, t) && s.cleanup != []
    case Reap(t) =>
      && t < |s.threads| && s.threads[t].Reaping?
      && forall i :: 0 <= i < |s.threads[t].batch| ==> s.threads[t].batch[i] < |s.frames|
  }

  predicate IdleWorker(s: State, t: nat) {
    t < |s.queues| && t < |s.threads| && s.threads[t].Idle?
  }

  predicate AboutToSchedule(s: State, t: nat, q: nat) {
    && t < |s.threads| && q < |s.queues|
    && (s.threads[t].Scheduling? || s.threads[t].Launching?)
    && s.threads[t].child < |s.frames|
  }

  predicate AboutToPlace(s: State, t: nat, q: nat) {
    && t < |s.threads| && q < |s.queues| && s.threads[t].Moving?
    && s.threads[t].batch != [] && s.threads[t].batch[0] < |s.frames|
  }

  ghost function Apply(s: State, e: Event): State {
    if !Enabled(s, e) then s else
    match e
    case Tick(ms) => s.(now := s.now + ms)
    case Submit(t, body) =>
      s.(frames := s.frames + [Fresh(body)], threads := s.threads[t := Scheduling(|s.frames|)])
    case Enqueue(t, q) => EnqueueStep(s, t, q)
    case Drain(t) =>
      var k := DueCount(s.delayed, s.now);
      s.(delayed := s.delayed[k..], threads := s.threads[t := Moving(Handles(s.delayed)[..k])])
    case Place(t, q) => PlaceStep(s, t, q)
    case PopLocal(t) =>
      ResumeStep(s.(queues := s.queues[t := s.queues[t][1..]]), t, s.queues[t][0])
    case Steal(t, v) =>
      var n := |s.queues[v]| - 1;
      ResumeStep(s.(queues := s.queues[v := s.queues[v][..n]]), t, s.queues[v][n])
    case Exec(t) => ExecStep(s, t, s.threads[t].h)
    case Complete(t) => CompleteStep(s, t, s.threads[t].h)
    case Retire(t) => RetireStep(s, t, s.threads[t].h, s.threads[t].next)
    case Swap(t) => s.(cleanup := [], threads := s.threads[t := Reaping(s.cleanup)])
    case Reap(t) => ReapAll(s.(threads := s.threads[t := Idle]), s.threads[t].batch)
  }

  function EnqueueStep(s: State, t: nat, q: nat): State
    requires AboutToSchedule(s, t, q)
  {
    var th := s.threads[t];
    ScheduleAt(s, th.child, q).(
      threads := s.threads[t := if th.Launching? then Running(th.h) else Idle])
  }

  /** One round of the distribution loop of process_delayed_tasks_impl. */
  function PlaceStep(s: State, t: nat, q: nat): State
    requires AboutToPlace(s, t, q)
  {
    var b := s.threads[t].batch;
    s.(queues := if s.frames[b[0]].Done() then s.queues else s.queues[q := [b[0]] + s.queues[q]],
       threads := s.threads[t := if |b| == 1 then Idle else Moving(b[1..])])
  }

  /** tick_impl with a task in hand: a done task is skipped. */
  function ResumeStep(s: State, t: nat, h: Handle): State
    requires t < |s.threads| && h < |s.frames|
  {
    s.(threads := s.threads[t := if s.frames[h].Done() then Idle else Running(h)])
  }

  /** A running coroutine takes its next step. */
  function ExecStep(s: State, t: nat, h: Handle): State
    requires t < |s.threads| && h < |s.frames|
    requires s.frames[h].held.Some? ==> s.frames[h].held.value < |s.frames|
  {
    var f := s.frames[h];
    if f.held.Some? then AwaitResume(s, h, f.held.value) else
    match f.body
    case Return => AtEnd(s, t, h, false)
    case Throw => AtEnd(s, t, h, true)
    case Sleep(ms, next) =>
      var s' := s.(frames := s.frames[h := f.(body := next)]);
      // SleepAwaiter::await_ready does not suspend for a delay that is not positive
      if ms <= 0 then s' else ScheduleAfter(s', h, ms).(threads := s.threads[t := Idle])
    case Yield(next) =>
      var s' := s.(frames := s.frames[h := f.(body := next)]);
      ScheduleAfter(s', h, 0).(threads := s.threads[t := Idle])
    case Await(child, _, _) =>
      // the fresh child is not done, so await_suspend links it and goes on to schedule it
      var c := |s.frames|;
      s.(frames := s.frames[h := f.(held := Some(c))]
                   + [Fresh(child).(continuation := Some(h))],
         threads := s.threads[t := Scheduling(c)])
    case Launch(child, next) =>
      s.(frames := s.frames[h := f.(body := next)] + [Fresh(child)],
         threads := s.threads[t := Launching(h, |s.frames|)])
    case Discard(child, next) =>
      // ~async pushes the handle of a coroutine that was never scheduled
      s.(frames := s.frames[h := f.(body := next)] + [Fresh(child).(stage := Dropped)],
         cleanup := s.cleanup + [|s.frames|])
  }

  function AtEnd(s: State, t: nat, h: Handle, threw: bool): State
    requires t < |s.threads| && h < |s.frames|
  {
    s.(frames := s.frames[h := s.frames[h].(stage := Final, threw := threw)],
       threads := s.threads[t := AtFinal(h)])
  }

  /** await_resume hands over the child's outcome; then the async object is destroyed. */
  function AwaitResume(s: State, h: Handle, c: Handle): State
    requires h < |s.frames| && c < |s.frames|
  {
    var f := s.frames[h];
    var next := if !f.body.Await? then f.body
                else if s.frames[c].threw then f.body.onThrow else f.body.onValue;
    s.(frames := s.frames[h := f.(body := next, held := None)], cleanup := s.cleanup + [c])
  }

  /** FinalAwaiter::await_suspend under the state mutex. */
  function CompleteStep(s: State, t: nat, h: Handle): State
    requires t < |s.threads| && h < |s.frames|
  {
    s.(frames := s.frames[h := s.frames[h].(stage := Completed)],
       threads := s.threads[t := Finishing(h, s.frames[h].continuation)])
  }

  /** The rest of it: push the handle for cleanup, then transfer to the continuation. */
  function RetireStep(s: State, t: nat, h: Handle, next: Option<Handle>): State
    requires t < |s.threads| && h < |s.frames|
  {
    s.(frames := s.frames[h := s.frames[h].(stage := Retired)],
       cleanup := s.cleanup + [h],
       threads := s.threads[t := if next.Some? then Running(next.value) else Idle])
  }

  /** A schedule: any sequence of events. */
  ghost function Run(s: State, events: seq<Event>): State
    decreases |events|
  {
    if events == [] then s else Run(Apply(s, events[0]), events[1..])
  }
}
