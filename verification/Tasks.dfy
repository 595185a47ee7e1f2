/**
 Task, task_awaiter, final_awaiter, sync_wait and async_run of src/coroutine.hpp: frames that
 hand control to each other through continuation_ compute what a recursive evaluator computes.
 */
module Tasks {
  import opened Options

  type Handle = nat
  type Env = seq<int>

  /**
   A coroutine body over its local values. A child sees the values its parent had when it
   created it; the result of co_await, or the exception it throws, is added to the parent's.
   */
  datatype Prog =
    | Return(value: Env -> int)
    | Throw(error: Env -> int)
    | Branch(condition: Env -> bool, yes: Prog, no: Prog)
    | Sleep(ms: Env -> int, next: Prog)
    | Await(child: Prog, onValue: Prog, onThrow: Prog)

  datatype Outcome = Value(v: int) | Exception(e: int)

  /** How an evaluation ends, how long it sleeps and how many steps it takes. */
  datatype Result = Result(outcome: Outcome, slept: nat, steps: nat) {
    function After(time: nat, n: nat): Result {
      Result(outcome, time + slept, n + steps)
    }
  }

  function Duration(ms: int): nat {
    if ms < 0 then 0 else ms
  }

  // ---------------------------------------------------------------- direct evaluation

  function Eval(p: Prog, env: Env): Result {
    match p
    case Return(v) => Result(Value(v(env)), 0, 1)
    case Throw(e) => Result(Exception(e(env)), 0, 1)
    case Branch(c, yes, no) => (if c(env) then Eval(yes, env) else Eval(no, env)).After(0, 1)
    case Sleep(ms, next) => Eval(next, env).After(Duration(ms(env)), 1)
    case Await(child, v, x) =>
      var r := Eval(child, env);
      (match r.outcome
       case Value(n) => Eval(v, env + [n])
       case Exception(e) => Eval(x, env + [e])).After(r.slept, r.steps + 2)
  }

  /** Evaluation goes on after an await with this outcome. */
  function Resumed(v: Prog, x: Prog, env: Env, o: Outcome): Result {
    (match o
     case Value(n) => Eval(v, env + [n])
     case Exception(e) => Eval(x, env + [e])).After(0, 1)
  }

  // ---------------------------------------------------------------- the machine

  /** A coroutine frame with its promise; no continuation is the noop coroutine. */
  datatype Frame = Frame(
    prog: Prog,
    env: Env,
    awaiting: Option<Handle>,
    value: Option<int>,
    exception: Option<int>,
    continuation: Option<Handle>,
    done: bool,
    destroyed: nat)
  {
    /** promise_type::result(): an exception is rethrown before the value is looked at. */
    function Get(): Outcome
      requires done && (exception.Some? || value.Some?)
    {
      if exception.Some? then Exception(exception.value) else Value(value.value)
    }
  }

  function Fresh(p: Prog, env: Env): Frame {
    Frame(p, env, None, None, None, None, false, 0)
  }

  /** Who has control: a coroutine, a timer that will resume one, or the original resumer. */
  datatype Control = Running(h: Handle) | Parked(h: Handle, deadline: int) | Returned

  datatype Machine = Machine(frames: seq<Frame>, control: Control, now: int, slept: nat, steps: nat)

  // ---------------------------------------------------------------- what a frame still means

  /** What the whole task comes to if frame h comes to r. */
  ghost function Finish(frames: seq<Frame>, h: Handle, r: Result): Result
    decreases h
  {
    if HasParent(frames, h) then
      var p := frames[h].continuation.value;
      Finish(frames, p, AfterAwait(frames[p], r))
    else r
  }

  ghost predicate HasParent(frames: seq<Frame>, h: Handle) {
    && h < |frames| && frames[h].continuation.Some?
    && frames[h].continuation.value < h && frames[frames[h].continuation.value].prog.Await?
  }

  /** What a parent comes to if the child it awaits comes to r. */
  function AfterAwait(parent: Frame, r: Result): Result
    requires parent.prog.Await?
  {
    Resumed(parent.prog.onValue, parent.prog.onThrow, parent.env, r.outcome).After(r.slept, r.steps)
  }

  /** The frames that control will come back to, h included. */
  ghost function Chain(frames: seq<Frame>, h: Handle): set<Handle>
    decreases h
  {
    {h} + if HasParent(frames, h) then Chain(frames, frames[h].continuation.value) else {}
  }

  /** Only frames above h differ: what h leads to stays the same. */
  lemma {:induction false} FinishSame(frames: seq<Frame>, frames': seq<Frame>, h: Handle, r: Result)
    requires h < |frames| && h < |frames'|
    requires frames'[h].continuation == frames[h].continuation
    requires forall k :: 0 <= k < h ==> frames'[k] == frames[k]
    ensures Finish(frames', h, r) == Finish(frames, h, r)
    ensures Chain(frames', h) == Chain(frames, h)
    decreases h
  {
    if HasParent(frames, h) {
      var p := frames[h].continuation.value;
      FinishSame(frames, frames', p, AfterAwait(frames[p], r));
    }
  }

  lemma {:induction false} ChainBelow(frames: seq<Frame>, h: Handle)
    ensures forall k :: k in Chain(frames, h) ==> k <= h
    ensures h in Chain(frames, h)
    decreases h
  {
    if HasParent(frames, h) {
      ChainBelow(frames, frames[h].continuation.value);
    }
  }

  // ---------------------------------------------------------------- the invariant

  /**
   The promise result of a child that control has come back from; the awaiting parent
   has not looked at it yet.
   */
  ghost predicate Answered(frames: seq<Frame>, c: Handle, p: Handle) {
    && p < c < |frames| && frames[c].done && (frames[c].exception.Some? || frames[c].value.Some?)
    && frames[c].continuation == Some(p)
  }

  /** The frame with control: it is not done, and what it awaited has been answered. */
  ghost predicate Active(frames: seq<Frame>, h: Handle) {
    && h < |frames| && !frames[h].done && frames[h].exception.None?
    && (frames[h].awaiting.Some? ==> frames[h].prog.Await? && Answered(frames, frames[h].awaiting.value, h))
  }

  /** What is left of the frame with control. */
  ghost function Left(frames: seq<Frame>, h: Handle): Result
    requires Active(frames, h)
  {
    var f := frames[h];
    if f.awaiting.Some? then Resumed(f.prog.onValue, f.prog.onThrow, f.env, frames[f.awaiting.value].Get())
    else Eval(f.prog, f.env)
  }

  /** The youngest frame that has not been destroyed. */
  ghost function Youngest(frames: seq<Frame>, h: Handle): Handle
    requires h < |frames|
  {
    if frames[h].awaiting.Some? then frames[h].awaiting.value else h
  }

  /** Every frame on the chain below the active one awaits the next frame of the chain. */
  ghost predicate Chained(frames: seq<Frame>, h: Handle)
    decreases h
  {
    && h < |frames|
    && (frames[h].continuation.None? ==> h == 0)
    && (frames[h].continuation.Some? ==>
      var p := frames[h].continuation.value;
      && p < h && frames[p].awaiting == Some(h) && frames[p].prog.Await?
      && !frames[p].done && frames[p].exception.None?
      && Chained(frames, p))
  }

  lemma {:induction false} ChainedSame(frames: seq<Frame>, frames': seq<Frame>, h: Handle)
    requires Chained(frames, h) && h < |frames'|
    requires frames'[h].continuation == frames[h].continuation
    requires forall k :: 0 <= k < h ==> frames'[k] == frames[k]
    ensures Chained(frames', h)
    decreases h
  {
    if frames[h].continuation.Some? {
      ChainedSame(frames, frames', frames[h].continuation.value);
    }
  }

  /** Exactly the frames that control has not left for good still exist. */
  ghost predicate Owned(frames: seq<Frame>, top: Handle) {
    forall k :: 0 <= k < |frames| ==> frames[k].destroyed == if k in Chain(frames, top) then 0 else 1
  }

  /** The task with root frame 0, started at time start, is on its way to goal. */
  ghost predicate OnTheWay(m: Machine, goal: Result, start: int) {
    match m.control
    case Running(h) =>
      && Active(m.frames, h) && Chained(m.frames, h)
      && Finish(m.frames, h, Left(m.frames, h).After(m.slept, m.steps)) == goal
      && Owned(m.frames, Youngest(m.frames, h))
      && m.now >= start + m.slept
    case Parked(h, deadline) =>
      && Active(m.frames, h) && Chained(m.frames, h) && m.frames[h].awaiting.None?
      && Finish(m.frames, h, Left(m.frames, h).After(m.slept, m.steps)) == goal
      && Owned(m.frames, h)
      && (m.now >= start + m.slept || deadline >= start + m.slept)
    case Returned =>
      && 0 < |m.frames| && m.frames[0].done
      && (m.frames[0].exception.Some? || m.frames[0].value.Some?)
      && Result(m.frames[0].Get(), m.slept, m.steps) == goal
      && Owned(m.frames, 0)
      && m.now >= start + m.slept
  }

  // ---------------------------------------------------------------- one step

  /** return_value or unhandled_exception, then the final awaiter: control to continuation_. */
  function Ended(m: Machine, h: Handle, o: Outcome): Machine
    requires h < |m.frames|
  {
    var f := m.frames[h];
    var f' := if o.Value? then f.(value := Some(o.v), done := true) else f.(exception := Some(o.e), done := true);
    m.(frames := m.frames[h := f'],
       control := if f.continuation.Some? then Running(f.continuation.value) else Returned,
       steps := m.steps + 1)
  }

  lemma EndedKeeps(m: Machine, h: Handle, o: Outcome, goal: Result, start: int)
    requires OnTheWay(m, goal, start) && m.control == Running(h) && m.frames[h].awaiting.None?
    requires Eval(m.frames[h].prog, m.frames[h].env) == Result(o, 0, 1)
    ensures OnTheWay(Ended(m, h, o), goal, start)
  {
    var m' := Ended(m, h, o);
    var r := Result(o, m.slept, m.steps + 1);
    assert Left(m.frames, h).After(m.slept, m.steps) == r;
    FinishSame(m.frames, m'.frames, h, r);
    if m.frames[h].continuation.Some? {
      var p := m.frames[h].continuation.value;
      assert HasParent(m.frames, h);
      ChainedSame(m.frames, m'.frames, p);
      FinishSame(m.frames, m'.frames, p, AfterAwait(m.frames[p], r));
      assert Left(m'.frames, p) == Resumed(m.frames[p].prog.onValue, m.frames[p].prog.onThrow, m.frames[p].env, o);
    }
  }

  /** co_await: task_awaiter stores the parent as continuation and transfers to the child. */
  function Awaited(m: Machine, h: Handle): Machine
    requires h < |m.frames| && m.frames[h].prog.Await?
  {
    var f, c := m.frames[h], |m.frames|;
    m.(frames := m.frames[h := f.(awaiting := Some(c))] + [Fresh(f.prog.child, f.env).(continuation := Some(h))],
       control := Running(c), steps := m.steps + 1)
  }

  lemma AwaitedKeeps(m: Machine, h: Handle, goal: Result, start: int)
    requires OnTheWay(m, goal, start) && m.control == Running(h)
    requires m.frames[h].awaiting.None? && m.frames[h].prog.Await?
    ensures OnTheWay(Awaited(m, h), goal, start)
  {
    var m' := Awaited(m, h);
    var f, c := m.frames[h], |m.frames|;
    var r := Eval(f.prog.child, f.env);
    assert HasParent(m'.frames, c);
    ChainedSame(m.frames, m'.frames, h);
    var rest := AfterAwait(m'.frames[h], r.After(m.slept, m.steps + 1));
    assert rest == Left(m.frames, h).After(m.slept, m.steps);
    FinishSame(m.frames, m'.frames, h, rest);
    ChainBelow(m.frames, h);
  }

  /** await_resume, after which the child's Task is destroyed and its frame with it. */
  function AwaitResumed(m: Machine, h: Handle, c: Handle): Machine
    requires h < |m.frames| && c < |m.frames| && m.frames[h].prog.Await? && h != c
    requires m.frames[c].done && (m.frames[c].exception.Some? || m.frames[c].value.Some?)
  {
    var f, g := m.frames[h], m.frames[c];
    var f' := match g.Get()
              case Value(v) => f.(prog := f.prog.onValue, env := f.env + [v], awaiting := None)
              case Exception(e) => f.(prog := f.prog.onThrow, env := f.env + [e], awaiting := None);
    m.(frames := m.frames[h := f'][c := g.(destroyed := g.destroyed + 1)], steps := m.steps + 1)
  }

  lemma AwaitResumedKeeps(m: Machine, h: Handle, goal: Result, start: int)
    requires OnTheWay(m, goal, start) && m.control == Running(h) && m.frames[h].awaiting.Some?
    ensures OnTheWay(AwaitResumed(m, h, m.frames[h].awaiting.value), goal, start)
  {
    var c := m.frames[h].awaiting.value;
    var m' := AwaitResumed(m, h, c);
    var r := Left(m.frames, h).After(m.slept, m.steps);
    assert HasParent(m.frames, c);
    assert Left(m'.frames, h).After(m'.slept, m'.steps) == r;
    FinishSame(m.frames, m'.frames, h, r);
    ChainedSame(m.frames, m'.frames, h);
    ChainBelow(m.frames, h);
  }

  /** A coroutine goes on in its body. */
  function Advanced(m: Machine, h: Handle, next: Prog, ms: nat): Machine
    requires h < |m.frames|
  {
    m.(frames := m.frames[h := m.frames[h].(prog := next)], slept := m.slept + ms, steps := m.steps + 1)
  }

  lemma AdvancedKeeps(m: Machine, h: Handle, next: Prog, goal: Result, start: int)
    requires OnTheWay(m, goal, start) && m.control == Running(h) && m.frames[h].awaiting.None?
    requires Eval(m.frames[h].prog, m.frames[h].env) == Eval(next, m.frames[h].env).After(0, 1)
    ensures OnTheWay(Advanced(m, h, next, 0), goal, start)
  {
    SuspendedKeeps(m, h, next, 0, goal, start);
  }

  /** sleepCoro: the timer of TimerAwaiter::await_suspend holds the coroutine. */
  lemma SuspendedKeeps(m: Machine, h: Handle, next: Prog, ms: int, goal: Result, start: int)
    requires OnTheWay(m, goal, start) && m.control == Running(h) && m.frames[h].awaiting.None?
    requires Eval(m.frames[h].prog, m.frames[h].env) == Eval(next, m.frames[h].env).After(Duration(ms), 1)
    ensures OnTheWay(Advanced(m, h, next, Duration(ms)).(control := Parked(h, m.now + ms)), goal, start)
    ensures ms == 0 ==> OnTheWay(Advanced(m, h, next, 0), goal, start)
  {
    var m' := Advanced(m, h, next, Duration(ms));
    var r := Left(m.frames, h).After(m.slept, m.steps);
    assert Left(m'.frames, h).After(m'.slept, m'.steps) == r;
    FinishSame(m.frames, m'.frames, h, r);
    ChainedSame(m.frames, m'.frames, h);
  }

  lemma {:induction false} FinishGrows(frames: seq<Frame>, h: Handle, r: Result)
    ensures Finish(frames, h, r).steps >= r.steps && Finish(frames, h, r).slept >= r.slept
    decreases h
  {
    if HasParent(frames, h) {
      var p := frames[h].continuation.value;
      FinishGrows(frames, p, AfterAwait(frames[p], r));
    }
  }

  /** Every task on its way has a bounded number of steps to go. */
  lemma StepsBounded(m: Machine, goal: Result, start: int)
    requires OnTheWay(m, goal, start)
    ensures m.steps <= goal.steps
  {
    if !m.control.Returned? {
      FinishGrows(m.frames, m.control.h, Left(m.frames, m.control.h).After(m.slept, m.steps));
    }
  }

  /** The first step of an evaluation. */
  lemma LeafEval(p: Prog, env: Env)
    ensures p.Return? ==> Eval(p, env) == Result(Value(p.value(env)), 0, 1)
    ensures p.Throw? ==> Eval(p, env) == Result(Exception(p.error(env)), 0, 1)
    ensures p.Branch? ==> Eval(p, env) == Eval(if p.condition(env) then p.yes else p.no, env).After(0, 1)
    ensures p.Sleep? ==> Eval(p, env) == Eval(p.next, env).After(Duration(p.ms(env)), 1)
  {
  }

  // ---------------------------------------------------------------- the runtime

  /** The AsyncTask coroutine of async_run: awaiting the task, at its end, or in std::terminate. */
  datatype Driver = Awaiting | Over | Terminated

  class Runtime {
    var frames: seq<Frame>
    var control: Control
    var driver: Driver
    var now: int
    ghost var slept: nat
    ghost var steps: nat

    ghost function View(): Machine
      reads this
    {
      Machine(frames, control, now, slept, steps)
    }

    /** Exactly the sleeps on the way have passed; a parked coroutine's last one will have. */
    ghost predicate Punctual(start: int)
      reads this
    {
      start + slept == if control.Parked? && control.deadline > now then control.deadline else now
    }

    /** A driver coroutine awaits a fresh task: the task gets control. */
    constructor (p: Prog, env: Env, time: int)
      ensures OnTheWay(View(), Eval(p, env), time) && Punctual(time) && driver == Awaiting
    {
      frames, control, driver, now := [Fresh(p, env)], Running(0), Awaiting, time;
      slept, steps := 0, 0;
    }

    method FinalSuspend(h: Handle)
      requires h < |frames|
      modifies this`frames, this`control
      ensures frames == old(frames)[h := old(frames)[h].(done := true)]
      ensures control == if frames[h].continuation.Some? then Running(frames[h].continuation.value) else Returned
    {
      frames := frames[h := frames[h].(done := true)];
      control := if frames[h].continuation.Some? then Running(frames[h].continuation.value) else Returned;
    }

    method ReturnValue(h: Handle, v: int)
      requires h < |frames|
      modifies this`frames, this`control, this`steps
      ensures View() == Ended(old(View()), h, Value(v))
    {
      frames := frames[h := frames[h].(value := Some(v))];
      steps := steps + 1;
      FinalSuspend(h);
    }

    method UnhandledException(h: Handle, e: int)
      requires h < |frames|
      modifies this`frames, this`control, this`steps
      ensures View() == Ended(old(View()), h, Exception(e))
    {
      frames := frames[h := frames[h].(exception := Some(e))];
      steps := steps + 1;
      FinalSuspend(h);
    }

    method AwaitSuspend(h: Handle)
      requires h < |frames| && frames[h].prog.Await?
      modifies this`frames, this`control, this`steps
      ensures View() == Awaited(old(View()), h)
    {
      var c := |frames|;
      frames := frames + [Fresh(frames[h].prog.child, frames[h].env)];
      frames := frames[h := frames[h].(awaiting := Some(c))];
      frames := frames[c := frames[c].(continuation := Some(h))];
      control := Running(c);
      steps := steps + 1;
    }

    method AwaitResume(h: Handle, c: Handle)
      requires h < |frames| && c < |frames| && frames[h].prog.Await? && h != c
      requires frames[c].done && (frames[c].exception.Some? || frames[c].value.Some?)
      modifies this`frames, this`steps
      ensures View() == AwaitResumed(old(View()), h, c)
    {
      var f := frames[h];
      if frames[c].exception.Some? {
        frames := frames[h := f.(prog := f.prog.onThrow, env := f.env + [frames[c].exception.value], awaiting := None)];
      } else {
        frames := frames[h := f.(prog := f.prog.onValue, env := f.env + [frames[c].value.value], awaiting := None)];
      }
      frames := frames[c := frames[c].(destroyed := frames[c].destroyed + 1)];
      steps := steps + 1;
    }

    /** The coroutine with control takes its next step. */
    method Step(h: Handle, ghost goal: Result, ghost start: int)
      requires OnTheWay(View(), goal, start) && control == Running(h)
      modifies this
      ensures OnTheWay(View(), goal, start) && steps == old(steps) + 1 && now == old(now) && driver == old(driver)
      ensures old(Punctual(start)) ==> Punctual(start)
    {
      hide Finish, Chain, Chained, Owned, Left, Eval;
      ghost var m := View();
      var f := frames[h];
      if f.awaiting.Some? {
        AwaitResumedKeeps(m, h, goal, start);
        AwaitResume(h, f.awaiting.value);
        return;
      }
      match f.prog {
        case Return(v) =>
          LeafEval(f.prog, f.env);
          EndedKeeps(m, h, Value(v(f.env)), goal, start);
          ReturnValue(h, v(f.env));
        case Throw(e) =>
          LeafEval(f.prog, f.env);
          EndedKeeps(m, h, Exception(e(f.env)), goal, start);
          UnhandledException(h, e(f.env));
        case Branch(c, yes, no) =>
          var next := if c(f.env) then yes else no;
          LeafEval(f.prog, f.env);
          AdvancedKeeps(m, h, next, goal, start);
          frames := frames[h := f.(prog := next)];
          steps := steps + 1;
        case Sleep(ms, next) =>
          LeafEval(f.prog, f.env);
          SuspendedKeeps(m, h, next, ms(f.env), goal, start);
          frames := frames[h := f.(prog := next)];
          control := Parked(h, now + ms(f.env));
          slept, steps := slept + Duration(ms(f.env)), steps + 1;
        case Await(_, _, _) =>
          AwaitedKeeps(m, h, goal, start);
          AwaitSuspend(h);
      }
    }

    /** A timer fires, not before its deadline, and resumes the coroutine it holds. */
    method Fire(time: int, ghost goal: Result, ghost start: int)
      requires OnTheWay(View(), goal, start) && control.Parked?
      requires time >= now && time >= control.deadline
      modifies this`now, this`control
      ensures OnTheWay(View(), goal, start) && control.Running?
      ensures old(Punctual(start)) && (time == old(now) || time == old(control).deadline) ==> Punctual(start)
    {
      now := time;
      control := Running(control.h);
    }

    /** Everything until the driver gets control back; timers may be late, unless they are punctual. */
    method Drive(punctual: bool, ghost goal: Result, ghost start: int)
      requires OnTheWay(View(), goal, start) && Punctual(start)
      modifies this
      ensures OnTheWay(View(), goal, start) && control.Returned? && driver == old(driver)
      ensures punctual ==> now == start + goal.slept
    {
      hide Finish, Chain, Chained, Owned, Left;
      StepsBounded(View(), goal, start);
      while !control.Returned?
        invariant OnTheWay(View(), goal, start) && steps <= goal.steps && driver == old(driver)
        invariant punctual ==> Punctual(start)
        decreases goal.steps - steps, control.Parked?
      {
        if control.Parked? {
          var late :| 0 <= late;
          if punctual { late := 0; }
          Fire((if now < control.deadline then control.deadline else now) + late, goal, start);
        } else {
          Step(control.h, goal, start);
        }
        StepsBounded(View(), goal, start);
      }
    }

    /**
     async_run's driver gets control back. await_resume rethrows an exception, which the driver
     does not catch: AsyncTask's unhandled_exception terminates. Otherwise the driver's local
     Task is destroyed, and the driver runs through its final suspend point.
     */
    method EndDriver(ghost goal: Result, ghost start: int)
      requires OnTheWay(View(), goal, start) && control.Returned? && driver == Awaiting
      modifies this`frames, this`driver
      ensures driver == if goal.outcome.Exception? then Terminated else Over
      ensures driver == Over ==> forall h :: 0 <= h < |frames| ==> frames[h].destroyed == 1
      ensures driver == Terminated ==> frames == old(frames)
    {
      OnlyRootLeft(frames);
      if frames[0].exception.Some? {
        driver := Terminated;
      } else {
        frames := frames[0 := frames[0].(destroyed := frames[0].destroyed + 1)];
        driver := Over;
      }
    }
  }

  /**
   sync_wait returns or rethrows exactly what direct evaluation gives, not before the sum of
   all sleeps on the way has passed, and with punctual timers just then; every frame but the
   task's own is destroyed, once.
   */
  method SyncWait(p: Prog, env: Env, time: int, punctual: bool)
    returns (o: Outcome, finished: int, frames: seq<Frame>)
    ensures o == Eval(p, env).outcome
    ensures finished >= time + Eval(p, env).slept
    ensures punctual ==> finished == time + Eval(p, env).slept
    ensures frames != [] && forall h :: 0 <= h < |frames| ==> frames[h].destroyed == if h == 0 then 0 else 1
  {
    var rt := new Runtime(p, env, time);
    rt.Drive(punctual, Eval(p, env), time);
    frames := rt.frames;
    o, finished := frames[0].Get(), rt.now;
    OnlyRootLeft(frames);
  }

  lemma OnlyRootLeft(frames: seq<Frame>)
    requires Owned(frames, 0)
    ensures forall h :: 0 <= h < |frames| ==> frames[h].destroyed == if h == 0 then 0 else 1
  {
    ChainBelow(frames, 0);
  }

  /**
   async_run: the process terminates exactly if the evaluation of the task throws; otherwise the
   driver comes to its end, after all sleeps, with every frame destroyed, once.
   */
  method AsyncRun(p: Prog, env: Env, time: int) returns (driver: Driver, finished: int, frames: seq<Frame>)
    ensures driver == if Eval(p, env).outcome.Exception? then Terminated else Over
    ensures finished >= time + Eval(p, env).slept
    ensures driver == Over ==> forall h :: 0 <= h < |frames| ==> frames[h].destroyed == 1
    ensures driver == Terminated ==>
      frames != [] && forall h :: 0 <= h < |frames| ==> frames[h].destroyed == if h == 0 then 0 else 1
  {
    var rt := new Runtime(p, env, time);
    rt.Drive(false, Eval(p, env), time);
    OnlyRootLeft(rt.frames);
    rt.EndDriver(Eval(p, env), time);
    driver, finished, frames := rt.driver, rt.now, rt.frames;
  }

  /** A body that sleeps n times for d milliseconds, as the hello topic does. */
  function Sleeps(n: nat, d: nat): Prog {
    if n == 0 then Return((env: Env) => 0) else Sleep((env: Env) => d, Sleeps(n - 1, d))
  }

  /** With SyncWait: n consecutive sleeps of d finish no earlier than start + n * d. */
  lemma {:induction false} SleepsAddUp(n: nat, d: nat, env: Env)
    ensures Eval(Sleeps(n, d), env).slept == n * d
    ensures Eval(Sleeps(n, d), env).outcome == Value(0)
  {
    if n > 0 {
      SleepsAddUp(n - 1, d, env);
    }
  }

  // ---------------------------------------------------------------- what awaiting means

  /** What was added last: the value or the exception an await ended with. */
  function Last(env: Env): int {
    if env == [] then 0 else env[|env| - 1]
  }

  /** A task under n awaits, each of which returns the value it gets and rethrows an exception. */
  function Through(p: Prog, n: nat): Prog {
    if n == 0 then p else Await(Through(p, n - 1), Return(Last), Throw(Last))
  }

  /** Awaiting hands on the value or the exception, unchanged, and takes no time. */
  lemma {:induction false} ThroughKeeps(p: Prog, n: nat, env: Env)
    ensures Eval(Through(p, n), env).outcome == Eval(p, env).outcome
    ensures Eval(Through(p, n), env).slept == Eval(p, env).slept
  {
    if n > 0 {
      ThroughKeeps(p, n - 1, env);
    }
  }

  /** A task that awaits p through n others, and goes on in one way with a value, in another if it catches. */
  lemma CaughtThrough(p: Prog, n: nat, onValue: Prog, onThrow: Prog, env: Env)
    ensures var o, caught := Eval(p, env).outcome, Eval(Await(Through(p, n), onValue, onThrow), env).outcome;
            if o.Value? then caught == Eval(onValue, env + [o.v]).outcome
            else caught == Eval(onThrow, env + [o.e]).outcome
  {
    ThroughKeeps(p, n, env);
  }

  /** A value that a task returns comes out of sync_wait, through any number of awaits, at its time. */
  method SyncWaitReturns(value: int, ms: nat, n: nat, time: int) returns (o: Outcome, finished: int)
    ensures o == Value(value) && finished == time + ms
  {
    var p := Sleep((env: Env) => ms, Return((env: Env) => value));
    ThroughKeeps(p, n, []);
    LeafEval(p, []);
    LeafEval(p.next, []);
    var frames;
    o, finished, frames := SyncWait(Through(p, n), [], time, true);
  }

  /** An exception is rethrown; or it is caught, and its value returned. */
  method SyncWaitThrows(error: int, n: nat, caught: bool, time: int) returns (o: Outcome)
    ensures o == if caught then Value(error) else Exception(error)
  {
    var p := Throw((env: Env) => error);
    ThroughKeeps(p, n, []);
    CaughtThrough(p, n, Return(Last), Return(Last), []);
    LeafEval(p, []);
    LeafEval(Return(Last), [error]);
    var finished, frames;
    if caught {
      o, finished, frames := SyncWait(Await(Through(p, n), Return(Last), Return(Last)), [], time, false);
    } else {
      o, finished, frames := SyncWait(Through(p, n), [], time, false);
    }
  }

  /** async_run terminates the process for an exception through any number of awaits, and never if it is caught. */
  method AsyncRunThrows(error: int, n: nat, caught: bool, time: int) returns (driver: Driver)
    ensures driver == if caught then Over else Terminated
  {
    var p := Throw((env: Env) => error);
    ThroughKeeps(p, n, []);
    CaughtThrough(p, n, Return(Last), Return(Last), []);
    LeafEval(p, []);
    LeafEval(Return(Last), [error]);
    var finished, frames;
    driver, finished, frames := AsyncRun(if caught then Await(Through(p, n), Return(Last), Return(Last)) else Through(p, n), [], time);
  }
}
