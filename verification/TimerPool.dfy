/**
 From a timer to a worker: the timed scheduler of src/scheduler.hpp and the thread pool of
 src/thread_pool.cpp as one transition system. Client threads submit timed and plain jobs,
 the timer thread moves due jobs to the pool, workers take them from their own deques.

 One event is one critical section, one atomic access or one notification; an event that is
 not enabled leaves the state alone, so every sequence of events is a schedule.
 */
module TimerPool {
  import opened Options
  import opened RoundRobin
  import opened Sums

  type JobId = nat

  /** The history of a job: when it was submitted, when it may start, where and when it did. */
  datatype Job = Job(registered: int, due: int, deque: Option<nat>, ticket: nat, started: Option<int>)

  /** A scheduled_job in m_jobs. */
  datatype Entry = Entry(at: int, j: JobId)

  datatype Timer =
    | Checking                                     // about to read m_running
    | Locking                                      // has read true, about to lock
    | Waiting(notified: bool)                      // wait with the predicate
    | WaitingUntil(until: int, notified: bool)     // wait_until, without one
    | HandingOff(j: JobId)                         // popped, about to call queue_job
    | Queueing(j: JobId, q: nat)                   // in queue_job, ticket drawn
    | Waking                                       // job pushed, about to notify the pool
    | Exited

  datatype Client =
    | Idle
    | Timing(j: JobId)                             // deadline computed, about to lock
    | NotifyingTimer                               // m_jobs or m_running changed, about to notify
    | Submitting(j: JobId, q: nat)                 // in queue_job, ticket drawn
    | NotifyingPool                                // deque or flag changed, about to notify

  datatype Worker =
    | Ready                                        // about to lock and test the wait predicate
    | Asleep(notified: bool)
    | Busy(j: JobId)
    | BusyEmpty                                    // invoking a default-constructed job
    | Gone

  datatype State = State(
    jobs: seq<Job>,
    heap: seq<Entry>,          // m_jobs; any entry with the least time may be its top
    running: bool,             // m_running
    timer: Timer,
    clients: seq<Client>,
    deques: seq<seq<JobId>>,   // m_job_stack
    accept: bool,              // m_accept_jobs
    next: nat,                 // next_queue
    pushes: nat,               // jobs pushed so far
    workers: seq<Worker>,
    finished: seq<JobId>,
    dropped: seq<JobId>,
    handed: nat,               // jobs the timer thread has pushed
    now: int)

  datatype Event =
    | Tick(ms: nat)
    | Register(c: nat, delay: int)    // execute_after reads the clock
    | Insert(c: nat)                  // execute_at_impl under m_lock
    | Stop(c: nat)                    // destroy_impl clears m_running
    | NotifyTimer(c: nat)
    | Submit(c: nat)                  // queue_job draws a ticket
    | Push(c: nat)                    // queue_job under m_lock
    | Shutdown(c: nat)                // thread_pool::destroy clears m_accept_jobs
    | NotifyPool(c: nat)
    | Check
    | Lock(top: nat)
    | Wake
    | Draw
    | HandOver
    | WakePool
    | Take(w: nat)
    | Finish(w: nat)
    | Clear                           // destroy, after joining all workers

  function Init(clients: nat, workers: nat, now: int): State {
    State([], [], true, Checking, seq(clients, i => Idle), seq(workers, i => []), true, 0, 0,
          seq(workers, i => Ready), [], [], 0, now)
  }

  // ---------------------------------------------------------------- the pool's worker loop

  /** The predicate of the worker's wait: only its own deque is looked at. */
  predicate WaitOver(deques: seq<seq<JobId>>, accept: bool, w: nat)
    requires w < |deques|
  {
    deques[w] != [] || !accept
  }

  datatype Taken = Leave | Got(deques: seq<seq<JobId>>, j: JobId) | GotNothing

  /** thread_pool::run for worker w, from the end of the wait to the unlock. */
  function TakeJob(deques: seq<seq<JobId>>, accept: bool, w: nat): Taken
    requires w < |deques|
  {
    if !accept then Leave
    else if deques[w] != [] then Got(deques[w := deques[w][1..]], deques[w][0])
    else if |deques| > 1 then StealFrom(deques, w, 0)
    else GotNothing
  }

  /** The k-th deque after w's own, in the order in which worker w looks for a victim. */
  function VictimAt(n: nat, w: nat, k: nat): (v: nat)
    requires n > 0
    ensures v < n
  {
    Around(w + k + 1, n)
  }

  /** A deque that worker w may steal from: another one with at least four jobs. */
  predicate Robbable(deques: seq<seq<JobId>>, w: nat, v: nat) {
    v < |deques| && v != w && |deques[v]| >= 4
  }

  /** The loop over victims. */
  function StealFrom(deques: seq<seq<JobId>>, w: nat, i: nat): (t: Taken)
    requires w < |deques| && i <= |deques|
    ensures !t.Leave?
    ensures t.GotNothing? ==>
      forall k :: i <= k < |deques| ==> !Robbable(deques, w, VictimAt(|deques|, w, k))
    ensures t.Got? ==> exists k :: i <= k < |deques| && Robs(deques, w, k, t)
                                   && forall m :: i <= m < k ==> !Robbable(deques, w, VictimAt(|deques|, w, m))
    decreases |deques| - i
  {
    if i == |deques| then GotNothing
    else
      var victim := VictimAt(|deques|, w, i);
      if |deques[victim]| >= 4 && victim != w then
        var n := |deques[victim]| - 1;
        var got := Got(deques[victim := deques[victim][..n]], deques[victim][n]);
        assert Robs(deques, w, i, got);
        got
      else StealFrom(deques, w, i + 1)
  }

  /** The oldest job of the k-th deque after w's own is taken, and nothing else. */
  predicate Robs(deques: seq<seq<JobId>>, w: nat, k: nat, t: Taken)
    requires deques != []
  {
    var v := VictimAt(|deques|, w, k);
    && Robbable(deques, w, v)
    && var n := |deques[v]| - 1;
       t == Got(deques[v := deques[v][..n]], deques[v][n])
  }

  // ---------------------------------------------------------------- events

  predicate IsTop(heap: seq<Entry>, i: nat) {
    i < |heap| && forall k :: 0 <= k < |heap| ==> heap[i].at <= heap[k].at
  }

  predicate Doing(s: State, c: nat, what: Client) {
    c < |s.clients| && s.clients[c] == what
  }

  /** Nobody is inside queue_job. */
  predicate NoneQueueing(s: State) {
    && !s.timer.HandingOff? && !s.timer.Queueing?
    && forall c :: 0 <= c < |s.clients| ==> !s.clients[c].Submitting?
  }

  ghost predicate Enabled(s: State, e: Event) {
    match e
    case Tick(_) => true
    case Register(c, _) => Doing(s, c, Idle)
    case Insert(c) => c < |s.clients| && s.clients[c].Timing? && s.clients[c].j < |s.jobs|
    case Stop(c) => Doing(s, c, Idle)
    case NotifyTimer(c) => Doing(s, c, NotifyingTimer)
    case Submit(c) => Doing(s, c, Idle) && s.deques != []
    case Push(c) =>
      c < |s.clients| && s.clients[c].Submitting? && s.clients[c].q < |s.deques| && s.clients[c].j < |s.jobs|
    case Shutdown(c) => Doing(s, c, Idle)
    case NotifyPool(c) => Doing(s, c, NotifyingPool)
    case Check => s.timer.Checking?
    case Lock(top) => s.timer.Locking? && (s.heap == [] || IsTop(s.heap, top))
    case Wake => s.timer.Waiting? || s.timer.WaitingUntil?   // notified, timed out or spurious
    case Draw => s.timer.HandingOff? && s.deques != []
    case HandOver => s.timer.Queueing? && s.timer.q < |s.deques| && s.timer.j < |s.jobs|
    case WakePool => s.timer.Waking?
    case Take(w) => w < |s.workers| && w < |s.deques| && (s.workers[w].Ready? || s.workers[w].Asleep?)
                    && forall i :: 0 <= i < |s.deques[w]| ==> s.deques[w][i] < |s.jobs|
    case Finish(w) => w < |s.workers| && (s.workers[w].Busy? || s.workers[w].BusyEmpty?)
    case Clear =>
      !s.accept && NoneQueueing(s) && forall w :: 0 <= w < |s.workers| ==> s.workers[w].Gone?
  }

  ghost function Apply(s: State, e: Event): State {
    if !Enabled(s, e) then s else
    match e
    case Tick(ms) => s.(now := s.now + ms)
    case Register(c, delay) =>
      s.(jobs := s.jobs + [Job(s.now, s.now + delay, None, 0, None)],
         clients := s.clients[c := Timing(|s.jobs|)])
    case Insert(c) =>
      var j := s.clients[c].j;
      s.(heap := s.heap + [Entry(s.jobs[j].due, j)], clients := s.clients[c := NotifyingTimer])
    case Stop(c) => s.(running := false, clients := s.clients[c := NotifyingTimer])
    case NotifyTimer(c) => s.(timer := Notified(s.timer), clients := s.clients[c := Idle])
    case Submit(c) =>
      s.(jobs := s.jobs + [Job(s.now, s.now, None, 0, None)], next := s.next + 1,
         clients := s.clients[c := Submitting(|s.jobs|, Around(s.next, |s.deques|))])
    case Push(c) =>
      PushJob(s, s.clients[c].j, s.clients[c].q).(clients := s.clients[c := NotifyingPool])
    case Shutdown(c) => s.(accept := false, clients := s.clients[c := NotifyingPool])
    case NotifyPool(c) => s.(workers := Roused(s.workers), clients := s.clients[c := Idle])
    case Check => s.(timer := if s.running then Locking else Exited)
    case Lock(top) => LockStep(s, top)
    case Wake => WakeStep(s)
    case Draw => s.(timer := Queueing(s.timer.j, Around(s.next, |s.deques|)), next := s.next + 1)
    case HandOver => PushJob(s, s.timer.j, s.timer.q).(timer := Waking, handed := s.handed + 1)
    case WakePool => s.(workers := Roused(s.workers), timer := Checking)
    case Take(w) => TakeStep(s, w)
    case Finish(w) =>
      s.(finished := if s.workers[w].Busy? then s.finished + [s.workers[w].j] else s.finished,
         workers := s.workers[w := Ready])
    case Clear => s.(dropped := s.dropped + Flat(s.deques), deques := [])
  }

  function Notified(t: Timer): Timer {
    match t
    case Waiting(_) => Waiting(true)
    case WaitingUntil(u, _) => WaitingUntil(u, true)
    case _ => t
  }

  function Roused(workers: seq<Worker>): seq<Worker> {
    seq(|workers|, w requires 0 <= w < |workers| => if workers[w].Asleep? then Asleep(true) else workers[w])
  }

  /** queue_job under m_lock. */
  function PushJob(s: State, j: JobId, q: nat): State
    requires j < |s.jobs| && q < |s.deques|
  {
    s.(jobs := s.jobs[j := s.jobs[j].(deque := Some(q), ticket := s.pushes)],
       deques := s.deques[q := [j] + s.deques[q]], pushes := s.pushes + 1)
  }

  /** scheduler::run under m_lock, with the given entry on top of the heap. */
  function LockStep(s: State, top: nat): State
    requires s.heap == [] || top < |s.heap|
  {
    if s.heap == [] then s.(timer := if s.running then Waiting(false) else Checking)
    else if s.now >= s.heap[top].at then
      s.(heap := s.heap[..top] + s.heap[top + 1..], timer := HandingOff(s.heap[top].j))
    else s.(timer := WaitingUntil(s.heap[top].at, false))
  }

  /** The condition variable lets go; wait tests its predicate again, wait_until does not. */
  function WakeStep(s: State): State {
    if s.timer.Waiting? && s.heap == [] && s.running then s.(timer := Waiting(false))
    else s.(timer := Checking)
  }

  function TakeStep(s: State, w: nat): State
    requires w < |s.workers| && w < |s.deques|
  {
    if !WaitOver(s.deques, s.accept, w) then s.(workers := s.workers[w := Asleep(false)]) else
    match TakeJob(s.deques, s.accept, w)
    case Leave => s.(workers := s.workers[w := Gone])
    case Got(deques', j) =>
      s.(deques := deques', workers := s.workers[w := Busy(j)],
         jobs := if j < |s.jobs| then s.jobs[j := s.jobs[j].(started := Some(s.now))] else s.jobs)
    case GotNothing => s.(workers := s.workers[w := BusyEmpty])
  }

  function Flat(deques: seq<seq<JobId>>): seq<JobId> {
    if deques == [] then [] else deques[0] + Flat(deques[1..])
  }

  ghost function Run(s: State, events: seq<Event>): State
    decreases |events|
  {
    if events == [] then s else Run(Apply(s, events[0]), events[1..])
  }

  // ---------------------------------------------------------------- places

  function Is(j: JobId, k: JobId): nat {
    if j == k then 1 else 0
  }

  function InHeap(j: JobId): Entry -> nat {
    (e: Entry) => Is(j, e.j)
  }

  function InDeque(j: JobId): seq<JobId> -> nat {
    (deque: seq<JobId>) => multiset(deque)[j]
  }

  function WithTimer(t: Timer, j: JobId): nat {
    match t
    case HandingOff(k) => Is(j, k)
    case Queueing(k, _) => Is(j, k)
    case _ => 0
  }

  function WithClient(j: JobId): Client -> nat {
    (c: Client) =>
      match c
      case Timing(k) => Is(j, k)
      case Submitting(k, _) => Is(j, k)
      case _ => 0
  }

  function WithWorker(j: JobId): Worker -> nat {
    (w: Worker) => if w.Busy? then Is(j, w.j) else 0
  }

  /** In how many places a job is. */
  function Places(s: State, j: JobId): nat {
    Sum(InHeap(j), s.heap) + WithTimer(s.timer, j) + Sum(WithClient(j), s.clients)
    + Sum(InDeque(j), s.deques) + Sum(WithWorker(j), s.workers)
    + multiset(s.finished)[j] + multiset(s.dropped)[j]
  }

  // ---------------------------------------------------------------- the invariant

  ghost predicate Conserved(s: State) {
    forall j: JobId :: Places(s, j) == if j < |s.jobs| then 1 else 0
  }

  /** Submitted to the timed scheduler only. */
  ghost predicate Timed(jobs: seq<Job>, j: JobId) {
    j < |jobs| && jobs[j].started.None? && jobs[j].deque.None?
  }

  ghost predicate Due(jobs: seq<Job>, now: int, j: JobId) {
    j < |jobs| && jobs[j].started.None? && jobs[j].due <= now
  }

  ghost predicate Queued(jobs: seq<Job>, now: int, pushes: nat, j: JobId, q: nat) {
    Due(jobs, now, j) && jobs[j].deque == Some(q) && jobs[j].ticket < pushes
  }

  ghost predicate Started(jobs: seq<Job>, now: int, j: JobId) {
    && j < |jobs| && jobs[j].started.Some? && jobs[j].deque.Some?
    && jobs[j].due <= jobs[j].started.value <= now
  }

  ghost predicate HeapOk(heap: seq<Entry>, jobs: seq<Job>) {
    forall i :: 0 <= i < |heap| ==> Timed(jobs, heap[i].j) && heap[i].at == jobs[heap[i].j].due
  }

  ghost predicate TimerOk(t: Timer, jobs: seq<Job>, now: int) {
    match t
    case HandingOff(j) => Due(jobs, now, j)
    case Queueing(j, _) => Due(jobs, now, j)
    case _ => true
  }

  ghost predicate ClientOk(c: Client, jobs: seq<Job>, now: int) {
    match c
    case Timing(j) => Timed(jobs, j)
    case Submitting(j, _) => Due(jobs, now, j)
    case _ => true
  }

  ghost predicate ClientsOk(clients: seq<Client>, jobs: seq<Job>, now: int) {
    forall c :: 0 <= c < |clients| ==> ClientOk(clients[c], jobs, now)
  }

  /** A deque holds due jobs that were pushed to it, the latest in front. */
  ghost predicate DequeOk(deque: seq<JobId>, q: nat, jobs: seq<Job>, now: int, pushes: nat) {
    && (forall i :: 0 <= i < |deque| ==> Queued(jobs, now, pushes, deque[i], q))
    && (forall i, k :: 0 <= i < k < |deque| ==> jobs[deque[i]].ticket > jobs[deque[k]].ticket)
  }

  ghost predicate DequesOk(deques: seq<seq<JobId>>, jobs: seq<Job>, now: int, pushes: nat) {
    forall q :: 0 <= q < |deques| ==> DequeOk(deques[q], q, jobs, now, pushes)
  }

  /** A worker runs a job that was pushed to its own deque; it never runs an empty one. */
  ghost predicate WorkerOk(worker: Worker, w: nat, jobs: seq<Job>, now: int) {
    !worker.BusyEmpty? && (worker.Busy? ==> Started(jobs, now, worker.j) && jobs[worker.j].deque == Some(w))
  }

  ghost predicate WorkersOk(workers: seq<Worker>, jobs: seq<Job>, now: int) {
    forall w :: 0 <= w < |workers| ==> WorkerOk(workers[w], w, jobs, now)
  }

  ghost predicate OverOk(finished: seq<JobId>, dropped: seq<JobId>, jobs: seq<Job>, now: int) {
    && (forall i :: 0 <= i < |finished| ==> Started(jobs, now, finished[i]))
    && (forall i :: 0 <= i < |dropped| ==> dropped[i] < |jobs| && jobs[dropped[i]].started.None?)
  }

  ghost predicate JobsOk(jobs: seq<Job>, now: int) {
    forall j :: 0 <= j < |jobs| && jobs[j].started.Some? ==> Started(jobs, now, j)
  }

  /** Whoever sleeps unnotified has nothing to do, or a notification is on its way. */
  ghost predicate Wakeups(s: State) {
    && (s.timer == Waiting(false) && (s.heap != [] || !s.running) ==> TimerNotice(s.clients))
    && (s.timer.WaitingUntil? && !s.timer.notified ==>
          TimerNotice(s.clients) || EarliestAt(s.heap, s.timer.until))
    && (forall w :: 0 <= w < |s.workers| && s.workers[w] == Asleep(false) && w < |s.deques| && WaitOver(s.deques, s.accept, w) ==>
          s.timer.Waking? || PoolNotice(s.clients))
  }

  ghost predicate EarliestAt(heap: seq<Entry>, time: int) {
    exists i: nat :: IsTop(heap, i) && heap[i].at == time
  }

  ghost predicate TimerNotice(clients: seq<Client>) {
    exists c :: 0 <= c < |clients| && clients[c].NotifyingTimer?
  }

  ghost predicate PoolNotice(clients: seq<Client>) {
    exists c :: 0 <= c < |clients| && clients[c].NotifyingPool?
  }

  ghost predicate Inv(s: State) {
    && (|s.deques| == |s.workers| || (s.deques == [] && !s.accept))
    && Conserved(s) && HeapOk(s.heap, s.jobs) && TimerOk(s.timer, s.jobs, s.now)
    && ClientsOk(s.clients, s.jobs, s.now) && DequesOk(s.deques, s.jobs, s.now, s.pushes)
    && WorkersOk(s.workers, s.jobs, s.now) && OverOk(s.finished, s.dropped, s.jobs, s.now)
    && JobsOk(s.jobs, s.now) && Wakeups(s)
  }
}
