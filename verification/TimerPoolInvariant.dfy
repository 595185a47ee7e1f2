/** Every event of the timer pipeline keeps its invariant, so every schedule does. */
module TimerPoolInvariant {
  import opened Options
  import opened RoundRobin
  import opened Sums
  import opened TimerPool

  // ---------------------------------------------------------------- one job changes

  /** Only job x may change; jobs may be added and time may pass. */
  ghost predicate JobsBut(jobs: seq<Job>, jobs': seq<Job>, x: JobId) {
    |jobs| <= |jobs'| && forall j :: 0 <= j < |jobs| && j != x ==> jobs'[j] == jobs[j]
  }

  lemma HeapKeep(heap: seq<Entry>, jobs: seq<Job>, jobs': seq<Job>, x: JobId)
    requires HeapOk(heap, jobs) && JobsBut(jobs, jobs', x)
    requires forall i :: 0 <= i < |heap| ==> heap[i].j != x
    ensures HeapOk(heap, jobs')
  {
    forall i | 0 <= i < |heap| ensures Timed(jobs', heap[i].j) && heap[i].at == jobs'[heap[i].j].due {
      assert Timed(jobs, heap[i].j);
    }
  }

  lemma ClientsKeep(clients: seq<Client>, jobs: seq<Job>, jobs': seq<Job>, now: int, now': int, x: JobId)
    requires ClientsOk(clients, jobs, now) && JobsBut(jobs, jobs', x) && now <= now'
    requires forall c :: 0 <= c < |clients| ==> WithClient(x)(clients[c]) == 0
    ensures ClientsOk(clients, jobs', now')
  {
    forall c | 0 <= c < |clients| ensures ClientOk(clients[c], jobs', now') {
      assert ClientOk(clients[c], jobs, now);
    }
  }

  lemma DequeKeep(deque: seq<JobId>, q: nat, jobs: seq<Job>, jobs': seq<Job>, now: int, now': int,
                  pushes: nat, pushes': nat, x: JobId)
    requires DequeOk(deque, q, jobs, now, pushes) && JobsBut(jobs, jobs', x) && now <= now' && pushes <= pushes'
    requires x !in deque
    ensures DequeOk(deque, q, jobs', now', pushes')
  {
    forall i | 0 <= i < |deque|
      ensures Queued(jobs', now', pushes', deque[i], q) && jobs'[deque[i]] == jobs[deque[i]]
    {
      assert Queued(jobs, now, pushes, deque[i], q);
      assert deque[i] in deque;
    }
  }

  lemma DequesKeep(deques: seq<seq<JobId>>, jobs: seq<Job>, jobs': seq<Job>, now: int, now': int,
                   pushes: nat, pushes': nat, x: JobId)
    requires DequesOk(deques, jobs, now, pushes) && JobsBut(jobs, jobs', x) && now <= now' && pushes <= pushes'
    requires forall q :: 0 <= q < |deques| ==> InDeque(x)(deques[q]) == 0
    ensures DequesOk(deques, jobs', now', pushes')
  {
    forall q | 0 <= q < |deques| ensures DequeOk(deques[q], q, jobs', now', pushes') {
      assert x !in multiset(deques[q]);
      DequeKeep(deques[q], q, jobs, jobs', now, now', pushes, pushes', x);
    }
  }

  lemma WorkersKeep(workers: seq<Worker>, jobs: seq<Job>, jobs': seq<Job>, now: int, now': int, x: JobId)
    requires WorkersOk(workers, jobs, now) && JobsBut(jobs, jobs', x) && now <= now'
    requires forall w :: 0 <= w < |workers| ==> WithWorker(x)(workers[w]) == 0
    ensures WorkersOk(workers, jobs', now')
  {
    forall w | 0 <= w < |workers| ensures WorkerOk(workers[w], w, jobs', now') {
      assert WorkerOk(workers[w], w, jobs, now);
    }
  }

  lemma OverKeep(finished: seq<JobId>, dropped: seq<JobId>, jobs: seq<Job>, jobs': seq<Job>, now: int, now': int, x: JobId)
    requires OverOk(finished, dropped, jobs, now) && JobsBut(jobs, jobs', x) && now <= now'
    requires multiset(finished)[x] == 0 && multiset(dropped)[x] == 0
    ensures OverOk(finished, dropped, jobs', now')
  {
    forall i | 0 <= i < |finished| ensures Started(jobs', now', finished[i]) {
      assert finished[i] in multiset(finished);
      assert Started(jobs, now, finished[i]);
    }
    forall i | 0 <= i < |dropped| ensures dropped[i] < |jobs'| && jobs'[dropped[i]].started.None? {
      assert dropped[i] in multiset(dropped);
    }
  }

  lemma JobsKeep(jobs: seq<Job>, jobs': seq<Job>, now: int, now': int, x: JobId)
    requires JobsOk(jobs, now) && JobsBut(jobs, jobs', x) && now <= now' && |jobs'| == |jobs|
    requires x < |jobs| && (jobs'[x].started.Some? ==> Started(jobs', now', x))
    ensures JobsOk(jobs', now')
  {
    forall j | 0 <= j < |jobs'| && jobs'[j].started.Some? ensures Started(jobs', now', j) {
      if j != x { assert Started(jobs, now, j); }
    }
  }

  /** A job held somewhere is nowhere else. */
  lemma Nowhere(s: State, x: JobId)
    requires Conserved(s)
    ensures x >= |s.jobs| || WithTimer(s.timer, x) + Sum(InDeque(x), s.deques) > 0 ==>
      forall c :: 0 <= c < |s.clients| ==> WithClient(x)(s.clients[c]) == 0
    ensures x >= |s.jobs| || WithTimer(s.timer, x) + Sum(WithClient(x), s.clients) > 0 ==>
      forall q :: 0 <= q < |s.deques| ==> InDeque(x)(s.deques[q]) == 0
    ensures x >= |s.jobs| || WithTimer(s.timer, x) + Sum(InDeque(x), s.deques) + Sum(WithClient(x), s.clients) > 0 ==>
      && (forall i :: 0 <= i < |s.heap| ==> s.heap[i].j != x)
      && (forall w :: 0 <= w < |s.workers| ==> WithWorker(x)(s.workers[w]) == 0)
      && multiset(s.finished)[x] == 0 && multiset(s.dropped)[x] == 0
    ensures x >= |s.jobs| || Sum(WithClient(x), s.clients) > 0 ==> WithTimer(s.timer, x) == 0
  {
    hide Sum;
    assert Places(s, x) <= 1;
    if Sum(WithClient(x), s.clients) == 0 { SumNone(WithClient(x), s.clients); }
    if Sum(InDeque(x), s.deques) == 0 { SumNone(InDeque(x), s.deques); }
    if Sum(InHeap(x), s.heap) == 0 {
      SumNone(InHeap(x), s.heap);
      assert forall i :: 0 <= i < |s.heap| ==> InHeap(x)(s.heap[i]) == 0;
    }
    if Sum(WithWorker(x), s.workers) == 0 { SumNone(WithWorker(x), s.workers); }
  }

  // ---------------------------------------------------------------- conservation

  /** Places and jobs change together. */
  ghost predicate Balanced(s: State, s': State, j: JobId) {
    Places(s', j) + (if j < |s.jobs| then 1 else 0) == Places(s, j) + (if j < |s'.jobs| then 1 else 0)
  }

  lemma BalancedKeeps(s: State, s': State)
    requires Conserved(s) && forall j: JobId :: Balanced(s, s', j)
    ensures Conserved(s')
  {
    hide Sum, Places;
    forall j: JobId ensures Places(s', j) == if j < |s'.jobs| then 1 else 0 {
      assert Balanced(s, s', j);
    }
  }

  // ---------------------------------------------------------------- wakeups

  lemma NoticeStays(clients: seq<Client>, c: nat, k: Client)
    requires c < |clients|
    ensures TimerNotice(clients) && !clients[c].NotifyingTimer? ==> TimerNotice(clients[c := k])
    ensures PoolNotice(clients) && !clients[c].NotifyingPool? ==> PoolNotice(clients[c := k])
    ensures k.NotifyingTimer? ==> TimerNotice(clients[c := k])
    ensures k.NotifyingPool? ==> PoolNotice(clients[c := k])
  {
    var clients' := clients[c := k];
    if TimerNotice(clients) && !clients[c].NotifyingTimer? {
      var d :| 0 <= d < |clients| && clients[d].NotifyingTimer?;
      assert clients'[d].NotifyingTimer?;
    }
    if PoolNotice(clients) && !clients[c].NotifyingPool? {
      var d :| 0 <= d < |clients| && clients[d].NotifyingPool?;
      assert clients'[d].NotifyingPool?;
    }
    assert clients'[c] == k;
  }

  // ---------------------------------------------------------------- client events

  lemma RegisterBalanced(s: State, c: nat, job: Job, k: Client, next: nat, j: JobId)
    requires c < |s.clients| && s.clients[c].Idle?
    requires k == Timing(|s.jobs|) || (k.Submitting? && k.j == |s.jobs|)
    ensures Balanced(s, s.(jobs := s.jobs + [job], next := next, clients := s.clients[c := k]), j)
  {
    hide Sum;
    SumUpdate(WithClient(j), s.clients, c, k);
  }

  /** A new job comes into being in the hands of a client. */
  lemma NewJobKeeps(s: State, c: nat, job: Job, k: Client, next: nat)
    requires Inv(s) && c < |s.clients| && s.clients[c].Idle?
    requires job.started.None? && job.deque.None?
    requires k == Timing(|s.jobs|) || (k.Submitting? && k.j == |s.jobs| && job.due <= s.now)
    ensures Inv(s.(jobs := s.jobs + [job], next := next, clients := s.clients[c := k]))
  {
    hide Sum, Places;
    var s' := s.(jobs := s.jobs + [job], next := next, clients := s.clients[c := k]);
    var x := |s.jobs|;
    forall j: JobId ensures Balanced(s, s', j) { RegisterBalanced(s, c, job, k, next, j); }
    BalancedKeeps(s, s');
    Nowhere(s, x);
    HeapKeep(s.heap, s.jobs, s'.jobs, x);
    ClientsKeep(s.clients, s.jobs, s'.jobs, s.now, s.now, x);
    DequesKeep(s.deques, s.jobs, s'.jobs, s.now, s.now, s.pushes, s.pushes, x);
    WorkersKeep(s.workers, s.jobs, s'.jobs, s.now, s.now, x);
    OverKeep(s.finished, s.dropped, s.jobs, s'.jobs, s.now, s.now, x);
    assert JobsOk(s'.jobs, s.now) by {
      forall j | 0 <= j < |s'.jobs| && s'.jobs[j].started.Some? ensures Started(s'.jobs, s.now, j) {
        assert Started(s.jobs, s.now, j);
      }
    }
    NoticeStays(s.clients, c, k);
  }

  lemma InsertKeeps(s: State, c: nat)
    requires Inv(s) && Enabled(s, Insert(c))
    ensures Inv(Apply(s, Insert(c)))
  {
    hide Sum;
    var j := s.clients[c].j;
    var s' := Apply(s, Insert(c));
    assert ClientOk(s.clients[c], s.jobs, s.now);
    forall k: JobId ensures Balanced(s, s', k) {
      SumAppend(InHeap(k), s.heap, Entry(s.jobs[j].due, j));
      SumUpdate(WithClient(k), s.clients, c, NotifyingTimer);
    }
    InsertPlaces(s, s', c);
  }

  lemma InsertPlaces(s: State, s': State, c: nat)
    requires Inv(s) && Enabled(s, Insert(c)) && s' == Apply(s, Insert(c))
    requires forall j: JobId :: Balanced(s, s', j)
    ensures Inv(s')
  {
    hide Sum, Places;
    BalancedKeeps(s, s');
    assert ClientOk(s.clients[c], s.jobs, s.now);
    NoticeStays(s.clients, c, NotifyingTimer);
  }

  lemma PushBalanced(s: State, s': State, x: JobId, q: nat, j: JobId)
    requires x < |s.jobs| && q < |s.deques|
    requires |s'.jobs| == |s.jobs| && s'.jobs == s.jobs[x := s'.jobs[x]]
    requires s'.deques == s.deques[q := [x] + s.deques[q]]
    requires s'.heap == s.heap && s'.workers == s.workers && s'.finished == s.finished && s'.dropped == s.dropped
    requires WithTimer(s'.timer, j) + Sum(WithClient(j), s'.clients) + Is(j, x)
          == WithTimer(s.timer, j) + Sum(WithClient(j), s.clients)
    ensures Balanced(s, s', j)
  {
    hide Sum;
    SumUpdate(InDeque(j), s.deques, q, [x] + s.deques[q]);
  }

  /** A job in hand is pushed to the front of a deque. */
  lemma PushPlaces(s: State, s': State, x: JobId, q: nat)
    requires Inv(s) && Due(s.jobs, s.now, x) && q < |s.deques|
    requires WithTimer(s.timer, x) + Sum(WithClient(x), s.clients) > 0
    requires s'.jobs == PushJob(s, x, q).jobs && s'.deques == PushJob(s, x, q).deques && s'.pushes == s.pushes + 1
    ensures HeapOk(s.heap, s'.jobs) && DequesOk(s'.deques, s'.jobs, s.now, s'.pushes)
    ensures WorkersOk(s.workers, s'.jobs, s.now) && OverOk(s.finished, s.dropped, s'.jobs, s.now)
    ensures JobsOk(s'.jobs, s.now)
  {
    hide Sum, Places;
    Nowhere(s, x);
    HeapKeep(s.heap, s.jobs, s'.jobs, x);
    DequesKeep(s.deques, s.jobs, s'.jobs, s.now, s.now, s.pushes, s'.pushes, x);
    assert DequeOk(s.deques[q], q, s'.jobs, s.now, s'.pushes);
    assert DequeOk([x] + s.deques[q], q, s'.jobs, s.now, s'.pushes) by {
      forall i | 0 <= i < |s.deques[q]|
        ensures s'.jobs[s.deques[q][i]].ticket < s.pushes
      {
        assert Queued(s.jobs, s.now, s.pushes, s.deques[q][i], q) by { assert DequeOk(s.deques[q], q, s.jobs, s.now, s.pushes); }
        assert s.deques[q][i] in multiset(s.deques[q]);
      }
    }
    WorkersKeep(s.workers, s.jobs, s'.jobs, s.now, s.now, x);
    OverKeep(s.finished, s.dropped, s.jobs, s'.jobs, s.now, s.now, x);
    JobsKeep(s.jobs, s'.jobs, s.now, s.now, x);
  }

  lemma ClientPushKeeps(s: State, c: nat)
    requires Inv(s) && Enabled(s, Push(c))
    ensures Inv(Apply(s, Push(c)))
  {
    hide Sum;
    var x, q := s.clients[c].j, s.clients[c].q;
    var s' := Apply(s, Push(c));
    forall j: JobId ensures Balanced(s, s', j) {
      SumUpdate(WithClient(j), s.clients, c, NotifyingPool);
      PushBalanced(s, s', x, q, j);
    }
    SumHas(WithClient(x), s.clients, c);
    ClientPushPlaces(s, s', c);
  }

  lemma ClientPushPlaces(s: State, s': State, c: nat)
    requires Inv(s) && Enabled(s, Push(c)) && s' == Apply(s, Push(c))
    requires Sum(WithClient(s.clients[c].j), s.clients) > 0
    requires forall j: JobId :: Balanced(s, s', j)
    ensures Inv(s')
  {
    hide Sum, Places;
    var x, q := s.clients[c].j, s.clients[c].q;
    BalancedKeeps(s, s');
    assert ClientOk(s.clients[c], s.jobs, s.now);
    PushPlaces(s, s', x, q);
    OtherClients(s, s', c, x);
    Nowhere(s, x);
    NoticeStays(s.clients, c, NotifyingPool);
  }

  /** The other clients do not hold the job that this one gives away. */
  lemma OtherClients(s: State, s': State, c: nat, x: JobId)
    requires Inv(s) && c < |s.clients| && WithClient(x)(s.clients[c]) > 0
    requires JobsBut(s.jobs, s'.jobs, x) && s'.clients == s.clients[c := NotifyingPool]
    ensures ClientsOk(s'.clients, s'.jobs, s.now)
  {
    hide Sum;
    assert Places(s, x) <= 1;
    forall d | 0 <= d < |s'.clients| ensures ClientOk(s'.clients[d], s'.jobs, s.now) {
      if d != c {
        SumHasTwo(WithClient(x), s.clients, c, d);
        assert ClientOk(s.clients[d], s.jobs, s.now);
      }
    }
  }

  // ---------------------------------------------------------------- timer events

  lemma LockBalanced(s: State, top: nat, j: JobId)
    requires s.timer.Locking? && (s.heap == [] || top < |s.heap|)
    ensures Balanced(s, LockStep(s, top), j)
  {
    hide Sum;
    if s.heap != [] { SumRemove(InHeap(j), s.heap, top); }
  }

  lemma LockKeeps(s: State, top: nat)
    requires Inv(s) && s.timer.Locking? && (s.heap == [] || IsTop(s.heap, top))
    ensures Inv(LockStep(s, top))
  {
    hide Sum, Places;
    var s' := LockStep(s, top);
    forall j: JobId ensures Balanced(s, s', j) { LockBalanced(s, top, j); }
    BalancedKeeps(s, s');
    if s.heap != [] { assert Timed(s.jobs, s.heap[top].j); }
    assert HeapOk(s'.heap, s'.jobs);
  }

  lemma HandOverKeeps(s: State)
    requires Inv(s) && Enabled(s, HandOver)
    ensures Inv(Apply(s, HandOver))
  {
    hide Sum;
    var s' := Apply(s, HandOver);
    forall j: JobId ensures Balanced(s, s', j) { PushBalanced(s, s', s.timer.j, s.timer.q, j); }
    HandOverPlaces(s, s');
  }

  lemma HandOverPlaces(s: State, s': State)
    requires Inv(s) && Enabled(s, HandOver) && s' == Apply(s, HandOver)
    requires forall j: JobId :: Balanced(s, s', j)
    ensures Inv(s')
  {
    hide Sum, Places;
    var x := s.timer.j;
    BalancedKeeps(s, s');
    PushPlaces(s, s', x, s.timer.q);
    Nowhere(s, x);
    ClientsKeep(s.clients, s.jobs, s'.jobs, s.now, s.now, x);
  }

  // ---------------------------------------------------------------- workers

  lemma RousedSame(workers: seq<Worker>, j: JobId)
    ensures Sum(WithWorker(j), Roused(workers)) == Sum(WithWorker(j), workers)
    decreases |workers|
  {
    if workers != [] {
      assert Roused(workers)[1..] == Roused(workers[1..]);
      RousedSame(workers[1..], j);
    }
  }

  /** Waking sleeping workers moves no job. */
  lemma RouseKeeps(s: State, timer: Timer, clients: seq<Client>)
    requires Inv(s)
    requires || (s.timer.Waking? && timer.Checking? && clients == s.clients)
             || (timer == s.timer && exists c :: 0 <= c < |s.clients| && s.clients[c].NotifyingPool? && clients == s.clients[c := Idle])
    ensures Inv(s.(workers := Roused(s.workers), timer := timer, clients := clients))
  {
    hide Sum;
    var s' := s.(workers := Roused(s.workers), timer := timer, clients := clients);
    if clients != s.clients {
      var c :| 0 <= c < |s.clients| && s.clients[c].NotifyingPool? && clients == s.clients[c := Idle];
      NoticeStays(s.clients, c, Idle);
      forall j: JobId ensures Balanced(s, s', j) {
        RousedSame(s.workers, j);
        SumUpdate(WithClient(j), s.clients, c, Idle);
      }
    } else {
      forall j: JobId ensures Balanced(s, s', j) { RousedSame(s.workers, j); }
    }
    RousePlaces(s, s');
  }

  lemma RousePlaces(s: State, s': State)
    requires Inv(s) && s' == s.(workers := Roused(s.workers), timer := s'.timer, clients := s'.clients)
    requires s'.timer == s.timer || (s.timer.Waking? && s'.timer.Checking?)
    requires s'.clients == s.clients ||
             exists c :: 0 <= c < |s.clients| && s'.clients == s.clients[c := Idle] && s.clients[c].NotifyingPool?
    requires TimerNotice(s.clients) ==> TimerNotice(s'.clients)
    requires forall j: JobId :: Balanced(s, s', j)
    ensures Inv(s')
  {
    hide Sum, Places;
    BalancedKeeps(s, s');
    assert ClientsOk(s'.clients, s'.jobs, s'.now);
    forall w | 0 <= w < |s'.workers| ensures WorkerOk(s'.workers[w], w, s.jobs, s.now) {
      assert WorkerOk(s.workers[w], w, s.jobs, s.now);
    }
  }

  /**
   The wait predicate makes the steal branch unreachable: whoever gets past the wait takes
   the front of its own deque or leaves; it never steals and never runs an empty job.
   */
  lemma StealIsUnreachable(deques: seq<seq<JobId>>, accept: bool, w: nat)
    requires w < |deques| && WaitOver(deques, accept, w)
    ensures TakeJob(deques, accept, w)
         == if accept then Got(deques[w := deques[w][1..]], deques[w][0]) else Leave
  {
  }

  lemma TakeBalanced(s: State, w: nat, j: JobId)
    requires w < |s.workers| && w < |s.deques| && !s.workers[w].Busy?
    requires forall i :: 0 <= i < |s.deques[w]| ==> s.deques[w][i] < |s.jobs|
    ensures Balanced(s, TakeStep(s, w), j)
  {
    hide Sum;
    var s' := TakeStep(s, w);
    SumUpdate(WithWorker(j), s.workers, w, s'.workers[w]);
    if WaitOver(s.deques, s.accept, w) && s.accept {
      assert s.deques[w] == [s.deques[w][0]] + s.deques[w][1..];
      SumUpdate(InDeque(j), s.deques, w, s.deques[w][1..]);
    }
  }

  lemma TakeKeeps(s: State, w: nat)
    requires Inv(s) && Enabled(s, Take(w))
    ensures Inv(TakeStep(s, w))
  {
    hide Sum, Places;
    var s' := TakeStep(s, w);
    forall j: JobId ensures Balanced(s, s', j) { TakeBalanced(s, w, j); }
    BalancedKeeps(s, s');
    if WaitOver(s.deques, s.accept, w) && s.accept {
      StartPlaces(s, s', w);
    } else {
      assert WorkerOk(s.workers[w], w, s.jobs, s.now);
    }
  }

  /** Worker w starts the newest job of its deque. */
  lemma StartPlaces(s: State, s': State, w: nat)
    requires Inv(s) && Enabled(s, Take(w)) && s' == TakeStep(s, w)
    requires WaitOver(s.deques, s.accept, w) && s.accept && Conserved(s')
    ensures Inv(s')
  {
    hide Sum;
    var x := s.deques[w][0];
    assert DequeOk(s.deques[w], w, s.jobs, s.now, s.pushes);
    assert Queued(s.jobs, s.now, s.pushes, x, w);
    assert Sum(InDeque(x), s.deques) > 0 by {
      SumHas(InDeque(x), s.deques, w);
      assert x in multiset(s.deques[w]);
    }
    Nowhere(s, x);
    assert s'.workers[w] == Busy(x) && Sum(WithWorker(x), s'.workers) > 0 by { SumHas(WithWorker(x), s'.workers, w); }
    assert Places(s', x) <= 1;
    SumNone(InDeque(x), s'.deques);
    StartedPlaces(s, s', w, x);
  }

  lemma StartedPlaces(s: State, s': State, w: nat, x: JobId)
    requires Inv(s) && w < |s.workers| && w < |s.deques| && s.deques[w] != [] && x == s.deques[w][0] && x < |s.jobs|
    requires s' == s.(deques := s.deques[w := s.deques[w][1..]], workers := s.workers[w := Busy(x)],
                      jobs := s.jobs[x := s.jobs[x].(started := Some(s.now))])
    requires Conserved(s') && Queued(s.jobs, s.now, s.pushes, x, w) && WithTimer(s.timer, x) == 0
    requires forall c :: 0 <= c < |s.clients| ==> WithClient(x)(s.clients[c]) == 0
    requires forall i :: 0 <= i < |s.heap| ==> s.heap[i].j != x
    requires forall v :: 0 <= v < |s.workers| ==> WithWorker(x)(s.workers[v]) == 0
    requires multiset(s.finished)[x] == 0 && multiset(s.dropped)[x] == 0
    requires forall q :: 0 <= q < |s'.deques| ==> InDeque(x)(s'.deques[q]) == 0
    ensures Inv(s')
  {
    hide Sum, Places;
    HeapKeep(s.heap, s.jobs, s'.jobs, x);
    ClientsKeep(s.clients, s.jobs, s'.jobs, s.now, s.now, x);
    assert DequesOk(s'.deques, s.jobs, s.now, s.pushes) by {
      assert DequeOk(s.deques[w], w, s.jobs, s.now, s.pushes);
      assert DequeOk(s.deques[w][1..], w, s.jobs, s.now, s.pushes);
    }
    DequesKeep(s'.deques, s.jobs, s'.jobs, s.now, s.now, s.pushes, s.pushes, x);
    WorkersKeep(s.workers, s.jobs, s'.jobs, s.now, s.now, x);
    OverKeep(s.finished, s.dropped, s.jobs, s'.jobs, s.now, s.now, x);
    JobsKeep(s.jobs, s'.jobs, s.now, s.now, x);
  }

  lemma FinishKeeps(s: State, w: nat)
    requires Inv(s) && Enabled(s, Finish(w))
    ensures Inv(Apply(s, Finish(w)))
  {
    hide Sum;
    var s' := Apply(s, Finish(w));
    assert WorkerOk(s.workers[w], w, s.jobs, s.now);
    forall j: JobId ensures Balanced(s, s', j) { SumUpdate(WithWorker(j), s.workers, w, Ready); }
    FinishPlaces(s, s', w);
  }

  lemma FinishPlaces(s: State, s': State, w: nat)
    requires Inv(s) && Enabled(s, Finish(w)) && s' == Apply(s, Finish(w))
    requires forall j: JobId :: Balanced(s, s', j)
    ensures Inv(s')
  {
    hide Sum, Places;
    BalancedKeeps(s, s');
    assert WorkerOk(s.workers[w], w, s.jobs, s.now);
  }

  // ---------------------------------------------------------------- clearing the pool

  lemma {:induction false} FlatCounts(deques: seq<seq<JobId>>, j: JobId)
    ensures multiset(Flat(deques))[j] == Sum(InDeque(j), deques)
  {
    if deques != [] { FlatCounts(deques[1..], j); }
  }

  lemma {:induction false} FlatMember(deques: seq<seq<JobId>>, j: JobId)
    requires j in Flat(deques)
    ensures exists q :: 0 <= q < |deques| && j in deques[q]
  {
    if j in deques[0] {
    } else {
      FlatMember(deques[1..], j);
      var q :| 0 <= q < |deques[1..]| && j in deques[1..][q];
      assert j in deques[q + 1];
    }
  }

  lemma ClearKeeps(s: State)
    requires Inv(s) && Enabled(s, Clear)
    ensures Inv(Apply(s, Clear))
  {
    hide Sum;
    var s' := Apply(s, Clear);
    forall j: JobId ensures Balanced(s, s', j) {
      FlatCounts(s.deques, j);
      SumZero(InDeque(j), s'.deques);
    }
    ClearPlaces(s, s');
  }

  lemma ClearPlaces(s: State, s': State)
    requires Inv(s) && Enabled(s, Clear) && s' == Apply(s, Clear)
    requires forall j: JobId :: Balanced(s, s', j)
    ensures Inv(s')
  {
    hide Sum, Places, Flat;
    BalancedKeeps(s, s');
    forall i | |s.dropped| <= i < |s'.dropped|
      ensures s'.dropped[i] < |s.jobs| && s.jobs[s'.dropped[i]].started.None?
    {
      var j := s'.dropped[i];
      assert j in Flat(s.deques);
      FlatMember(s.deques, j);
      var q :| 0 <= q < |s.deques| && j in s.deques[q];
      assert DequeOk(s.deques[q], q, s.jobs, s.now, s.pushes);
    }
  }

  // ---------------------------------------------------------------- events that move no job

  /** A client that holds no job goes on; flags and the timer's sleep may change with it. */
  lemma ClientStepKeeps(s: State, c: nat, k: Client, timer: Timer, running: bool, accept: bool)
    requires Inv(s) && c < |s.clients|
    requires || (s.clients[c].Idle? && timer == s.timer && k.NotifyingTimer? && !running && accept == s.accept)
             || (s.clients[c].Idle? && timer == s.timer && k.NotifyingPool? && !accept && running == s.running)
             || (s.clients[c].NotifyingTimer? && timer == Notified(s.timer) && k.Idle? && running == s.running && accept == s.accept)
    ensures Inv(s.(clients := s.clients[c := k], timer := timer, running := running, accept := accept))
  {
    hide Sum;
    var s' := s.(clients := s.clients[c := k], timer := timer, running := running, accept := accept);
    forall j: JobId ensures Balanced(s, s', j) { SumUpdate(WithClient(j), s.clients, c, k); }
    ClientStepPlaces(s, s', c, k);
  }

  lemma ClientStepPlaces(s: State, s': State, c: nat, k: Client)
    requires Inv(s) && c < |s.clients| && s' == s.(clients := s.clients[c := k], timer := s'.timer, running := s'.running, accept := s'.accept)
    requires || (s.clients[c].Idle? && s'.timer == s.timer && k.NotifyingTimer? && !s'.running && s'.accept == s.accept)
             || (s.clients[c].Idle? && s'.timer == s.timer && k.NotifyingPool? && !s'.accept && s'.running == s.running)
             || (s.clients[c].NotifyingTimer? && s'.timer == Notified(s.timer) && k.Idle? && s'.running == s.running && s'.accept == s.accept)
    requires forall j: JobId :: Balanced(s, s', j)
    ensures Inv(s')
  {
    hide Sum, Places;
    BalancedKeeps(s, s');
    NoticeStays(s.clients, c, k);
  }

  lemma TimerStepKeeps(s: State, timer: Timer, next: nat)
    requires Inv(s)
    requires || (s.timer.Checking? && timer in {Locking, Exited})
             || ((s.timer.Waiting? || s.timer.WaitingUntil?) && timer.Checking?)
             || (s.timer.Waiting? && timer == Waiting(false) && s.heap == [] && s.running)
             || (s.timer.HandingOff? && timer.Queueing? && timer.j == s.timer.j)
    ensures Inv(s.(timer := timer, next := next))
  {
    hide Sum;
    var s' := s.(timer := timer, next := next);
    forall j: JobId ensures Places(s', j) == Places(s, j) {}
    TimerStepPlaces(s, s');
  }

  lemma TimerStepPlaces(s: State, s': State)
    requires Inv(s) && s' == s.(timer := s'.timer, next := s'.next)
    requires || (s.timer.Checking? && s'.timer in {Locking, Exited})
             || ((s.timer.Waiting? || s.timer.WaitingUntil?) && s'.timer.Checking?)
             || (s.timer.Waiting? && s'.timer == Waiting(false) && s.heap == [] && s.running)
             || (s.timer.HandingOff? && s'.timer.Queueing? && s'.timer.j == s.timer.j)
    requires forall j: JobId :: Places(s', j) == Places(s, j)
    ensures Inv(s')
  {
    hide Sum, Places;
  }

  lemma TickKeeps(s: State, ms: nat)
    requires Inv(s)
    ensures Inv(s.(now := s.now + ms))
  {
    hide Sum;
    var s' := s.(now := s.now + ms);
    forall j: JobId ensures Places(s', j) == Places(s, j) {}
    TickPlaces(s, s');
  }

  lemma TickPlaces(s: State, s': State)
    requires Inv(s) && s' == s.(now := s'.now) && s.now <= s'.now
    requires forall j: JobId :: Places(s', j) == Places(s, j)
    ensures Inv(s')
  {
    hide Sum, Places;
    var x := |s.jobs|;
    Nowhere(s, x);
    ClientsKeep(s.clients, s.jobs, s.jobs, s.now, s'.now, x);
    DequesKeep(s.deques, s.jobs, s.jobs, s.now, s'.now, s.pushes, s.pushes, x);
    WorkersKeep(s.workers, s.jobs, s.jobs, s.now, s'.now, x);
    OverKeep(s.finished, s.dropped, s.jobs, s.jobs, s.now, s'.now, x);
    forall j | 0 <= j < |s.jobs| && s.jobs[j].started.Some? ensures Started(s.jobs, s'.now, j) {
      assert Started(s.jobs, s.now, j);
    }
  }

  // ---------------------------------------------------------------- every schedule

  lemma ApplyKeeps(s: State, e: Event)
    requires Inv(s)
    ensures Inv(Apply(s, e))
  {
    hide Inv, PushJob, LockStep, TakeStep, Roused, Flat;
    if Enabled(s, e) {
      match e
      case Tick(ms) => TickKeeps(s, ms);
      case Register(c, delay) => NewJobKeeps(s, c, Job(s.now, s.now + delay, None, 0, None), Timing(|s.jobs|), s.next);
      case Insert(c) => InsertKeeps(s, c);
      case Stop(c) => ClientStepKeeps(s, c, NotifyingTimer, s.timer, false, s.accept);
      case NotifyTimer(c) => ClientStepKeeps(s, c, Client.Idle, Notified(s.timer), s.running, s.accept);
      case Submit(c) =>
        NewJobKeeps(s, c, Job(s.now, s.now, None, 0, None), Submitting(|s.jobs|, Around(s.next, |s.deques|)), s.next + 1);
      case Push(c) => ClientPushKeeps(s, c);
      case Shutdown(c) => ClientStepKeeps(s, c, NotifyingPool, s.timer, s.running, false);
      case NotifyPool(c) => RouseKeeps(s, s.timer, s.clients[c := Idle]);
      case Check => TimerStepKeeps(s, if s.running then Locking else Exited, s.next);
      case Lock(top) => LockKeeps(s, top);
      case Wake => TimerStepKeeps(s, WakeStep(s).timer, s.next);
      case Draw => TimerStepKeeps(s, Queueing(s.timer.j, Around(s.next, |s.deques|)), s.next + 1);
      case HandOver => HandOverKeeps(s);
      case WakePool => RouseKeeps(s, Checking, s.clients);
      case Take(w) => TakeKeeps(s, w);
      case Finish(w) => FinishKeeps(s, w);
      case Clear => ClearKeeps(s);
    }
  }

  lemma InitInv(clients: nat, workers: nat, now: int)
    ensures Inv(Init(clients, workers, now))
  {
    var s := Init(clients, workers, now);
    forall j: JobId ensures Places(s, j) == 0 {
      SumZero(WithClient(j), s.clients);
      SumZero(InDeque(j), s.deques);
      SumZero(WithWorker(j), s.workers);
    }
  }

  lemma {:induction false} RunKeeps(s: State, events: seq<Event>)
    requires Inv(s)
    ensures Inv(Run(s, events))
    decreases |events|
  {
    hide Inv, Apply;
    if events != [] {
      ApplyKeeps(s, events[0]);
      RunKeeps(Apply(s, events[0]), events[1..]);
    }
  }

  /** The invariant holds whatever clients, timer thread and workers do. */
  lemma EveryReachableState(clients: nat, workers: nat, now: int, events: seq<Event>)
    ensures Inv(Run(Init(clients, workers, now), events))
  {
    hide Inv, Init, Run;
    InitInv(clients, workers, now);
    RunKeeps(Init(clients, workers, now), events);
  }

  /** Some schedule of some clients and workers leads here. */
  ghost predicate Reachable(s: State) {
    exists clients: nat, workers: nat, now: int, events: seq<Event> ::
      s == Run(Init(clients, workers, now), events)
  }

  lemma ReachableInv(s: State)
    requires Reachable(s)
    ensures Inv(s)
  {
    hide Inv, Init, Run;
    var clients: nat, workers: nat, now: int, events: seq<Event> :|
      s == Run(Init(clients, workers, now), events);
    EveryReachableState(clients, workers, now, events);
  }

  lemma {:induction false} RunSnoc(s: State, events: seq<Event>, e: Event)
    ensures Run(s, events + [e]) == Apply(Run(s, events), e)
    decreases |events|
  {
    hide Apply;
    if events == [] {
      assert events + [e] == [e] && [e][1..] == [];
    } else {
      assert (events + [e])[1..] == events[1..] + [e];
      RunSnoc(Apply(s, events[0]), events[1..], e);
    }
  }

  lemma InitReachable(clients: nat, workers: nat, now: int)
    ensures Reachable(Init(clients, workers, now))
  {
    hide Init;
    assert Run(Init(clients, workers, now), []) == Init(clients, workers, now);
  }

  /** What a reachable state leads to is reachable. */
  lemma ApplyReachable(s: State, e: Event)
    requires Reachable(s)
    ensures Reachable(Apply(s, e))
  {
    hide Apply, Init, Run;
    var clients: nat, workers: nat, now: int, events: seq<Event> :|
      s == Run(Init(clients, workers, now), events);
    RunSnoc(Init(clients, workers, now), events, e);
  }
}
