/** The benchmark's worker threads as a step system: every thread pops jobs, gets a stub, makes a
    call, reports it to the stub pool and to the watcher, and moves on or tries again.

    A step is what happens between two acquisitions of a lock, so a run is any interleaving. */
module Runner {
  import opened Arithmetic
  import opened Channels
  import opened Sums
  import opened Wrappers
  import WorkQueue

  type Job = WorkQueue.Job

  /** What a thread is about to do. A thread that stops after a failure gives up its job; one that
      stops because a resumable upload could not start also keeps its handle unreported. */
  datatype Worker =
    | Idle
    | HasJob(job: Job)
    | Calling(job: Job, handle: Channel)
    | Called(job: Job, status: Status)
    | Finished
    | Stopped(job: Job, held: Option<Channel>)

  /** One completed call, as the watcher records it. */
  datatype Record = Record(job: Job, status: Status)

  datatype State = State(queue: WorkQueue.Queue, workers: seq<Worker>, records: seq<Record>)

  datatype Event =
    | Pop(w: nat, job: Job)
    | GetStub(w: nat, handle: Channel)
    | Report(w: nat, status: Status)
    | Notify(w: nat)
    | Abandon(w: nat)

  function Initial(threads: nat, runs: int, stealing: bool): State {
    State(WorkQueue.Initial(threads, runs, stealing), seq(threads, _ => Idle), [])
  }

  ghost predicate Moves(s: State, w: nat, x: Worker, s': State) {
    w < |s.workers| && s'.workers == s.workers[w := x]
  }

  ghost predicate Step(trying: bool, s: State, e: Event, s': State) {
    && e.w < |s.workers|
    && match e
       case Pop(w, job) =>
         && s.workers[w].Idle?
         && WorkQueue.Pops(s.queue, w + 1, job, s'.queue)
         && s'.records == s.records
         && Moves(s, w, if job.run == 0 then Finished else HasJob(job), s')
       case GetStub(w, handle) =>
         && s.workers[w].HasJob?
         && s'.queue == s.queue && s'.records == s.records
         && Moves(s, w, Calling(s.workers[w].job, handle), s')
       case Report(w, status) =>
         && s.workers[w].Calling?
         && s'.queue == s.queue && s'.records == s.records
         && Moves(s, w, Called(s.workers[w].job, status), s')
       case Notify(w) =>
         && s.workers[w].Called?
         && s'.queue == s.queue
         && s'.records == s.records + [Record(s.workers[w].job, s.workers[w].status)]
         && Moves(s, w, AfterCall(trying, s.workers[w].job, s.workers[w].status), s')
       case Abandon(w) =>
         && s.workers[w].Calling?
         && s'.queue == s.queue && s'.records == s.records
         && Moves(s, w, Stopped(s.workers[w].job, Some(s.workers[w].handle)), s')
  }

  /** An OK call ends the job; a failed one is tried again, or ends the thread. */
  function AfterCall(trying: bool, job: Job, status: Status): Worker {
    if status.Ok? then Idle else if trying then HasJob(job) else Stopped(job, None)
  }

  ghost predicate IsRun(threads: nat, runs: int, stealing: bool, trying: bool, events: seq<Event>, run: seq<State>) {
    && |run| == |events| + 1
    && run[0] == Initial(threads, runs, stealing)
    && forall k :: 0 <= k < |events| ==> Step(trying, run[k], events[k], run[k + 1])
  }

  // ----- Every job is recorded exactly once -----

  function JobOf(x: Worker): Job {
    match x
    case Idle => WorkQueue.NO_JOB
    case HasJob(job) => job
    case Calling(job, _) => job
    case Called(job, _) => job
    case Finished => WorkQueue.NO_JOB
    case Stopped(job, _) => job
  }

  function JobsInHand(workers: seq<Worker>): (s: seq<Job>)
    ensures |s| == |workers|
    ensures forall w :: 0 <= w < |s| ==> s[w] == JobOf(workers[w])
  {
    seq(|workers|, w requires 0 <= w < |workers| => JobOf(workers[w]))
  }

  function OkJob(r: Record): Job {
    if r.status.Ok? then r.job else WorkQueue.NO_JOB
  }

  /** The jobs of the OK records, in order. */
  function OkJobs(records: seq<Record>): (s: seq<Job>)
    ensures |s| == |records|
    ensures forall k :: 0 <= k < |s| ==> s[k] == OkJob(records[k])
  {
    seq(|records|, k requires 0 <= k < |records| => OkJob(records[k]))
  }

  /** The threads that have `job` in their hands, and the OK records of it. */
  function Copies(s: State, job: Job): nat {
    multiset(OkJobs(s.records))[job] + multiset(JobsInHand(s.workers))[job]
  }

  /** A popped job is either in the hands of exactly one thread or in exactly one OK record; a job that
      was not popped is in neither place. */
  ghost predicate Conserved(s: State) {
    forall job :: job != WorkQueue.NO_JOB ==> Copies(s, job) == if WorkQueue.Dispensed(s.queue, job) then 1 else 0
  }

  ghost predicate Valid(threads: nat, runs: int, s: State) {
    && WorkQueue.Valid(s.queue)
    && |s.workers| == |s.queue.works| == threads && s.queue.perThread == runs
    && (forall w :: 0 <= w < threads && s.workers[w].Finished? ==> s.queue.works[w] == WorkQueue.Quota(s.queue))
    && Conserved(s)
  }

  function Is(a: Job, b: Job): nat {
    if a == b then 1 else 0
  }

  lemma HandUpdate(workers: seq<Worker>, w: nat, x: Worker, job: Job)
    requires w < |workers|
    ensures multiset(JobsInHand(workers[w := x]))[job] ==
      multiset(JobsInHand(workers))[job] - Is(JobOf(workers[w]), job) + Is(JobOf(x), job)
  {
    assert JobsInHand(workers[w := x]) == JobsInHand(workers)[w := JobOf(x)];
    assert JobsInHand(workers)[w] == JobOf(workers[w]);
  }

  lemma RecordAdded(records: seq<Record>, r: Record, job: Job)
    ensures multiset(OkJobs(records + [r]))[job] == multiset(OkJobs(records))[job] + Is(OkJob(r), job)
  {
    assert OkJobs(records + [r]) == OkJobs(records) + [OkJob(r)];
  }

  /** Only a pop brings a job into the system. */
  lemma StepMovesJobs(trying: bool, s: State, e: Event, s': State, job: Job)
    requires Step(trying, s, e, s') && job != WorkQueue.NO_JOB
    requires e.Pop? ==> (e.job.run == 0 <==> e.job == WorkQueue.NO_JOB)
    ensures Copies(s', job) == Copies(s, job) + if e.Pop? && e.job == job then 1 else 0
  {
    var x, x' := s.workers[e.w], s'.workers[e.w];
    HandUpdate(s.workers, e.w, x', job);
    if e.Notify? {
      var r := Record(x.job, x.status);
      RecordAdded(s.records, r, job);
      assert Is(JobOf(x'), job) + Is(OkJob(r), job) == Is(JobOf(x), job);
    } else {
      assert Is(JobOf(x'), job) == Is(JobOf(x), job) + if e.Pop? then Is(e.job, job) else 0;
    }
  }

  lemma PopKeepsValid(threads: nat, runs: int, trying: bool, s: State, e: Event, s': State)
    requires Valid(threads, runs, s) && e.Pop? && Step(trying, s, e, s')
    ensures Valid(threads, runs, s')
  {
    WorkQueue.PopDispensesOnce(s.queue, e.w + 1, e.job, s'.queue);
    if e.job == WorkQueue.NO_JOB {
      WorkQueue.NoJobMeansDone(s.queue, e.w + 1, s'.queue);
    }
    forall job | job != WorkQueue.NO_JOB
      ensures Copies(s', job) == if WorkQueue.Dispensed(s'.queue, job) then 1 else 0
    {
      StepMovesJobs(trying, s, e, s', job);
    }
    PopKeepsFinished(s, e, s');
  }

  lemma PopKeepsFinished(s: State, e: Event, s': State)
    requires e.Pop? && e.w < |s.workers| == |s.queue.works| && WorkQueue.Valid(s.queue)
    requires WorkQueue.Pops(s.queue, e.w + 1, e.job, s'.queue)
    ensures forall w :: 0 <= w < |s.workers| && s.queue.works[w] == WorkQueue.Quota(s.queue) ==>
      w < |s'.queue.works| && s'.queue.works[w] == WorkQueue.Quota(s.queue)
  {
  }

  lemma StepKeepsValid(threads: nat, runs: int, trying: bool, s: State, e: Event, s': State)
    requires Valid(threads, runs, s) && Step(trying, s, e, s')
    ensures Valid(threads, runs, s')
  {
    if e.Pop? {
      PopKeepsValid(threads, runs, trying, s, e, s');
    } else {
      forall job | job != WorkQueue.NO_JOB ensures Copies(s', job) == Copies(s, job) {
        StepMovesJobs(trying, s, e, s', job);
      }
    }
  }

  lemma NothingInHand(s: State)
    requires forall w :: 0 <= w < |s.workers| ==> s.workers[w].Idle? || s.workers[w].Finished?
    ensures forall job :: job != WorkQueue.NO_JOB ==> multiset(JobsInHand(s.workers))[job] == 0
  {
    forall job | job != WorkQueue.NO_JOB ensures multiset(JobsInHand(s.workers))[job] == 0 {
      assert job !in JobsInHand(s.workers);
    }
  }

  lemma {:induction false} RunKeepsValid(threads: nat, runs: int, stealing: bool, trying: bool, events: seq<Event>,
                                         run: seq<State>)
    requires IsRun(threads, runs, stealing, trying, events, run)
    ensures Valid(threads, runs, run[|events|])
  {
    if events == [] {
      NothingInHand(run[0]);
    } else {
      var k := |events| - 1;
      RunKeepsValid(threads, runs, stealing, trying, events[..k], run[..k + 1]);
      StepKeepsValid(threads, runs, trying, run[k], events[k], run[k + 1]);
    }
  }

  ghost predicate AllFinished(s: State) {
    forall w :: 0 <= w < |s.workers| ==> s.workers[w].Finished?
  }

  /** Whatever the interleaving, the retries and the stealing: no job ever has two OK records, and when
      every thread has finished, the OK records are exactly one for each run of each thread. */
  lemma OneOkRecordPerJob(threads: nat, runs: int, stealing: bool, trying: bool, events: seq<Event>, run: seq<State>)
    requires IsRun(threads, runs, stealing, trying, events, run)
    ensures var s := run[|events|];
      && |s.workers| == threads
      && (forall job :: job != WorkQueue.NO_JOB ==> multiset(OkJobs(s.records))[job] <= 1)
      && (AllFinished(s) ==>
            forall job :: job != WorkQueue.NO_JOB ==>
              multiset(OkJobs(s.records))[job] == if 1 <= job.thread <= threads && 1 <= job.run <= runs then 1 else 0)
  {
    var s := run[|events|];
    RunKeepsValid(threads, runs, stealing, trying, events, run);
    forall job | job != WorkQueue.NO_JOB ensures multiset(OkJobs(s.records))[job] <= Copies(s, job) <= 1 {}
    if AllFinished(s) {
      NothingInHand(s);
      forall job | job != WorkQueue.NO_JOB
        ensures multiset(OkJobs(s.records))[job] == if 1 <= job.thread <= threads && 1 <= job.run <= runs then 1 else 0
      {
        assert Copies(s, job) == multiset(OkJobs(s.records))[job];
      }
    }
  }

  predicate IsJob(threads: nat, runs: int, job: Job) {
    1 <= job.thread <= threads && 1 <= job.run <= runs
  }

  predicate AtWork(x: Worker) {
    x.HasJob? || x.Calling? || x.Called?
  }

  ghost predicate OnlyJobs(threads: nat, runs: int, s: State) {
    && (forall w :: 0 <= w < |s.workers| && AtWork(s.workers[w]) ==> IsJob(threads, runs, JobOf(s.workers[w])))
    && (forall k :: 0 <= k < |s.records| ==> IsJob(threads, runs, s.records[k].job))
  }

  lemma StepKeepsOnlyJobs(threads: nat, runs: int, trying: bool, s: State, e: Event, s': State)
    requires OnlyJobs(threads, runs, s) && Step(trying, s, e, s')
    requires e.Pop? && e.job.run != 0 ==> IsJob(threads, runs, e.job)
    ensures OnlyJobs(threads, runs, s')
  {
    var x, x' := s.workers[e.w], s'.workers[e.w];
    assert AtWork(x') ==> IsJob(threads, runs, JobOf(x'));
  }

  /** Every record, OK or not, is of one of the runs of one of the threads. */
  lemma {:induction false} RecordsAreOfJobs(threads: nat, runs: int, stealing: bool, trying: bool, events: seq<Event>,
                                            run: seq<State>)
    requires IsRun(threads, runs, stealing, trying, events, run)
    ensures OnlyJobs(threads, runs, run[|events|])
  {
    if events != [] {
      var k := |events| - 1;
      RecordsAreOfJobs(threads, runs, stealing, trying, events[..k], run[..k + 1]);
      if events[k].Pop? && events[k].job.run != 0 {
        RunKeepsValid(threads, runs, stealing, trying, events[..k], run[..k + 1]);
        PopIsOfJob(threads, runs, trying, run[k], events[k], run[k + 1]);
      }
      StepKeepsOnlyJobs(threads, runs, trying, run[k], events[k], run[k + 1]);
    }
  }

  lemma PopIsOfJob(threads: nat, runs: int, trying: bool, s: State, e: Event, s': State)
    requires Valid(threads, runs, s) && Step(trying, s, e, s') && e.Pop? && e.job.run != 0
    ensures IsJob(threads, runs, e.job)
  {
    WorkQueue.PopDispensesOnce(s.queue, e.w + 1, e.job, s'.queue);
    assert WorkQueue.Dispensed(s'.queue, e.job);
  }

  lemma OkRecordsDiffer(records: seq<Record>, i: nat, j: nat)
    requires i < j < |records| && records[i].status.Ok? && records[j].status.Ok?
    requires multiset(OkJobs(records))[records[i].job] <= 1
    ensures records[i].job != records[j].job
  {
    var s := OkJobs(records);
    assert s == s[..j] + [s[j]] + s[j + 1..];
    assert s[i] == s[..j][i] && s[i] in multiset(s[..j]);
  }

  // ----- Progress -----

  function WorkerSteps(x: Worker): int {
    match x
    case Idle => 1
    case HasJob(_) => 4
    case Calling(_, _) => 3
    case Called(_, status) => if status.Ok? then 2 else 5
    case Finished => 0
    case Stopped(_, _) => 0
  }

  function StepsInHand(workers: seq<Worker>): (s: seq<int>)
    ensures |s| == |workers|
    ensures forall w :: 0 <= w < |s| ==> s[w] == WorkerSteps(workers[w])
  {
    seq(|workers|, w requires 0 <= w < |workers| => WorkerSteps(workers[w]))
  }

  /** A bound on the steps that are left when no further call fails. */
  function StepsLeft(s: State): int {
    4 * WorkQueue.Remaining(s.queue) + Sum(StepsInHand(s.workers))
  }

  function Failures(events: seq<Event>): nat {
    if events == [] then 0
    else
      var k := |events| - 1;
      Failures(events[..k]) + if events[k].Report? && !events[k].status.Ok? then 1 else 0
  }

  lemma StepUsesBudget(threads: nat, runs: int, trying: bool, s: State, e: Event, s': State)
    requires Valid(threads, runs, s) && Step(trying, s, e, s')
    ensures StepsLeft(s') + 1 <= StepsLeft(s) + if e.Report? && !e.status.Ok? then 3 else 0
  {
    var x := s'.workers[e.w];
    assert StepsInHand(s'.workers) == StepsInHand(s.workers)[e.w := WorkerSteps(x)];
    SumUpdate(StepsInHand(s.workers), e.w, WorkerSteps(x));
    if e.Pop? {
      WorkQueue.PopDispensesOnce(s.queue, e.w + 1, e.job, s'.queue);
    }
  }

  lemma StepsLeftNonNegative(threads: nat, runs: int, s: State)
    requires Valid(threads, runs, s)
    ensures StepsLeft(s) >= 0
  {
    SumNonNegative(WorkQueue.LeftOver(s.queue));
    SumNonNegative(StepsInHand(s.workers));
  }

  /** A run cannot go on for ever on a finite number of failed calls: it has at most four steps a job,
      one a thread, and three a failure. */
  lemma {:induction false} RunsAreBounded(threads: nat, runs: nat, stealing: bool, trying: bool, events: seq<Event>,
                                          run: seq<State>)
    requires IsRun(threads, runs, stealing, trying, events, run)
    ensures |events| + StepsLeft(run[|events|]) <= 4 * (threads * runs) + threads + 3 * Failures(events)
    ensures |events| <= 4 * (threads * runs) + threads + 3 * Failures(events)
  {
    RunKeepsValid(threads, runs, stealing, trying, events, run);
    StepsLeftNonNegative(threads, runs, run[|events|]);
    if events == [] {
      SumConstant(WorkQueue.LeftOver(run[0].queue), runs);
      SumConstant(StepsInHand(run[0].workers), 1);
    } else {
      var k := |events| - 1;
      RunsAreBounded(threads, runs, stealing, trying, events[..k], run[..k + 1]);
      RunKeepsValid(threads, runs, stealing, trying, events[..k], run[..k + 1]);
      StepUsesBudget(threads, runs, trying, run[k], events[k], run[k + 1]);
    }
  }

  /** As long as a thread has neither finished nor stopped, it can make a step, whatever handle the
      pool gives it and whatever status its call has. */
  lemma NeverStuck(trying: bool, s: State, w: nat, handle: Channel, status: Status) returns (e: Event, s': State)
    requires w < |s.workers| && !s.workers[w].Finished? && !s.workers[w].Stopped?
    ensures e.w == w && Step(trying, s, e, s')
    ensures e.GetStub? ==> e.handle == handle
    ensures e.Report? ==> e.status == status
  {
    var x := s.workers[w];
    match x
    case Idle =>
      var job, q := WorkQueue.PopIsPossible(s.queue, w + 1);
      e, s' := Pop(w, job), State(q, s.workers[w := if job.run == 0 then Finished else HasJob(job)], s.records);
    case HasJob(job) =>
      e, s' := GetStub(w, handle), s.(workers := s.workers[w := Calling(job, handle)]);
    case Calling(job, _) =>
      e, s' := Report(w, status), s.(workers := s.workers[w := Called(job, status)]);
    case Called(job, st) =>
      e, s' := Notify(w),
        s.(workers := s.workers[w := AfterCall(trying, job, st)], records := s.records + [Record(job, st)]);
  }
}

/** The worker threads drawing their stubs from the "bpool" policy. */
module RunnerOnBalancedPool {
  import opened Arithmetic
  import opened Channels
  import opened Wrappers
  import opened Sums
  import BalancedPool
  import Runner

  datatype State = State(client: Runner.State, pool: BalancedPool.State)

  ghost predicate Step(trying: bool, s: State, e: Runner.Event, s': State) {
    && Runner.Step(trying, s.client, e, s'.client)
    && match e
       case GetStub(w, handle) => BalancedPool.Get(s.pool, handle, s'.pool)
       case Report(w, status) => BalancedPool.Report(s.pool, s.client.workers[w].handle, status, s'.pool)
       case _ => s'.pool == s.pool
  }

  ghost predicate IsRun(threads: nat, runs: int, stealing: bool, trying: bool, size: nat,
                        events: seq<Runner.Event>, run: seq<State>) {
    && |run| == |events| + 1
    && run[0] == State(Runner.Initial(threads, runs, stealing), BalancedPool.Initial(size))
    && forall k :: 0 <= k < |events| ==> Step(trying, run[k], events[k], run[k + 1])
  }

  /** The handle a thread has not reported yet. */
  function HandleOf(x: Runner.Worker): Option<Channel> {
    match x
    case Calling(_, handle) => Some(handle)
    case Stopped(_, held) => held
    case _ => None
  }

  function HoldsOn(x: Runner.Worker, c: Channel): int {
    if HandleOf(x) == Some(c) then 1 else 0
  }

  function Busy(x: Runner.Worker): int {
    if HandleOf(x).Some? then 1 else 0
  }

  function Marks(workers: seq<Runner.Worker>, mark: Runner.Worker -> int): (s: seq<int>)
    ensures |s| == |workers|
    ensures forall w :: 0 <= w < |s| ==> s[w] == mark(workers[w])
  {
    seq(|workers|, w requires 0 <= w < |workers| => mark(workers[w]))
  }

  /** The number of threads that hold an unreported handle on channel `c`. */
  function Holders(workers: seq<Runner.Worker>, c: Channel): int {
    Sum(Marks(workers, x => HoldsOn(x, c)))
  }

  function AllHolders(workers: seq<Runner.Worker>): int {
    Sum(Marks(workers, Busy))
  }

  lemma HoldersUpdate(workers: seq<Runner.Worker>, w: nat, x: Runner.Worker, c: Channel)
    requires w < |workers|
    ensures Holders(workers[w := x], c) == Holders(workers, c) - HoldsOn(workers[w], c) + HoldsOn(x, c)
  {
    var mark := x => HoldsOn(x, c);
    SumUpdate(Marks(workers, mark), w, mark(x));
    assert Marks(workers[w := x], mark) == Marks(workers, mark)[w := mark(x)];
  }

  lemma AllHoldersUpdate(workers: seq<Runner.Worker>, w: nat, x: Runner.Worker)
    requires w < |workers|
    ensures AllHolders(workers[w := x]) == AllHolders(workers) - Busy(workers[w]) + Busy(x)
  {
    SumUpdate(Marks(workers, Busy), w, Busy(x));
    assert Marks(workers[w := x], Busy) == Marks(workers, Busy)[w := Busy(x)];
  }

  lemma {:induction false} AtMostOneHandleEach(workers: seq<Runner.Worker>)
    ensures AllHolders(workers) <= |workers|
  {
    if workers != [] {
      var k := |workers| - 1;
      assert Marks(workers, Busy)[..k] == Marks(workers[..k], Busy);
      AtMostOneHandleEach(workers[..k]);
    }
  }

  ghost predicate Valid(s: State, threads: nat, size: nat) {
    && |s.client.workers| == threads && |s.pool.slots| == size > 0
    && (forall c :: s.pool.open[c] == Holders(s.client.workers, c))
    && |s.pool.open| == AllHolders(s.client.workers)
    && BalancedPool.Valid(s.pool) && BalancedPool.Balanced(s.pool, threads)
  }

  /** A thread that is calling holds a handle the pool knows to be out. */
  lemma HolderIsOpen(s: State, w: nat, threads: nat, size: nat)
    requires Valid(s, threads, size) && w < threads && s.client.workers[w].Calling?
    ensures s.client.workers[w].handle in s.pool.open
  {
    var ws, c := s.client.workers, s.client.workers[w].handle;
    HoldersUpdate(ws, w, Runner.Idle, c);
    SumNonNegative(Marks(ws[w := Runner.Idle], x => HoldsOn(x, c)));
  }

  lemma ReportKeepsValid(s: State, e: Runner.Event, s': State, threads: nat, size: nat)
    requires Valid(s, threads, size) && e.Report? && e.w < threads && s.client.workers[e.w].Calling?
    requires BalancedPool.Report(s.pool, s.client.workers[e.w].handle, e.status, s'.pool)
    ensures BalancedPool.Valid(s'.pool) && BalancedPool.Balanced(s'.pool, threads) && |s'.pool.slots| == size
    ensures s'.pool.open == s.pool.open - multiset{s.client.workers[e.w].handle}
    ensures s.client.workers[e.w].handle in s.pool.open
  {
    var handle := s.client.workers[e.w].handle;
    HolderIsOpen(s, e.w, threads, size);
    BalancedPool.ReportKeepsValid(s.pool, handle, e.status, s'.pool);
    var i :| BalancedPool.ReportAt(s.pool, handle, e.status, i, s'.pool);
  }

  /** What one thread's step does to its own handle, it does to the pool's open handles. */
  ghost predicate Follows(s: State, x: Runner.Worker, x': Runner.Worker, s': State) {
    && (forall c :: s'.pool.open[c] == s.pool.open[c] - HoldsOn(x, c) + HoldsOn(x', c))
    && |s'.pool.open| == |s.pool.open| - Busy(x) + Busy(x')
  }

  lemma PoolFollowsGet(trying: bool, s: State, e: Runner.Event, s': State, threads: nat, size: nat)
    requires Valid(s, threads, size) && Step(trying, s, e, s') && e.GetStub?
    ensures Follows(s, s.client.workers[e.w], s'.client.workers[e.w], s')
    ensures BalancedPool.Valid(s'.pool) && |s'.pool.slots| == size
  {
    BalancedPool.GetKeepsValid(s.pool, e.handle, s'.pool);
    assert HandleOf(s.client.workers[e.w]) == None && HandleOf(s'.client.workers[e.w]) == Some(e.handle);
  }

  lemma OneHandleLess(open: multiset<Channel>, c: Channel)
    requires c in open
    ensures |open - multiset{c}| == |open| - 1
    ensures forall d :: (open - multiset{c})[d] == open[d] - if d == c then 1 else 0
  {
  }

  lemma ReportMoves(trying: bool, s: State, e: Runner.Event, s': State)
    requires Step(trying, s, e, s') && e.Report?
    ensures s.client.workers[e.w].Calling? && s'.client.workers[e.w].Called?
    ensures BalancedPool.Report(s.pool, s.client.workers[e.w].handle, e.status, s'.pool)
  {
  }

  lemma PoolFollowsReport(trying: bool, s: State, e: Runner.Event, s': State, threads: nat, size: nat)
    requires Valid(s, threads, size) && Step(trying, s, e, s') && e.Report?
    ensures Follows(s, s.client.workers[e.w], s'.client.workers[e.w], s')
    ensures BalancedPool.Valid(s'.pool) && |s'.pool.slots| == size
  {
    ReportMoves(trying, s, e, s');
    ReportKeepsValid(s, e, s', threads, size);
    OneHandleLess(s.pool.open, s.client.workers[e.w].handle);
  }

  lemma OtherStepsKeepHandles(trying: bool, s: State, e: Runner.Event, s': State)
    requires Step(trying, s, e, s') && !e.GetStub? && !e.Report?
    ensures s'.pool == s.pool && HandleOf(s'.client.workers[e.w]) == HandleOf(s.client.workers[e.w])
  {
  }

  lemma PoolFollows(trying: bool, s: State, e: Runner.Event, s': State, threads: nat, size: nat)
    requires Valid(s, threads, size) && Step(trying, s, e, s')
    ensures Follows(s, s.client.workers[e.w], s'.client.workers[e.w], s')
    ensures BalancedPool.Valid(s'.pool) && |s'.pool.slots| == size
  {
    if e.GetStub? {
      PoolFollowsGet(trying, s, e, s', threads, size);
    } else if e.Report? {
      PoolFollowsReport(trying, s, e, s', threads, size);
    } else {
      OtherStepsKeepHandles(trying, s, e, s');
    }
  }

  lemma PoolStaysBalanced(trying: bool, s: State, e: Runner.Event, s': State, threads: nat, size: nat)
    requires Valid(s, threads, size) && Step(trying, s, e, s') && |s'.pool.open| <= threads
    ensures |s'.pool.slots| == size && BalancedPool.Balanced(s'.pool, threads)
  {
    if e.GetStub? {
      BalancedPool.GetKeepsValid(s.pool, e.handle, s'.pool);
      BalancedPool.GetKeepsBalance(s.pool, e.handle, s'.pool, threads);
    } else if e.Report? {
      ReportKeepsValid(s, e, s', threads, size);
    }
  }

  lemma CountsFollow(s: State, w: nat, s': State)
    requires w < |s.client.workers| && w < |s'.client.workers|
    requires s'.client.workers == s.client.workers[w := s'.client.workers[w]]
    requires Follows(s, s.client.workers[w], s'.client.workers[w], s')
    requires (forall c :: s.pool.open[c] == Holders(s.client.workers, c)) && |s.pool.open| ==
      AllHolders(s.client.workers)
    ensures (forall c :: s'.pool.open[c] == Holders(s'.client.workers, c)) && |s'.pool.open| ==
      AllHolders(s'.client.workers)
  {
    var ws, x' := s.client.workers, s'.client.workers[w];
    AllHoldersUpdate(ws, w, x');
    forall c ensures s'.pool.open[c] == Holders(s'.client.workers, c) {
      HoldersUpdate(ws, w, x', c);
    }
  }

  lemma OneWorkerMoves(trying: bool, s: State, e: Runner.Event, s': State)
    requires Step(trying, s, e, s')
    ensures s'.client.workers == s.client.workers[e.w := s'.client.workers[e.w]]
  {
  }

  lemma StepKeepsValid(trying: bool, s: State, e: Runner.Event, s': State, threads: nat, size: nat)
    requires Valid(s, threads, size) && Step(trying, s, e, s')
    ensures Valid(s', threads, size)
  {
    OneWorkerMoves(trying, s, e, s');
    PoolFollows(trying, s, e, s', threads, size);
    CountsFollow(s, e.w, s');
    AtMostOneHandleEach(s'.client.workers);
    PoolStaysBalanced(trying, s, e, s', threads, size);
  }

  lemma InitialIsValid(threads: nat, runs: int, stealing: bool, size: nat)
    requires size > 0
    ensures Valid(State(Runner.Initial(threads, runs, stealing), BalancedPool.Initial(size)), threads, size)
  {
    var ws := Runner.Initial(threads, runs, stealing).workers;
    SumConstant(Marks(ws, Busy), 0);
    forall c ensures Holders(ws, c) == 0 {
      SumConstant(Marks(ws, x => HoldsOn(x, c)), 0);
    }
    QuotientAtLeast(threads + size - 1, size, 0);
  }

  /** The benchmark on a balanced pool, with any number of threads, any interleaving, any failures and
      retries, and even uploads abandoned without a report: every count in the pool is the number of
      handles the threads hold on that channel, and it is at most ceil(threads / size). */
  lemma {:induction false} ThreadsShareChannelsEvenly(threads: nat, runs: int, stealing: bool, trying: bool, size: nat,
                                                      events: seq<Runner.Event>, run: seq<State>)
    requires size > 0 && IsRun(threads, runs, stealing, trying, size, events, run)
    ensures Valid(run[|events|], threads, size)
    ensures var s := run[|events|];
      forall i :: 0 <= i < size ==>
        s.pool.slots[i].inUseCount == Holders(s.client.workers, s.pool.slots[i].channel) <= CeilDiv(threads, size)
  {
    if events == [] {
      InitialIsValid(threads, runs, stealing, size);
    } else {
      var k := |events| - 1;
      ThreadsShareChannelsEvenly(threads, runs, stealing, trying, size, events[..k], run[..k + 1]);
      StepKeepsValid(trying, run[k], events[k], run[k + 1], threads, size);
    }
  }
}
