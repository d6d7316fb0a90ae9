/** The work queue: every thread has the same number of jobs, and may steal the jobs of others. */
module WorkQueue {
  import opened Sums

  /** Job number `run` of thread `thread`, both counted from one. */
  datatype Job = Job(thread: int, run: int)

  const NO_JOB: Job := Job(0, 0)

  /** `works[t]` jobs of thread t + 1 have been popped. */
  datatype Queue = Queue(perThread: int, stealing: bool, works: seq<int>)

  function Initial(threads: nat, perThread: int, stealing: bool): Queue {
    Queue(perThread, stealing, seq(threads, _ => 0))
  }

  predicate Open(q: Queue, t: int) {
    0 <= t < |q.works| && q.works[t] < q.perThread
  }

  /** The next job of thread t + 1 is taken. */
  ghost predicate Takes(q: Queue, t: int, job: Job, q': Queue) {
    && Open(q, t)
    && job == Job(t + 1, q.works[t] + 1)
    && q' == q.(works := q.works[t := q.works[t] + 1])
  }

  /** The next job of the first thread that has one is taken. */
  ghost predicate Steals(q: Queue, t: int, job: Job, q': Queue) {
    Takes(q, t, job, q') && forall u :: 0 <= u < t ==> !Open(q, u)
  }

  /** One call of `pop`. */
  ghost predicate Pops(q: Queue, thread: int, job: Job, q': Queue) {
    if Open(q, thread - 1) then Takes(q, thread - 1, job, q')
    else if 1 <= thread <= |q.works| && q.stealing && (exists t :: Open(q, t)) then
      exists t :: Steals(q, t, job, q')
    else job == NO_JOB && q' == q
  }

  function Quota(q: Queue): nat {
    if q.perThread < 0 then 0 else q.perThread
  }

  ghost predicate Valid(q: Queue) {
    forall t :: 0 <= t < |q.works| ==> 0 <= q.works[t] <= Quota(q)
  }

  /** `job` has been popped. */
  predicate Dispensed(q: Queue, job: Job) {
    1 <= job.thread <= |q.works| && 1 <= job.run <= q.works[job.thread - 1]
  }

  function LeftOver(q: Queue): (s: seq<int>)
    ensures |s| == |q.works|
    ensures forall t :: 0 <= t < |s| ==> s[t] == Quota(q) - q.works[t]
  {
    seq(|q.works|, t requires 0 <= t < |q.works| => Quota(q) - q.works[t])
  }

  /** The number of jobs that are still to be popped. */
  function Remaining(q: Queue): int {
    Sum(LeftOver(q))
  }

  lemma PopIsPossible(q: Queue, thread: int) returns (job: Job, q': Queue)
    ensures Pops(q, thread, job, q')
  {
    if Open(q, thread - 1) {
      job, q' := Job(thread, q.works[thread - 1] + 1), q.(works := q.works[thread - 1 := q.works[thread - 1] + 1]);
    } else if 1 <= thread <= |q.works| && q.stealing && (exists t :: Open(q, t)) {
      var t: int := 0;
      while !Open(q, t)
        invariant 0 <= t <= |q.works|
        invariant forall u :: 0 <= u < t ==> !Open(q, u)
        decreases |q.works| - t
      {
        t := t + 1;
      }
      job, q' := Job(t + 1, q.works[t] + 1), q.(works := q.works[t := q.works[t] + 1]);
      assert Steals(q, t, job, q');
    } else {
      job, q' := NO_JOB, q;
    }
  }

  lemma TakingDispenses(q: Queue, t: int, job: Job, q': Queue)
    requires Valid(q) && Takes(q, t, job, q')
    ensures Valid(q') && Quota(q') == Quota(q) && Remaining(q') == Remaining(q) - 1
    ensures !Dispensed(q, job) && forall j :: Dispensed(q', j) <==> Dispensed(q, j) || j == job
  {
    var left := LeftOver(q);
    SumUpdate(left, t, left[t] - 1);
    assert LeftOver(q') == left[t := left[t] - 1];
  }

  /** A pop that yields a job dispenses exactly that job, for the first time, and brings the end of
      the queue one nearer; a pop that yields none leaves the queue as it is. */
  lemma PopDispensesOnce(q: Queue, thread: int, job: Job, q': Queue)
    requires Valid(q) && Pops(q, thread, job, q')
    ensures Valid(q') && |q'.works| == |q.works| && q'.perThread == q.perThread && q'.stealing == q.stealing
    ensures job.run == 0 <==> job == NO_JOB
    ensures job == NO_JOB ==> q' == q
    ensures job != NO_JOB ==>
      && !Dispensed(q, job)
      && (forall j :: Dispensed(q', j) <==> Dispensed(q, j) || j == job)
      && Remaining(q') == Remaining(q) - 1
  {
    if job != NO_JOB {
      var t := thread - 1;
      if !Open(q, t) {
        t :| Steals(q, t, job, q');
      }
      TakingDispenses(q, t, job, q');
    }
  }

  /** A thread that gets no job has run out of its own jobs, and with stealing so has every thread. */
  lemma NoJobMeansDone(q: Queue, thread: int, q': Queue)
    requires Valid(q) && 1 <= thread <= |q.works| && Pops(q, thread, NO_JOB, q')
    ensures q.works[thread - 1] == Quota(q)
    ensures q.stealing ==> Remaining(q) == 0 && forall t :: 0 <= t < |q.works| ==> q.works[t] == Quota(q)
  {
    if q.stealing {
      forall t | 0 <= t < |q.works| ensures q.works[t] == Quota(q) {
        assert !Open(q, t);
      }
      SumConstant(LeftOver(q), 0);
    }
  }

  /** A history of pops: call k was made by `callers[k]` and returned `jobs[k]`. */
  ghost predicate IsRun(initial: Queue, callers: seq<int>, jobs: seq<Job>, run: seq<Queue>) {
    && |run| == |callers| + 1 == |jobs| + 1
    && run[0] == initial
    && forall k :: 0 <= k < |callers| ==> Pops(run[k], callers[k], jobs[k], run[k + 1])
  }

  ghost predicate AppearsOnce(jobs: seq<Job>, job: Job) {
    job in jobs && forall i, j :: 0 <= i < j < |jobs| ==> jobs[i] != job || jobs[j] != job
  }

  /** Whoever pops and in whatever order, the jobs returned are pairwise distinct, and they are exactly
      the jobs the counters say were popped. */
  lemma {:induction false} PoppedJobsAreDistinct(threads: nat, perThread: int, stealing: bool,
                                                 callers: seq<int>, jobs: seq<Job>, run: seq<Queue>)
    requires IsRun(Initial(threads, perThread, stealing), callers, jobs, run)
    ensures var q := run[|callers|];
      && Valid(q) && |q.works| == threads && q.perThread == perThread && q.stealing == stealing
      && (forall job :: Dispensed(q, job) ==> AppearsOnce(jobs, job))
      && (forall job :: job in jobs && job != NO_JOB ==> Dispensed(q, job))
  {
    if callers != [] {
      var k := |callers| - 1;
      PoppedJobsAreDistinct(threads, perThread, stealing, callers[..k], jobs[..k], run[..k + 1]);
      PopDispensesOnce(run[k], callers[k], jobs[k], run[k + 1]);
      assert jobs == jobs[..k] + [jobs[k]];
      forall job | Dispensed(run[k + 1], job) ensures AppearsOnce(jobs, job) {
        if job != jobs[k] {
          assert AppearsOnce(jobs[..k], job);
        }
      }
    }
  }

  /** What is left only ever shrinks. */
  lemma {:induction false} WorksOnlyGrow(initial: Queue, callers: seq<int>, jobs: seq<Job>, run: seq<Queue>, i: nat,
                                         j: nat, t: nat)
    requires IsRun(initial, callers, jobs, run) && Valid(initial) && i <= j <= |callers| && t < |initial.works|
    ensures Valid(run[i]) && Valid(run[j])
    ensures |run[i].works| == |run[j].works| == |initial.works| && Quota(run[i]) == Quota(run[j]) == Quota(initial)
    ensures run[i].works[t] <= run[j].works[t]
    decreases j
  {
    if i < j {
      WorksOnlyGrow(initial, callers, jobs, run, i, j - 1, t);
      PopDispensesOnce(run[j - 1], callers[j - 1], jobs[j - 1], run[j]);
    } else if 0 < j {
      WorksOnlyGrow(initial, callers, jobs, run, j - 1, j - 1, t);
      PopDispensesOnce(run[j - 1], callers[j - 1], jobs[j - 1], run[j]);
    }
  }

  /** Once every thread has been told that there is no job, every thread's every job has been returned
      exactly once, with stealing or without. */
  lemma AllJobsDispensed(threads: nat, perThread: nat, stealing: bool, callers: seq<int>, jobs: seq<Job>,
                         run: seq<Queue>)
    requires IsRun(Initial(threads, perThread, stealing), callers, jobs, run)
    requires forall t :: 1 <= t <= threads ==> SeenEmpty(callers, jobs, t)
    ensures forall t, r :: 1 <= t <= threads && 1 <= r <= perThread ==> AppearsOnce(jobs, Job(t, r))
    ensures forall job :: job in jobs && job != NO_JOB ==> 1 <= job.thread <= threads && 1 <= job.run <= perThread
  {
    var q := run[|callers|];
    PoppedJobsAreDistinct(threads, perThread, stealing, callers, jobs, run);
    forall t, r | 1 <= t <= threads && 1 <= r <= perThread ensures AppearsOnce(jobs, Job(t, r)) {
      assert SeenEmpty(callers, jobs, t);
      var k :| 0 <= k < |callers| && callers[k] == t && jobs[k] == NO_JOB;
      WorksOnlyGrow(run[0], callers, jobs, run, k, |callers|, t - 1);
      NoJobMeansDone(run[k], t, run[k + 1]);
      assert Dispensed(q, Job(t, r));
    }
  }

  ghost predicate SeenEmpty(callers: seq<int>, jobs: seq<Job>, t: int)
    requires |callers| == |jobs|
  {
    exists k :: 0 <= k < |callers| && callers[k] == t && jobs[k] == NO_JOB
  }

  /** All jobs of thread `t` are in `jobs`. */
  ghost predicate Exhausted(jobs: seq<Job>, t: int, perThread: int) {
    forall r :: 1 <= r <= perThread ==> Job(t, r) in jobs
  }

  /** The jobs that were returned before call k are exactly the ones the counters tell. */
  lemma DispensedBefore(threads: nat, perThread: int, stealing: bool, callers: seq<int>, jobs: seq<Job>,
                        run: seq<Queue>, k: nat)
    requires IsRun(Initial(threads, perThread, stealing), callers, jobs, run) && k < |callers|
    ensures Valid(run[k]) && |run[k].works| == threads
    ensures run[k].perThread == perThread && run[k].stealing == stealing
    ensures forall job :: Dispensed(run[k], job) ==> job in jobs[..k]
    ensures Pops(run[k], callers[k], jobs[k], run[k + 1])
  {
    PoppedJobsAreDistinct(threads, perThread, stealing, callers[..k], jobs[..k], run[..k + 1]);
    forall job | Dispensed(run[k], job) ensures job in jobs[..k] {
      assert AppearsOnce(jobs[..k], job);
    }
  }

  lemma ClosedIsExhausted(q: Queue, before: seq<Job>, t: int)
    requires Valid(q) && 1 <= t <= |q.works| && !Open(q, t - 1)
    requires forall job :: Dispensed(q, job) ==> job in before
    ensures Exhausted(before, t, q.perThread)
  {
    forall r | 1 <= r <= q.perThread ensures Job(t, r) in before {
      assert Dispensed(q, Job(t, r));
    }
  }

  /** A call gets a job in order, after all of its thread's earlier ones; a job of another thread only by
      stealing, once the caller's own jobs and all jobs of the threads before that one are used up; and
      no job only when the caller is none of the threads, or has used up its own and cannot steal. */
  lemma OwnJobsFirst(threads: nat, perThread: int, stealing: bool, callers: seq<int>, jobs: seq<Job>,
                     run: seq<Queue>, k: nat)
    requires IsRun(Initial(threads, perThread, stealing), callers, jobs, run) && k < |callers|
    ensures var (caller, job, before) := (callers[k], jobs[k], jobs[..k]);
      if job != NO_JOB then
        && 1 <= caller <= threads && 1 <= job.thread <= threads && 1 <= job.run <= perThread
        && job !in before && Exhausted(before, job.thread, job.run - 1)
        && (job.thread != caller ==>
              && stealing && Exhausted(before, caller, perThread)
              && forall u :: 1 <= u < job.thread ==> Exhausted(before, u, perThread))
      else
        1 <= caller <= threads ==>
          && Exhausted(before, caller, perThread)
          && (stealing ==> forall u :: 1 <= u <= threads ==> Exhausted(before, u, perThread))
  {
    var (q, caller, job, before) := (run[k], callers[k], jobs[k], jobs[..k]);
    DispensedBefore(threads, perThread, stealing, callers, jobs, run, k);
    forall u | 1 <= u <= threads && !Open(q, u - 1) ensures Exhausted(before, u, perThread) {
      ClosedIsExhausted(q, before, u);
    }
    if job != NO_JOB {
      NewJob(threads, perThread, stealing, callers, jobs, run, k);
      forall r | 1 <= r <= job.run - 1 ensures Job(job.thread, r) in before {
        assert Dispensed(q, Job(job.thread, r));
      }
      if job.thread != caller {
        var t :| Steals(q, t, job, run[k + 1]);
        forall u | 1 <= u < job.thread ensures Exhausted(before, u, perThread) {
          assert !Open(q, u - 1);
        }
      }
    } else if 1 <= caller <= threads {
      assert !Open(q, caller - 1);
      if stealing {
        forall u | 1 <= u <= threads ensures Exhausted(before, u, perThread) {
          assert !Open(q, u - 1);
        }
      }
    }
  }

  lemma NewJob(threads: nat, perThread: int, stealing: bool, callers: seq<int>, jobs: seq<Job>, run: seq<Queue>,
               k: nat)
    requires IsRun(Initial(threads, perThread, stealing), callers, jobs, run) && k < |callers| && jobs[k] != NO_JOB
    ensures jobs[k] !in jobs[..k]
  {
    PoppedJobsAreDistinct(threads, perThread, stealing, callers[..k], jobs[..k], run[..k + 1]);
    PopDispensesOnce(run[k], callers[k], jobs[k], run[k + 1]);
  }

  class WorkQueue {
    const perThread: int
    const stealing: bool
    const threadWorks: array<int>

    ghost function Now(): Queue
      reads this, threadWorks
    {
      Queue(perThread, stealing, threadWorks[..])
    }

    constructor (threads: nat, perThread: int, stealing: bool)
      ensures Now() == Initial(threads, perThread, stealing) && fresh(threadWorks)
    {
      this.perThread, this.stealing := perThread, stealing;
      threadWorks := new int[threads](_ => 0);
    }

    method Pop(thread: int) returns (job: Job)
      modifies threadWorks
      ensures Pops(old(Now()), thread, job, Now())
    {
      if thread < 1 || thread > threadWorks.Length {
        return NO_JOB;
      }
      var own := thread - 1;
      if threadWorks[own] < perThread {
        threadWorks[own] := threadWorks[own] + 1;
        return Job(thread, threadWorks[own]);
      }
      if stealing {
        for t := 0 to threadWorks.Length
          invariant threadWorks[..] == old(threadWorks[..])
          invariant forall u :: 0 <= u < t ==> !Open(Now(), u)
        {
          if threadWorks[t] < perThread {
            threadWorks[t] := threadWorks[t] + 1;
            assert Steals(old(Now()), t, Job(t + 1, threadWorks[t]), Now());
            return Job(t + 1, threadWorks[t]);
          }
        }
      }
      return NO_JOB;
    }
  }
}
