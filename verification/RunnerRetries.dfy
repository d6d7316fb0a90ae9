/** What a failed call means for its thread and its job: with keep_trying the job is tried again, and
    without it the thread ends. */
module RunnerRetries {
  import opened Channels
  import opened Wrappers
  import opened Runner
  import WorkQueue

  /** Thread `w` gave up on `job` after a failed call of it. */
  ghost predicate GaveUp(s: State, w: int, job: Job) {
    0 <= w < |s.workers| && s.workers[w] == Stopped(job, None)
  }

  ghost predicate Failed(s: State, k: int) {
    0 <= k < |s.records| && s.records[k].status != Ok
  }

  /** A failed call of `job` is on record. */
  ghost predicate FailedOnce(s: State, job: Job) {
    exists k :: Failed(s, k) && s.records[k].job == job
  }

  ghost predicate SomeoneGaveUp(s: State, job: Job) {
    exists w :: GaveUp(s, w, job)
  }

  /** The failed calls on record are those that threads gave up on. */
  ghost predicate FailuresEndThreads(s: State) {
    forall job :: FailedOnce(s, job) <==> SomeoneGaveUp(s, job)
  }

  lemma StepKeepsRecords(trying: bool, s: State, e: Event, s': State, job: Job)
    requires Step(trying, s, e, s')
    ensures FailedOnce(s', job) <==>
      FailedOnce(s, job) || (e.Notify? && s.workers[e.w].status != Ok && s.workers[e.w].job == job)
  {
    if k :| Failed(s, k) && s.records[k].job == job {
      assert Failed(s', k) && s'.records[k] == s.records[k];
    }
    if e.Notify? && s.workers[e.w].status != Ok && s.workers[e.w].job == job {
      assert Failed(s', |s.records|);
    }
    if k :| Failed(s', k) && s'.records[k].job == job {
      assert k < |s.records| ==> Failed(s, k);
    }
  }

  lemma StepKeepsGivenUp(trying: bool, s: State, e: Event, s': State, job: Job)
    requires Step(trying, s, e, s')
    ensures SomeoneGaveUp(s', job) <==>
      SomeoneGaveUp(s, job) || (!trying && e.Notify? && s.workers[e.w].status != Ok && s.workers[e.w].job == job)
  {
    if w :| GaveUp(s, w, job) {
      assert GaveUp(s', w, job);
    }
    if !trying && e.Notify? && s.workers[e.w].status != Ok && s.workers[e.w].job == job {
      assert GaveUp(s', e.w, job);
    }
    if w :| GaveUp(s', w, job) {
      assert w != e.w ==> GaveUp(s, w, job);
    }
  }

  lemma Prefix(threads: nat, runs: int, stealing: bool, trying: bool, events: seq<Event>, run: seq<State>, k: nat)
    requires IsRun(threads, runs, stealing, trying, events, run) && |events| == k + 1
    ensures IsRun(threads, runs, stealing, trying, events[..k], run[..k + 1])
    ensures Step(trying, run[k], events[k], run[k + 1]) && run[..k + 1][|events[..k]|] == run[k]
  {
  }

  /** Without keep_trying: a job has a failed call on record exactly when a thread has ended over it. */
  lemma {:induction false} FailedCallsEndThreads(threads: nat, runs: int, stealing: bool, events: seq<Event>,
                                                 run: seq<State>)
    requires IsRun(threads, runs, stealing, false, events, run)
    ensures FailuresEndThreads(run[|events|])
  {
    if events != [] {
      var k := |events| - 1;
      Prefix(threads, runs, stealing, false, events, run, k);
      FailedCallsEndThreads(threads, runs, stealing, events[..k], run[..k + 1]);
      var s, s' := run[k], run[k + 1];
      forall job ensures FailedOnce(s', job) <==> SomeoneGaveUp(s', job) {
        StepKeepsRecords(false, s, events[k], s', job);
        StepKeepsGivenUp(false, s, events[k], s', job);
      }
    }
  }

  /** No such thread has a job that got an OK record: without keep_trying a job that failed is lost. */
  lemma FailedJobsAreLost(threads: nat, runs: int, stealing: bool, events: seq<Event>, run: seq<State>, job: Job)
    requires IsRun(threads, runs, stealing, false, events, run) && FailedOnce(run[|events|], job)
    requires job != WorkQueue.NO_JOB
    ensures job !in OkJobs(run[|events|].records)
  {
    var s := run[|events|];
    FailedCallsEndThreads(threads, runs, stealing, events, run);
    RunKeepsValid(threads, runs, stealing, false, events, run);
    var w :| GaveUp(s, w, job);
    assert JobsInHand(s.workers)[w] == job && job in JobsInHand(s.workers);
    assert Copies(s, job) <= 1;
  }

  ghost predicate NoneAbandoned(events: seq<Event>) {
    forall k :: 0 <= k < |events| ==> !events[k].Abandon?
  }

  lemma {:induction false} RetryingThreadsGoOn(threads: nat, runs: int, stealing: bool, events: seq<Event>,
                                               run: seq<State>)
    requires IsRun(threads, runs, stealing, true, events, run) && NoneAbandoned(events)
    ensures forall w :: 0 <= w < |run[|events|].workers| ==> !run[|events|].workers[w].Stopped?
  {
    if events != [] {
      var k := |events| - 1;
      Prefix(threads, runs, stealing, true, events, run, k);
      RetryingThreadsGoOn(threads, runs, stealing, events[..k], run[..k + 1]);
      assert !events[k].Abandon?;
    }
  }

  /** With keep_trying, when no thread is left to do anything and no upload failed to start, every job has
      exactly one OK record, however many calls of it failed before. */
  lemma RetryingCompletesAllJobs(threads: nat, runs: int, stealing: bool, events: seq<Event>, run: seq<State>)
    requires IsRun(threads, runs, stealing, true, events, run) && NoneAbandoned(events)
    requires forall w :: 0 <= w < |run[|events|].workers| ==>
      run[|events|].workers[w].Finished? || run[|events|].workers[w].Stopped?
    ensures forall job :: IsJob(threads, runs, job) ==> multiset(OkJobs(run[|events|].records))[job] == 1
  {
    RetryingThreadsGoOn(threads, runs, stealing, events, run);
    OneOkRecordPerJob(threads, runs, stealing, true, events, run);
    assert AllFinished(run[|events|]);
  }
}
