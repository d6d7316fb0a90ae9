/** What the "spool" policy does with its reports, said in terms of the reports themselves: which channel
    an evaluation replaces, and that a failed channel is gone for good. */
module ScoringPoolLaws {
  import opened Arithmetic
  import opened Channels
  import opened RoundRobin
  import opened Wrappers
  import opened ScoringPool
  import opened ScoringPoolRuns

  // ----- Rates -----

  /** How many of the reports are on channel `c`. */
  function ReportsOn(samples: seq<Sample>, c: Channel): nat {
    if samples == [] then 0
    else ReportsOn(samples[..|samples| - 1], c) + if samples[|samples| - 1].handle == c then 1 else 0
  }

  /** The bytes they carried. */
  function BytesOn(samples: seq<Sample>, c: Channel): nat {
    if samples == [] then 0
    else
      var last := samples[|samples| - 1];
      BytesOn(samples[..|samples| - 1], c) + if last.handle == c then last.bytes else 0
  }

  /** The time they took. */
  function TimeOn(samples: seq<Sample>, c: Channel): nat {
    if samples == [] then 0
    else
      var last := samples[|samples| - 1];
      TimeOn(samples[..|samples| - 1], c) + if last.handle == c then last.elapsed else 0
  }

  /** An entry of the score map sums up the reports on its channel. */
  lemma {:induction false} TallyIsSums(samples: seq<Sample>, c: Channel)
    ensures Tally(samples, c) == Entry(ReportsOn(samples, c), BytesOn(samples, c), TimeOn(samples, c))
  {
    if samples != [] {
      TallyIsSums(samples[..|samples| - 1], c);
    }
  }

  function Millis(samples: seq<Sample>, c: Channel): nat {
    TimeOn(samples, c) / 4_000_000
  }

  /** The scored channels with reports since the last reset. */
  ghost function Reporting(s: State): set<Channel> {
    set c | c in s.atReset && ReportsOn(s.samples, c) > 0
  }

  /** Every one of them was busy for at least a millisecond. */
  ghost predicate Measurable(s: State) {
    forall c :: c in Reporting(s) ==> Millis(s.samples, c) > 0
  }

  /** Bytes per millisecond, as far as whole numbers can tell. */
  function Rate(samples: seq<Sample>, c: Channel): nat
    requires Millis(samples, c) > 0
  {
    BytesOn(samples, c) / Millis(samples, c)
  }

  /** `v` has the least rate of all, it is below a third of another channel's, and below the least score
      that the scan starts with. */
  ghost predicate Laggard(s: State, v: Channel)
    requires Measurable(s)
  {
    && v in Reporting(s) && Rate(s.samples, v) < 0xffff_ffff_ffff
    && (forall c :: c in Reporting(s) ==> Rate(s.samples, v) <= Rate(s.samples, c))
    && exists best :: best in Reporting(s) && Rate(s.samples, v) < Rate(s.samples, best) / 3
  }

  /** Without any division: some channel moved more than three times as many bytes in the same time. */
  lemma LaggardIsThreeTimesSlower(s: State, v: Channel) returns (best: Channel)
    requires Measurable(s) && Laggard(s, v)
    ensures best in Reporting(s)
    ensures 3 * (BytesOn(s.samples, v) * Millis(s.samples, best)) < BytesOn(s.samples, best) * Millis(s.samples, v)
  {
    best :| best in Reporting(s) && Rate(s.samples, v) < Rate(s.samples, best) / 3;
    ThirdOfQuotient(BytesOn(s.samples, v), Millis(s.samples, v), BytesOn(s.samples, best), Millis(s.samples, best));
  }

  lemma ThirdOfQuotient(b: nat, m: nat, c: nat, n: nat)
    requires m > 0 && n > 0 && b / m < c / n / 3
    ensures 3 * (b * n) < c * m
  {
    var q, r := b / m, c / n;
    QuotientBounds(b, m);
    QuotientBounds(c, n);
    CrossMultiply(q, r, b, m, c, n);
  }

  lemma QuotientBounds(a: nat, n: nat)
    requires n > 0
    ensures (a / n) * n <= a < (a / n + 1) * n
  {
    var q, r := a / n, a % n;
    assert a == q * n + r;
  }

  lemma CrossMultiply(q: nat, r: nat, b: nat, m: nat, c: nat, n: nat)
    requires n > 0 && 3 * (q + 1) <= r && b < (q + 1) * m && r * n <= c
    ensures 3 * (b * n) < c * m
  {
    var x := (q + 1) * m;
    assert b * n < x * n by { MulMonotone(b + 1, x, n); }
    assert 3 * x <= r * m by { ThriceFactor(q + 1, m); MulMonotone(3 * (q + 1), r, m); }
    assert 3 * (x * n) <= r * m * n by { ThriceFactor(x, n); MulMonotone(3 * x, r * m, n); }
    assert r * m * n == r * n * m by { SwapFactors(r, m, n); }
    MulMonotone(r * n, c, m);
  }

  lemma ThriceFactor(x: nat, n: nat)
    ensures 3 * (x * n) == (3 * x) * n
  {
  }

  lemma SwapFactors(r: nat, m: nat, n: nat)
    ensures r * m * n == r * n * m
  {
  }

  // ----- Evaluations -----

  lemma EntriesAreSums(s: State, size: nat)
    requires Valid(s, size)
    ensures forall c :: c in s.entries <==> c in s.atReset
    ensures forall c :: c in s.entries ==>
      s.entries[c] == Entry(ReportsOn(s.samples, c), BytesOn(s.samples, c), TimeOn(s.samples, c))
  {
    forall c | c in s.entries
      ensures s.entries[c] == Entry(ReportsOn(s.samples, c), BytesOn(s.samples, c), TimeOn(s.samples, c))
    {
      TallyIsSums(s.samples, c);
    }
  }

  /** The scores are the rates. */
  lemma ScoresAreRates(s: State, size: nat)
    requires Valid(s, size) && Timed(s.entries)
    ensures Measurable(s)
    ensures forall c :: Sampled(s.entries, c) <==> c in Reporting(s)
    ensures forall c :: Sampled(s.entries, c) ==> Score(s.entries[c]) == Rate(s.samples, c)
    ensures (set c | c in s.entries.Keys && Sampled(s.entries, c)) == Reporting(s)
  {
    EntriesAreSums(s, size);
    forall c | c in Reporting(s) ensures Millis(s.samples, c) > 0 {
      QuotientAtLeast(TimeOn(s.samples, c), 4_000_000, 1);
    }
  }

  /** With a scan at hand: what it found in terms of rates. */
  lemma ScanFindsLaggard(s: State, size: nat, valid: nat, leastKey: Option<Channel>, leastScore: nat, bestScore: nat)
    requires Valid(s, size) && Timed(s.entries) && Measurable(s)
    requires Scanned(s.entries, s.entries.Keys, valid, leastKey, leastScore, bestScore)
    ensures valid == |Reporting(s)|
    ensures leastScore >= bestScore / 3 || leastKey == None ==> forall v :: !Laggard(s, v)
    ensures leastScore < bestScore / 3 && leastKey.Some? ==> Laggard(s, leastKey.value)
  {
    ScoresAreRates(s, size);
    if leastScore < bestScore / 3 && leastKey.Some? {
      var best :| best in s.entries.Keys && Sampled(s.entries, best) && Score(s.entries[best]) == bestScore;
      assert best in Reporting(s);
    }
  }

  lemma EvictReplaces(s: State, c: Channel, s': State, size: nat)
    requires Valid(s, size) && Evict(s, Some(c), s')
    ensures Replaced(s.channels, c, s.created, s'.channels)
  {
    var i :| EvictAt(s, c, i, s');
    forall j | 0 <= j < size && j != i ensures s.channels[j] != c {
      assert i < size ==> s.channels[j] != s.channels[i];
    }
  }

  /** Some laggard's slot gets a channel that is new to the pool. */
  ghost predicate LaggardReplaced(s: State, s': State)
    requires Measurable(s)
  {
    exists v :: Laggard(s, v) && Replaced(s.channels, v, s.created, s'.channels)
  }

  /** What a due evaluation does, in every case: without a quorum nothing; with one, it starts the scores
      afresh, and it replaces a laggard if there is one, and otherwise no channel. */
  lemma EvaluationReplacesLaggard(s: State, s': State, size: nat)
    requires Valid(s, size) && Defined(s) && Due(s) && Settle(s, s')
    ensures Measurable(s)
    ensures |Reporting(s)| < size / 2 ==> s' == s
    ensures |Reporting(s)| >= size / 2 ==> s'.scoreCount == 0 && s'.samples == [] && s'.atReset == s'.channels
    ensures |Reporting(s)| >= size / 2 ==>
      if exists v :: Laggard(s, v) then LaggardReplaced(s, s') else s'.channels == s.channels
  {
    ScoresAreRates(s, size);
    EntriesSize(s, size);
    var valid: nat, leastKey, leastScore: nat, bestScore: nat :|
      && Scanned(s.entries, s.entries.Keys, valid, leastKey, leastScore, bestScore)
      && Verdict(s, valid, leastKey, leastScore, bestScore, s');
    ScanFindsLaggard(s, size, valid, leastKey, leastScore, bestScore);
    if valid >= size / 2 && leastScore < bestScore / 3 {
      var e :| Evict(s, leastKey, e) && s' == Reset(e);
      if leastKey.Some? {
        EvictReplaces(s, leastKey.value, e, size);
        assert Laggard(s, leastKey.value) && Replaced(s.channels, leastKey.value, s.created, s'.channels);
      }
    }
  }

  // ----- Failed channels -----

  /** After a report of a call that was cancelled or ran out of time, a channel that is new to the pool is in
      the place of the failed one, if that was in the pool; all others, and all scores, are kept. */
  lemma FailedChannelLeaves(s: State, handle: Channel, status: Status, s': State, size: nat)
    requires Valid(s, size) && ReportError(s, handle, status, s') && (status == Cancelled || status == DeadlineExceeded)
    ensures Replaced(s.channels, handle, s.created, s'.channels)
    ensures handle < s.created ==> handle !in s'.channels
    ensures s.created !in s.channels && s'.entries == s.entries && s'.scoreCount == s.scoreCount
  {
    EvictReplaces(Closed(s, handle), handle, s', size);
  }

  /** Any other error changes no channel and no score. */
  lemma OtherErrorsKeepChannels(s: State, handle: Channel, status: Status, s': State)
    requires ReportError(s, handle, status, s') && status == OtherError
    ensures s'.channels == s.channels && s'.entries == s.entries && s'.scoreCount == s.scoreCount
  {
  }

  lemma {:induction false} RunKeepsValid(size: nat, run: seq<State>, k: nat)
    requires size > 0 && IsRun(size, run) && k < |run|
    ensures Valid(run[k], size)
  {
    ScoresAccountForReports(size, run[..k + 1]);
  }

  lemma EvictKeepsGone(s: State, key: Option<Channel>, s': State, c: Channel)
    requires Evict(s, key, s') && c < s.created && c !in s.channels
    ensures c < s'.created && c !in s'.channels
  {
    if key.Some? {
      var i :| EvictAt(s, key.value, i, s');
    }
  }

  lemma StepKeepsGone(s: State, s': State, c: Channel)
    requires Step(s, s') && c < s.created && c !in s.channels
    ensures c < s'.created && c !in s'.channels
  {
    if x :| ReportOk(s, x, s') {
      var r := Recorded(s, x);
      if Due(r) {
        var valid: nat, leastKey, leastScore: nat, bestScore: nat :|
          && Scanned(r.entries, r.entries.Keys, valid, leastKey, leastScore, bestScore)
          && Verdict(r, valid, leastKey, leastScore, bestScore, s');
        if s' != r && s' != Reset(r) {
          var e :| Evict(r, leastKey, e) && s' == Reset(e);
          EvictKeepsGone(r, leastKey, e, c);
        }
      }
    } else if handle :| Get(s, handle, s') {
    } else {
      var handle, status :| status != Ok && ReportError(s, handle, status, s');
      if Hopeless(status) {
        EvictKeepsGone(Closed(s, handle), Some(handle), s', c);
      }
    }
  }

  ghost predicate StepAt(run: seq<State>, k: nat)
    requires k + 1 < |run|
  {
    Step(run[k], run[k + 1])
  }

  ghost predicate AllSteps(run: seq<State>) {
    forall k: nat {:trigger StepAt(run, k)} :: k + 1 < |run| ==> StepAt(run, k)
  }

  lemma RunSteps(size: nat, run: seq<State>)
    requires IsRun(size, run)
    ensures AllSteps(run)
  {
  }

  lemma {:induction false} GoneStaysGone(run: seq<State>, k: nat, j: nat, c: Channel)
    requires AllSteps(run) && k <= j < |run| && c < run[k].created && c !in run[k].channels
    ensures c < run[j].created && c !in run[j].channels
    decreases j
  {
    if k < j {
      GoneStaysGone(run, k, j - 1, c);
      assert StepAt(run, j - 1);
      StepKeepsGone(run[j - 1], run[j], c);
    }
  }

  /** On every run: no handout after such a report returns the failed channel again. */
  lemma FailedChannelIsNotHandedOut(size: nat, run: seq<State>, k: nat, handle: Channel, status: Status,
                                    j: nat, other: Channel)
    requires size > 0 && IsRun(size, run) && k < j && j + 1 < |run| && handle < run[k].created
    requires ReportError(run[k], handle, status, run[k + 1]) && (status == Cancelled || status == DeadlineExceeded)
    requires Get(run[j], other, run[j + 1])
    ensures other != handle
  {
    RunKeepsValid(size, run, k);
    FailedChannelLeaves(run[k], handle, status, run[k + 1], size);
    RunSteps(size, run);
    GoneStaysGone(run, k + 1, j, handle);
  }

  // ----- Fairness -----

  /** Handout number k returns the channel that slot (k + 1) % size holds at that time. */
  lemma HandlesComeInTurn(size: nat, run: seq<State>, k: nat, handle: Channel)
    requires size > 0 && IsRun(size, run) && k + 1 < |run| && Get(run[k], handle, run[k + 1])
    ensures |run[k].channels| == size && handle == run[k].channels[(|run[k].handles| + 1) % size]
    ensures run[k + 1].handles == run[k].handles + [handle]
  {
    RunKeepsValid(size, run, k);
    NextVisit(|run[k].served|, size);
  }

  ghost predicate SameChannels(run: seq<State>, a: nat, b: nat)
    requires a <= b < |run|
  {
    forall k :: a <= k <= b ==> run[k].channels == run[a].channels
  }

  lemma SettleHandsOutNothing(s: State, s': State)
    requires Defined(s) && Settle(s, s')
    ensures s'.served == s.served && s'.handles == s.handles
  {
    if Due(s) {
      var valid: nat, leastKey, leastScore: nat, bestScore: nat :|
        && Scanned(s.entries, s.entries.Keys, valid, leastKey, leastScore, bestScore)
        && Verdict(s, valid, leastKey, leastScore, bestScore, s');
      if s' != s && s' != Reset(s) {
        var e :| Evict(s, leastKey, e) && s' == Reset(e);
      }
    }
  }

  lemma ErrorHandsOutNothing(s: State, handle: Channel, status: Status, s': State)
    requires ReportError(s, handle, status, s')
    ensures s'.served == s.served && s'.handles == s.handles
  {
  }

  lemma StepHandsOut(s: State, s': State)
    requires Step(s, s')
    ensures (s'.served == s.served && s'.handles == s.handles) || exists i :: HandsOut(s, i, s')
  {
    if x :| ReportOk(s, x, s') {
      SettleHandsOutNothing(Recorded(s, x), s');
    } else if handle, status :| ReportError(s, handle, status, s') {
      ErrorHandsOutNothing(s, handle, status, s');
    } else if handle :| Get(s, handle, s') {
      assert HandsOut(s, (s.cursor + 1) % |s.channels|, s');
    }
  }

  /** The turn goes to slot `i`, and its channel is returned. */
  ghost predicate HandsOut(s: State, i: int, s': State) {
    && 0 <= i < |s.channels|
    && s'.served == s.served + [i] && s'.handles == s.handles + [s.channels[i]]
  }

  lemma OneMoreHandle(handles: seq<Channel>, served: seq<int>, channels: seq<Channel>, from: nat, s: State, i: int,
                      s': State)
    requires HandsOut(s, i, s') && s.channels == channels && s.handles == handles && s.served == served
    requires from <= |handles| == |served| && HandlesOf(handles[from..], served[from..], channels)
    ensures HandlesOf(s'.handles[from..], s'.served[from..], channels)
  {
    assert s'.handles[from..] == handles[from..] + [channels[i]];
    assert s'.served[from..] == served[from..] + [i];
  }

  lemma {:induction false} WindowOf(run: seq<State>, a: nat, b: nat)
    requires AllSteps(run) && a <= b < |run| && SameChannels(run, a, b) && |run[a].handles| == |run[a].served|
    ensures |run[a].handles| <= |run[b].served| == |run[b].handles|
    ensures HandlesOf(run[b].handles[|run[a].handles|..], run[b].served[|run[a].handles|..], run[a].channels)
    decreases b
  {
    if a < b {
      WindowOf(run, a, b - 1);
      assert StepAt(run, b - 1);
      WindowGrows(run[b - 1], run[b], run[a].channels, |run[a].handles|);
    }
  }

  lemma WindowGrows(s: State, s': State, channels: seq<Channel>, from: nat)
    requires Step(s, s') && s.channels == channels && from <= |s.handles| == |s.served|
    requires HandlesOf(s.handles[from..], s.served[from..], channels)
    ensures |s.handles| <= |s'.handles| == |s'.served|
    ensures HandlesOf(s'.handles[from..], s'.served[from..], channels)
  {
    StepHandsOut(s, s');
    if i :| HandsOut(s, i, s') {
      OneMoreHandle(s.handles, s.served, channels, from, s, i, s');
    }
  }

  /** Over any part of a run without replacements, every channel of the pool is returned floor(k/size) or
      ceil(k/size) times by k handouts. */
  lemma FairToChannels(size: nat, run: seq<State>, a: nat, b: nat, slot: int)
    requires size > 0 && IsRun(size, run) && a <= b < |run| && SameChannels(run, a, b)
    requires 0 <= slot < |run[a].channels|
    ensures |run[a].channels| == size && |run[a].handles| <= |run[b].handles|
    ensures var window := run[b].handles[|run[a].handles|..];
      |window| / size <= multiset(window)[run[a].channels[slot]] <= CeilDiv(|window|, size)
  {
    RunKeepsValid(size, run, a);
    RunKeepsValid(size, run, b);
    RunSteps(size, run);
    WindowOf(run, a, b);
    var from := |run[a].handles|;
    FairHandles(run[b].handles[from..], run[b].served[from..], run[a].channels, 1 + from, slot);
  }
}
