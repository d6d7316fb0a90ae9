/** What holds over whole runs of the "spool" policy. */
module ScoringPoolRuns {
  import opened Arithmetic
  import opened Channels
  import opened RoundRobin
  import opened Wrappers
  import opened ScoringPool

  /** What the OK reports in `samples` add up to for channel `c`. */
  function Tally(samples: seq<Sample>, c: Channel): Entry {
    if samples == [] then Entry(0, 0, 0)
    else
      var k := |samples| - 1;
      var before := Tally(samples[..k], c);
      if samples[k].handle == c then Added(before, samples[k]) else before
  }

  function TotalCount(cs: seq<Channel>, entries: map<Channel, Entry>): nat
    requires forall c :: c in cs ==> c in entries
  {
    if cs == [] then 0 else entries[cs[0]].count + TotalCount(cs[1..], entries)
  }

  ghost predicate Fresh(cs: seq<Channel>, created: nat) {
    Distinct(cs) && forall c :: c in cs ==> c < created
  }

  /** The score map describes exactly the channels of the last reset, and each entry is the sum of
      that channel's OK reports since then. */
  ghost predicate Accounts(s: State) {
    && (forall c :: c in s.entries <==> c in s.atReset)
    && (forall c :: c in s.entries ==> s.entries[c] == Tally(s.samples, c))
    && s.scoreCount == |s.samples|
  }

  ghost predicate Valid(s: State, size: nat) {
    && |s.channels| == size > 0 && Fresh(s.channels, s.created)
    && |s.atReset| == size && Fresh(s.atReset, s.created)
    && s.cursor == |s.served| % size && InOrder(s.served, 1, size) && |s.handles| == |s.served|
    && Accounts(s)
  }

  lemma {:induction false} DistinctSize(cs: seq<Channel>, keys: set<Channel>)
    requires Distinct(cs) && forall c :: c in keys <==> c in cs
    ensures |keys| == |cs|
  {
    if cs != [] {
      assert cs == [cs[0]] + cs[1..];
      DistinctSize(cs[1..], keys - {cs[0]});
    } else {
      assert keys == {};
    }
  }

  lemma EntriesSize(s: State, size: nat)
    requires Valid(s, size)
    ensures |s.entries| == size
  {
    DistinctSize(s.atReset, s.entries.Keys);
    assert |s.entries| == |s.entries.Keys|;
  }

  lemma EvictKeepsValid(s: State, key: Option<Channel>, s': State, size: nat)
    requires Valid(s, size) && Evict(s, key, s')
    ensures Valid(s', size)
  {
    if key == None {
      return;
    }
    var i :| EvictAt(s, key.value, i, s');
    forall a, b | 0 <= a < b < size ensures s'.channels[a] != s'.channels[b] {
      assert s.channels[a] in s.channels && s.channels[b] in s.channels;
    }
    forall c | c in s'.channels ensures c < s'.created {
      if c != s.created {
        assert c in s.channels;
      }
    }
  }

  lemma ResetKeepsValid(s: State, size: nat)
    requires Valid(s, size)
    ensures Valid(Reset(s), size)
  {
  }

  lemma RecordedIsValid(s: State, x: Sample, size: nat)
    requires Valid(s, size)
    ensures Valid(Recorded(s, x), size)
  {
    var r := Recorded(s, x);
    assert r.samples[..|r.samples| - 1] == s.samples;
  }

  lemma SettleKeepsValid(s: State, s': State, size: nat)
    requires Valid(s, size) && Defined(s) && Settle(s, s')
    ensures Valid(s', size)
  {
    if Due(s) {
      var valid: nat, leastKey, leastScore: nat, bestScore: nat :|
        && Scanned(s.entries, s.entries.Keys, valid, leastKey, leastScore, bestScore)
        && Verdict(s, valid, leastKey, leastScore, bestScore, s');
      if valid < |s.entries| / 2 {
      } else if leastScore >= bestScore / 3 {
        ResetKeepsValid(s, size);
      } else {
        var e :| Evict(s, leastKey, e) && s' == Reset(e);
        EvictKeepsValid(s, leastKey, e, size);
        ResetKeepsValid(e, size);
      }
    }
  }

  /** A step of any clients, short of an evaluation that would divide by zero. */
  ghost predicate Step(s: State, s': State) {
    || (exists handle :: Get(s, handle, s'))
    || (exists handle, status :: status != Ok && ReportError(s, handle, status, s'))
    || (exists x :: ReportOk(s, x, s'))
  }

  ghost predicate IsRun(size: nat, run: seq<State>) {
    && run != []
    && run[0] == Initial(size)
    && forall k :: 0 <= k < |run| - 1 ==> Step(run[k], run[k + 1])
  }

  lemma StepKeepsValid(s: State, s': State, size: nat)
    requires Valid(s, size) && Step(s, s')
    ensures Valid(s', size)
  {
    if handle :| Get(s, handle, s') {
      NextVisit(|s.served|, size);
    } else if x :| ReportOk(s, x, s') {
      RecordedIsValid(s, x, size);
      SettleKeepsValid(Recorded(s, x), s', size);
    } else {
      var handle, status :| status != Ok && ReportError(s, handle, status, s');
      if Hopeless(status) {
        EvictKeepsValid(Closed(s, handle), Some(handle), s', size);
      }
    }
  }

  /** For any mix of handouts, OK reports and errors, the score map accounts for exactly the reports
      since the last reset, even where an error has replaced a channel in the meantime. */
  lemma {:induction false} ScoresAccountForReports(size: nat, run: seq<State>)
    requires size > 0 && IsRun(size, run)
    ensures var s := run[|run| - 1];
      && Valid(s, size) && |s.entries| == size
      && TotalCount(s.atReset, s.entries) <= s.scoreCount
  {
    var s := run[|run| - 1];
    if |run| > 1 {
      ScoresAccountForReports(size, run[..|run| - 1]);
      StepKeepsValid(run[|run| - 2], s, size);
    }
    EntriesSize(s, size);
    CountsAtMostReports(s.atReset, s.entries, s.samples);
  }

  /** Over any window of handouts, whatever reports and replacements come between them, every slot
      is handed out floor(k / size) or ceil(k / size) times. */
  lemma FairOverAnyWindow(size: nat, run: seq<State>, from: nat, to: nat, slot: int)
    requires size > 0 && IsRun(size, run) && 0 <= slot < size
    requires from <= to <= |run[|run| - 1].served|
    ensures (to - from) / size <= multiset(run[|run| - 1].served[from..to])[slot] <= CeilDiv(to - from, size)
  {
    ScoresAccountForReports(size, run);
    FairWindow(run[|run| - 1].served[from..to], 1 + from, size, slot);
  }

  lemma {:induction false} CountsAtMostReports(cs: seq<Channel>, entries: map<Channel, Entry>, samples: seq<Sample>)
    requires Distinct(cs)
    requires forall c :: c in cs ==> c in entries && entries[c] == Tally(samples, c)
    ensures TotalCount(cs, entries) <= |samples|
  {
    var all := map c | c in cs :: Tally(samples, c);
    SameTotal(cs, entries, all);
    if samples == [] {
      ZeroTotal(cs, all);
    } else {
      var k := |samples| - 1;
      var before := map c | c in cs :: Tally(samples[..k], c);
      CountsAtMostReports(cs, before, samples[..k]);
      OneMore(cs, before, all, samples[k].handle);
    }
  }

  lemma {:induction false} SameTotal(cs: seq<Channel>, a: map<Channel, Entry>, b: map<Channel, Entry>)
    requires forall c :: c in cs ==> c in a && c in b && a[c] == b[c]
    ensures TotalCount(cs, a) == TotalCount(cs, b)
  {
    if cs != [] {
      SameTotal(cs[1..], a, b);
    }
  }

  lemma {:induction false} ZeroTotal(cs: seq<Channel>, a: map<Channel, Entry>)
    requires forall c :: c in cs ==> c in a && a[c].count == 0
    ensures TotalCount(cs, a) == 0
  {
    if cs != [] {
      ZeroTotal(cs[1..], a);
    }
  }

  lemma {:induction false} OneMore(cs: seq<Channel>, a: map<Channel, Entry>, b: map<Channel, Entry>, h: Channel)
    requires Distinct(cs) && forall c :: c in cs ==> c in a && c in b
    requires forall c :: c in cs ==> b[c].count == a[c].count + (if c == h then 1 else 0)
    ensures TotalCount(cs, b) == TotalCount(cs, a) + (if h in cs then 1 else 0)
  {
    if cs != [] {
      assert cs == [cs[0]] + cs[1..];
      OneMore(cs[1..], a, b, h);
    }
  }

  lemma EvictedSlot(s: State, key: Option<Channel>, s': State, i: nat)
    requires Evict(s, key, s') && i < |s.channels|
    ensures |s'.channels| == |s.channels|
    ensures s'.channels[i] != s.channels[i] ==>
      key == Some(s.channels[i]) && forall j :: 0 <= j < |s.channels| && j != i ==> s'.channels[j] == s.channels[j]
  {
    if key.Some? {
      var k :| EvictAt(s, key.value, k, s');
    }
  }

  /** A channel that loses its slot to an evaluation has samples, has the least score of all, and
      scored strictly below a third of the best; at least half of the channels had samples; every
      channel with the best score keeps its slot, as does every slot but that one. */
  lemma OnlyALaggardIsEvicted(s: State, s': State, size: nat, i: nat)
    requires Valid(s, size) && Defined(s) && Settle(s, s')
    requires i < size && s'.channels[i] != s.channels[i]
    ensures |s'.channels| == size && Due(s)
    ensures var victim := s.channels[i];
      && Sampled(s.entries, victim)
      && |set c | c in s.entries.Keys && Sampled(s.entries, c)| >= size / 2
      && (forall c :: Sampled(s.entries, c) ==> Score(s.entries[victim]) <= Score(s.entries[c]))
      && (exists best ::
            && Sampled(s.entries, best)
            && (forall c :: Sampled(s.entries, c) ==> Score(s.entries[c]) <= Score(s.entries[best]))
            && Score(s.entries[victim]) < Score(s.entries[best]) / 3)
    ensures forall j :: 0 <= j < size && j != i ==> s'.channels[j] == s.channels[j]
  {
    EntriesSize(s, size);
    var valid: nat, leastKey, leastScore: nat, bestScore: nat :|
      && Scanned(s.entries, s.entries.Keys, valid, leastKey, leastScore, bestScore)
      && Verdict(s, valid, leastKey, leastScore, bestScore, s');
    var e :| Evict(s, leastKey, e) && s' == Reset(e);
    EvictedSlot(s, leastKey, e, i);
    var best :| best in s.entries && Sampled(s.entries, best) && Score(s.entries[best]) == bestScore;
  }

  /** One client call: a handout, and then an OK report on it. */
  ghost predicate Call(s: State, x: Sample, recorded: State, s': State) {
    && (exists mid :: Get(s, x.handle, mid) && recorded == Recorded(mid, x))
    && Defined(recorded) && Settle(recorded, s')
  }

  ghost predicate ClientStep(s: State, s': State) {
    exists x, recorded :: Call(s, x, recorded, s')
  }

  ghost predicate IsClientRun(size: nat, run: seq<State>) {
    && run != []
    && run[0] == Initial(size)
    && forall k :: 0 <= k < |run| - 1 ==> ClientStep(run[k], run[k + 1])
  }

  /** The reports since the last reset are those of the last handouts, in order. */
  ghost predicate LastHandouts(s: State) {
    |s.samples| <= |s.served| && forall j :: 0 <= j < |s.samples| ==> IsHandout(s, j)
  }

  ghost predicate IsHandout(s: State, j: nat)
    requires j < |s.samples| <= |s.served|
  {
    var slot := s.served[|s.served| - |s.samples| + j];
    0 <= slot < |s.channels| && s.samples[j].handle == s.channels[slot]
  }

  /** No error has come in since the last reset, and every handout was reported. */
  ghost predicate Steady(s: State, size: nat) {
    Valid(s, size) && s.atReset == s.channels && LastHandouts(s)
  }

  lemma {:induction false} TallyIsVisits(samples: seq<Sample>, slots: seq<int>, channels: seq<Channel>, i: int)
    requires Distinct(channels) && 0 <= i < |channels| && |samples| == |slots|
    requires forall j :: 0 <= j < |slots| ==> 0 <= slots[j] < |channels|
    requires forall j :: 0 <= j < |slots| ==> samples[j].handle == channels[slots[j]]
    ensures Tally(samples, channels[i]).count == multiset(slots)[i]
  {
    if samples != [] {
      var k := |samples| - 1;
      assert slots == slots[..k] + [slots[k]];
      TallyIsVisits(samples[..k], slots[..k], channels, i);
    }
  }

  /** When the reports have filled the count, every channel has been sampled three times. */
  lemma ThreeSamplesEach(s: State, size: nat)
    requires Steady(s, size) && |s.samples| >= 3 * size
    ensures forall c :: c in s.entries ==> s.entries[c].count >= 3
  {
    forall c | c in s.entries ensures s.entries[c].count >= 3 {
      var i :| 0 <= i < size && s.channels[i] == c;
      var from := |s.served| - |s.samples|;
      var slots := s.served[from..];
      assert InOrder(slots, 1 + from, size);
      assert forall j :: 0 <= j < |slots| ==> IsHandout(s, j) && slots[j] == s.served[from + j];
      TallyIsVisits(s.samples, slots, s.channels, i);
      FairWindow(slots, 1 + from, size, i);
      QuotientAtLeast(|slots|, size, 3);
    }
  }

  lemma LastHandoutsGrow(s: State, x: Sample, mid: State, recorded: State)
    requires LastHandouts(s) && Get(s, x.handle, mid) && recorded == Recorded(mid, x)
    ensures LastHandouts(recorded)
  {
    forall j | 0 <= j < |recorded.samples| ensures IsHandout(recorded, j) {
      assert j < |s.samples| ==> IsHandout(s, j);
    }
  }

  lemma GetKeepsValid(s: State, handle: Channel, mid: State, size: nat)
    requires Valid(s, size) && Get(s, handle, mid)
    ensures Valid(mid, size)
  {
    NextVisit(|s.served|, size);
  }

  lemma CallRecords(s: State, x: Sample, recorded: State, s': State, size: nat)
    requires Steady(s, size) && Call(s, x, recorded, s')
    ensures Steady(recorded, size) && recorded.channels == s.channels
    ensures |recorded.samples| == |s.samples| + 1 && recorded.scoreCount == s.scoreCount + 1
  {
    var mid :| Get(s, x.handle, mid) && recorded == Recorded(mid, x);
    GetKeepsValid(s, x.handle, mid, size);
    RecordedIsValid(mid, x, size);
    LastHandoutsGrow(s, x, mid, recorded);
  }

  lemma AtMostOneEvicted(s: State, key: Option<Channel>, s': State)
    requires Evict(s, key, s')
    ensures |s'.channels| == |s.channels| && s'.served == s.served
    ensures forall i, j :: 0 <= i < j < |s.channels| ==>
      s'.channels[i] == s.channels[i] || s'.channels[j] == s.channels[j]
  {
    if key.Some? {
      var k :| EvictAt(s, key.value, k, s');
    }
  }

  lemma AllSampled(s: State, size: nat)
    requires Valid(s, size) && forall c :: c in s.entries ==> s.entries[c].count >= 3
    ensures |s.entries| == size && |set c | c in s.entries.Keys && Sampled(s.entries, c)| == size
  {
    EntriesSize(s, size);
    assert (set c | c in s.entries.Keys && Sampled(s.entries, c)) == s.entries.Keys;
  }

  /** An evaluation with a full quorum resets the scores and replaces at most one channel. */
  lemma FullQuorumResets(s: State, s': State, size: nat)
    requires Valid(s, size) && Defined(s) && Settle(s, s') && Due(s)
    requires forall c :: c in s.entries ==> s.entries[c].count >= 3
    ensures s'.scoreCount == 0 && s'.samples == [] && s'.atReset == s'.channels && s'.served == s.served
    ensures |s'.channels| == size
    ensures forall i, j :: 0 <= i < j < size ==> s'.channels[i] == s.channels[i] || s'.channels[j] == s.channels[j]
  {
    AllSampled(s, size);
    var valid: nat, leastKey, leastScore: nat, bestScore: nat :|
      && Scanned(s.entries, s.entries.Keys, valid, leastKey, leastScore, bestScore)
      && Verdict(s, valid, leastKey, leastScore, bestScore, s');
    if leastScore < bestScore / 3 {
      var e :| Evict(s, leastKey, e) && s' == Reset(e);
      AtMostOneEvicted(s, leastKey, e);
    }
  }

  /** What one client call does, seen from the report that was just recorded. */
  ghost predicate Evaluates(s: State, recorded: State, s': State, size: nat) {
    && |s.channels| == |s'.channels| == |recorded.entries| == size
    && (Due(recorded) ==>
          && s'.samples == [] && s'.scoreCount == 0 && s'.atReset == s'.channels
          && forall c :: c in recorded.entries ==> recorded.entries[c].count >= 3)
    && (!Due(recorded) ==> s'.channels == s.channels && s'.scoreCount == s.scoreCount + 1)
    && forall i, j :: 0 <= i < j < size ==> s'.channels[i] == s.channels[i] || s'.channels[j] == s.channels[j]
  }

  lemma CallKeepsSteady(s: State, x: Sample, recorded: State, s': State, size: nat)
    requires Steady(s, size) && s.scoreCount <= 3 * size && Call(s, x, recorded, s')
    ensures Steady(s', size) && Evaluates(s, recorded, s', size)
    ensures Due(recorded) <==> s.scoreCount == 3 * size
  {
    CallRecords(s, x, recorded, s', size);
    EntriesSize(recorded, size);
    SettleKeepsValid(recorded, s', size);
    if Due(recorded) {
      ThreeSamplesEach(recorded, size);
      FullQuorumResets(recorded, s', size);
    }
  }

  lemma CallAdvancesCount(s: State, x: Sample, recorded: State, s': State, size: nat, period: nat, k: nat)
    requires Steady(s, size) && period == 3 * size + 1 && s.scoreCount == k % period && Call(s, x, recorded, s')
    ensures Steady(s', size) && s'.scoreCount == (k + 1) % period
    ensures Evaluates(s, recorded, s', size) && (Due(recorded) <==> (k + 1) % period == 0)
  {
    assert 0 < size;
    NextRemainder(k, period);
    CallKeepsSteady(s, x, recorded, s', size);
  }

  lemma {:induction false} ScoreCountCycles(size: nat, period: nat, run: seq<State>)
    requires size > 0 && period == 3 * size + 1 && IsClientRun(size, run)
    ensures Steady(run[|run| - 1], size)
    ensures run[|run| - 1].scoreCount == (|run| - 1) % period
  {
    var k := |run| - 1;
    if k > 0 {
      ScoreCountCycles(size, period, run[..k]);
      assert ClientStep(run[k - 1], run[k]);
      var x, recorded :| Call(run[k - 1], x, recorded, run[k]);
      CallAdvancesCount(run[k - 1], x, recorded, run[k], size, period, k - 1);
    }
  }

  /** With one client, scores are evaluated on exactly every (3 * size + 1)-th report, always with
      at least three samples for every channel, and replace at most one channel. */
  lemma EvaluatesPeriodically(size: nat, period: nat, run: seq<State>, k: nat, x: Sample, recorded: State)
    requires size > 0 && period == 3 * size + 1 && IsClientRun(size, run) && k + 1 < |run|
    requires Call(run[k], x, recorded, run[k + 1])
    ensures Due(recorded) <==> (k + 1) % period == 0
    ensures Evaluates(run[k], recorded, run[k + 1], size)
  {
    ScoreCountCycles(size, period, run[..k + 1]);
    CallAdvancesCount(run[k], x, recorded, run[k + 1], size, period, k);
  }
}
