/** When the "spool" policy can still evaluate its channels.

    Scores are kept for the channels of the last reset only, and a channel that an error put into the
    pool since then is not among them. So errors can take away the channels that a quorum needs. */
module ScoringPoolQuorum {
  import opened Arithmetic
  import opened Channels
  import opened RoundRobin
  import opened Wrappers
  import opened ScoringPool
  import opened ScoringPoolRuns

  /** The scored channels that have samples or may still get some: they are in the pool, or a handle on
      them is out whose report is still to come. */
  ghost function Countable(s: State): set<Channel> {
    set c | c in s.entries && (s.entries[c].count > 0 || c in s.channels || c in s.open)
  }

  ghost predicate OutOfQuorum(s: State) {
    |Countable(s)| < |s.entries| / 2
  }

  /** An OK report of a handle that is out. */
  ghost predicate OkReport(s: State, s': State) {
    exists x: Sample :: x.handle in s.open && ReportOk(s, x, s')
  }

  ghost predicate ErrorReport(s: State, s': State) {
    exists handle, status :: handle in s.open && status != Ok && ReportError(s, handle, status, s')
  }

  ghost predicate Handout(s: State, s': State) {
    exists handle :: Get(s, handle, s')
  }

  /** A step of clients that report every handle at most once, early or late. */
  ghost predicate ClientsStep(s: State, s': State) {
    Handout(s, s') || ErrorReport(s, s') || OkReport(s, s')
  }

  ghost predicate IsFuture(s: State, run: seq<State>) {
    && run != [] && run[0] == s
    && forall k :: 0 <= k < |run| - 1 ==> ClientsStep(run[k], run[k + 1])
  }

  /** The last step of the run is an OK report that was evaluated, so that the scores start afresh. */
  ghost predicate EndsInReset(run: seq<State>) {
    |run| >= 2 && run[|run| - 1].samples == [] && OkReport(run[|run| - 2], run[|run| - 1])
  }

  ghost predicate EvaluationAhead(s: State) {
    exists run :: IsFuture(s, run) && EndsInReset(run)
  }

  ghost function SampledKeys(s: State): set<Channel> {
    set c | c in s.entries.Keys && Sampled(s.entries, c)
  }

  lemma SmallerSet(a: set<Channel>, b: set<Channel>)
    requires a <= b
    ensures |a| <= |b|
  {
    assert b == a + (b - a);
  }

  // ----- Without a quorum in reach -----

  /** Without a quorum, a report is recorded and nothing else happens. */
  lemma NoQuorumNoReset(s: State, x: Sample, s': State, size: nat)
    requires Valid(s, size) && OutOfQuorum(s) && x.handle in s.open && ReportOk(s, x, s')
    ensures s' == Recorded(s, x) && Countable(s') <= Countable(s)
  {
    var r := Recorded(s, x);
    assert r.entries.Keys == s.entries.Keys && |r.entries| == |s.entries.Keys| == |s.entries|;
    assert Countable(r) <= Countable(s);
    if Due(r) {
      var valid: nat, leastKey, leastScore: nat, bestScore: nat :|
        && Scanned(r.entries, r.entries.Keys, valid, leastKey, leastScore, bestScore)
        && Verdict(r, valid, leastKey, leastScore, bestScore, s');
      SmallerSet(SampledKeys(r), Countable(r));
      SmallerSet(Countable(r), Countable(s));
    }
  }

  /** The channel that replaces another is new, and so not scored. */
  lemma EvictionCountsLess(s: State, key: Option<Channel>, s': State, size: nat)
    requires Valid(s, size) && Evict(s, key, s')
    ensures s'.entries == s.entries && s'.samples == s.samples && Countable(s') <= Countable(s)
  {
    if key.Some? {
      var i :| EvictAt(s, key.value, i, s');
      forall c | c in Countable(s') ensures c in Countable(s) {
        assert c in s.atReset && c < s.created;
      }
    }
  }

  lemma ErrorCountsLess(s: State, s': State, size: nat)
    requires Valid(s, size) && ErrorReport(s, s')
    ensures Valid(s', size) && s'.entries == s.entries && s'.samples == s.samples && Countable(s') <= Countable(s)
  {
    var handle, status :| handle in s.open && status != Ok && ReportError(s, handle, status, s');
    StepKeepsValid(s, s', size);
    assert Countable(Closed(s, handle)) <= Countable(s);
    if Hopeless(status) {
      EvictionCountsLess(Closed(s, handle), Some(handle), s', size);
    }
  }

  lemma HandoutKeepsCountable(s: State, s': State, size: nat)
    requires Valid(s, size) && Handout(s, s')
    ensures Valid(s', size) && s'.entries == s.entries && s'.samples == s.samples && Countable(s') == Countable(s)
  {
    var handle :| Get(s, handle, s');
    StepKeepsValid(s, s', size);
    assert handle in s.channels;
  }

  lemma OutOfQuorumStays(s: State, s': State, size: nat)
    requires Valid(s, size) && OutOfQuorum(s) && ClientsStep(s, s')
    ensures Valid(s', size) && OutOfQuorum(s')
    ensures OkReport(s, s') ==> s'.samples != []
  {
    if x: Sample :| x.handle in s.open && ReportOk(s, x, s') {
      StepKeepsValid(s, s', size);
      NoQuorumNoReset(s, x, s', size);
    } else if Handout(s, s') {
      HandoutKeepsCountable(s, s', size);
    } else {
      ErrorCountsLess(s, s', size);
    }
    SmallerSet(Countable(s'), Countable(s));
    EntriesSize(s, size);
    EntriesSize(s', size);
  }

  /** No future brings the quorum back. */
  lemma {:induction false} OutOfQuorumForever(s: State, run: seq<State>, size: nat)
    requires Valid(s, size) && OutOfQuorum(s) && IsFuture(s, run)
    ensures Valid(run[|run| - 1], size) && OutOfQuorum(run[|run| - 1])
    ensures !EndsInReset(run)
  {
    var k := |run| - 1;
    if k > 0 {
      OutOfQuorumForever(s, run[..k], size);
      OutOfQuorumStays(run[k - 1], run[k], size);
    }
  }

  // ----- A quorum in reach is reached -----

  lemma {:induction false} ScanExists(entries: map<Channel, Entry>, seen: set<Channel>)
    returns (valid: nat, leastKey: Option<Channel>, leastScore: nat, bestScore: nat)
    requires Timed(entries)
    ensures Scanned(entries, seen, valid, leastKey, leastScore, bestScore)
  {
    if seen == {} {
      valid, leastKey, leastScore, bestScore := 0, None, SCORE_SENTINEL, 0;
    } else {
      var c :| c in seen;
      var v, k, l, b := ScanExists(entries, seen - {c});
      assert seen - {c} + {c} == seen;
      if Sampled(entries, c) {
        ScanTakes(entries, seen - {c}, c, v, k, l, b);
        var score := Score(entries[c]);
        valid, leastKey := v + 1, if score < l then Some(c) else k;
        leastScore, bestScore := if score < l then score else l, if score > b then score else b;
      } else {
        ScanSkips(entries, seen - {c}, c, v, k, l, b);
        valid, leastKey, leastScore, bestScore := v, k, l, b;
      }
    }
  }

  lemma EvictExists(s: State, key: Option<Channel>) returns (s': State)
    ensures Evict(s, key, s')
  {
    var i: nat := 0;
    while i < |s.channels| && key != Some(s.channels[i])
      invariant i <= |s.channels|
      invariant forall j :: 0 <= j < i ==> key != Some(s.channels[j])
    {
      i := i + 1;
    }
    s' := if i < |s.channels| then s.(channels := s.channels[i := s.created], created := s.created + 1) else s;
    assert key.Some? ==> EvictAt(s, key.value, i, s');
  }

  /** An evaluation has some outcome; with a quorum it is a reset. */
  lemma SettleExists(s: State) returns (s': State)
    requires Timed(s.entries)
    ensures Settle(s, s')
    ensures s' == s || (Due(s) && s'.samples == [])
    ensures Due(s) && |SampledKeys(s)| >= |s.entries| / 2 ==> s'.samples == []
  {
    if Due(s) {
      var valid, leastKey, leastScore, bestScore := ScanExists(s.entries, s.entries.Keys);
      assert valid == |SampledKeys(s)|;
      if valid < |s.entries| / 2 {
        s' := s;
      } else if leastScore >= bestScore / 3 {
        s' := Reset(s);
      } else {
        var e := EvictExists(s, leastKey);
        s' := Reset(e);
      }
      assert Verdict(s, valid, leastKey, leastScore, bestScore, s');
    } else {
      s' := s;
    }
  }

  ghost function Missing(s: State): set<Channel> {
    Countable(s) - SampledKeys(s)
  }

  /** The reports that are left until the next evaluation. */
  function Room(s: State, size: nat): nat {
    if s.scoreCount > 3 * size then 0 else 3 * size + 1 - s.scoreCount
  }

  /** How many more handouts it takes until slot `i` has its turn. */
  function Turns(s: State, i: nat): nat
    requires s.cursor < |s.channels| && i < |s.channels|
  {
    if s.cursor < i then i - s.cursor else i + |s.channels| - s.cursor
  }

  /** What handouts leave as it is. */
  ghost predicate SameScores(s: State, s': State) {
    s'.channels == s.channels && s'.entries == s.entries && s'.scoreCount == s.scoreCount && s'.samples == s.samples
  }

  /** Handouts alone bring out a handle on any channel of the pool. */
  lemma {:induction false} HandedOut(s: State, i: nat, size: nat) returns (run: seq<State>)
    requires Valid(s, size) && i < size
    ensures IsFuture(s, run)
    ensures var s' := run[|run| - 1];
      Valid(s', size) && SameScores(s, s') && Countable(s') == Countable(s) && s.channels[i] in s'.open
    decreases Turns(s, i)
  {
    var next := (s.cursor + 1) % size;
    var s' := s.(cursor := next, open := s.open + multiset{s.channels[next]},
                 served := s.served + [next], handles := s.handles + [s.channels[next]]);
    assert Get(s, s.channels[next], s') && Handout(s, s');
    HandoutKeepsCountable(s, s', size);
    CursorMoves(s.cursor, size);
    if next == i {
      run := [s, s'];
    } else {
      var rest := HandedOut(s', i, size);
      run := [s] + rest;
    }
  }

  lemma CursorMoves(cursor: nat, size: nat)
    requires cursor < size
    ensures (cursor + 1) % size == if cursor + 1 == size then 0 else cursor + 1
  {
    if cursor + 1 < size {
      DivModUnique(cursor + 1, size, 0, cursor + 1);
    } else {
      DivModUnique(cursor + 1, size, 1, 0);
    }
  }

  /** A future after which a handle is out on a scored channel without samples, if there is one. */
  lemma MissingIsOut(s: State, size: nat) returns (run: seq<State>, c: Channel)
    requires Valid(s, size)
    ensures IsFuture(s, run)
    ensures var s' := run[|run| - 1];
      Valid(s', size) && SameScores(s, s') && Countable(s') == Countable(s) && c in s'.open
    ensures Missing(s) != {} ==> c in Missing(s)
  {
    if d :| d in Missing(s) {
      c := d;
      if c in s.open {
        run := [s];
      } else {
        var i :| 0 <= i < size && s.channels[i] == c;
        run := HandedOut(s, i, size);
      }
    } else {
      c := s.channels[0];
      run := HandedOut(s, 0, size);
    }
  }

  lemma FewerMissing(s: State, r: State, c: Channel)
    requires Countable(r) == Countable(s) && SampledKeys(s) <= Countable(s)
    requires SampledKeys(r) == SampledKeys(s) + if c in s.entries then {c} else {}
    requires Missing(s) != {} ==> c in Missing(s)
    ensures Missing(s) != {} ==> |Missing(r)| < |Missing(s)|
    ensures Missing(s) == {} ==> Missing(r) == {} && Countable(r) <= SampledKeys(r)
  {
    if Missing(s) != {} {
      assert Missing(r) == Missing(s) - {c};
    } else {
      forall d | d in Countable(s) ensures d in SampledKeys(s) {
        assert d !in Missing(s);
      }
    }
  }

  lemma RecordingKeepsCountable(s: State, x: Sample, size: nat)
    requires Valid(s, size) && x.handle in s.open
    requires x.handle in s.entries ==> x.handle in Countable(s)
    ensures var r := Recorded(s, x);
      && Countable(r) == Countable(s) && r.entries.Keys == s.entries.Keys
      && SampledKeys(r) == SampledKeys(s) + (if x.handle in s.entries then {x.handle} else {})
      && SampledKeys(s) <= Countable(s)
  {
  }

  lemma ReportTakesRoom(s: State, x: Sample, size: nat)
    requires Valid(s, size)
    ensures var r := Recorded(s, x);
      && Valid(r, size) && |r.entries| == |s.entries| == size
      && (Due(r) <==> Room(s, size) <= 1) && (Room(s, size) > 1 ==> Room(r, size) < Room(s, size))
  {
    RecordedIsValid(s, x, size);
    EntriesSize(s, size);
    EntriesSize(Recorded(s, x), size);
  }

  lemma ReportKeepsTimed(s: State, x: Sample)
    requires Timed(s.entries) && x.elapsed >= TICKS_PER_MS
    ensures Timed(Recorded(s, x).entries)
  {
  }

  lemma ReportMakesProgress(s: State, x: Sample, size: nat)
    requires Valid(s, size) && !OutOfQuorum(s) && x.handle in s.open
    requires Missing(s) != {} ==> x.handle in Missing(s)
    ensures var r := Recorded(s, x);
      && |r.entries| == size && !OutOfQuorum(r)
      && (Missing(s) != {} ==> |Missing(r)| < |Missing(s)|)
      && (Missing(s) == {} ==> Missing(r) == {} && |SampledKeys(r)| >= size / 2)
  {
    var r := Recorded(s, x);
    ReportTakesRoom(s, x, size);
    RecordingKeepsCountable(s, x, size);
    FewerMissing(s, r, x.handle);
    if Missing(s) == {} {
      SmallerSet(Countable(r), SampledKeys(r));
    }
  }

  lemma SameScoresSameMissing(s: State, m: State, size: nat)
    requires SameScores(s, m) && Countable(m) == Countable(s)
    ensures Missing(m) == Missing(s) && Room(m, size) == Room(s, size) && (OutOfQuorum(m) <==> OutOfQuorum(s))
  {
  }

  /** Reports of what is missing lead to an evaluation with a quorum. */
  lemma {:induction false} QuorumReached(s: State, size: nat) returns (run: seq<State>)
    requires Valid(s, size) && Timed(s.entries) && !OutOfQuorum(s)
    ensures IsFuture(s, run) && EndsInReset(run)
    decreases |Missing(s)|, Room(s, size)
  {
    var before, c := MissingIsOut(s, size);
    var m := before[|before| - 1];
    SameScoresSameMissing(s, m, size);
    var x := Sample(c, 0, TICKS_PER_MS);
    var r := Recorded(m, x);
    ReportTakesRoom(m, x, size);
    ReportKeepsTimed(m, x);
    ReportMakesProgress(m, x, size);
    var s' := SettleExists(r);
    assert ReportOk(m, x, s') && OkReport(m, s');
    if s'.samples == [] {
      run := FollowedBy(s, before, [s']);
    } else {
      var rest := QuorumReached(r, size);
      run := FollowedBy(s, before, rest);
    }
  }

  lemma FollowedBy(s: State, before: seq<State>, rest: seq<State>) returns (run: seq<State>)
    requires IsFuture(s, before) && rest != [] && OkReport(before[|before| - 1], rest[0])
    requires IsFuture(rest[0], rest) && (EndsInReset(rest) || (|rest| == 1 && rest[0].samples == []))
    ensures IsFuture(s, run) && EndsInReset(run)
  {
    run := before + rest;
    forall k | 0 <= k < |run| - 1 ensures ClientsStep(run[k], run[k + 1]) {
      if k < |before| - 1 {
        assert ClientsStep(before[k], before[k + 1]);
      } else if k >= |before| {
        assert ClientsStep(rest[k - |before|], rest[k - |before| + 1]);
      }
    }
    assert run[|run| - 1] == rest[|rest| - 1];
    assert |rest| >= 2 ==> run[|run| - 2] == rest[|rest| - 2];
  }

  /** Some future of the clients has an evaluation that resets the scores, exactly when at least
      floor(size / 2) scored channels have samples, are still in the pool, or have a handle out. */
  lemma EvaluationPossibleIff(s: State, size: nat)
    requires Valid(s, size) && Timed(s.entries)
    ensures EvaluationAhead(s) <==> !OutOfQuorum(s)
  {
    if OutOfQuorum(s) {
      forall run | IsFuture(s, run) ensures !EndsInReset(run) {
        OutOfQuorumForever(s, run, size);
      }
    } else {
      var run := QuorumReached(s, size);
    }
  }

  lemma {:induction false} FutureKeepsValid(s: State, run: seq<State>, size: nat)
    requires Valid(s, size) && IsFuture(s, run)
    ensures Valid(run[|run| - 1], size)
  {
    var k := |run| - 1;
    if k > 0 {
      FutureKeepsValid(s, run[..k], size);
      assert ClientsStep(run[k - 1], run[k]);
      assert Step(run[k - 1], run[k]);
      StepKeepsValid(run[k - 1], run[k], size);
    }
  }

  lemma NothingCountable(s: State)
    requires |s.entries| >= 2 && s.open == multiset{}
    requires forall c :: c in s.entries ==> s.entries[c].count == 0 && c !in s.channels
    ensures OutOfQuorum(s)
  {
    assert Countable(s) == {};
  }

  /** It does happen: when the first two calls of a pool of two end hopelessly, no future has an
      evaluation in it. */
  lemma TwoFailuresEndEvaluation() returns (run: seq<State>)
    ensures IsFuture(Initial(2), run) && Valid(run[|run| - 1], 2) && !EvaluationAhead(run[|run| - 1])
  {
    var s0 := Initial(2);
    var s1 := s0.(cursor := 1, served := [1], handles := [1], open := multiset{1});
    var s2 := s1.(cursor := 0, served := [1, 0], handles := [1, 0], open := multiset{1, 0});
    var s3 := s2.(channels := [0, 2], created := 3, open := multiset{0});
    var s4 := s3.(channels := [3, 2], created := 4, open := multiset{});
    TwoFailures(s0, s1, s2, s3, s4);
    run := [s0, s1, s2, s3, s4];
    ScoresAccountForReports(2, [s0]);
    FutureKeepsValid(s0, run, 2);
    assert s4.entries == NoScores([0, 1]) by {
      assert s0.channels == [0, 1];
    }
    EntriesSize(s4, 2);
    NothingCountable(s4);
    EvaluationPossibleIff(s4, 2);
  }

  lemma TwoFailures(s0: State, s1: State, s2: State, s3: State, s4: State)
    requires s0 == Initial(2) && s1 == s0.(cursor := 1, served := [1], handles := [1], open := multiset{1})
    requires s2 == s1.(cursor := 0, served := [1, 0], handles := [1, 0], open := multiset{1, 0})
    requires s3 == s2.(channels := [0, 2], created := 3, open := multiset{0})
    requires s4 == s3.(channels := [3, 2], created := 4, open := multiset{})
    ensures Handout(s0, s1) && Handout(s1, s2) && ErrorReport(s2, s3) && ErrorReport(s3, s4)
  {
    assert s0.channels == [0, 1];
    assert Get(s0, 1, s1) && Get(s1, 0, s2);
    assert s2.open - multiset{1} == multiset{0};
    assert EvictAt(Closed(s2, 1), 1, 1, s3) && ReportError(s2, 1, Cancelled, s3);
    assert s3.open - multiset{0} == multiset{};
    assert EvictAt(Closed(s3, 0), 0, 0, s4) && ReportError(s3, 0, Cancelled, s4);
  }
}
