/** The "spool" policy: channels are handed out in turn; every OK report adds to the score of its
    channel, and once three reports a channel have come in, a channel that scored far below the
    best one is replaced. */
module ScoringPool {
  import opened Arithmetic
  import opened Channels
  import opened RoundRobin
  import opened Wrappers

  /** Durations are counted in quarter nanoseconds. */
  const TICKS_PER_MS: nat := 4_000_000

  /** The least score before any channel was looked at. */
  const SCORE_SENTINEL: nat := 0xffff_ffff_ffff

  datatype Entry = Entry(count: nat, totalBytes: nat, totalTime: nat)

  /** One OK report. */
  datatype Sample = Sample(handle: Channel, bytes: nat, elapsed: nat)

  /** The pool and its history: `open` has an entry for every handle that is out and not reported; `served`
      lists the slots whose turn it was so far, and `handles` the handles that were returned; `atReset` has
      the channels at the last reset of the scores, and `samples` the OK reports since then. */
  datatype State = State(
    channels: seq<Channel>, created: nat, cursor: nat, entries: map<Channel, Entry>, scoreCount: nat,
    open: multiset<Channel>, served: seq<int>, handles: seq<Channel>, atReset: seq<Channel>, samples: seq<Sample>)

  function NoScores(channels: seq<Channel>): map<Channel, Entry> {
    map c | c in channels :: Entry(0, 0, 0)
  }

  function Reset(s: State): State {
    s.(entries := NoScores(s.channels), scoreCount := 0, atReset := s.channels, samples := [])
  }

  function Initial(size: nat): State {
    var cs := seq(size, (i: nat) => i);
    State(cs, size, 0, NoScores(cs), 0, multiset{}, [], [], cs, [])
  }

  ghost predicate Get(s: State, handle: Channel, s': State) {
    && s.channels != []
    && var next := (s.cursor + 1) % |s.channels|;
       && handle == s.channels[next]
       && s' == s.(cursor := next, open := s.open + multiset{handle},
                   served := s.served + [next], handles := s.handles + [handle])
  }

  /** The first slot holding `key`, if any, gets a new channel. */
  ghost predicate Evict(s: State, key: Option<Channel>, s': State) {
    if key.Some? then exists i :: EvictAt(s, key.value, i, s') else s' == s
  }

  ghost predicate EvictAt(s: State, c: Channel, i: int, s': State) {
    && Finds(s.channels, c, i)
    && s' == if i < |s.channels| then s.(channels := s.channels[i := s.created], created := s.created + 1) else s
  }

  /** A handle was reported. */
  function Closed(s: State, handle: Channel): State {
    s.(open := s.open - multiset{handle})
  }

  ghost predicate ReportError(s: State, handle: Channel, status: Status, s': State) {
    if Hopeless(status) then Evict(Closed(s, handle), Some(handle), s') else s' == Closed(s, handle)
  }

  function Added(e: Entry, x: Sample): Entry {
    Entry(e.count + 1, e.totalBytes + x.bytes, e.totalTime + x.elapsed)
  }

  function Recorded(s: State, x: Sample): State {
    s.(entries := if x.handle in s.entries then s.entries[x.handle := Added(s.entries[x.handle], x)] else s.entries,
       scoreCount := s.scoreCount + 1,
       open := s.open - multiset{x.handle},
       samples := s.samples + [x])
  }

  /** Bytes per whole millisecond. */
  function Score(e: Entry): nat
    requires e.totalTime >= TICKS_PER_MS
  {
    QuotientAtLeast(e.totalTime, TICKS_PER_MS, 1);
    e.totalBytes / (e.totalTime / TICKS_PER_MS)
  }

  /** Every channel with samples has spent at least a millisecond, so its score is defined. */
  ghost predicate Timed(entries: map<Channel, Entry>) {
    forall c :: c in entries && entries[c].count > 0 ==> entries[c].totalTime >= TICKS_PER_MS
  }

  ghost predicate Sampled(entries: map<Channel, Entry>, c: Channel) {
    c in entries && entries[c].count > 0
  }

  /** What a scan over the channels in `seen` finds, whatever the order: how many have samples, a
      least score with a channel that has it, and the best score. */
  ghost predicate Scanned(entries: map<Channel, Entry>, seen: set<Channel>, valid: nat,
                          leastKey: Option<Channel>, leastScore: nat, bestScore: nat)
    requires Timed(entries)
  {
    && valid == |set c | c in seen && Sampled(entries, c)|
    && leastScore <= SCORE_SENTINEL
    && (forall c :: c in seen && Sampled(entries, c) ==> leastScore <= Score(entries[c]) <= bestScore)
    && (leastKey == None ==> leastScore == SCORE_SENTINEL)
    && (leastKey.Some? ==>
          && leastKey.value in seen && Sampled(entries, leastKey.value)
          && Score(entries[leastKey.value]) == leastScore < SCORE_SENTINEL)
    && (bestScore > 0 ==> exists c :: c in seen && Sampled(entries, c) && Score(entries[c]) == bestScore)
  }

  ghost predicate Due(s: State) {
    s.scoreCount > 3 * |s.entries|
  }

  ghost predicate Verdict(s: State, valid: nat, leastKey: Option<Channel>, leastScore: nat, bestScore: nat, s': State) {
    if valid < |s.entries| / 2 then s' == s
    else if leastScore >= bestScore / 3 then s' == Reset(s)
    else exists e :: Evict(s, leastKey, e) && s' == Reset(e)
  }

  /** An evaluation divides by the whole milliseconds of every sampled channel. */
  ghost predicate Defined(s: State) {
    Due(s) ==> Timed(s.entries)
  }

  /** The evaluation that follows a recorded report. */
  ghost predicate Settle(s: State, s': State)
    requires Defined(s)
  {
    if Due(s) then
      exists valid, leastKey, leastScore, bestScore ::
        && Scanned(s.entries, s.entries.Keys, valid, leastKey, leastScore, bestScore)
        && Verdict(s, valid, leastKey, leastScore, bestScore, s')
    else s' == s
  }

  ghost predicate ReportOk(s: State, x: Sample, s': State) {
    Defined(Recorded(s, x)) && Settle(Recorded(s, x), s')
  }

  /** A scan's numbers do not depend on the order in which the map is walked. */
  lemma ScanOrderIsIrrelevant(entries: map<Channel, Entry>, seen: set<Channel>,
                              v: nat, k: Option<Channel>, l: nat, b: nat,
                              v': nat, k': Option<Channel>, l': nat, b': nat)
    requires Timed(entries)
    requires Scanned(entries, seen, v, k, l, b) && Scanned(entries, seen, v', k', l', b')
    ensures v == v' && l == l' && b == b' && (k == None <==> k' == None)
  {
  }

  lemma ScanSkips(entries: map<Channel, Entry>, seen: set<Channel>, c: Channel, v: nat, k: Option<Channel>, l: nat,
                  b: nat)
    requires Timed(entries) && Scanned(entries, seen, v, k, l, b) && !Sampled(entries, c)
    ensures Scanned(entries, seen + {c}, v, k, l, b)
  {
    assert (set d | d in seen + {c} && Sampled(entries, d)) == (set d | d in seen && Sampled(entries, d));
  }

  lemma ScanTakes(entries: map<Channel, Entry>, seen: set<Channel>, c: Channel, v: nat, k: Option<Channel>, l: nat,
                  b: nat)
    requires Timed(entries) && Scanned(entries, seen, v, k, l, b) && Sampled(entries, c) && c !in seen
    ensures var score := Score(entries[c]);
      Scanned(entries, seen + {c}, v + 1,
              if score < l then Some(c) else k, if score < l then score else l, if score > b then score else b)
  {
    var before := set d | d in seen && Sampled(entries, d);
    assert (set d | d in seen + {c} && Sampled(entries, d)) == before + {c};
    assert c !in before;
    assert c in seen + {c};
    if b > 0 {
      var d :| d in seen && Sampled(entries, d) && Score(entries[d]) == b;
      assert d in seen + {c};
    }
  }

  class SmartRoundRobinChannelPool {
    var channels: seq<Channel>
    var created: nat
    var cursor: nat
    var entries: map<Channel, Entry>
    var scoreCount: nat
    ghost var open: multiset<Channel>
    ghost var served: seq<int>
    ghost var handles: seq<Channel>
    ghost var atReset: seq<Channel>
    ghost var samples: seq<Sample>

    ghost function Now(): State
      reads this
    {
      State(channels, created, cursor, entries, scoreCount, open, served, handles, atReset, samples)
    }

    constructor (size: nat)
      ensures Now() == Initial(size)
    {
      var cs: seq<Channel> := [];
      for i := 0 to size
        invariant cs == seq(i, (k: nat) => k)
      {
        cs := cs + [i];
      }
      channels, created, cursor, scoreCount, open, served, handles := cs, size, 0, 0, multiset{}, [], [];
      new;
      InitChannelStateMap();
    }

    method InitChannelStateMap()
      modifies this`entries, this`atReset, this`samples
      ensures entries == NoScores(channels) && atReset == channels && samples == []
    {
      entries := map[];
      for i := 0 to |channels|
        invariant entries == NoScores(channels[..i])
      {
        assert channels[..i + 1] == channels[..i] + [channels[i]];
        entries := entries[channels[i] := Entry(0, 0, 0)];
      }
      assert channels[..|channels|] == channels;
      atReset, samples := channels, [];
    }

    method GetStorageStub() returns (handle: Channel)
      requires channels != []
      modifies this
      ensures Get(old(Now()), handle, Now())
    {
      cursor := (cursor + 1) % |channels|;
      handle := channels[cursor];
      open, served, handles := open + multiset{handle}, served + [cursor], handles + [handle];
    }

    method EvictKey(key: Option<Channel>)
      modifies this`channels, this`created
      ensures Evict(old(Now()), key, Now())
    {
      var i := 0;
      while i < |channels| && key != Some(channels[i])
        invariant 0 <= i <= |channels|
        invariant forall j :: 0 <= j < i ==> key != Some(channels[j])
      {
        i := i + 1;
      }
      if i < |channels| {
        channels, created := channels[i := created], created + 1;
      }
      assert key.Some? ==> EvictAt(old(Now()), key.value, i, Now());
    }

    method Scan() returns (valid: nat, leastKey: Option<Channel>, leastScore: nat, bestScore: nat)
      requires Timed(entries)
      ensures Scanned(entries, entries.Keys, valid, leastKey, leastScore, bestScore)
    {
      valid, leastKey, leastScore, bestScore := 0, None, SCORE_SENTINEL, 0;
      var left := entries.Keys;
      ghost var seen: set<Channel> := {};
      while left != {}
        invariant seen !! left && seen + left == entries.Keys
        invariant Scanned(entries, seen, valid, leastKey, leastScore, bestScore)
        decreases left
      {
        var c :| c in left;
        valid, leastKey, leastScore, bestScore := ScanOne(c, seen, valid, leastKey, leastScore, bestScore);
        left, seen := left - {c}, seen + {c};
      }
      assert seen == entries.Keys;
    }

    /** The body of the scanning loop. */
    method ScanOne(c: Channel, ghost seen: set<Channel>, v: nat, k: Option<Channel>, l: nat, b: nat)
      returns (valid: nat, leastKey: Option<Channel>, leastScore: nat, bestScore: nat)
      requires Timed(entries) && c in entries && c !in seen && Scanned(entries, seen, v, k, l, b)
      ensures Scanned(entries, seen + {c}, valid, leastKey, leastScore, bestScore)
    {
      valid, leastKey, leastScore, bestScore := v, k, l, b;
      if entries[c].count == 0 {
        ScanSkips(entries, seen, c, v, k, l, b);
        return;
      }
      ScanTakes(entries, seen, c, v, k, l, b);
      valid := valid + 1;
      var score := Score(entries[c]);
      if score < leastScore {
        leastKey, leastScore := Some(c), score;
      }
      if score > bestScore {
        bestScore := score;
      }
    }

    method ReportResult(handle: Channel, status: Status, elapsed: nat, bytes: nat)
      requires status.Ok? ==> Defined(Recorded(Now(), Sample(handle, bytes, elapsed)))
      modifies this
      ensures if status.Ok? then ReportOk(old(Now()), Sample(handle, bytes, elapsed), Now())
              else ReportError(old(Now()), handle, status, Now())
    {
      if !status.Ok? {
        open := open - multiset{handle};
        if Hopeless(status) {
          EvictKey(Some(handle));
        }
        return;
      }
      Record(Sample(handle, bytes, elapsed));
      Evaluate();
    }

    /** The first half of ReportResult, for an OK report. */
    method Record(x: Sample)
      modifies this
      ensures Now() == Recorded(old(Now()), x)
    {
      open := open - multiset{x.handle};
      if x.handle in entries {
        var e := entries[x.handle];
        entries := entries[x.handle := Entry(e.count + 1, e.totalBytes + x.bytes, e.totalTime + x.elapsed)];
      }
      scoreCount := scoreCount + 1;
      samples := samples + [x];
    }

    /** The second half of ReportResult, after an OK report was recorded. */
    method Evaluate()
      requires Defined(Now())
      modifies this
      ensures Settle(old(Now()), Now())
    {
      if scoreCount > 3 * |entries| {
        var valid, leastKey, leastScore, bestScore := Scan();
        if valid < |entries| / 2 {
        } else if leastScore >= bestScore / 3 {
          scoreCount := 0;
          InitChannelStateMap();
        } else {
          EvictKey(leastKey);
          ghost var evicted := Now();
          scoreCount := 0;
          InitChannelStateMap();
          assert Evict(old(Now()), leastKey, evicted) && Now() == Reset(evicted);
        }
        assert Verdict(old(Now()), valid, leastKey, leastScore, bestScore, Now());
      }
    }
  }
}
