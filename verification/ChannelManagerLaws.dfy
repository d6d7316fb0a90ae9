/** What the sample client's channel manager promises, said of the calls in flight rather than of its
    counters: it creates channels lazily, takes the least loaded one, and drops failed ones. */
module ChannelManagerLaws {
  import opened Arithmetic
  import opened Channels
  import opened ChannelManager

  // ----- Laziness -----

  /** Every channel in the pool has a call in flight. */
  ghost predicate AllBusy(s: State) {
    forall i :: 0 <= i < |s.states| ==> s.open[s.states[i].channel] > 0
  }

  /** Slot `i` is the first whose channel has the fewest calls in flight. */
  ghost predicate FirstLeastLoaded(s: State, i: int) {
    && 0 <= i < |s.states|
    && (forall j :: 0 <= j < |s.states| ==> s.open[s.states[i].channel] <= s.open[s.states[j].channel])
    && (forall j :: 0 <= j < i ==> s.open[s.states[i].channel] < s.open[s.states[j].channel])
  }

  /** A get adds a channel exactly when every channel in the pool is busy and there is room for one more, and
      then that channel is new; otherwise it takes the first of the least loaded channels. */
  lemma GetIsLazy(variant: Variant, s: State, c: Channel, s': State)
    requires WellFormed(variant, s) && Counted(s) && Get(s, c, s') && |s.open| < SIZE_MAX
    ensures AllBusy(s) && |s.states| < Capacity(s) ==>
      ChannelsOf(s'.states) == ChannelsOf(s.states) + [c] && c !in ChannelsOf(s.states) && c !in s.open
    ensures !AllBusy(s) || |s.states| >= Capacity(s) ==>
      && ChannelsOf(s'.states) == ChannelsOf(s.states)
      && exists i :: FirstLeastLoaded(s, i) && c == s.states[i].channel
  {
    var i :| GetAt(s, c, i, s');
    forall j | 0 <= j < |s.states| ensures s.states[j].inUseCount < SIZE_MAX {
      CountAtMostAll(s.open, s.states[j].channel);
    }
    if NeedsChannel(s, i) {
      NewOnlyWhenBusy(s, i);
      assert ChannelsOf(s'.states) == ChannelsOf(s.states) + [c];
    } else {
      assert ChannelsOf(s'.states) == ChannelsOf(s.states);
      assert FirstLeastLoaded(s, i);
    }
  }

  lemma NewOnlyWhenBusy(s: State, i: nat)
    requires Counted(s) && Candidate(s.states, i) && NeedsChannel(s, i)
    requires forall j :: 0 <= j < |s.states| ==> s.states[j].inUseCount < SIZE_MAX
    ensures AllBusy(s) && |s.states| < Capacity(s)
  {
    assert |s.states| > 0 ==> s.states[0].inUseCount < SIZE_MAX;
  }

  /** As many busy channels, as many calls. */
  lemma BusyChannelsHaveCalls(s: State)
    requires Distinct(ChannelsOf(s.states)) && AllBusy(s)
    ensures |s.states| <= |s.open|
  {
    var cs := ChannelsOf(s.states);
    LoadAtMostAll(cs, s.open);
    LeastTimesCount(cs, s.open, 1);
  }

  lemma StepStaysWithinPeak(variant: Variant, s: State, e: Event, s': State, peak: nat)
    requires WellFormed(variant, s) && Counted(s) && Step(variant, s, e, s') && |s.open| < SIZE_MAX
    requires |s.states| <= peak && |s'.open| <= peak
    ensures |s'.states| <= peak
  {
    match e
    case Got(c) =>
      GetIsLazy(variant, s, c, s');
      assert |s'.open| == |s.open| + 1;
      if AllBusy(s) && |s.states| < Capacity(s) {
        BusyChannelsHaveCalls(s);
        assert |ChannelsOf(s'.states)| == |s.states| + 1;
      } else if |s.states| > 0 {
        assert |ChannelsOf(s'.states)| == |s.states|;
      }
    case Done(c, status) =>
      DoneKeepsWellFormed(variant, s, c, status, s');
    case Destroyed(_) =>
  }

  /** The pool is never larger than the largest number of calls that were ever in flight at one time: with
      the announced replacement on every run, and as written when hopeless calls are alone on theirs. */
  lemma {:induction false} PoolIsNoLargerThanPeak(variant: Variant, max: nat, events: seq<Event>, run: seq<State>,
                                                  peak: nat)
    requires IsRun(variant, max, events, run) && peak < SIZE_MAX
    requires forall k :: 0 <= k < |run| ==> |run[k].open| <= peak
    requires variant == AsWritten ==> forall k :: 0 <= k < |events| ==> Alone(run[k], events[k])
    ensures |run[|events|].states| <= peak
  {
    if events != [] {
      var k := |events| - 1;
      Prefix(variant, max, events, run, k);
      PoolIsNoLargerThanPeak(variant, max, events[..k], run[..k + 1], peak);
      RunKeepsInvariant(variant, max, events[..k], run[..k + 1], peak);
      StepStaysWithinPeak(variant, run[k], events[k], run[k + 1], peak);
    }
  }

  // ----- Failed channels -----

  /** With the announced replacement, after a report of a call that was cancelled or ran out of time its
      channel is in no slot; if it was in one, exactly that slot holds a new channel without calls. */
  lemma FailedChannelLeaves(s: State, c: Channel, status: Status, s': State)
    requires WellFormed(Replacing, s) && c in s.open && RpcDone(Replacing, s, c, status, s')
    requires status == Cancelled || status == DeadlineExceeded
    ensures |s'.states| == |s.states| && c !in ChannelsOf(s'.states)
    ensures s.created !in ChannelsOf(s.states) && s.open[s.created] == 0
    ensures forall i :: 0 <= i < |s.states| ==>
      s'.states[i] == if s.states[i].channel == c then ChannelState(s.created, 0) else s.states[i]
  {
    var i :| RpcDoneAt(Replacing, s, c, status, i, s');
    var cs := ChannelsOf(s.states);
    forall j | 0 <= j < |cs| && j != i ensures cs[j] != c {
      assert i < |cs| ==> cs[j] != cs[i];
    }
    assert forall j :: 0 <= j < |cs| ==> s.states[j].channel == cs[j];
  }

  /** As written, the failed channel stays where it is, with a count of zero whatever calls it has. */
  lemma FailedChannelStays(s: State, c: Channel, status: Status, s': State)
    requires WellFormed(AsWritten, s) && c in s.open && RpcDone(AsWritten, s, c, status, s')
    requires status == Cancelled || status == DeadlineExceeded
    ensures |s'.states| == |s.states| && c in ChannelsOf(s'.states)
    ensures forall i :: 0 <= i < |s.states| ==>
      s'.states[i] == if s.states[i].channel == c then ChannelState(c, 0) else s.states[i]
  {
    var i :| RpcDoneAt(AsWritten, s, c, status, i, s');
    var cs := ChannelsOf(s.states);
    assert c in cs;
    forall j | 0 <= j < |cs| && j != i ensures cs[j] != c {
      assert cs[j] != cs[i];
    }
    assert ChannelsOf(s'.states)[i] == c;
  }

  /** Any other report keeps every slot's channel, in both variants. */
  lemma OtherReportsKeepChannels(variant: Variant, s: State, c: Channel, status: Status, s': State)
    requires RpcDone(variant, s, c, status, s') && (status == Ok || status == OtherError)
    ensures ChannelsOf(s'.states) == ChannelsOf(s.states)
  {
    var i :| RpcDoneAt(variant, s, c, status, i, s');
    assert forall j :: 0 <= j < |s.states| ==> s'.states[j].channel == s.states[j].channel;
  }

  /** A channel the pool has done with. */
  ghost predicate Gone(s: State, c: Channel) {
    c < s.created && c !in ChannelsOf(s.states)
  }

  lemma GetTakesKnownOrNew(s: State, c: Channel, s': State)
    requires Get(s, c, s')
    ensures c in ChannelsOf(s.states) || c == s.created
    ensures s.created <= s'.created
    ensures ChannelsOf(s'.states) == ChannelsOf(s.states) || ChannelsOf(s'.states) == ChannelsOf(s.states) + [s.created]
  {
    var i :| GetAt(s, c, i, s');
    var cs := ChannelsOf(s.states);
    if NeedsChannel(s, i) {
      assert ChannelsOf(s'.states) == cs + [c];
    } else {
      assert cs[i] == c;
      assert ChannelsOf(s'.states) == cs;
    }
  }

  lemma DoneKeepsGone(s: State, d: Channel, status: Status, s': State, c: Channel)
    requires RpcDone(Replacing, s, d, status, s') && Gone(s, c)
    ensures Gone(s', c)
  {
    var i :| RpcDoneAt(Replacing, s, d, status, i, s');
    var cs, cs' := ChannelsOf(s.states), ChannelsOf(s'.states);
    assert |cs'| == |cs|;
    forall j | 0 <= j < |cs'| ensures cs'[j] != c {
      assert cs[j] in cs;
    }
  }

  lemma StepKeepsGone(s: State, e: Event, s': State, c: Channel)
    requires Step(Replacing, s, e, s') && Gone(s, c)
    ensures Gone(s', c)
  {
    match e
    case Got(d) => GetTakesKnownOrNew(s, d, s');
    case Done(d, status) => DoneKeepsGone(s, d, status, s', c);
    case Destroyed(_) =>
  }

  /** With the announced replacement, no get after such a report hands out the failed channel again. */
  lemma {:induction false} FailedChannelIsNotHandedOut(max: nat, events: seq<Event>, run: seq<State>, k: nat,
                                                       c: Channel, status: Status)
    requires IsRun(Replacing, max, events, run) && k < |events| && events[k] == Done(c, status)
    requires status == Cancelled || status == DeadlineExceeded
    ensures forall j :: k < j < |events| ==> events[j] != Got(c)
    ensures Gone(run[|events|], c)
    decreases |events|
  {
    var n := |events| - 1;
    Prefix(Replacing, max, events, run, n);
    if k == n {
      RunIsWellFormed(max, events[..n], run[..n + 1]);
      FailedChannelLeaves(run[n], c, status, run[n + 1]);
      assert run[n].created <= run[n + 1].created;
    } else {
      FailedChannelIsNotHandedOut(max, events[..n], run[..n + 1], k, c, status);
      if events[n].Got? {
        GetTakesKnownOrNew(run[n], events[n].channel, run[n + 1]);
      }
      StepKeepsGone(run[n], events[n], run[n + 1], c);
    }
  }

  lemma {:induction false} RunIsWellFormed(max: nat, events: seq<Event>, run: seq<State>)
    requires IsRun(Replacing, max, events, run)
    ensures WellFormed(Replacing, run[|events|])
  {
    if events != [] {
      var n := |events| - 1;
      Prefix(Replacing, max, events, run, n);
      RunIsWellFormed(max, events[..n], run[..n + 1]);
      StepKeepsWellFormed(run[n], events[n], run[n + 1]);
    }
  }

  lemma StepKeepsWellFormed(s: State, e: Event, s': State)
    requires WellFormed(Replacing, s) && Step(Replacing, s, e, s')
    ensures WellFormed(Replacing, s')
  {
    match e
    case Got(c) => GetKeepsWellFormed(Replacing, s, c, s');
    case Done(c, status) => DoneKeepsWellFormed(Replacing, s, c, status, s');
    case Destroyed(_) =>
  }
}
