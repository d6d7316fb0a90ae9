/** The "bpool" policy: each call goes to the channel with the fewest calls in flight, and a channel
    that failed hopelessly is replaced while older handles on it are still out. */
module BalancedPool {
  import opened Arithmetic
  import opened Channels

  type Slot = ChannelState<int>

  /** The pool together with its history: `open` holds one entry for every handle that was
      given out and not reported yet. */
  datatype State = State(slots: seq<Slot>, created: nat, open: multiset<Channel>)

  function Initial(size: nat): State {
    State(seq(size, (i: nat) => ChannelState(i, 0)), size, multiset{})
  }

  /** `i` is the first slot with the smallest count. */
  ghost predicate FirstLeast(slots: seq<Slot>, i: int) {
    && 0 <= i < |slots|
    && (forall j :: 0 <= j < |slots| ==> slots[i].inUseCount <= slots[j].inUseCount)
    && (forall j :: 0 <= j < i ==> slots[i].inUseCount < slots[j].inUseCount)
  }

  /** One GetStorageStub call that returns `handle`. */
  ghost predicate Get(s: State, handle: Channel, s': State) {
    exists i :: GetAt(s, handle, i, s')
  }

  ghost predicate GetAt(s: State, handle: Channel, i: int, s': State) {
    && FirstLeast(s.slots, i)
    && handle == s.slots[i].channel
    && s' == State(s.slots[i := ChannelState(handle, s.slots[i].inUseCount + 1)], s.created, s.open + multiset{handle})
  }

  /** One ReportResult call: late reports on a replaced channel change no slot. */
  ghost predicate Report(s: State, handle: Channel, status: Status, s': State) {
    exists i :: ReportAt(s, handle, status, i, s')
  }

  ghost predicate ReportAt(s: State, handle: Channel, status: Status, i: int, s': State) {
    && Finds(ChannelsOf(s.slots), handle, i)
    && s'.open == s.open - multiset{handle}
    && (if i == |s.slots| then
          s'.slots == s.slots && s'.created == s.created
        else if Hopeless(status) then
          s'.slots == s.slots[i := ChannelState(s.created, 0)] && s'.created == s.created + 1
        else
          s'.slots == s.slots[i := ChannelState(handle, s.slots[i].inUseCount - 1)] && s'.created == s.created)
  }

  /** A step of a client that reports every handle at most once. */
  ghost predicate Step(s: State, s': State) {
    || (exists handle :: Get(s, handle, s'))
    || (exists handle, status :: handle in s.open && Report(s, handle, status, s'))
  }

  ghost predicate IsRun(size: nat, run: seq<State>) {
    && run != []
    && run[0] == Initial(size)
    && forall k :: 0 <= k < |run| - 1 ==> Step(run[k], run[k + 1])
  }

  /** The counting invariant: every count is the number of open handles on the slot's current channel. */
  ghost predicate Valid(s: State) {
    && Distinct(ChannelsOf(s.slots))
    && (forall i :: 0 <= i < |s.slots| ==> s.slots[i].channel < s.created)
    && (forall c :: c in s.open ==> c < s.created)
    && (forall i :: 0 <= i < |s.slots| ==> s.slots[i].inUseCount == s.open[s.slots[i].channel])
  }

  /** No channel, in the pool or already replaced, carries more than its share of `bound` calls. */
  ghost predicate Balanced(s: State, bound: nat)
    requires |s.slots| > 0
  {
    forall c :: s.open[c] <= CeilDiv(bound, |s.slots|)
  }

  lemma ReportKeepsValid(s: State, handle: Channel, status: Status, s': State)
    requires Valid(s) && handle in s.open && Report(s, handle, status, s')
    ensures Valid(s') && |s'.slots| == |s.slots| && s'.open <= s.open
  {
    var i :| ReportAt(s, handle, status, i, s');
    if i < |s.slots| {
      assert ChannelsOf(s.slots)[i] == handle;
      forall j | 0 <= j < |s.slots| && j != i ensures s.slots[j].channel != handle {
        assert ChannelsOf(s.slots)[j] != ChannelsOf(s.slots)[i];
      }
    }
  }

  lemma GetKeepsValid(s: State, handle: Channel, s': State)
    requires Valid(s) && Get(s, handle, s')
    ensures Valid(s') && |s'.slots| == |s.slots| && s'.open == s.open + multiset{handle}
  {
    var i :| GetAt(s, handle, i, s');
    forall j | 0 <= j < |s.slots| && j != i ensures s.slots[j].channel != handle {
      assert ChannelsOf(s.slots)[j] != ChannelsOf(s.slots)[i];
    }
    assert ChannelsOf(s'.slots) == ChannelsOf(s.slots);
  }

  /** A get takes the first of the channels with the fewest calls in flight, and changes no channel. */
  lemma GetTakesFirstLeastLoaded(s: State, handle: Channel, s': State) returns (i: nat)
    requires Valid(s) && Get(s, handle, s')
    ensures i < |s.slots| && s.slots[i].channel == handle && ChannelsOf(s'.slots) == ChannelsOf(s.slots)
    ensures forall j :: 0 <= j < |s.slots| ==> s.open[handle] <= s.open[s.slots[j].channel]
    ensures forall j :: 0 <= j < i ==> s.open[handle] < s.open[s.slots[j].channel]
  {
    i :| GetAt(s, handle, i, s');
    assert ChannelsOf(s'.slots) == ChannelsOf(s.slots);
  }

  lemma GetKeepsBalance(s: State, handle: Channel, s': State, bound: nat)
    requires Valid(s) && |s.slots| > 0 && Get(s, handle, s') && Balanced(s, bound) && |s.open| < bound
    ensures |s'.slots| == |s.slots| && Balanced(s', bound)
  {
    var i :| GetAt(s, handle, i, s');
    var cs := ChannelsOf(s.slots);
    assert cs[i] == handle;
    LeastLoadedHasRoom(cs, s.open, handle, bound);
  }

  lemma StepKeepsInvariant(s: State, s': State, bound: nat)
    requires Valid(s) && |s.slots| > 0 && Balanced(s, bound)
    requires Step(s, s') && |s'.open| <= bound
    ensures Valid(s') && |s'.slots| == |s.slots| && Balanced(s', bound)
  {
    if handle :| Get(s, handle, s') {
      GetKeepsValid(s, handle, s');
      GetKeepsBalance(s, handle, s', bound);
    } else {
      var handle, status :| handle in s.open && Report(s, handle, status, s');
      ReportKeepsValid(s, handle, status, s');
    }
  }

  /** Whatever the interleaving, the evictions and the late reports: every count is exact, and with
      never more than `bound` handles out no channel carries more than ceil(bound / size) calls. */
  lemma {:induction false} CountsExactAndBounded(size: nat, run: seq<State>, bound: nat)
    requires size > 0 && IsRun(size, run)
    requires forall k :: 0 <= k < |run| ==> |run[k].open| <= bound
    ensures var s := run[|run| - 1];
      && |s.slots| == size && Valid(s) && Balanced(s, bound)
      && forall i :: 0 <= i < size ==>
        s.slots[i].inUseCount == s.open[s.slots[i].channel] <= CeilDiv(bound, size)
  {
    if |run| == 1 {
      QuotientAtLeast(bound + size - 1, size, 0);
    } else {
      CountsExactAndBounded(size, run[..|run| - 1], bound);
      StepKeepsInvariant(run[|run| - 2], run[|run| - 1], bound);
    }
  }

  // ----- Failed channels -----

  /** After a report of a call that was cancelled or ran out of time, its channel is in no slot. If it was
      in one, exactly that slot holds a channel that is new to the pool, with no call on it. */
  lemma FailedChannelLeaves(s: State, handle: Channel, status: Status, s': State)
    requires Valid(s) && handle in s.open && Report(s, handle, status, s')
    requires status == Cancelled || status == DeadlineExceeded
    ensures Replaced(ChannelsOf(s.slots), handle, s.created, ChannelsOf(s'.slots))
    ensures handle !in ChannelsOf(s'.slots) && s.created !in ChannelsOf(s.slots) && s.open[s.created] == 0
    ensures forall i :: 0 <= i < |s.slots| ==>
      s'.slots[i] == if s.slots[i].channel == handle then ChannelState(s.created, 0) else s.slots[i]
  {
    var i :| ReportAt(s, handle, status, i, s');
    var cs := ChannelsOf(s.slots);
    forall j | 0 <= j < |cs| && j != i ensures cs[j] != handle {
      assert i < |cs| ==> cs[j] != cs[i];
    }
    assert forall j :: 0 <= j < |cs| ==> ChannelsOf(s'.slots)[j] == s'.slots[j].channel;
  }

  /** Any other report leaves every slot its channel. */
  lemma OtherReportsKeepChannels(s: State, handle: Channel, status: Status, s': State)
    requires Report(s, handle, status, s') && (status == Ok || status == OtherError)
    ensures ChannelsOf(s'.slots) == ChannelsOf(s.slots)
  {
    var i :| ReportAt(s, handle, status, i, s');
    assert forall j :: 0 <= j < |s.slots| ==> s'.slots[j].channel == s.slots[j].channel;
  }

  lemma StepKeepsValid(s: State, s': State)
    requires Valid(s) && Step(s, s')
    ensures Valid(s')
  {
    if handle :| Get(s, handle, s') {
      GetKeepsValid(s, handle, s');
    } else {
      var handle, status :| handle in s.open && Report(s, handle, status, s');
      ReportKeepsValid(s, handle, status, s');
    }
  }

  lemma {:induction false} RunKeepsValid(size: nat, run: seq<State>, k: nat)
    requires IsRun(size, run) && k < |run|
    ensures Valid(run[k])
  {
    if k > 0 {
      RunKeepsValid(size, run, k - 1);
      StepKeepsValid(run[k - 1], run[k]);
    }
  }

  /** A channel the pool has done with. */
  ghost predicate Gone(s: State, c: Channel) {
    c < s.created && c !in ChannelsOf(s.slots)
  }

  lemma StepKeepsGone(s: State, s': State, c: Channel)
    requires Step(s, s') && Gone(s, c)
    ensures Gone(s', c)
  {
    var cs, cs' := ChannelsOf(s.slots), ChannelsOf(s'.slots);
    forall i | 0 <= i < |cs'| ensures cs'[i] != c {
      assert i < |cs| ==> cs[i] in cs;
    }
  }

  lemma {:induction false} GoneStaysGone(size: nat, run: seq<State>, k: nat, j: nat, c: Channel)
    requires IsRun(size, run) && k <= j < |run| && Gone(run[k], c)
    ensures Gone(run[j], c)
    decreases j
  {
    if k < j {
      GoneStaysGone(size, run, k, j - 1, c);
      StepKeepsGone(run[j - 1], run[j], c);
    }
  }

  /** On every run: no get after such a report hands out the failed channel again, and the channel that
      took its place was handed out by no get before. */
  lemma FailedChannelIsNotHandedOut(size: nat, run: seq<State>, k: nat, handle: Channel, status: Status,
                                    j: nat, other: Channel)
    requires IsRun(size, run) && k + 1 < |run| && j + 1 < |run|
    requires handle in run[k].open && Report(run[k], handle, status, run[k + 1])
    requires status == Cancelled || status == DeadlineExceeded
    requires Get(run[j], other, run[j + 1])
    ensures j > k ==> other != handle
    ensures j < k ==> other != run[k].created
  {
    RunKeepsValid(size, run, k);
    RunKeepsValid(size, run, j);
    assert other in ChannelsOf(run[j].slots) by {
      var i :| GetAt(run[j], other, i, run[j + 1]);
      assert ChannelsOf(run[j].slots)[i] == other;
    }
    if j > k {
      FailedChannelLeaves(run[k], handle, status, run[k + 1]);
      GoneStaysGone(size, run, k + 1, j, handle);
    } else if j < k {
      CreatedGrows(size, run, j, k);
    }
  }

  lemma {:induction false} CreatedGrows(size: nat, run: seq<State>, j: nat, k: nat)
    requires IsRun(size, run) && j <= k < |run|
    ensures run[j].created <= run[k].created
    decreases k
  {
    if j < k {
      CreatedGrows(size, run, j, k - 1);
      assert Step(run[k - 1], run[k]);
    }
  }

  class RoundRobinPlusChannelPool {
    var channelStates: seq<Slot>
    var created: nat
    ghost var open: multiset<Channel>

    ghost function Now(): State
      reads this
    {
      State(channelStates, created, open)
    }

    constructor (size: nat)
      ensures Now() == Initial(size)
    {
      var states: seq<Slot> := [];
      for i := 0 to size
        invariant states == seq(i, (k: nat) => ChannelState(k, 0))
      {
        states := states + [ChannelState(i, 0)];
      }
      channelStates, created, open := states, size, multiset{};
    }

    method GetStorageStub() returns (handle: Channel)
      requires |channelStates| > 0
      modifies this
      ensures Get(old(Now()), handle, Now())
    {
      var least, i := 0, 0;
      while i < |channelStates|
        invariant 0 <= i <= |channelStates| && 0 <= least < |channelStates|
        invariant i == 0 ==> least == 0
        invariant i > 0 ==> FirstLeast(channelStates[..i], least)
      {
        if channelStates[i].inUseCount < channelStates[least].inUseCount {
          least := i;
        }
        i := i + 1;
      }
      assert channelStates[..i] == channelStates;
      handle := channelStates[least].channel;
      channelStates := channelStates[least := channelStates[least].(inUseCount := channelStates[least].inUseCount + 1)];
      open := open + multiset{handle};
      assert GetAt(old(Now()), handle, least, Now());
    }

    method Find(handle: Channel) returns (i: nat)
      ensures Finds(ChannelsOf(channelStates), handle, i)
    {
      i := 0;
      while i < |channelStates| && channelStates[i].channel != handle
        invariant 0 <= i <= |channelStates|
        invariant forall j :: 0 <= j < i ==> channelStates[j].channel != handle
      {
        i := i + 1;
      }
    }

    method ReportResult(handle: Channel, status: Status)
      modifies this
      ensures Report(old(Now()), handle, status, Now())
    {
      var i := Find(handle);
      if i < |channelStates| {
        channelStates := channelStates[i := channelStates[i].(inUseCount := channelStates[i].inUseCount - 1)];
      }
      if Hopeless(status) {
        var j := Find(handle);
        assert i < |channelStates| ==> channelStates[i].channel == handle;
        if j < |channelStates| {
          channelStates := channelStates[j := ChannelState(created, 0)];
          created := created + 1;
        }
      }
      open := open - multiset{handle};
      assert ReportAt(old(Now()), handle, status, i, Now());
    }
  }
}
