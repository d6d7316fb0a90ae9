/** The sample client's channel manager: channels are created lazily up to a maximum, and every call
    goes to a channel with the fewest calls in flight.

    The manager is modelled both as written, where the replacement of a failed channel is a
    comparison and so has no effect on the slot, and with the replacement its comment announces. */
module ChannelManager {
  import opened Arithmetic
  import opened Channels

  const SIZE_MAX: nat := 0xffff_ffff_ffff_ffff

  /** Whether a failed channel keeps its slot (`AsWritten`) or is replaced (`Replacing`). */
  datatype Variant = AsWritten | Replacing

  type Slot = ChannelState<nat>

  /** The manager and its history: `open` has an entry for every live handle whose call is not done,
      `done` one for every live handle whose call is done. */
  datatype State = State(
    max: nat, states: seq<Slot>, handleCount: int, created: nat,
    open: multiset<Channel>, done: multiset<Channel>)

  datatype Event = Got(channel: Channel) | Done(channel: Channel, status: Status) | Destroyed(channel: Channel)

  function Initial(max: nat): State {
    State(max, [], 0, 0, multiset{}, multiset{})
  }

  /** Unsigned 64-bit counters wrap around. */
  function Decrement(count: nat): nat {
    if count == 0 then SIZE_MAX else count - 1
  }

  function Increment(count: nat): nat {
    if count >= SIZE_MAX then 0 else count + 1
  }

  /** The first slot with the least count below SIZE_MAX, or the end when there is none. */
  ghost predicate Candidate(states: seq<Slot>, i: int) {
    && 0 <= i <= |states|
    && (i == |states| ==> forall j :: 0 <= j < |states| ==> states[j].inUseCount >= SIZE_MAX)
    && (i < |states| ==>
          && states[i].inUseCount < SIZE_MAX
          && (forall j :: 0 <= j < |states| ==> states[i].inUseCount <= states[j].inUseCount)
          && (forall j :: 0 <= j < i ==> states[i].inUseCount < states[j].inUseCount))
  }

  predicate NeedsChannel(s: State, i: nat)
    requires i <= |s.states|
  {
    i == |s.states| || (s.states[i].inUseCount > 0 && |s.states| < s.max)
  }

  ghost predicate Get(s: State, c: Channel, s': State) {
    exists i :: GetAt(s, c, i, s')
  }

  ghost predicate GetAt(s: State, c: Channel, i: int, s': State) {
    && Candidate(s.states, i)
    && s'.max == s.max && s'.handleCount == s.handleCount + 1
    && s'.open == s.open + multiset{c} && s'.done == s.done
    && (if NeedsChannel(s, i) then
          && c == s.created && s'.created == s.created + 1
          && s'.states == s.states + [ChannelState(c, 1)]
        else
          && c == s.states[i].channel && s'.created == s.created
          && s'.states == s.states[i := ChannelState(c, Increment(s.states[i].inUseCount))])
  }

  ghost predicate RpcDone(variant: Variant, s: State, c: Channel, status: Status, s': State) {
    exists i :: RpcDoneAt(variant, s, c, status, i, s')
  }

  ghost predicate RpcDoneAt(variant: Variant, s: State, c: Channel, status: Status, i: int, s': State) {
    && Finds(ChannelsOf(s.states), c, i)
    && s'.max == s.max && s'.handleCount == s.handleCount
    && s'.open == s.open - multiset{c} && s'.done == s.done + multiset{c}
    && (if i == |s.states| then
          s'.states == s.states && s'.created == s.created
        else if Hopeless(status) then
          && s'.created == s.created + 1
          && s'.states == s.states[i := ChannelState(if variant == Replacing then s.created else c, 0)]
        else
          && s'.created == s.created
          && s'.states == s.states[i := ChannelState(c, Decrement(s.states[i].inUseCount))])
  }

  ghost predicate HandleGone(s: State, c: Channel, s': State) {
    s' == s.(handleCount := s.handleCount - 1, done := s.done - multiset{c})
  }

  /** A step of clients that report every handle's call exactly once, and then destroy the handle. */
  ghost predicate Step(variant: Variant, s: State, e: Event, s': State) {
    match e
    case Got(c) => Get(s, c, s')
    case Done(c, status) => c in s.open && RpcDone(variant, s, c, status, s')
    case Destroyed(c) => c in s.done && HandleGone(s, c, s')
  }

  ghost predicate IsRun(variant: Variant, max: nat, events: seq<Event>, run: seq<State>) {
    && |run| == |events| + 1
    && run[0] == Initial(max)
    && forall k :: 0 <= k < |events| ==> Step(variant, run[k], events[k], run[k + 1])
  }

  /** Every count is the number of calls in flight on its channel. */
  ghost predicate Counted(s: State) {
    forall i :: 0 <= i < |s.states| ==> s.states[i].inUseCount == s.open[s.states[i].channel]
  }

  function Capacity(s: State): nat {
    if s.max == 0 then 1 else s.max
  }

  /** What holds of every reachable state, whatever the counts have become. */
  ghost predicate WellFormed(variant: Variant, s: State) {
    && Distinct(ChannelsOf(s.states))
    && (forall c :: c in s.open || c in s.done || c in ChannelsOf(s.states) ==> c < s.created)
    && s.handleCount == |s.open| + |s.done|
    && (variant == AsWritten ==> forall c :: c in s.open ==> c in ChannelsOf(s.states))
  }

  /** The pool stays within its maximum; calls only share a channel once the pool is full; and no
      channel carries more than its share of `bound` calls. */
  ghost predicate Balanced(s: State, bound: nat) {
    && |s.states| <= Capacity(s)
    && (|s.states| < Capacity(s) ==> forall c :: s.open[c] <= 1)
    && (forall c :: s.open[c] <= CeilDiv(bound, Capacity(s)))
  }

  lemma OnlyHolder(s: State, i: int, j: int)
    requires Distinct(ChannelsOf(s.states)) && 0 <= i < |s.states| && 0 <= j < |s.states| && i != j
    ensures s.states[i].channel != s.states[j].channel
  {
    var cs := ChannelsOf(s.states);
    assert cs[i] != cs[j];
  }

  lemma GetKeepsWellFormed(variant: Variant, s: State, c: Channel, s': State)
    requires WellFormed(variant, s) && Get(s, c, s')
    ensures WellFormed(variant, s')
    ensures Counted(s) && |s.open| < SIZE_MAX ==> Counted(s')
  {
    var i :| GetAt(s, c, i, s');
    var cs, cs' := ChannelsOf(s.states), ChannelsOf(s'.states);
    if NeedsChannel(s, i) {
      assert cs' == cs + [c];
      assert c !in s.open;
      forall j | 0 <= j < |s.states| ensures s.states[j].channel != c {
        assert cs[j] in cs;
      }
    } else {
      assert cs[i] in cs;
      assert cs' == cs;
      forall j | 0 <= j < |s.states| && j != i ensures s.states[j].channel != c {
        OnlyHolder(s, i, j);
      }
      CountAtMostAll(s.open, c);
    }
  }

  lemma CountAtMostAll(m: multiset<Channel>, c: Channel)
    ensures m[c] <= |m|
  {
    assert m == m[c := 0] + multiset{}[c := m[c]];
  }

  lemma GetKeepsBalance(s: State, c: Channel, s': State, bound: nat)
    requires Distinct(ChannelsOf(s.states)) && Counted(s) && Get(s, c, s')
    requires (forall d :: d in s.open ==> d < s.created)
    requires Balanced(s, bound) && |s.open| < bound < SIZE_MAX
    ensures Balanced(s', bound)
  {
    var i :| GetAt(s, c, i, s');
    var cs := ChannelsOf(s.states);
    if NeedsChannel(s, i) {
      if i == |s.states| && |s.states| > 0 {
        CountAtMostAll(s.open, s.states[0].channel);
        assert false;
      }
      QuotientAtLeast(bound + Capacity(s) - 1, Capacity(s), 1);
    } else if s.states[i].inUseCount > 0 {
      assert cs[i] == c;
      LeastLoadedHasRoom(cs, s.open, c, bound);
    } else {
      QuotientAtLeast(bound + Capacity(s) - 1, Capacity(s), 1);
    }
  }

  lemma DoneKeepsWellFormed(variant: Variant, s: State, c: Channel, status: Status, s': State)
    requires WellFormed(variant, s) && c in s.open && RpcDone(variant, s, c, status, s')
    ensures WellFormed(variant, s') && s'.open <= s.open
    ensures s'.max == s.max && |s'.states| == |s.states|
  {
    var i :| RpcDoneAt(variant, s, c, status, i, s');
    var cs, cs' := ChannelsOf(s.states), ChannelsOf(s'.states);
    if i < |s.states| {
      assert cs[i] in cs;
      assert cs' == cs[i := s'.states[i].channel];
      assert forall j :: 0 <= j < |cs| ==> cs[j] in cs;
      forall d | d in cs' ensures d < s'.created {
        if d != s.created { assert d in cs; }
      }
      if variant == AsWritten {
        assert cs' == cs;
      }
    }
  }

  /** When a report keeps the counts right: the announced replacement always does; the code as
      written does exactly when the failed call was alone on its channel. */
  lemma DoneKeepsCounted(variant: Variant, s: State, c: Channel, status: Status, s': State)
    requires WellFormed(variant, s) && Counted(s) && c in s.open && RpcDone(variant, s, c, status, s')
    ensures Counted(s') <==> (variant == AsWritten && Hopeless(status) ==> s.open[c] == 1)
  {
    var i :| RpcDoneAt(variant, s, c, status, i, s');
    var cs := ChannelsOf(s.states);
    if i == |s.states| {
      forall j | 0 <= j < |s.states| ensures s.states[j].channel != c {}
    } else {
      assert cs[i] in cs;
      forall j | 0 <= j < |s.states| && j != i
        ensures s'.states[j] == s.states[j] && s'.open[s.states[j].channel] == s.open[s.states[j].channel]
      {
        OnlyHolder(s, i, j);
      }
      assert s'.states[i].inUseCount == s'.open[s'.states[i].channel] <==>
        (variant == AsWritten && Hopeless(status) ==> s.open[c] == 1);
    }
  }

  /** The condition under which the code as written behaves like the announced one: a call that
      ends hopelessly is the only one on its channel. */
  ghost predicate Alone(s: State, e: Event) {
    e.Done? && Hopeless(e.status) ==> s.open[e.channel] == 1
  }

  lemma StepKeepsInvariant(variant: Variant, s: State, e: Event, s': State, bound: nat)
    requires WellFormed(variant, s) && Counted(s) && Balanced(s, bound)
    requires Step(variant, s, e, s') && |s'.open| <= bound < SIZE_MAX
    requires variant == AsWritten ==> Alone(s, e)
    ensures WellFormed(variant, s') && Counted(s') && Balanced(s', bound) && s'.max == s.max
  {
    match e
    case Got(c) =>
      GetKeepsWellFormed(variant, s, c, s');
      GetKeepsBalance(s, c, s', bound);
    case Done(c, status) =>
      DoneKeepsWellFormed(variant, s, c, status, s');
      DoneKeepsCounted(variant, s, c, status, s');
    case Destroyed(c) =>
  }

  lemma {:induction false} RunKeepsInvariant(variant: Variant, max: nat, events: seq<Event>, run: seq<State>,
                                             bound: nat)
    requires IsRun(variant, max, events, run) && bound < SIZE_MAX
    requires forall k :: 0 <= k < |run| ==> |run[k].open| <= bound
    requires variant == AsWritten ==> forall k :: 0 <= k < |events| ==> Alone(run[k], events[k])
    ensures var s := run[|events|];
      WellFormed(variant, s) && Counted(s) && Balanced(s, bound) && s.max == max
  {
    if events == [] {
      QuotientAtLeast(bound + Capacity(run[0]) - 1, Capacity(run[0]), 0);
    } else {
      var k := |events| - 1;
      RunKeepsInvariant(variant, max, events[..k], run[..k + 1], bound);
      StepKeepsInvariant(variant, run[k], events[k], run[k + 1], bound);
    }
  }

  /** With the announced replacement, in every reachable state: at most `max` channels (one, when
      `max` is zero), no sharing of a channel while the pool is below that, at most ceil(bound / max)
      calls on any channel, exact counts, and the handle count is the number of live handles. */
  lemma ReplacementBalances(max: nat, events: seq<Event>, run: seq<State>, bound: nat)
    requires IsRun(Replacing, max, events, run) && bound < SIZE_MAX
    requires forall k :: 0 <= k < |run| ==> |run[k].open| <= bound
    ensures var s, capacity := run[|events|], if max == 0 then 1 else max;
      && |s.states| <= capacity
      && (|s.states| < capacity ==> forall c :: s.open[c] <= 1)
      && (forall c :: s.open[c] <= CeilDiv(bound, capacity))
      && (forall i :: 0 <= i < |s.states| ==> s.states[i].inUseCount == s.open[s.states[i].channel])
      && s.handleCount == |s.open| + |s.done|
  {
    RunKeepsInvariant(Replacing, max, events, run, bound);
  }

  ghost predicate AllCounted(run: seq<State>) {
    forall k :: 0 <= k < |run| ==> Counted(run[k])
  }

  ghost predicate AllAlone(events: seq<Event>, run: seq<State>)
    requires |run| == |events| + 1
  {
    forall k :: 0 <= k < |events| ==> Alone(run[k], events[k])
  }

  /** As written, the counts stay right over a run exactly when every call that ends hopelessly is
      alone on its channel; and then the calls are balanced as announced. */
  lemma {:induction false} AsWrittenCountsIff(max: nat, events: seq<Event>, run: seq<State>, bound: nat)
    requires IsRun(AsWritten, max, events, run) && bound < SIZE_MAX
    requires forall k :: 0 <= k < |run| ==> |run[k].open| <= bound
    ensures AllCounted(run) <==> AllAlone(events, run)
    ensures AllCounted(run) ==> Balanced(run[|events|], bound)
  {
    if events == [] {
      RunKeepsInvariant(AsWritten, max, events, run, bound);
    } else {
      var k := |events| - 1;
      AsWrittenCountsIff(max, events[..k], run[..k + 1], bound);
      if AllAlone(events[..k], run[..k + 1]) {
        RunKeepsInvariant(AsWritten, max, events[..k], run[..k + 1], bound);
        LastStep(run[k], events[k], run[k + 1], bound);
      }
      SplitLast(events, run);
    }
  }

  lemma SplitLast(events: seq<Event>, run: seq<State>)
    requires events != [] && |run| == |events| + 1
    ensures var k := |events| - 1;
      && (AllCounted(run) <==> AllCounted(run[..k + 1]) && Counted(run[k + 1]))
      && (AllAlone(events, run) <==> AllAlone(events[..k], run[..k + 1]) && Alone(run[k], events[k]))
  {
    var k := |events| - 1;
    assert run == run[..k + 1] + [run[k + 1]];
    assert events == events[..k] + [events[k]];
    assert run[..k + 1][k] == run[k];
  }

  lemma LastStep(s: State, e: Event, s': State, bound: nat)
    requires WellFormed(AsWritten, s) && Counted(s) && Balanced(s, bound)
    requires Step(AsWritten, s, e, s') && |s'.open| <= bound < SIZE_MAX
    ensures Counted(s') <==> Alone(s, e)
    ensures Alone(s, e) ==> Balanced(s', bound)
  {
    if Alone(s, e) {
      StepKeepsInvariant(AsWritten, s, e, s', bound);
    } else {
      DoneKeepsCounted(AsWritten, s, e.channel, e.status, s');
    }
  }

  // ----- What the counts are as written -----

  /** The gets of channel `c` minus the ordinary reports on it, since the last hopeless report on it. */
  function Net(events: seq<Event>, c: Channel): int {
    if events == [] then 0
    else
      var before := Net(events[..|events| - 1], c);
      match events[|events| - 1]
      case Got(d) => if d == c then before + 1 else before
      case Done(d, status) => if d != c then before else if Hopeless(status) then 0 else before - 1
      case Destroyed(_) => before
  }

  /** A count is that difference, as far as an unsigned 64-bit counter can tell. */
  ghost predicate NetCounted(events: seq<Event>, s: State) {
    forall i :: 0 <= i < |s.states| ==>
      s.states[i].inUseCount == Net(events, s.states[i].channel) % 0x1_0000_0000_0000_0000
  }

  /** Nothing was got of a channel that does not exist yet; and a difference is off the number of calls in
      flight by what a hopeless report left behind. */
  ghost predicate NetBounded(events: seq<Event>, s: State, bound: nat) {
    && (forall c :: c >= s.created ==> Net(events, c) == 0)
    && forall c :: 0 <= s.open[c] - Net(events, c) <= bound
  }

  lemma NetAfter(events: seq<Event>, e: Event, c: Channel)
    ensures Net(events + [e], c) ==
      match e
      case Got(d) => if d == c then Net(events, c) + 1 else Net(events, c)
      case Done(d, status) => if d != c then Net(events, c) else if Hopeless(status) then 0 else Net(events, c) - 1
      case Destroyed(_) => Net(events, c)
  {
    assert (events + [e])[..|events|] == events;
  }

  lemma Wraps(net: int)
    ensures 0 <= net % (SIZE_MAX + 1) <= SIZE_MAX
    ensures Decrement(net % (SIZE_MAX + 1)) == (net - 1) % (SIZE_MAX + 1)
    ensures Increment(net % (SIZE_MAX + 1)) == (net + 1) % (SIZE_MAX + 1)
  {
    var m, q, r := SIZE_MAX + 1, net / (SIZE_MAX + 1), net % (SIZE_MAX + 1);
    assert net == q * m + r;
    if r == 0 {
      DivModUnique(net - 1, m, q - 1, m - 1);
    } else {
      DivModUnique(net - 1, m, q, r - 1);
    }
    if r == m - 1 {
      DivModUnique(net + 1, m, q + 1, 0);
    } else {
      DivModUnique(net + 1, m, q, r + 1);
    }
  }

  lemma OneModulo()
    ensures 1 % (SIZE_MAX + 1) == 1 && 0 % (SIZE_MAX + 1) == 0
  {
  }

  lemma GetKeepsNet(events: seq<Event>, s: State, c: Channel, s': State, bound: nat)
    requires WellFormed(AsWritten, s) && NetCounted(events, s) && NetBounded(events, s, bound) && Get(s, c, s')
    ensures NetCounted(events + [Got(c)], s') && NetBounded(events + [Got(c)], s', bound)
  {
    var i :| GetAt(s, c, i, s');
    var cs := ChannelsOf(s.states);
    forall d ensures Net(events + [Got(c)], d) == if d == c then Net(events, d) + 1 else Net(events, d) {
      NetAfter(events, Got(c), d);
    }
    OneModulo();
    if NeedsChannel(s, i) {
      forall j | 0 <= j < |s.states| ensures s.states[j].channel != c {
        assert cs[j] in cs;
      }
    } else {
      forall j | 0 <= j < |s.states| && j != i ensures s.states[j].channel != c {
        OnlyHolder(s, i, j);
      }
      Wraps(Net(events, c));
    }
  }

  lemma DoneKeepsNet(events: seq<Event>, s: State, c: Channel, status: Status, s': State, bound: nat)
    requires WellFormed(AsWritten, s) && NetCounted(events, s) && NetBounded(events, s, bound)
    requires c in s.open && |s.open| <= bound && RpcDone(AsWritten, s, c, status, s')
    ensures NetCounted(events + [Done(c, status)], s') && NetBounded(events + [Done(c, status)], s', bound)
  {
    var i :| RpcDoneAt(AsWritten, s, c, status, i, s');
    var cs := ChannelsOf(s.states);
    forall d ensures Net(events + [Done(c, status)], d) ==
      if d != c then Net(events, d) else if Hopeless(status) then 0 else Net(events, d) - 1
    {
      NetAfter(events, Done(c, status), d);
    }
    forall j | 0 <= j < |s.states| && s.states[j].channel == c ensures j == i {
      if j != i && i < |s.states| {
        OnlyHolder(s, i, j);
      }
    }
    CountAtMostAll(s.open, c);
    OneModulo();
    Wraps(Net(events, c));
  }

  ghost predicate NetValid(events: seq<Event>, s: State, bound: nat) {
    WellFormed(AsWritten, s) && NetCounted(events, s) && NetBounded(events, s, bound)
  }

  lemma InitialNet(max: nat, bound: nat)
    ensures NetValid([], Initial(max), bound)
  {
  }

  lemma StepKeepsNet(before: seq<Event>, s: State, e: Event, events: seq<Event>, s': State, bound: nat)
    requires NetValid(before, s, bound) && |s.open| <= bound && Step(AsWritten, s, e, s') && events == before + [e]
    ensures NetValid(events, s', bound) && s'.max == s.max
  {
    match e
    case Got(c) =>
      GetKeepsWellFormed(AsWritten, s, c, s');
      GetKeepsNet(before, s, c, s', bound);
    case Done(c, status) =>
      DoneKeepsWellFormed(AsWritten, s, c, status, s');
      DoneKeepsNet(before, s, c, status, s', bound);
    case Destroyed(c) =>
      forall d ensures Net(events, d) == Net(before, d) {
        NetAfter(before, e, d);
      }
  }

  lemma Prefix(variant: Variant, max: nat, events: seq<Event>, run: seq<State>, k: nat)
    requires IsRun(variant, max, events, run) && |events| == k + 1
    ensures IsRun(variant, max, events[..k], run[..k + 1]) && Step(variant, run[k], events[k], run[k + 1])
    ensures events == events[..k] + [events[k]] && |events[..k]| == k && run[..k + 1][k] == run[k]
  {
  }

  /** As written, on every run: every slot's count is that difference modulo 2^64. */
  lemma {:induction false} CountsAreNet(max: nat, events: seq<Event>, run: seq<State>, bound: nat)
    requires IsRun(AsWritten, max, events, run)
    requires forall k :: 0 <= k < |run| ==> |run[k].open| <= bound
    ensures NetValid(events, run[|events|], bound) && run[|events|].max == max
  {
    if events == [] {
      InitialNet(max, bound);
    } else {
      var k := |events| - 1;
      Prefix(AsWritten, max, events, run, k);
      CountsAreNet(max, events[..k], run[..k + 1], bound);
      StepKeepsNet(events[..k], run[k], events[k], events, run[k + 1], bound);
    }
  }

  /** The pool is full, and on each of its channels there was one ordinary report more than gets since the
      last hopeless one. */
  ghost predicate Overfull(events: seq<Event>, s: State) {
    |s.states| >= Capacity(s) && forall i :: 0 <= i < |s.states| ==> Net(events, s.states[i].channel) == -1
  }

  lemma LooksUnusable(net: int, open: nat, bound: nat)
    requires 0 <= open - net <= bound && open <= bound < SIZE_MAX
    ensures net % (SIZE_MAX + 1) >= SIZE_MAX <==> net == -1
  {
    if net < 0 {
      DivModUnique(net, SIZE_MAX + 1, -1, net + SIZE_MAX + 1);
    } else {
      DivModUnique(net, SIZE_MAX + 1, 0, net);
    }
  }

  /** A get makes a full pool larger exactly when it is overfull in that sense. */
  lemma GetGrowsFullPoolIff(events: seq<Event>, s: State, c: Channel, s': State, bound: nat)
    requires NetCounted(events, s) && NetBounded(events, s, bound) && |s.open| <= bound < SIZE_MAX
    requires Get(s, c, s')
    ensures |s.states| <= |s'.states| <= |s.states| + 1
    ensures |s'.states| > |s.states| >= Capacity(s) <==> Overfull(events, s)
  {
    var i :| GetAt(s, c, i, s');
    forall j | 0 <= j < |s.states|
      ensures s.states[j].inUseCount >= SIZE_MAX <==> Net(events, s.states[j].channel) == -1
    {
      CountAtMostAll(s.open, s.states[j].channel);
      LooksUnusable(Net(events, s.states[j].channel), s.open[s.states[j].channel], bound);
    }
  }

  ghost predicate OverfullGet(events: seq<Event>, run: seq<State>, k: int)
    requires |run| == |events| + 1
  {
    0 <= k < |events| && events[k].Got? && Overfull(events[..k], run[k])
  }

  ghost predicate EverOverfull(events: seq<Event>, run: seq<State>)
    requires |run| == |events| + 1
  {
    exists k :: OverfullGet(events, run, k)
  }

  lemma LastOrEarlier(events: seq<Event>, run: seq<State>, k: nat, before: seq<Event>, runBefore: seq<State>)
    requires |run| == |events| + 1 == k + 2 && before == events[..k] && runBefore == run[..k + 1]
    ensures EverOverfull(events, run) <==> EverOverfull(before, runBefore) || OverfullGet(events, run, k)
  {
    forall j | 0 <= j < k ensures OverfullGet(events, run, j) <==> OverfullGet(before, runBefore, j) {
      assert before[..j] == events[..j];
    }
    if j :| OverfullGet(before, runBefore, j) {
      assert OverfullGet(events, run, j);
    }
    if j :| OverfullGet(events, run, j) {
      assert j < k ==> OverfullGet(before, runBefore, j);
    }
  }

  lemma StepGrowsIff(events: seq<Event>, s: State, e: Event, s': State, bound: nat)
    requires NetValid(events, s, bound) && |s.open| <= bound < SIZE_MAX && Step(AsWritten, s, e, s')
    ensures Capacity(s') == Capacity(s)
    ensures |s'.states| > Capacity(s) <==> |s.states| > Capacity(s) || (e.Got? && Overfull(events, s))
  {
    match e
    case Got(c) => GetGrowsFullPoolIff(events, s, c, s', bound);
    case Done(c, status) => DoneKeepsWellFormed(AsWritten, s, c, status, s');
    case Destroyed(_) =>
  }

  /** As written, a run takes the pool beyond its maximum exactly when it gets a handle at a time when the
      pool is full and every channel has had one ordinary report too many. */
  lemma {:induction false} ExceedsMaximumIff(max: nat, events: seq<Event>, run: seq<State>, bound: nat)
    requires IsRun(AsWritten, max, events, run) && bound < SIZE_MAX
    requires forall k :: 0 <= k < |run| ==> |run[k].open| <= bound
    ensures |run[|events|].states| > Capacity(run[|events|]) <==> EverOverfull(events, run)
  {
    if events != [] {
      var k := |events| - 1;
      CountsAreNet(max, events[..k], run[..k + 1], bound);
      ExceedsMaximumIff(max, events[..k], run[..k + 1], bound);
      LastOrEarlier(events, run, k, events[..k], run[..k + 1]);
      StepGrowsIff(events[..k], run[k], events[k], run[k + 1], bound);
    }
  }

  /** As written, two calls are enough to overflow a pool of one channel: after one of them ends
      hopelessly and the other ends well, the count has wrapped around, no channel looks usable, and
      the next handle makes the pool larger than its maximum. */
  lemma AsWrittenExceedsMaximum() returns (events: seq<Event>, run: seq<State>)
    ensures IsRun(AsWritten, 1, events, run)
    ensures forall k :: 0 <= k < |run| ==> |run[k].open| <= 2
    ensures |run[|events|].states| > 1
  {
    var s0 := Initial(1);
    var s1 := State(1, [ChannelState(0, 1)], 1, 1, s0.open + multiset{0}, s0.done);
    var s2 := State(1, [ChannelState(0, 2)], 2, 1, s1.open + multiset{0}, s1.done);
    var s3 := State(1, [ChannelState(0, 0)], 2, 2, s2.open - multiset{0}, s2.done + multiset{0});
    var s4 := State(1, [ChannelState(0, SIZE_MAX)], 2, 2, s3.open - multiset{0}, s3.done + multiset{0});
    var s5 := State(1, [ChannelState(0, SIZE_MAX), ChannelState(2, 1)], 3, 3, s4.open + multiset{2}, s4.done);
    OverflowingGets(s0, s1, s2);
    OverflowingReports(s2, s3, s4);
    GetBeyondMaximum(s4, s5);
    events, run := [], [s0];
    events, run := Extend(events, run, Got(0), s1);
    events, run := Extend(events, run, Got(0), s2);
    events, run := Extend(events, run, Done(0, Cancelled), s3);
    events, run := Extend(events, run, Done(0, Ok), s4);
    events, run := Extend(events, run, Got(2), s5);
  }

  lemma Extend(events: seq<Event>, run: seq<State>, e: Event, s: State) returns (events': seq<Event>, run': seq<State>)
    requires IsRun(AsWritten, 1, events, run) && Step(AsWritten, run[|events|], e, s)
    requires (forall k :: 0 <= k < |run| ==> |run[k].open| <= 2) && |s.open| <= 2
    ensures IsRun(AsWritten, 1, events', run') && run'[|events'|] == s
    ensures forall k :: 0 <= k < |run'| ==> |run'[k].open| <= 2
  {
    events', run' := events + [e], run + [s];
  }

  lemma OverflowingGets(s0: State, s1: State, s2: State)
    requires s0 == Initial(1)
    requires s1 == State(1, [ChannelState(0, 1)], 1, 1, s0.open + multiset{0}, s0.done)
    requires s2 == State(1, [ChannelState(0, 2)], 2, 1, s1.open + multiset{0}, s1.done)
    ensures Get(s0, 0, s1) && Get(s1, 0, s2)
  {
    assert Candidate(s0.states, 0) && Candidate(s1.states, 0);
    assert s1.states == s0.states + [ChannelState(0, 1)];
    assert GetAt(s0, 0, 0, s1);
    assert GetAt(s1, 0, 0, s2);
  }

  lemma GetBeyondMaximum(s4: State, s5: State)
    requires s4.max == 1 && s4.states == [ChannelState(0, SIZE_MAX)] && s4.handleCount == s4.created == 2
    requires s5 == State(1, [ChannelState(0, SIZE_MAX), ChannelState(2, 1)], 3, 3, s4.open + multiset{2}, s4.done)
    ensures Get(s4, 2, s5)
  {
    assert Candidate(s4.states, 1);
    assert s5.states == s4.states + [ChannelState(2, 1)];
    assert GetAt(s4, 2, 1, s5);
  }

  lemma OverflowingReports(s2: State, s3: State, s4: State)
    requires s2.max == 1 && s2.states == [ChannelState(0, 2)] && s2.handleCount == 2 && s2.created == 1
    requires s3 == State(1, [ChannelState(0, 0)], 2, 2, s2.open - multiset{0}, s2.done + multiset{0})
    requires s4 == State(1, [ChannelState(0, SIZE_MAX)], 2, 2, s3.open - multiset{0}, s3.done + multiset{0})
    ensures RpcDone(AsWritten, s2, 0, Cancelled, s3) && RpcDone(AsWritten, s3, 0, Ok, s4)
  {
    assert RpcDoneAt(AsWritten, s2, 0, Cancelled, 0, s3);
    assert RpcDoneAt(AsWritten, s3, 0, Ok, 0, s4);
  }

  class Manager {
    const maxChannelCount: nat
    var channelStates: seq<Slot>
    var channelHandleCount: int
    var created: nat
    ghost var open: multiset<Channel>
    ghost var done: multiset<Channel>

    ghost function Now(): State
      reads this
    {
      State(maxChannelCount, channelStates, channelHandleCount, created, open, done)
    }

    constructor (maxChannelCount: nat)
      ensures Now() == Initial(maxChannelCount)
    {
      this.maxChannelCount := maxChannelCount;
      channelStates, channelHandleCount, created := [], 0, 0;
      open, done := multiset{}, multiset{};
    }

    /** The channel with the least in-use count, or the end. */
    method FindCandidate() returns (candidate: nat)
      ensures Candidate(channelStates, candidate)
    {
      candidate := |channelStates|;
      var minInUseCount := SIZE_MAX;
      var i := 0;
      while i < |channelStates|
        invariant 0 <= i <= |channelStates|
        invariant candidate == |channelStates| || 0 <= candidate < i
        invariant minInUseCount == if candidate < i then channelStates[candidate].inUseCount else SIZE_MAX
        invariant candidate < i ==> minInUseCount < SIZE_MAX
        invariant forall j :: 0 <= j < i ==> minInUseCount <= channelStates[j].inUseCount
        invariant candidate < i ==> forall j :: 0 <= j < candidate ==> minInUseCount < channelStates[j].inUseCount
      {
        if channelStates[i].inUseCount < minInUseCount {
          candidate, minInUseCount := i, channelStates[i].inUseCount;
        }
        i := i + 1;
      }
    }

    method GetHandle() returns (handle: Handle)
      modifies this
      ensures fresh(handle) && handle.manager == this && !handle.onRpcDoneCalled
      ensures Get(old(Now()), handle.channel, Now())
    {
      var candidate := FindCandidate();
      ghost var chosen := candidate;
      if candidate == |channelStates| ||
         (channelStates[candidate].inUseCount > 0 && |channelStates| < maxChannelCount) {
        candidate := |channelStates|;
        channelStates, created := channelStates + [ChannelState(created, 0)], created + 1;
      }
      var c := channelStates[candidate].channel;
      channelStates := channelStates[candidate := ChannelState(c, Increment(channelStates[candidate].inUseCount))];
      channelHandleCount := channelHandleCount + 1;
      open := open + multiset{c};
      handle := new Handle(this, c);
      assert GetAt(old(Now()), c, chosen, Now());
    }

    method Find(channel: Channel) returns (i: nat)
      ensures Finds(ChannelsOf(channelStates), channel, i)
    {
      i := 0;
      while i < |channelStates| && channelStates[i].channel != channel
        invariant 0 <= i <= |channelStates|
        invariant forall j :: 0 <= j < i ==> channelStates[j].channel != channel
      {
        i := i + 1;
      }
    }

    method OnRpcDone(channel: Channel, status: Status)
      modifies this
      ensures RpcDone(AsWritten, old(Now()), channel, status, Now())
    {
      var i := Find(channel);
      if i < |channelStates| {
        var count := Decrement(channelStates[i].inUseCount);
        channelStates := channelStates[i := ChannelState(channel, count)];
        if Hopeless(status) {
          // A channel is created, compared with the slot's and dropped.
          created := created + 1;
          channelStates := channelStates[i := ChannelState(channel, 0)];
          assert channelStates == old(channelStates)[i := ChannelState(channel, 0)];
        }
      }
      open, done := open - multiset{channel}, done + multiset{channel};
      assert RpcDoneAt(AsWritten, old(Now()), channel, status, i, Now());
    }

    method OnChannelHandleDestroyed(ghost channel: Channel)
      modifies this
      ensures HandleGone(old(Now()), channel, Now())
    {
      channelHandleCount := channelHandleCount - 1;
      done := done - multiset{channel};
    }
  }

  class Handle {
    const manager: Manager
    const channel: Channel
    var onRpcDoneCalled: bool

    constructor (manager: Manager, channel: Channel)
      ensures this.manager == manager && this.channel == channel && !onRpcDoneCalled
    {
      this.manager, this.channel, onRpcDoneCalled := manager, channel, false;
    }

    /** The source asserts that a call's result is reported only once. */
    method OnRpcDone(status: Status)
      requires !onRpcDoneCalled
      modifies this, manager
      ensures onRpcDoneCalled
      ensures RpcDone(AsWritten, old(manager.Now()), channel, status, manager.Now())
    {
      manager.OnRpcDone(channel, status);
      onRpcDoneCalled := true;
    }

    method Destroy()
      modifies manager
      ensures HandleGone(old(manager.Now()), channel, manager.Now())
    {
      manager.OnChannelHandleDestroyed(channel);
    }
  }
}
