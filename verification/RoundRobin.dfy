/** A cursor that advances by one, modulo the number of slots. */
module RoundRobin {
  import opened Arithmetic
  import opened Channels

  /** `served` lists the slots a cursor over `n` slots visits when its first visit is number `start`. */
  ghost predicate InOrder(served: seq<int>, start: nat, n: nat)
    requires n > 0
  {
    forall j :: 0 <= j < |served| ==> served[j] == (start + j) % n
  }

  /** How many of the visits 0, ..., x - 1 hit slot `i`. */
  function VisitsBefore(x: int, i: int, n: nat): int
    requires n > 0
  {
    (x - i + n - 1) / n
  }

  lemma VisitsStep(x: nat, i: int, n: nat)
    requires 0 <= i < n
    ensures VisitsBefore(x + 1, i, n) == VisitsBefore(x, i, n) + (if x % n == i then 1 else 0)
  {
    var q, r := x / n, x % n;
    assert x == q * n + r;
    var y := r - i + n - 1;
    assert x - i + n - 1 == q * n + y && x + 1 - i + n - 1 == q * n + (y + 1);
    QuotientBelow2n(q, y, n);
    QuotientBelow2n(q, y + 1, n);
  }

  lemma QuotientBelow2n(q: int, y: int, n: nat)
    requires n > 0 && 0 <= y < 2 * n
    ensures (q * n + y) / n == if y < n then q else q + 1
  {
    if y < n {
      DivModUnique(q * n + y, n, q, y);
    } else {
      assert q * n + y == (q + 1) * n + (y - n);
      DivModUnique(q * n + y, n, q + 1, y - n);
    }
  }

  lemma {:induction false} CountIsVisits(served: seq<int>, start: nat, n: nat, i: int)
    requires 0 <= i < n && InOrder(served, start, n)
    ensures multiset(served)[i] == VisitsBefore(start + |served|, i, n) - VisitsBefore(start, i, n)
  {
    if served != [] {
      var k := |served| - 1;
      assert served == served[..k] + [served[k]];
      CountIsVisits(served[..k], start, n, i);
      VisitsStep(start + k, i, n);
    }
  }

  /** A window of a round robin visits every slot floor(k/n) or ceil(k/n) times. */
  lemma FairWindow(served: seq<int>, start: nat, n: nat, i: int)
    requires 0 <= i < n && InOrder(served, start, n)
    ensures |served| / n <= multiset(served)[i] <= CeilDiv(|served|, n)
  {
    CountIsVisits(served, start, n, i);
    QuotientOfSum(start - i + n - 1, |served|, n);
  }

  /** `handles` are the channels that the slots `served` of `channels` hold. */
  ghost predicate HandlesOf(handles: seq<Channel>, served: seq<int>, channels: seq<Channel>) {
    && |handles| == |served|
    && forall j :: 0 <= j < |served| ==> 0 <= served[j] < |channels| && handles[j] == channels[served[j]]
  }

  lemma {:induction false} HandlesCountVisits(handles: seq<Channel>, served: seq<int>, channels: seq<Channel>, i: int)
    requires Distinct(channels) && 0 <= i < |channels| && HandlesOf(handles, served, channels)
    ensures multiset(handles)[channels[i]] == multiset(served)[i]
  {
    if handles != [] {
      var k := |handles| - 1;
      assert handles == handles[..k] + [handles[k]] && served == served[..k] + [served[k]];
      HandlesCountVisits(handles[..k], served[..k], channels, i);
    }
  }

  /** The handles of a window of a round robin over fixed channels are fair to every channel. */
  lemma FairHandles(handles: seq<Channel>, served: seq<int>, channels: seq<Channel>, start: nat, i: int)
    requires Distinct(channels) && 0 <= i < |channels| && HandlesOf(handles, served, channels)
    requires InOrder(served, start, |channels|)
    ensures |handles| / |channels| <= multiset(handles)[channels[i]] <= CeilDiv(|handles|, |channels|)
  {
    HandlesCountVisits(handles, served, channels, i);
    FairWindow(served, start, |channels|, i);
  }

  lemma NextVisit(x: nat, n: nat)
    requires n > 0
    ensures (x % n + 1) % n == (x + 1) % n
  {
    NextRemainder(x, n);
    if x % n + 1 < n {
      DivModUnique(x % n + 1, n, 0, x % n + 1);
    } else {
      DivModUnique(x % n + 1, n, 1, 0);
    }
  }
}

/** The "pool" policy: channels are handed out in turn, and a channel that failed hopelessly is
    replaced in place. */
module RoundRobinPool {
  import opened Arithmetic
  import opened Channels
  import opened RoundRobin

  /** The pool and its history: `served` lists the slots whose turn it was so far, oldest first, and
      `handles` the handles that were returned. */
  datatype State = State(channels: seq<Channel>, created: nat, cursor: nat, served: seq<int>, handles: seq<Channel>)

  function Initial(size: nat): State {
    State(seq(size, (i: nat) => i), size, 0, [], [])
  }

  ghost predicate Get(s: State, handle: Channel, s': State) {
    && s.channels != []
    && var next := (s.cursor + 1) % |s.channels|;
       && handle == s.channels[next]
       && s' == s.(cursor := next, served := s.served + [next], handles := s.handles + [handle])
  }

  ghost predicate Report(s: State, handle: Channel, status: Status, s': State) {
    if Hopeless(status) then exists i :: EvictAt(s, handle, i, s') else s' == s
  }

  ghost predicate EvictAt(s: State, handle: Channel, i: int, s': State) {
    && Finds(s.channels, handle, i)
    && s' == if i < |s.channels| then s.(channels := s.channels[i := s.created], created := s.created + 1) else s
  }

  ghost predicate Step(s: State, s': State) {
    || (exists handle :: Get(s, handle, s'))
    || (exists handle, status :: Report(s, handle, status, s'))
  }

  ghost predicate IsRun(size: nat, run: seq<State>) {
    && run != []
    && run[0] == Initial(size)
    && forall k :: 0 <= k < |run| - 1 ==> Step(run[k], run[k + 1])
  }

  ghost predicate Valid(s: State, size: nat) {
    && |s.channels| == size > 0
    && Distinct(s.channels) && (forall c :: c in s.channels ==> c < s.created)
    && s.cursor == |s.served| % size
    && InOrder(s.served, 1, size) && |s.handles| == |s.served|
  }

  lemma ReportKeepsDistinct(s: State, handle: Channel, status: Status, s': State, size: nat)
    requires Valid(s, size) && Report(s, handle, status, s')
    ensures Distinct(s'.channels) && forall c :: c in s'.channels ==> c < s'.created
  {
    if Hopeless(status) {
      var i :| EvictAt(s, handle, i, s');
      forall a, b | 0 <= a < b < size ensures s'.channels[a] != s'.channels[b] {
        assert s.channels[a] in s.channels && s.channels[b] in s.channels;
      }
      forall c | c in s'.channels ensures c < s'.created {
        assert c != s.created ==> c in s.channels;
      }
    }
  }

  lemma StepKeepsValid(s: State, s': State, size: nat)
    requires Valid(s, size) && Step(s, s')
    ensures Valid(s', size)
  {
    NextVisit(|s.served|, size);
    if handle, status :| Report(s, handle, status, s') {
      ReportKeepsDistinct(s, handle, status, s', size);
    }
  }

  lemma {:induction false} RunKeepsValid(size: nat, run: seq<State>, k: nat)
    requires size > 0 && IsRun(size, run) && k < |run|
    ensures Valid(run[k], size)
  {
    if k > 0 {
      RunKeepsValid(size, run, k - 1);
      StepKeepsValid(run[k - 1], run[k], size);
    }
  }

  /** Over any window of handouts, whatever reports and replacements come between them, every slot
      is handed out floor(k/size) or ceil(k/size) times. */
  lemma FairOverAnyWindow(size: nat, run: seq<State>, from: nat, to: nat, slot: int)
    requires size > 0 && IsRun(size, run) && 0 <= slot < size
    requires from <= to <= |run[|run| - 1].served|
    ensures (to - from) / size <= multiset(run[|run| - 1].served[from..to])[slot] <= CeilDiv(to - from, size)
  {
    RunKeepsValid(size, run, |run| - 1);
    FairWindow(run[|run| - 1].served[from..to], 1 + from, size, slot);
  }

  /** Handout number k returns the channel that slot (k + 1) % size holds at that time. */
  lemma HandlesComeInTurn(size: nat, run: seq<State>, k: nat, handle: Channel)
    requires size > 0 && IsRun(size, run) && k + 1 < |run| && Get(run[k], handle, run[k + 1])
    ensures |run[k].channels| == size && handle == run[k].channels[(|run[k].handles| + 1) % size]
    ensures run[k + 1].handles == run[k].handles + [handle]
  {
    RunKeepsValid(size, run, k);
    NextVisit(|run[k].served|, size);
  }

  ghost predicate SameChannels(run: seq<State>, a: nat, b: nat)
    requires a <= b < |run|
  {
    forall k :: a <= k <= b ==> run[k].channels == run[a].channels
  }

  lemma {:induction false} WindowOf(size: nat, run: seq<State>, a: nat, b: nat)
    requires size > 0 && IsRun(size, run) && a <= b < |run| && SameChannels(run, a, b)
    ensures |run[a].handles| == |run[a].served| <= |run[b].served| == |run[b].handles|
    ensures HandlesOf(run[b].handles[|run[a].handles|..], run[b].served[|run[a].handles|..], run[a].channels)
    decreases b
  {
    RunKeepsValid(size, run, a);
    RunKeepsValid(size, run, b);
    if a < b {
      WindowOf(size, run, a, b - 1);
      RunKeepsValid(size, run, b - 1);
      assert Step(run[b - 1], run[b]);
    }
  }

  /** Over any part of a run without replacements, every channel of the pool is returned floor(k/size) or
      ceil(k/size) times by k handouts. */
  lemma FairToChannels(size: nat, run: seq<State>, a: nat, b: nat, slot: int)
    requires size > 0 && IsRun(size, run) && a <= b < |run| && SameChannels(run, a, b)
    requires 0 <= slot < |run[a].channels|
    ensures |run[a].channels| == size && |run[a].handles| <= |run[b].handles|
    ensures var window := run[b].handles[|run[a].handles|..];
      |window| / size <= multiset(window)[run[a].channels[slot]] <= CeilDiv(|window|, size)
  {
    RunKeepsValid(size, run, a);
    RunKeepsValid(size, run, b);
    WindowOf(size, run, a, b);
    var from := |run[a].handles|;
    FairHandles(run[b].handles[from..], run[b].served[from..], run[a].channels, 1 + from, slot);
  }

  // ----- Failed channels -----

  /** A report of a call that was cancelled or ran out of time puts a channel that is new to the pool in
      the place of the failed one, if that is in the pool, and keeps all others. */
  lemma FailedChannelLeaves(s: State, handle: Channel, status: Status, s': State, size: nat)
    requires Valid(s, size) && Report(s, handle, status, s') && (status == Cancelled || status == DeadlineExceeded)
    ensures Replaced(s.channels, handle, s.created, s'.channels)
    ensures handle < s.created ==> handle !in s'.channels
    ensures s.created !in s.channels
  {
    var i :| EvictAt(s, handle, i, s');
    forall j | 0 <= j < size && j != i ensures s.channels[j] != handle {
      if i < size {
        assert s.channels[j] != s.channels[i];
      }
    }
  }

  /** Any other report leaves every slot its channel. */
  lemma OtherReportsKeepChannels(s: State, handle: Channel, status: Status, s': State)
    requires Report(s, handle, status, s') && (status == Ok || status == OtherError)
    ensures s'.channels == s.channels
  {
  }

  lemma {:induction false} GoneStaysGone(size: nat, run: seq<State>, k: nat, j: nat, c: Channel)
    requires IsRun(size, run) && k <= j < |run| && c < run[k].created && c !in run[k].channels
    ensures c < run[j].created && c !in run[j].channels
    decreases j
  {
    if k < j {
      GoneStaysGone(size, run, k, j - 1, c);
      assert Step(run[j - 1], run[j]);
    }
  }

  /** On every run: no handout after such a report returns the failed channel again. */
  lemma FailedChannelIsNotHandedOut(size: nat, run: seq<State>, k: nat, handle: Channel, status: Status,
                                    j: nat, other: Channel)
    requires size > 0 && IsRun(size, run) && k < j && j + 1 < |run| && handle < run[k].created
    requires Report(run[k], handle, status, run[k + 1]) && (status == Cancelled || status == DeadlineExceeded)
    requires Get(run[j], other, run[j + 1])
    ensures other != handle
  {
    RunKeepsValid(size, run, k);
    FailedChannelLeaves(run[k], handle, status, run[k + 1], size);
    GoneStaysGone(size, run, k + 1, j, handle);
  }

  class RoundRobinChannelPool {
    var channels: seq<Channel>
    var created: nat
    var cursor: nat
    ghost var served: seq<int>
    ghost var handles: seq<Channel>

    ghost function Now(): State
      reads this
    {
      State(channels, created, cursor, served, handles)
    }

    constructor (size: nat)
      ensures Now() == Initial(size)
    {
      var cs: seq<Channel> := [];
      for i := 0 to size
        invariant cs == seq(i, (k: nat) => k)
      {
        cs := cs + [i];
      }
      channels, created, cursor, served, handles := cs, size, 0, [], [];
    }

    method GetStorageStub() returns (handle: Channel)
      requires channels != []
      modifies this
      ensures Get(old(Now()), handle, Now())
    {
      cursor := (cursor + 1) % |channels|;
      handle := channels[cursor];
      served, handles := served + [cursor], handles + [handle];
    }

    method ReportResult(handle: Channel, status: Status)
      modifies this
      ensures Report(old(Now()), handle, status, Now())
    {
      if Hopeless(status) {
        var i := 0;
        while i < |channels| && channels[i] != handle
          invariant 0 <= i <= |channels|
          invariant forall j :: 0 <= j < i ==> channels[j] != handle
        {
          i := i + 1;
        }
        if i < |channels| {
          channels, created := channels[i := created], created + 1;
        }
        assert EvictAt(old(Now()), handle, i, Now());
      }
    }
  }
}
