/** Channel identities, call outcomes, and how calls spread over channels. */
module Channels {
  import opened Arithmetic

  /** A channel is known by its identity; a pool numbers the channels it creates 0, 1, 2, ... */
  type Channel = nat

  /** The outcome of a call, as far as the pools look at it. */
  datatype Status = Ok | Cancelled | DeadlineExceeded | OtherError

  /** The two outcomes after which a pool gives up on a channel. */
  predicate Hopeless(status: Status) {
    status.Cancelled? || status.DeadlineExceeded?
  }

  /** A slot of a pool: a channel and the number of calls the pool counts on it. */
  datatype ChannelState<Count> = ChannelState(channel: Channel, inUseCount: Count)

  function ChannelsOf<Count>(slots: seq<ChannelState<Count>>): (cs: seq<Channel>)
    ensures |cs| == |slots|
    ensures forall i :: 0 <= i < |cs| ==> cs[i] == slots[i].channel
  {
    seq(|slots|, i requires 0 <= i < |slots| => slots[i].channel)
  }

  /** `i` is the first position of `c`, or the end when there is none. */
  ghost predicate Finds(cs: seq<Channel>, c: Channel, i: int) {
    && 0 <= i <= |cs|
    && (forall j :: 0 <= j < i ==> cs[j] != c)
    && (i < |cs| ==> cs[i] == c)
  }

  /** `cs'` is `cs` with every occurrence of `c` replaced by `d`. */
  ghost predicate Replaced(cs: seq<Channel>, c: Channel, d: Channel, cs': seq<Channel>) {
    |cs'| == |cs| && forall i :: 0 <= i < |cs| ==> cs'[i] == if cs[i] == c then d else cs[i]
  }

  ghost predicate Distinct<T>(s: seq<T>) {
    forall i, j :: 0 <= i < j < |s| ==> s[i] != s[j]
  }

  /** The calls of `calls` that run on one of the channels in `cs`. */
  ghost function Load(cs: seq<Channel>, calls: multiset<Channel>): nat {
    if cs == [] then 0 else calls[cs[0]] + Load(cs[1..], calls)
  }

  lemma {:induction false} LoadWithout(cs: seq<Channel>, calls: multiset<Channel>, c: Channel)
    requires c !in cs
    ensures Load(cs, calls[c := 0]) == Load(cs, calls)
  {
    if cs != [] {
      assert cs[0] in cs;
      LoadWithout(cs[1..], calls, c);
    }
  }

  lemma {:induction false} LoadAtMostAll(cs: seq<Channel>, calls: multiset<Channel>)
    requires Distinct(cs)
    ensures Load(cs, calls) <= |calls|
  {
    if cs != [] {
      var c, rest := cs[0], calls[cs[0] := 0];
      assert c !in cs[1..];
      LoadWithout(cs[1..], calls, c);
      LoadAtMostAll(cs[1..], rest);
      assert |calls| == |rest| + calls[c];
    }
  }

  lemma {:induction false} LeastTimesCount(cs: seq<Channel>, calls: multiset<Channel>, least: nat)
    requires forall c :: c in cs ==> least <= calls[c]
    ensures least * |cs| <= Load(cs, calls)
  {
    if cs != [] {
      LeastTimesCount(cs[1..], calls, least);
    }
  }

  /** Pigeonhole: when fewer than `bound` calls are open, the least loaded of the channels `cs`
      can take one more and still carry at most ceil(bound / |cs|). */
  lemma {:induction false} LeastLoadedHasRoom(cs: seq<Channel>, calls: multiset<Channel>, c: Channel, bound: nat)
    requires Distinct(cs) && c in cs
    requires forall d :: d in cs ==> calls[c] <= calls[d]
    requires |calls| < bound
    ensures calls[c] + 1 <= CeilDiv(bound, |cs|)
  {
    LoadAtMostAll(cs, calls);
    LeastTimesCount(cs, calls, calls[c]);
    var n, q := |cs|, calls[c];
    assert q * n <= bound - 1;
    QuotientAtLeast(bound - 1 + n, n, q + 1);
  }
}
