/** The dummy server's side of a read: it starts one write at a time and goes on when it is told that
    the write is done, until everything is sent or a write has failed. */
module ReadReactor {
  import opened Arithmetic
  import opened Decimal
  import Crc32c
  import ObjectSize
  import opened Sums

  type Byte = Crc32c.Byte

  datatype Status = Ok | NotFound | Unknown

  /** What the reactor asks the library to do. */
  datatype Action = StartWrite(content: seq<Byte>) | Finish(status: Status)

  datatype State = State(leftSize: int, chunkData: seq<Byte>, actions: seq<Action>)

  function MaybeWriteNext(s: State): State
    requires s.leftSize >= 0
  {
    if s.leftSize == 0 then s.(actions := s.actions + [Finish(Ok)])
    else
      var dataSize := Min(s.leftSize, |s.chunkData|);
      s.(leftSize := s.leftSize - dataSize, actions := s.actions + [StartWrite(s.chunkData[..dataSize])])
  }

  /** The bytes a read is to send: the object, or as much of it as a positive limit lets through. */
  function Total(size: int, readLimit: int): int {
    if readLimit > 0 then Min(size, readLimit) else size
  }

  function Begin(size: int, readLimit: int, chunkData: seq<Byte>): State {
    if size < 0 then State(0, chunkData, [Finish(NotFound)])
    else MaybeWriteNext(State(Total(size, readLimit), chunkData, []))
  }

  function WriteDone(s: State, ok: bool): State
    requires s.leftSize >= 0
  {
    if ok then MaybeWriteNext(s) else s.(actions := s.actions + [Finish(Unknown)])
  }

  /** A write was started and the library has not answered yet. */
  predicate InFlight(s: State) {
    s.actions != [] && s.actions[|s.actions| - 1].StartWrite?
  }

  /** The reactor's states while the library answers its writes with `oks`. The library answers a write
      that is in flight, and nothing else. */
  ghost predicate IsRun(size: int, readLimit: int, chunkData: seq<Byte>, oks: seq<bool>, run: seq<State>) {
    && |run| == |oks| + 1
    && run[0] == Begin(size, readLimit, chunkData)
    && forall k :: 0 <= k < |oks| ==>
      InFlight(run[k]) && run[k].leftSize >= 0 && run[k + 1] == WriteDone(run[k], oks[k])
  }

  // ----- What is sent -----

  /** `s` has made the first `k` writes of `total` bytes, then possibly finished. */
  ghost predicate Sent(s: State, total: int, k: nat, finish: seq<Action>) {
    && |s.actions| == k + |finish| && s.actions[k..] == finish
    && forall j :: 0 <= j < k ==> IsChunk(s, total, j)
  }

  predicate IsChunk(s: State, total: int, j: nat)
    requires j < |s.actions|
  {
    var rest := total - j * |s.chunkData|;
    rest > 0 && s.actions[j] == StartWrite(s.chunkData[..Min(rest, |s.chunkData|)])
  }

  /** The state after `k` writes were answered with OK. */
  ghost predicate Going(s: State, chunkData: seq<Byte>, total: nat, k: nat)
    requires chunkData != []
  {
    var n := CeilDiv(total, |chunkData|);
    && k <= n && s.chunkData == chunkData
    && if k < n then Sent(s, total, k + 1, []) && s.leftSize == LeftAfter(total, |chunkData|, k + 1)
       else Sent(s, total, k, [Finish(Ok)])
  }

  function LeftAfter(total: int, c: int, k: nat): int {
    total - Min(k * c, total)
  }

  lemma NextWriteIsChunk(s: State, chunkData: seq<Byte>, total: nat, k: nat)
    requires chunkData != [] && s.chunkData == chunkData && k <= CeilDiv(total, |chunkData|)
    requires Sent(s, total, k, []) && s.leftSize == LeftAfter(total, |chunkData|, k)
    ensures s.leftSize >= 0 && Going(MaybeWriteNext(s), chunkData, total, k)
  {
    var c := |chunkData|;
    var s' := MaybeWriteNext(s);
    BlockStartsInside(total, c, k);
    assert (k + 1) * c == k * c + c;
    assert s'.actions[..k] == s.actions;
    forall j | 0 <= j < k ensures IsChunk(s', total, j) {
      assert IsChunk(s, total, j);
      assert s'.actions[j] == s.actions[j];
    }
  }

  /** Every run of a found object: it sends the chunks in order while its writes succeed, finishes with
      OK after the last of them, and finishes with an error after the first that fails. */
  lemma {:induction false} RunSendsChunks(size: int, readLimit: int, chunkData: seq<Byte>, oks: seq<bool>,
                                          run: seq<State>)
    requires chunkData != [] && IsRun(size, readLimit, chunkData, oks, run)
    requires size >= 0
    ensures var total := Total(size, readLimit);
      && total >= 0
      && (forall i :: 0 <= i < |oks| - 1 ==> oks[i])
      && if oks == [] || oks[|oks| - 1] then Going(run[|oks|], chunkData, total, |oks|)
         else run[|oks|].chunkData == chunkData && Sent(run[|oks|], total, |oks|, [Finish(Unknown)])
  {
    var total := Total(size, readLimit);
    if oks == [] {
      NextWriteIsChunk(State(total, chunkData, []), chunkData, total, 0);
    } else {
      var k := |oks| - 1;
      var s, s' := run[k], run[k + 1];
      RunSendsChunks(size, readLimit, chunkData, oks[..k], run[..k + 1]);
      assert k > 0 ==> oks[..k][k - 1] == oks[k - 1];
      assert InFlight(s);
      assert Going(s, chunkData, total, k) && k < CeilDiv(total, |chunkData|);
      if oks[k] {
        NextWriteIsChunk(s, chunkData, total, k + 1);
      } else {
        FailureEnds(s, s', total, k + 1);
      }
    }
  }

  lemma FailureEnds(s: State, s': State, total: int, k: nat)
    requires Sent(s, total, k, []) && s.leftSize >= 0 && s' == WriteDone(s, false)
    ensures Sent(s', total, k, [Finish(Unknown)])
  {
    forall j | 0 <= j < k ensures IsChunk(s', total, j) {
      assert IsChunk(s, total, j);
      assert s'.actions[j] == s.actions[j];
    }
  }

  // ----- Whole runs -----

  function ContentSize(a: Action): int {
    if a.StartWrite? then |a.content| else 0
  }

  function ContentSizes(actions: seq<Action>): (s: seq<int>)
    ensures |s| == |actions| && forall i :: 0 <= i < |s| ==> s[i] == ContentSize(actions[i])
  {
    seq(|actions|, i requires 0 <= i < |actions| => ContentSize(actions[i]))
  }

  /** The bytes of all writes that were started. */
  function BytesSent(actions: seq<Action>): int {
    Sum(ContentSizes(actions))
  }

  lemma {:induction false} FirstChunksAddUp(s: State, total: nat, k: nat)
    requires s.chunkData != [] && k <= |s.actions| && k <= CeilDiv(total, |s.chunkData|)
    requires forall j :: 0 <= j < k ==> IsChunk(s, total, j)
    ensures BytesSent(s.actions[..k]) == Min(k * |s.chunkData|, total)
  {
    if k > 0 {
      var c := |s.chunkData|;
      FirstChunksAddUp(s, total, k - 1);
      assert IsChunk(s, total, k - 1);
      assert ContentSizes(s.actions[..k])[..k - 1] == ContentSizes(s.actions[..k - 1]);
      assert k * c == (k - 1) * c + c;
    }
  }

  /** The reactor asks for an end exactly once and last, and for one write at a time. */
  ghost predicate Orderly(s: State, answers: nat) {
    && (forall i :: 0 <= i < |s.actions| - 1 ==> s.actions[i].StartWrite?)
    && |s.actions| == answers + 1
  }

  lemma NothingToAnswer(size: int, readLimit: int, chunkData: seq<Byte>, oks: seq<bool>, run: seq<State>)
    requires size < 0 && IsRun(size, readLimit, chunkData, oks, run)
    ensures oks == [] && run[0].actions == [Finish(NotFound)]
  {
    assert !InFlight(run[0]);
  }

  /** On any run: at most one write is in flight, at most one Finish is asked for, and no write after it;
      the run is over exactly when Finish has been asked for. */
  lemma RunsAreOrderly(size: int, readLimit: int, chunkData: seq<Byte>, oks: seq<bool>, run: seq<State>)
    requires chunkData != [] && IsRun(size, readLimit, chunkData, oks, run)
    ensures Orderly(run[|oks|], |oks|)
  {
    var s := run[|oks|];
    if size >= 0 {
      RunSendsChunks(size, readLimit, chunkData, oks, run);
      forall i | 0 <= i < |s.actions| - 1 ensures s.actions[i].StartWrite? {
        assert IsChunk(s, Total(size, readLimit), i);
      }
    } else {
      NothingToAnswer(size, readLimit, chunkData, oks, run);
    }
  }

  predicate NoneFailed(oks: seq<bool>) {
    forall k :: 0 <= k < |oks| ==> oks[k]
  }

  function Outcome(size: int, oks: seq<bool>): Status {
    if size < 0 then NotFound else if NoneFailed(oks) then Ok else Unknown
  }

  /** `s` made `writes` writes of `total` bytes in all, every one full but the last. */
  ghost predicate SentAll(s: State, total: int, writes: nat)
    requires writes <= |s.actions|
  {
    && BytesSent(s.actions) == total
    && forall j :: 0 <= j < writes - 1 ==> ContentSize(s.actions[j]) == |s.chunkData|
  }

  /** A run that is over has asked to finish, with OK exactly when the object was found and no write
      failed. Then it has sent as many bytes as the object and the limit allow, in the fewest writes; and
      otherwise as many of them as fit into the writes that were made. */
  lemma FinishedRunSendsAll(size: int, readLimit: int, chunkData: seq<Byte>, oks: seq<bool>, run: seq<State>)
    requires chunkData != [] && IsRun(size, readLimit, chunkData, oks, run) && !InFlight(run[|oks|])
    ensures var s, total := run[|oks|], if 0 < readLimit < size then readLimit else size;
      && |s.actions| == |oks| + 1 && s.actions[|oks|] == Finish(Outcome(size, oks))
      && (size >= 0 ==> BytesSent(s.actions) == Min(|oks| * |chunkData|, total))
      && (Outcome(size, oks).Ok? ==>
            && SentAll(s, total, |oks|)
            && total >= 0 && |oks| == CeilDiv(total, |chunkData|))
  {
    var s := run[|oks|];
    if size < 0 {
      NothingToAnswer(size, readLimit, chunkData, oks, run);
    } else {
      RunSendsChunks(size, readLimit, chunkData, oks, run);
      assert s.actions[|oks|] == s.actions[|oks|..][0];
      SentSoFar(s, Total(size, readLimit), |oks|);
      if NoneFailed(oks) {
        InFlightUntilAllSent(s, chunkData, Total(size, readLimit), |oks|);
        SentInFull(s, Total(size, readLimit), |oks|);
      }
    }
  }

  lemma SentSoFar(s: State, total: nat, k: nat)
    requires s.chunkData != [] && |s.actions| == k + 1 && s.actions[k].Finish?
    requires forall j :: 0 <= j < k ==> IsChunk(s, total, j)
    ensures BytesSent(s.actions) == Min(k * |s.chunkData|, total)
  {
    if k > 0 {
      assert IsChunk(s, total, k - 1);
    }
    BlockStartsInside(total, |s.chunkData|, k - 1);
    FirstChunksAddUp(s, total, k);
    assert ContentSizes(s.actions)[..k] == ContentSizes(s.actions[..k]);
  }

  lemma InFlightUntilAllSent(s: State, chunkData: seq<Byte>, total: nat, k: nat)
    requires chunkData != [] && Going(s, chunkData, total, k)
    ensures k < CeilDiv(total, |chunkData|) ==> InFlight(s)
  {
    if k < CeilDiv(total, |chunkData|) {
      assert IsChunk(s, total, k);
    }
  }

  lemma SentInFull(s: State, total: nat, k: nat)
    requires s.chunkData != [] && k == CeilDiv(total, |s.chunkData|) && Sent(s, total, k, [Finish(Ok)])
    ensures SentAll(s, total, k)
  {
    var c := |s.chunkData|;
    FirstChunksAddUp(s, total, k);
    BlockStartsInside(total, c, k);
    assert ContentSizes(s.actions)[..k] == ContentSizes(s.actions[..k]);
    forall j | 0 <= j < k - 1 ensures ContentSize(s.actions[j]) == c {
      BlockStartsInside(total, c, j + 1);
      assert (j + 1) * c == j * c + c;
      assert IsChunk(s, total, j);
    }
  }

  lemma PrintedSize(path: string, dir: string, n: nat, unit: string, e: nat, ext: string)
    requires ObjectSize.Splits(path, dir, PrintNat(n) + unit, ext) && ObjectSize.Means(unit, e)
    requires n * ObjectSize.Power(1024, e) <= 0x7fff_ffff_ffff_ffff
    ensures ObjectSize.GetObjectSize(path) == n * ObjectSize.Power(1024, e)
    ensures 0 <= n * ObjectSize.Power(1024, e)
  {
    var m := ObjectSize.Power(1024, e);
    MulMonotone(0, n, m);
    ObjectSize.SizeOfPrintedName(path, dir, n, unit, e, ext);
  }

  /** Reading dir/<n><unit>.ext yields n times the unit's power of 1024 bytes, if that many can be counted in
      64 bits; or as many of them as the limit, and the writes up to a failed one, let through. */
  lemma ReadingPrintedName(path: string, dir: string, n: nat, unit: string, e: nat, ext: string, size: int,
                           readLimit: int, chunkData: seq<Byte>, oks: seq<bool>, run: seq<State>)
    requires ObjectSize.Splits(path, dir, PrintNat(n) + unit, ext) && ObjectSize.Means(unit, e)
    requires n * ObjectSize.Power(1024, e) <= 0x7fff_ffff_ffff_ffff
    requires size == ObjectSize.GetObjectSize(path)
    requires chunkData != [] && IsRun(size, readLimit, chunkData, oks, run) && !InFlight(run[|oks|])
    ensures var whole := n * ObjectSize.Power(1024, e);
      var total := if 0 < readLimit < whole then readLimit else whole;
      && BytesSent(run[|oks|].actions) == Min(|oks| * |chunkData|, total)
      && (NoneFailed(oks) ==> BytesSent(run[|oks|].actions) == total)
  {
    PrintedSize(path, dir, n, unit, e, ext);
    FinishedRunSendsAll(size, readLimit, chunkData, oks, run);
  }

  // ----- The reactor -----

  class Reactor {
    var leftSize: int
    const chunkData: seq<Byte>
    var response: seq<Byte>
    ghost var actions: seq<Action>

    ghost function Now(): State
      reads this
    {
      State(leftSize, chunkData, actions)
    }

    constructor (path: string, readLimit: int, chunkData: seq<Byte>)
      ensures Now() == Begin(ObjectSize.GetObjectSize(path), readLimit, chunkData)
    {
      this.chunkData, response, leftSize, actions := chunkData, [], 0, [];
      new;
      var objectSize := ObjectSize.GetObjectSize(path);
      if objectSize < 0 {
        actions := actions + [Finish(NotFound)];
        return;
      }
      leftSize := objectSize;
      if readLimit > 0 {
        leftSize := Min(leftSize, readLimit);
      }
      DoMaybeWriteNext();
    }

    method OnWriteDone(ok: bool)
      requires leftSize >= 0
      modifies this
      ensures Now() == WriteDone(old(Now()), ok)
    {
      if ok {
        DoMaybeWriteNext();
      } else {
        actions := actions + [Finish(Unknown)];
      }
    }

    method DoMaybeWriteNext()
      requires leftSize >= 0
      modifies this
      ensures Now() == MaybeWriteNext(old(Now()))
      ensures InFlight(Now()) ==> response == actions[|actions| - 1].content
    {
      if leftSize == 0 {
        actions := actions + [Finish(Ok)];
        return;
      }
      var dataSize := Min(leftSize, |chunkData|);
      response := chunkData[..dataSize];
      leftSize := leftSize - dataSize;
      actions := actions + [StartWrite(response)];
    }
  }
}
