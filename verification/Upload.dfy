/** An upload in chunks: where the chunks lie, what they carry, and the checksum of the whole that is
    put together from the checksums of the chunks. */
module Upload {
  import opened Arithmetic
  import opened Wrappers
  import opened Crc32c

  const DEFAULT_CHUNK_SIZE: int := 2097152

  function MaxChunkSize(chunkSize: int): int {
    if chunkSize < 0 then DEFAULT_CHUNK_SIZE else chunkSize
  }

  // ----- The payload -----

  /** `bytes` repeats `random` from its start, over and over. */
  ghost predicate Repeats(bytes: seq<Byte>, random: seq<Byte>)
    requires random != []
  {
    forall i :: 0 <= i < |bytes| ==> bytes[i] == random[i % |random|]
  }

  lemma FlattenAppend(cord: Cord, fragment: seq<Byte>)
    ensures Flatten(cord + [fragment]) == Flatten(cord) + fragment
  {
    assert (cord + [fragment])[..|cord|] == cord;
  }

  lemma RepeatMore(bytes: seq<Byte>, random: seq<Byte>, n: nat)
    requires random != [] && Repeats(bytes, random) && |bytes| % |random| == 0 && n <= |random|
    ensures Repeats(bytes + random[..n], random)
    ensures n == |random| ==> (|bytes| + n) % |random| == 0
  {
    var r := |random|;
    var q := |bytes| / r;
    assert |bytes| == q * r;
    forall i | |bytes| <= i < |bytes| + n ensures i % r == i - |bytes| {
      if i - |bytes| < r {
        DivModUnique(i, r, q, i - |bytes|);
      }
    }
    if n == r {
      DivModUnique(|bytes| + n, r, q + 1, 0);
    }
  }

  /** A payload of exactly `size` bytes, cut from repetitions of the pregenerated data. */
  method GetRandomData(random: seq<Byte>, size: nat) returns (ret: Cord)
    requires random != []
    ensures |Flatten(ret)| == size && Repeats(Flatten(ret), random)
  {
    ret := [];
    var length := 0;
    while length < size
      invariant length == |Flatten(ret)| <= size && Repeats(Flatten(ret), random)
      invariant length == size || length % |random| == 0
    {
      var n := Min(size - length, |random|);
      FlattenAppend(ret, random[..n]);
      RepeatMore(Flatten(ret), random, n);
      ret := ret + [random[..n]];
      length := length + n;
    }
  }

  // ----- The chunks -----

  /** Where an upload goes: an object by name, or a resumable upload by its id. */
  datatype Target = Named(name: string) | Resumed(uploadId: string)

  datatype Request = Request(
    target: Option<Target>, content: Cord, crc: Option<Word>,
    writeOffset: int, finishWrite: bool, objectCrc: Option<Word>)

  /** What an upload of `writeSize` bytes in chunks of `maxChunk` needs to come to its end: progress, and an
      offset behind the last chunk that is within 64 bits. */
  predicate Possible(writeSize: int, maxChunk: int) {
    writeSize > 0 && maxChunk > 0 && CeilDiv(writeSize, maxChunk) * maxChunk <= INT64_MAX
  }

  /** A chunk size may be large enough that it does not fit behind the first chunk. */
  lemma HugeChunksAreNotPossible()
    ensures !Possible(0x7fff_ffff_ffff_ffff, 0x4000_0000_0000_0001)
  {
    DivModUnique(0x7fff_ffff_ffff_ffff + 0x4000_0000_0000_0000, 0x4000_0000_0000_0001, 2, 0x3fff_ffff_ffff_fffd);
  }

  /** The largest object can be written in one piece, and cannot be written in pairs of bytes: the offset
      behind the last pair is one too large. */
  lemma LargestObject()
    ensures Possible(0x7fff_ffff_ffff_ffff, 0x7fff_ffff_ffff_ffff)
    ensures !Possible(0x7fff_ffff_ffff_ffff, 2)
  {
    DivModUnique(0x7fff_ffff_ffff_ffff + 0x7fff_ffff_ffff_fffe, 0x7fff_ffff_ffff_ffff, 1, 0x7fff_ffff_ffff_fffe);
    DivModUnique(0x7fff_ffff_ffff_ffff + 1, 2, 0x4000_0000_0000_0000, 0);
  }

  /** The offset of chunk `k`. */
  function Offset(maxChunk: int, k: int): int {
    k * maxChunk
  }

  /** Chunk `k` begins before the end exactly when it is one of the first ceil(writeSize / maxChunk). */
  lemma ChunkStartsBeforeEnd(writeSize: int, maxChunk: int, k: int)
    requires writeSize > 0 && maxChunk > 0
    ensures Offset(maxChunk, k) < writeSize <==> k < CeilDiv(writeSize, maxChunk)
    ensures Offset(maxChunk, k + 1) == Offset(maxChunk, k) + maxChunk
  {
    BlockStartsInside(writeSize, maxChunk, k);
  }

  function Payload(requests: seq<Request>): seq<Byte> {
    if requests == [] then []
    else Payload(requests[..|requests| - 1]) + Flatten(requests[|requests| - 1].content)
  }

  lemma PayloadAppend(requests: seq<Request>, r: Request)
    ensures Payload(requests + [r]) == Payload(requests) + Flatten(r.content)
  {
    assert (requests + [r])[..|requests|] == requests;
  }

  /** Request `r`, sent after the requests `before`: it continues where they end and carries exactly its
      chunk; only a request at offset 0 names the target, only one that reaches the end finishes the object.
      With checksums on, it carries its own, and a finishing one also that of the whole object. */
  ghost predicate Continues(before: seq<Request>, r: Request, writeSize: int, maxChunk: int, target: Target, on: bool) {
    var content := Flatten(r.content);
    && r.writeOffset == |Payload(before)| < writeSize
    && |content| == Min(maxChunk, writeSize - r.writeOffset)
    && r.target == (if r.writeOffset == 0 then Some(target) else None)
    && (r.finishWrite <==> r.writeOffset + |content| == writeSize)
    && r.crc == (if on then Some(Crc(content)) else None)
    && r.objectCrc == (if on && r.finishWrite then Some(Crc(Payload(before) + content)) else None)
  }

  ghost predicate Tiles(requests: seq<Request>, writeSize: int, maxChunk: int, target: Target, on: bool) {
    forall k :: 0 <= k < |requests| ==> Continues(requests[..k], requests[k], writeSize, maxChunk, target, on)
  }

  lemma TilesAppend(requests: seq<Request>, r: Request, writeSize: int, maxChunk: int, target: Target, on: bool)
    requires Tiles(requests, writeSize, maxChunk, target, on)
    requires Continues(requests, r, writeSize, maxChunk, target, on)
    ensures Tiles(requests + [r], writeSize, maxChunk, target, on)
    ensures Payload(requests + [r]) == Payload(requests) + Flatten(r.content)
  {
    var more := requests + [r];
    PayloadAppend(requests, r);
    forall k | 0 <= k < |more| ensures Continues(more[..k], more[k], writeSize, maxChunk, target, on) {
      assert more[..k] == requests[..k];
    }
  }

  /** The checksum of a chunk, and that of all bytes up to its end. */
  method ChunkChecksums(ghost before: seq<Byte>, content: Cord, size: int, objectCrc: Word)
    returns (crc: Word, objectCrc': Word)
    requires objectCrc == Crc(before) && size == |Flatten(content)|
    ensures crc == Crc(Flatten(content)) && objectCrc' == Crc(before + Flatten(content))
  {
    crc := ComputeCrc32c(content);
    ConcatIsCrcOfConcat(before, Flatten(content));
    objectCrc' := Concat(objectCrc, crc, size);
  }

  /** Builds the request for the chunk at offset `o`, given the checksum of all bytes before it. */
  method NextRequest(ghost before: seq<Request>, o: int, writeSize: int, maxChunk: int, target: Target, crc32c: bool,
                     random: seq<Byte>, objectCrc: Word)
    returns (request: Request, chunkSize: int, objectCrc': Word)
    requires 0 <= o == |Payload(before)| < writeSize && maxChunk >= 0 && random != []
    requires crc32c ==> objectCrc == Crc(Payload(before))
    ensures Continues(before, request, writeSize, maxChunk, target, crc32c)
    ensures Repeats(Flatten(request.content), random)
    ensures chunkSize == |Flatten(request.content)|
    ensures crc32c ==> objectCrc' == Crc(Payload(before + [request]))
  {
    var firstRequest, lastRequest := o == 0, o + maxChunk >= writeSize;
    chunkSize, objectCrc' := Min(maxChunk, writeSize - o), objectCrc;
    var content := GetRandomData(random, chunkSize);
    var crc: Option<Word> := None;
    if crc32c {
      var c;
      c, objectCrc' := ChunkChecksums(Payload(before), content, chunkSize, objectCrc);
      crc := Some(c);
    }
    request := Request(if firstRequest then Some(target) else None, content, crc, o, lastRequest,
                       if lastRequest && crc32c then Some(objectCrc') else None);
    PayloadAppend(before, request);
  }

  /** How an upload attempt ends: with everything sent, with a failed write, or with an offset that the
      source's 64-bit addition cannot hold, where its behaviour is undefined. */
  datatype Ending = Complete | WriteFailed | Overflowed

  /** What an upload attempt has done when its write number `accepts` fails: its requests tile the object up
      to that one, or to the end, or to the overflow, and a chunk is counted when its write succeeded. */
  ghost predicate Written(requests: seq<Request>, chunks: seq<int>, totalBytes: int, ending: Ending,
                          writeSize: int, maxChunk: int, target: Target, on: bool, accepts: nat) {
    && Tiles(requests, writeSize, maxChunk, target, on)
    && |requests| == |chunks| + (if ending.WriteFailed? then 1 else 0)
    && Lengths(requests, chunks) && totalBytes == |Payload(requests[..|chunks|])|
    && (ending.Complete? <==> Possible(writeSize, maxChunk) && accepts >= CeilDiv(writeSize, maxChunk))
    && (ending.Overflowed? <==>
          && writeSize > 0 && maxChunk > 0
          && !Possible(writeSize, maxChunk) && accepts >= CeilDiv(writeSize, maxChunk) - 1)
    && match ending
       case Complete => |chunks| == CeilDiv(writeSize, maxChunk) && totalBytes == writeSize
       case WriteFailed => |chunks| == accepts
       case Overflowed => |chunks| == CeilDiv(writeSize, maxChunk) - 1
  }

  /** The writer of one upload attempt: write number `accepts` fails, if it is ever made. */
  method WriteObject(writeSize: int, chunkSize: int, target: Target, crc32c: bool, random: seq<Byte>, accepts: nat)
    returns (requests: seq<Request>, chunks: seq<int>, totalBytes: int, ending: Ending)
    requires 0 < writeSize <= INT64_MAX && random != []
    ensures Written(requests, chunks, totalBytes, ending, writeSize, MaxChunkSize(chunkSize), target, crc32c, accepts)
    ensures AllRepeat(requests, random)
  {
    var maxChunk := MaxChunkSize(chunkSize);
    requests, chunks, totalBytes := [], [], 0;
    var o, objectCrc: Word := 0, ZERO;
    CrcOfNothing();
    while o < writeSize
      invariant Sent(requests, chunks, totalBytes, o, writeSize, maxChunk, target, crc32c)
      invariant AllRepeat(requests, random)
      invariant |chunks| <= accepts
      invariant crc32c ==> objectCrc == Crc(Payload(requests))
      decreases accepts - |chunks|
    {
      if o + maxChunk > INT64_MAX {
        OffsetOverflows(requests, chunks, totalBytes, o, writeSize, maxChunk, target, crc32c, accepts);
        return requests, chunks, totalBytes, Overflowed;
      }
      var request, chunkSize;
      request, chunkSize, objectCrc :=
        NextRequest(requests, o, writeSize, maxChunk, target, crc32c, random, objectCrc);
      SentMore(requests, chunks, totalBytes, o, request, writeSize, maxChunk, target, crc32c);
      AllRepeatMore(requests, request, random);
      if |chunks| == accepts {
        WriteFails(requests, chunks, totalBytes, o, request, writeSize, maxChunk, target, crc32c);
        return requests + [request], chunks, totalBytes, WriteFailed;
      }
      requests := requests + [request];
      chunks, totalBytes := chunks + [chunkSize], totalBytes + chunkSize;
      o := o + maxChunk;
    }
    AllWritten(requests, chunks, totalBytes, o, writeSize, maxChunk, target, crc32c, accepts);
    ending := Complete;
  }

  /** Every request's payload repeats the pregenerated data from its start. */
  ghost predicate AllRepeat(requests: seq<Request>, random: seq<Byte>)
    requires random != []
  {
    forall k :: 0 <= k < |requests| ==> Repeats(Flatten(requests[k].content), random)
  }

  lemma AllRepeatMore(requests: seq<Request>, r: Request, random: seq<Byte>)
    requires random != [] && AllRepeat(requests, random) && Repeats(Flatten(r.content), random)
    ensures AllRepeat(requests + [r], random)
  {
  }

  /** The state of the writer before the chunk at offset `o`. */
  ghost predicate Sent(requests: seq<Request>, chunks: seq<int>, totalBytes: int, o: int,
                       writeSize: int, maxChunk: int, target: Target, on: bool) {
    && |requests| == |chunks| && 0 <= o == Offset(maxChunk, |chunks|) <= INT64_MAX
    && Tiles(requests, writeSize, maxChunk, target, on)
    && totalBytes == |Payload(requests)| == Min(o, writeSize)
    && Lengths(requests, chunks)
    && (|chunks| > 0 ==> Offset(maxChunk, |chunks| - 1) < writeSize)
  }

  lemma SentMore(requests: seq<Request>, chunks: seq<int>, totalBytes: int, o: int, r: Request,
                 writeSize: int, maxChunk: int, target: Target, on: bool)
    requires maxChunk >= 0 && o < writeSize && o + maxChunk <= INT64_MAX
    requires Sent(requests, chunks, totalBytes, o, writeSize, maxChunk, target, on)
    requires Continues(requests, r, writeSize, maxChunk, target, on)
    ensures var size := |Flatten(r.content)|;
      Sent(requests + [r], chunks + [size], totalBytes + size, o + maxChunk, writeSize, maxChunk, target, on)
    ensures (requests + [r])[..|chunks|] == requests
  {
    TilesAppend(requests, r, writeSize, maxChunk, target, on);
    NextOffset(maxChunk, |chunks|);
    LengthsMore(requests, chunks, r);
  }

  lemma NextOffset(maxChunk: int, k: int)
    ensures Offset(maxChunk, k + 1) == Offset(maxChunk, k) + maxChunk
  {
  }

  /** `chunks` has the lengths of the first requests' payloads. */
  ghost predicate Lengths(requests: seq<Request>, chunks: seq<int>) {
    |chunks| <= |requests| && forall j :: 0 <= j < |chunks| ==> chunks[j] == |Flatten(requests[j].content)|
  }

  lemma LengthsMore(requests: seq<Request>, chunks: seq<int>, r: Request)
    requires Lengths(requests, chunks) && |requests| == |chunks|
    ensures Lengths(requests + [r], chunks) && Lengths(requests + [r], chunks + [|Flatten(r.content)|])
  {
  }

  lemma AllWritten(requests: seq<Request>, chunks: seq<int>, totalBytes: int, o: int,
                   writeSize: int, maxChunk: int, target: Target, on: bool, accepts: nat)
    requires writeSize > 0 && maxChunk >= 0 && o >= writeSize && |chunks| <= accepts
    requires Sent(requests, chunks, totalBytes, o, writeSize, maxChunk, target, on)
    ensures Written(requests, chunks, totalBytes, Complete, writeSize, maxChunk, target, on, accepts)
  {
    assert requests[..|chunks|] == requests;
    assert maxChunk > 0 && |chunks| > 0 by {
      assert Offset(0, |chunks|) == Offset(maxChunk, 0) == 0;
    }
    ChunkStartsBeforeEnd(writeSize, maxChunk, |chunks|);
    ChunkStartsBeforeEnd(writeSize, maxChunk, |chunks| - 1);
    assert |chunks| == CeilDiv(writeSize, maxChunk);
  }

  lemma WriteFails(requests: seq<Request>, chunks: seq<int>, totalBytes: int, o: int, r: Request,
                   writeSize: int, maxChunk: int, target: Target, on: bool)
    requires writeSize > 0 && maxChunk >= 0 && o < writeSize && o + maxChunk <= INT64_MAX
    requires Sent(requests, chunks, totalBytes, o, writeSize, maxChunk, target, on)
    requires Continues(requests, r, writeSize, maxChunk, target, on)
    ensures Written(requests + [r], chunks, totalBytes, WriteFailed, writeSize, maxChunk, target, on, |chunks|)
  {
    TilesAppend(requests, r, writeSize, maxChunk, target, on);
    LengthsMore(requests, chunks, r);
    assert (requests + [r])[..|chunks|] == requests;
    if maxChunk > 0 {
      ChunkStartsBeforeEnd(writeSize, maxChunk, |chunks|);
      assert |chunks| + 1 == CeilDiv(writeSize, maxChunk) ==> Possible(writeSize, maxChunk);
    }
  }

  lemma OffsetOverflows(requests: seq<Request>, chunks: seq<int>, totalBytes: int, o: int,
                        writeSize: int, maxChunk: int, target: Target, on: bool, accepts: nat)
    requires 0 < writeSize <= INT64_MAX && maxChunk >= 0 && o < writeSize && o + maxChunk > INT64_MAX
    requires Sent(requests, chunks, totalBytes, o, writeSize, maxChunk, target, on) && |chunks| <= accepts
    ensures Written(requests, chunks, totalBytes, Overflowed, writeSize, maxChunk, target, on, accepts)
  {
    assert requests[..|chunks|] == requests;
    ChunkStartsBeforeEnd(writeSize, maxChunk, |chunks|);
    ChunkStartsBeforeEnd(writeSize, maxChunk, |chunks| + 1);
    assert |chunks| + 1 == CeilDiv(writeSize, maxChunk);
    assert !Possible(writeSize, maxChunk);
  }

  /** Request `k` ends where the bytes of the first k + 1 requests end. */
  lemma RequestEnds(requests: seq<Request>, writeSize: int, maxChunk: int, target: Target, on: bool, k: nat)
    requires k < |requests| && Tiles(requests, writeSize, maxChunk, target, on)
    ensures Continues(requests[..k], requests[k], writeSize, maxChunk, target, on)
    ensures requests[k].writeOffset + |Flatten(requests[k].content)| == |Payload(requests[..k + 1])|
  {
    assert requests[..k + 1] == requests[..k] + [requests[k]];
    PayloadAppend(requests[..k], requests[k]);
  }

  lemma OnlyLastFinishes(requests: seq<Request>, writeSize: int, maxChunk: int, target: Target, on: bool, k: nat)
    requires Tiles(requests, writeSize, maxChunk, target, on) && |Payload(requests)| == writeSize && k < |requests|
    ensures requests[k].finishWrite <==> k == |requests| - 1
  {
    RequestEnds(requests, writeSize, maxChunk, target, on, k);
    forall j | 0 <= j < |requests| ensures |Flatten(requests[j].content)| > 0 {
      RequestEnds(requests, writeSize, maxChunk, target, on, j);
    }
    PayloadGrows(requests, k + 1);
    assert requests[..|requests|] == requests;
  }

  /** The requests cover the object exactly once: they carry writeSize bytes in all, one after the other,
      `maxChunk` in each but the last. Only the first names the target, and exactly the last finishes the
      object. With checksums on, each carries that of its bytes, and the last that of everything sent. */
  ghost predicate Whole(requests: seq<Request>, writeSize: int, maxChunk: int, target: Target, on: bool) {
    && |Payload(requests)| == writeSize && requests != []
    && (forall k :: 0 <= k < |requests| - 1 ==> |Flatten(requests[k].content)| == maxChunk)
    && 0 < |Flatten(requests[|requests| - 1].content)| <= maxChunk
    && (forall k :: 0 <= k < |requests| ==>
          requests[k].crc == if on then Some(Crc(Flatten(requests[k].content))) else None)
    && (forall k :: 0 <= k < |requests| ==> (requests[k].finishWrite <==> k == |requests| - 1))
    && (forall k :: 0 <= k < |requests| ==> (requests[k].target == Some(target) <==> k == 0))
    && (forall k :: 0 < k < |requests| ==>
          requests[k].writeOffset == requests[k - 1].writeOffset + |Flatten(requests[k - 1].content)|)
    && requests[0].writeOffset == 0
    && requests[|requests| - 1].objectCrc == if on then Some(Crc(Payload(requests))) else None
  }

  lemma CompleteUpload(requests: seq<Request>, writeSize: int, maxChunk: int, target: Target, on: bool)
    requires Tiles(requests, writeSize, maxChunk, target, on) && |Payload(requests)| == writeSize > 0 && maxChunk > 0
    ensures Whole(requests, writeSize, maxChunk, target, on)
  {
    var last := |requests| - 1;
    forall k | 0 <= k < |requests|
      ensures requests[k].finishWrite <==> k == last
      ensures requests[k].target == Some(target) <==> k == 0
      ensures k < last ==> |Flatten(requests[k].content)| == maxChunk
      ensures requests[k].crc == if on then Some(Crc(Flatten(requests[k].content))) else None
      ensures k > 0 ==> requests[k].writeOffset == requests[k - 1].writeOffset + |Flatten(requests[k - 1].content)|
    {
      OnlyLastFinishes(requests, writeSize, maxChunk, target, on, k);
      RequestEnds(requests, writeSize, maxChunk, target, on, k);
      if k > 0 {
        RequestEnds(requests, writeSize, maxChunk, target, on, k - 1);
      }
    }
    RequestEnds(requests, writeSize, maxChunk, target, on, last);
    RequestEnds(requests, writeSize, maxChunk, target, on, 0);
  }

  /** An upload none of whose writes fails is whole, if it is possible at all. */
  lemma UploadIsWhole(requests: seq<Request>, chunks: seq<int>, totalBytes: int, ending: Ending,
                      writeSize: int, maxChunk: int, target: Target, on: bool, accepts: nat)
    requires Written(requests, chunks, totalBytes, ending, writeSize, maxChunk, target, on, accepts)
    requires Possible(writeSize, maxChunk) && accepts >= CeilDiv(writeSize, maxChunk)
    ensures ending.Complete? && |requests| == CeilDiv(writeSize, maxChunk)
    ensures Whole(requests, writeSize, maxChunk, target, on)
  {
    assert requests[..|chunks|] == requests;
    CompleteUpload(requests, writeSize, maxChunk, target, on);
  }

  /** An upload that comes to its end does so in requests of chunk_size bytes, and in requests of 2 MiB when
      chunk_size is negative; the last may be shorter. */
  lemma CompleteInChunks(requests: seq<Request>, chunks: seq<int>, totalBytes: int,
                         writeSize: int, chunkSize: int, target: Target, on: bool, accepts: nat)
    requires writeSize > 0
    requires Written(requests, chunks, totalBytes, Complete, writeSize, MaxChunkSize(chunkSize), target, on, accepts)
    ensures chunkSize != 0
    ensures var size := if chunkSize > 0 then chunkSize else 2097152;
      && |requests| == CeilDiv(writeSize, size) <= accepts && totalBytes == writeSize
      && CeilDiv(writeSize, size) * size <= 0x7fff_ffff_ffff_ffff
      && Whole(requests, writeSize, size, target, on)
  {
    UploadIsWhole(requests, chunks, totalBytes, Complete, writeSize, MaxChunkSize(chunkSize), target, on, accepts);
  }

  /** With a chunk size of 0, however many writes succeed, there is one more: all are empty, none finishes
      the object, and every one names the target again. */
  lemma EmptyChunksNeverEnd(requests: seq<Request>, chunks: seq<int>, totalBytes: int, ending: Ending,
                            writeSize: int, target: Target, on: bool, accepts: nat)
    requires Written(requests, chunks, totalBytes, ending, writeSize, 0, target, on, accepts) && writeSize > 0
    ensures ending.WriteFailed? && |requests| == accepts + 1 && totalBytes == 0
    ensures forall k :: 0 <= k < |requests| ==>
      && Flatten(requests[k].content) == [] && !requests[k].finishWrite
      && requests[k].target == Some(target) && requests[k].writeOffset == 0
  {
    forall k | 0 <= k < |requests|
      ensures Flatten(requests[k].content) == [] && !requests[k].finishWrite
      ensures requests[k].target == Some(target) && requests[k].writeOffset == 0
    {
      EmptyPayload(requests, writeSize, target, on, k);
      assert Continues(requests[..k], requests[k], writeSize, 0, target, on);
    }
    EmptyPayload(requests, writeSize, target, on, |chunks|);
  }

  lemma {:induction false} EmptyPayload(requests: seq<Request>, writeSize: int, target: Target, on: bool, k: nat)
    requires k <= |requests| && Tiles(requests, writeSize, 0, target, on)
    ensures Payload(requests[..k]) == []
  {
    if k > 0 {
      EmptyPayload(requests, writeSize, target, on, k - 1);
      RequestEnds(requests, writeSize, 0, target, on, k - 1);
    }
  }

  lemma {:induction false} PayloadGrows(requests: seq<Request>, k: nat)
    requires k <= |requests| && forall j :: 0 <= j < |requests| ==> |Flatten(requests[j].content)| > 0
    ensures |Payload(requests[..k])| <= |Payload(requests)|
    ensures k < |requests| ==> |Payload(requests[..k])| < |Payload(requests)|
  {
    var n := |requests|;
    if k < n {
      PayloadGrows(requests[..n - 1], k);
      assert requests[..n - 1][..k] == requests[..k];
    } else {
      assert requests[..k] == requests;
    }
  }
}
