/** The watcher that keeps the record of every completed operation. */
module RunnerWatcher {
  import opened Trace

  class RunnerWatcher {
    const warmups: nat
    var operations: seq<Operation>

    constructor (warmups: nat)
      ensures this.warmups == warmups && operations == []
    {
      this.warmups, operations := warmups, [];
    }

    method NotifyCompleted(kind: int, runnerId: int, channelId: int, peer: string, bucket: string, objectName: string,
                           status: int, bytes: int, time: string, elapsedTime: string, chunks: seq<Chunk>)
      modifies this
      ensures operations == old(operations) + [Operation(kind, runnerId, channelId, peer, bucket, objectName,
                                                         status, bytes, time, elapsedTime, chunks)]
    {
      var op :=
        Operation(kind, runnerId, channelId, peer, bucket, objectName, status, bytes, time, elapsedTime, chunks);
      operations := operations + [op];
    }

    /** The records without the first `warmups` ones. */
    method GetNonWarmupsOperations() returns (ops: seq<Operation>)
      ensures |ops| == if |operations| <= warmups then 0 else |operations| - warmups
      ensures forall k :: 0 <= k < |ops| ==> ops[k] == operations[warmups + k]
    {
      if warmups >= |operations| {
        return [];
      }
      ops := operations[warmups..];
    }
  }
}
