/** The peer analysis: the OK operations of a trace, counted and added up by peer and second. */
module PeerReport {
  import opened Channels
  import opened Wrappers
  import opened Trace

  /** What one peer did in one second. */
  datatype TimeData = TimeData(readCount: int, readBytes: int)

  /** A row of the report: a cell for every peer, and the sums over all peers. */
  datatype Row = Row(time: int, cells: seq<Option<TimeData>>, cAll: int, tAll: int)

  /** What is added up. */
  datatype Measure = Bytes | Count

  /** The second a chunk's time falls into; parsing a time is outside this model. */
  type Clock = string -> int

  // ----- What the report should say -----

  function Seconds(chunks: seq<Chunk>, clock: Clock): (s: set<int>)
    ensures forall t :: t in s <==> exists i :: 0 <= i < |chunks| && clock(chunks[i].time) == t
  {
    if chunks == [] then {}
    else Seconds(chunks[..|chunks| - 1], clock) + {clock(chunks[|chunks| - 1].time)}
  }

  function BytesIn(chunks: seq<Chunk>, clock: Clock, t: int): int {
    if chunks == [] then 0
    else
      var c := chunks[|chunks| - 1];
      BytesIn(chunks[..|chunks| - 1], clock, t) + if clock(c.time) == t then c.bytes else 0
  }

  /** What an operation adds to second `t`: its bytes in it, or one if it received anything in it. */
  function Cell(m: Measure, op: Operation, clock: Clock, t: int): int {
    match m
    case Bytes => BytesIn(op.chunks, clock, t)
    case Count => if t in Seconds(op.chunks, clock) then 1 else 0
  }

  function SumBytes(chunks: seq<Chunk>): int {
    if chunks == [] then 0 else SumBytes(chunks[..|chunks| - 1]) + chunks[|chunks| - 1].bytes
  }

  /** What an operation adds to the whole report. */
  function Whole(m: Measure, op: Operation, clock: Clock): int {
    match m
    case Bytes => SumBytes(op.chunks)
    case Count => |Seconds(op.chunks, clock)|
  }

  predicate Counts(op: Operation, peer: string) {
    op.status == 0 && op.peer == peer
  }

  function PeerCell(m: Measure, ops: seq<Operation>, peer: string, clock: Clock, t: int): int {
    if ops == [] then 0
    else
      var op := ops[|ops| - 1];
      PeerCell(m, ops[..|ops| - 1], peer, clock, t) + if Counts(op, peer) then Cell(m, op, clock, t) else 0
  }

  function RowSum(m: Measure, ops: seq<Operation>, peers: seq<string>, clock: Clock, t: int): int {
    if peers == [] then 0
    else RowSum(m, ops, peers[..|peers| - 1], clock, t) + PeerCell(m, ops, peers[|peers| - 1], clock, t)
  }

  /** The sum of `n` rows from second `from`. */
  function GridSum(m: Measure, ops: seq<Operation>, peers: seq<string>, clock: Clock, from: int, n: nat): int {
    if n == 0 then 0
    else GridSum(m, ops, peers, clock, from, n - 1) + RowSum(m, ops, peers, clock, from + n - 1)
  }

  /** The total over all OK operations. */
  function Total(m: Measure, ops: seq<Operation>, clock: Clock): int {
    if ops == [] then 0
    else
      var op := ops[|ops| - 1];
      Total(m, ops[..|ops| - 1], clock) + if op.status == 0 then Whole(m, op, clock) else 0
  }

  // ----- Every chunk lands in exactly one cell -----

  function ColumnSum(m: Measure, op: Operation, clock: Clock, from: int, n: nat): int {
    if n == 0 then 0 else ColumnSum(m, op, clock, from, n - 1) + Cell(m, op, clock, from + n - 1)
  }

  ghost predicate Within(op: Operation, clock: Clock, from: int, n: int) {
    forall t :: t in Seconds(op.chunks, clock) ==> from <= t < from + n
  }

  lemma {:induction false} BytesColumn(op: Operation, clock: Clock, from: int, n: nat)
    requires Within(op, clock, from, n)
    ensures ColumnSum(Bytes, op, clock, from, n) == SumBytes(op.chunks)
    decreases |op.chunks|
  {
    if op.chunks == [] {
      NoBytes(op, clock, from, n);
    } else {
      var k := |op.chunks| - 1;
      var before := op.(chunks := op.chunks[..k]);
      var last := op.chunks[k];
      assert Seconds(op.chunks, clock) == Seconds(before.chunks, clock) + {clock(last.time)};
      BytesColumn(before, clock, from, n);
      OneMoreChunk(op, before, last, clock, from, n);
      assert clock(last.time) in Seconds(op.chunks, clock);
    }
  }

  lemma {:induction false} NoBytes(op: Operation, clock: Clock, from: int, n: nat)
    requires op.chunks == []
    ensures ColumnSum(Bytes, op, clock, from, n) == 0
  {
    if n > 0 {
      NoBytes(op, clock, from, n - 1);
    }
  }

  lemma {:induction false} OneMoreChunk(op: Operation, before: Operation, last: Chunk, clock: Clock, from: int, n: nat)
    requires op.chunks != [] && last == op.chunks[|op.chunks| - 1] && before.chunks == op.chunks[..|op.chunks| - 1]
    ensures ColumnSum(Bytes, op, clock, from, n) ==
      ColumnSum(Bytes, before, clock, from, n) + if from <= clock(last.time) < from + n then last.bytes else 0
  {
    if n > 0 {
      OneMoreChunk(op, before, last, clock, from, n - 1);
    }
  }

  function InRange(secs: set<int>, from: int, n: nat): set<int> {
    set t | t in secs && from <= t < from + n
  }

  lemma InRangeStep(secs: set<int>, from: int, n: nat)
    requires n > 0
    ensures |InRange(secs, from, n)| == |InRange(secs, from, n - 1)| + if from + n - 1 in secs then 1 else 0
  {
    var t := from + n - 1;
    if t in secs {
      assert InRange(secs, from, n) == InRange(secs, from, n - 1) + {t};
    } else {
      assert InRange(secs, from, n) == InRange(secs, from, n - 1);
    }
  }

  lemma {:induction false} CountColumn(op: Operation, clock: Clock, from: int, n: nat)
    ensures ColumnSum(Count, op, clock, from, n) == |InRange(Seconds(op.chunks, clock), from, n)|
  {
    if n == 0 {
      assert InRange(Seconds(op.chunks, clock), from, n) == {};
    } else {
      CountColumn(op, clock, from, n - 1);
      InRangeStep(Seconds(op.chunks, clock), from, n);
    }
  }

  lemma ColumnIsWhole(m: Measure, op: Operation, clock: Clock, from: int, n: nat)
    requires Within(op, clock, from, n)
    ensures ColumnSum(m, op, clock, from, n) == Whole(m, op, clock)
  {
    match m
    case Bytes => BytesColumn(op, clock, from, n);
    case Count =>
      CountColumn(op, clock, from, n);
      assert InRange(Seconds(op.chunks, clock), from, n) == Seconds(op.chunks, clock);
  }

  lemma {:induction false} RowSumMore(m: Measure, ops: seq<Operation>, op: Operation, peers: seq<string>,
                                      clock: Clock, t: int)
    requires Distinct(peers)
    ensures RowSum(m, ops + [op], peers, clock, t) ==
      RowSum(m, ops, peers, clock, t) + if op.status == 0 && op.peer in peers then Cell(m, op, clock, t) else 0
  {
    if peers != [] {
      var k := |peers| - 1;
      RowSumMore(m, ops, op, peers[..k], clock, t);
      assert (ops + [op])[..|ops|] == ops;
      assert peers == peers[..k] + [peers[k]];
    }
  }

  lemma {:induction false} GridSumMore(m: Measure, ops: seq<Operation>, op: Operation, peers: seq<string>,
                                       clock: Clock, from: int, n: nat)
    requires Distinct(peers)
    ensures GridSum(m, ops + [op], peers, clock, from, n) ==
      GridSum(m, ops, peers, clock, from, n) +
      if op.status == 0 && op.peer in peers then ColumnSum(m, op, clock, from, n) else 0
  {
    if n > 0 {
      GridSumMore(m, ops, op, peers, clock, from, n - 1);
      RowSumMore(m, ops, op, peers, clock, from + n - 1);
    }
  }

  lemma {:induction false} RowOfNothing(m: Measure, peers: seq<string>, clock: Clock, t: int)
    ensures RowSum(m, [], peers, clock, t) == 0
  {
    if peers != [] {
      RowOfNothing(m, peers[..|peers| - 1], clock, t);
    }
  }

  lemma {:induction false} GridOfNothing(m: Measure, peers: seq<string>, clock: Clock, from: int, n: nat)
    ensures GridSum(m, [], peers, clock, from, n) == 0
  {
    if n > 0 {
      GridOfNothing(m, peers, clock, from, n - 1);
      RowOfNothing(m, peers, clock, from + n - 1);
    }
  }

  /** Rows that cover every second and cells for every peer lose nothing and count nothing twice. */
  lemma {:induction false} GridIsTotal(m: Measure, ops: seq<Operation>, peers: seq<string>, clock: Clock, from: int,
                                       n: nat)
    requires Distinct(peers)
    requires forall i :: 0 <= i < |ops| && ops[i].status == 0 ==> ops[i].peer in peers && Within(ops[i], clock, from, n)
    ensures GridSum(m, ops, peers, clock, from, n) == Total(m, ops, clock)
  {
    if ops == [] {
      GridOfNothing(m, peers, clock, from, n);
    } else {
      var k := |ops| - 1;
      GridIsTotal(m, ops[..k], peers, clock, from, n);
      GridSumMore(m, ops[..k], ops[k], peers, clock, from, n);
      assert ops == ops[..k] + [ops[k]];
      if ops[k].status == 0 {
        ColumnIsWhole(m, ops[k], clock, from, n);
      }
    }
  }

  // ----- Collecting -----

  type TimeMap = map<int, TimeData>

  function CountAt(m: TimeMap, t: int): int {
    if t in m then m[t].readCount else 0
  }

  function BytesAt(m: TimeMap, t: int): int {
    if t in m then m[t].readBytes else 0
  }

  /** `peer` received something in second `t`. */
  ghost predicate Touched(ops: seq<Operation>, peer: string, clock: Clock, t: int) {
    exists i :: 0 <= i < |ops| && Counts(ops[i], peer) && t in Seconds(ops[i].chunks, clock)
  }

  /** `m` has exactly the touched seconds of `peer`, with their counts and bytes. */
  ghost predicate Matches(m: TimeMap, ops: seq<Operation>, peer: string, clock: Clock) {
    && (forall t :: t in m <==> Touched(ops, peer, clock, t))
    && (forall t :: t in m ==>
          m[t] == TimeData(PeerCell(Count, ops, peer, clock, t), PeerCell(Bytes, ops, peer, clock, t)))
  }

  /** `m'` is `m` with one operation's chunks added. */
  ghost predicate Applied(m: TimeMap, chunks: seq<Chunk>, clock: Clock, m': TimeMap) {
    && (forall t :: t in m' <==> t in m || t in Seconds(chunks, clock))
    && (forall t :: t in m' ==>
          m'[t] == TimeData(CountAt(m, t) + if t in Seconds(chunks, clock) then 1 else 0,
                            BytesAt(m, t) + BytesIn(chunks, clock, t)))
  }

  lemma {:induction false} NoBytesElsewhere(chunks: seq<Chunk>, clock: Clock, t: int)
    requires t !in Seconds(chunks, clock)
    ensures BytesIn(chunks, clock, t) == 0
  {
    if chunks != [] {
      assert t !in Seconds(chunks[..|chunks| - 1], clock);
      NoBytesElsewhere(chunks[..|chunks| - 1], clock, t);
    }
  }

  lemma {:induction false} UntouchedIsEmpty(m: Measure, ops: seq<Operation>, peer: string, clock: Clock, t: int)
    requires !Touched(ops, peer, clock, t)
    ensures PeerCell(m, ops, peer, clock, t) == 0
  {
    if ops != [] {
      var k := |ops| - 1;
      UntouchedIsEmpty(m, ops[..k], peer, clock, t);
      if Counts(ops[k], peer) {
        NoBytesElsewhere(ops[k].chunks, clock, t);
      }
    }
  }

  lemma TouchedMore(ops: seq<Operation>, op: Operation, peer: string, clock: Clock, t: int)
    ensures Touched(ops + [op], peer, clock, t) <==>
      Touched(ops, peer, clock, t) || (Counts(op, peer) && t in Seconds(op.chunks, clock))
  {
    var more := ops + [op];
    if Touched(ops, peer, clock, t) {
      var i :| 0 <= i < |ops| && Counts(ops[i], peer) && t in Seconds(ops[i].chunks, clock);
      assert more[i] == ops[i];
    }
    if Counts(op, peer) && t in Seconds(op.chunks, clock) {
      assert more[|ops|] == op;
    }
  }

  lemma CellsOf(m: TimeMap, ops: seq<Operation>, peer: string, clock: Clock, t: int)
    requires Matches(m, ops, peer, clock)
    ensures CountAt(m, t) == PeerCell(Count, ops, peer, clock, t)
    ensures BytesAt(m, t) == PeerCell(Bytes, ops, peer, clock, t)
  {
    if t !in m {
      UntouchedIsEmpty(Count, ops, peer, clock, t);
      UntouchedIsEmpty(Bytes, ops, peer, clock, t);
    }
  }

  lemma CellMore(m: Measure, ops: seq<Operation>, op: Operation, peer: string, clock: Clock, t: int)
    ensures PeerCell(m, ops + [op], peer, clock, t) ==
      PeerCell(m, ops, peer, clock, t) + if Counts(op, peer) then Cell(m, op, clock, t) else 0
  {
    assert (ops + [op])[..|ops|] == ops;
  }

  lemma AppliedMatches(m: TimeMap, m': TimeMap, ops: seq<Operation>, op: Operation, peer: string, clock: Clock)
    requires Matches(m, ops, peer, clock)
    requires if Counts(op, peer) then Applied(m, op.chunks, clock, m') else m' == m
    ensures Matches(m', ops + [op], peer, clock)
  {
    forall t ensures t in m' <==> Touched(ops + [op], peer, clock, t) {
      TouchedMore(ops, op, peer, clock, t);
    }
    forall t | t in m'
      ensures m'[t] ==
        TimeData(PeerCell(Count, ops + [op], peer, clock, t), PeerCell(Bytes, ops + [op], peer, clock, t))
    {
      AppliedCell(m, m', ops, op, peer, clock, t);
    }
  }

  lemma AppliedCell(m: TimeMap, m': TimeMap, ops: seq<Operation>, op: Operation, peer: string, clock: Clock, t: int)
    requires Matches(m, ops, peer, clock) && t in m'
    requires if Counts(op, peer) then Applied(m, op.chunks, clock, m') else m' == m
    ensures m'[t] == TimeData(PeerCell(Count, ops + [op], peer, clock, t), PeerCell(Bytes, ops + [op], peer, clock, t))
  {
    CellsOf(m, ops, peer, clock, t);
    CellMore(Count, ops, op, peer, clock, t);
    CellMore(Bytes, ops, op, peer, clock, t);
  }

  /** One more operation, seen from all peers. */
  lemma AllMatch(maps: map<string, TimeMap>, maps': map<string, TimeMap>, ops: seq<Operation>, op: Operation,
                 clock: Clock)
    requires maps'.Keys == maps.Keys
    requires forall p :: p in maps ==> Matches(maps[p], ops, p, clock)
    requires forall p :: p in maps ==>
      if Counts(op, p) then Applied(maps[p], op.chunks, clock, maps'[p]) else maps'[p] == maps[p]
    ensures forall p :: p in maps' ==> Matches(maps'[p], ops + [op], p, clock)
  {
    forall p | p in maps' ensures Matches(maps'[p], ops + [op], p, clock) {
      AppliedMatches(maps[p], maps'[p], ops, op, p, clock);
    }
  }

  /** `m` is `start` with the bytes of `chunks` added, in exactly their seconds. */
  ghost predicate BytesAdded(start: TimeMap, chunks: seq<Chunk>, clock: Clock, m: TimeMap) {
    && (forall t :: t in m <==> t in start || t in Seconds(chunks, clock))
    && forall t :: t in m ==> m[t] == TimeData(CountAt(start, t), BytesAt(start, t) + BytesIn(chunks, clock, t))
  }

  class PeerData {
    var readCount: int
    var readBytes: int
    var timeMap: TimeMap

    constructor ()
      ensures readCount == 0 && readBytes == 0 && timeMap == map[]
    {
      readCount, readBytes, timeMap := 0, 0, map[];
    }

    method ApplyChunks(chunks: seq<Chunk>, clock: Clock)
      modifies this
      ensures readCount == old(readCount) + 1 && readBytes == old(readBytes) + SumBytes(chunks)
      ensures Applied(old(timeMap), chunks, clock, timeMap)
    {
      var tset := AddBytes(chunks, clock);
      readCount := readCount + 1;
      AddCounts(tset);
    }

    method AddBytes(chunks: seq<Chunk>, clock: Clock) returns (tset: set<int>)
      modifies this`readBytes, this`timeMap
      ensures tset == Seconds(chunks, clock) && readBytes == old(readBytes) + SumBytes(chunks)
      ensures BytesAdded(old(timeMap), chunks, clock, timeMap)
    {
      tset := {};
      for i := 0 to |chunks|
        invariant readBytes == old(readBytes) + SumBytes(chunks[..i])
        invariant tset == Seconds(chunks[..i], clock)
        invariant BytesAdded(old(timeMap), chunks[..i], clock, timeMap)
      {
        assert chunks[..i + 1] == chunks[..i] + [chunks[i]] && chunks[..i + 1][..i] == chunks[..i];
        tset := tset + {clock(chunks[i].time)};
        AddChunk(old(timeMap), chunks[..i], chunks[i], clock);
      }
      assert chunks[..|chunks|] == chunks;
    }

    /** The body of that loop. */
    method AddChunk(ghost start: TimeMap, ghost done: seq<Chunk>, c: Chunk, clock: Clock)
      requires BytesAdded(start, done, clock, timeMap)
      modifies this`readBytes, this`timeMap
      ensures readBytes == old(readBytes) + c.bytes && BytesAdded(start, done + [c], clock, timeMap)
    {
      var t, b := clock(c.time), c.bytes;
      assert (done + [c])[..|done|] == done;
      if t !in timeMap {
        NoBytesElsewhere(done, clock, t);
      }
      readBytes := readBytes + b;
      timeMap := timeMap[t := TimeData(CountAt(timeMap, t), BytesAt(timeMap, t) + b)];
    }

    method AddCounts(tset: set<int>)
      requires forall t :: t in tset ==> t in timeMap
      modifies this`timeMap
      ensures timeMap.Keys == old(timeMap.Keys)
      ensures forall t :: t in timeMap ==>
        timeMap[t] == TimeData(CountAt(old(timeMap), t) + if t in tset then 1 else 0, BytesAt(old(timeMap), t))
    {
      var left, done: set<int> := tset, {};
      while left != {}
        invariant done + left == tset && done !! left && timeMap.Keys == old(timeMap.Keys)
        invariant forall t :: t in timeMap ==>
          timeMap[t] == TimeData(CountAt(old(timeMap), t) + if t in done then 1 else 0, BytesAt(old(timeMap), t))
        decreases left
      {
        SomeElement(left);
        var t :| t in left;
        timeMap := timeMap[t := timeMap[t].(readCount := timeMap[t].readCount + 1)];
        left, done := left - {t}, done + {t};
      }
    }
  }

  ghost predicate HasOk(ops: seq<Operation>, peer: string) {
    exists i :: 0 <= i < |ops| && Counts(ops[i], peer)
  }

  lemma HasOkMore(ops: seq<Operation>, op: Operation, peer: string)
    ensures HasOk(ops + [op], peer) <==> HasOk(ops, peer) || Counts(op, peer)
  {
    var more := ops + [op];
    if HasOk(ops, peer) {
      var i :| 0 <= i < |ops| && Counts(ops[i], peer);
      assert more[i] == ops[i];
    }
    if Counts(op, peer) {
      assert more[|ops|] == op;
    }
  }

  /** The peers with OK operations, in the order of their first one. */
  function PeersOf(ops: seq<Operation>): seq<string> {
    if ops == [] then []
    else
      var peers, op := PeersOf(ops[..|ops| - 1]), ops[|ops| - 1];
      if op.status == 0 && op.peer !in peers then peers + [op.peer] else peers
  }

  /** The peers with OK operations, and their seconds. */
  ghost predicate Collected(ops: seq<Operation>, clock: Clock, peers: seq<string>, maps: seq<TimeMap>) {
    && Distinct(peers) && |maps| == |peers| && peers == PeersOf(ops)
    && (forall p :: p in peers <==> HasOk(ops, p))
    && (forall i :: 0 <= i < |peers| ==> Matches(maps[i], ops, peers[i], clock))
  }

  /** The peers so far, each with its own data object. */
  ghost predicate Separate(peers: seq<string>, data: map<string, PeerData>) {
    && Distinct(peers) && (forall p :: p in data <==> p in peers)
    && forall p, q :: p in data && q in data && p != q ==> data[p] != data[q]
  }

  ghost function TimeMaps(data: map<string, PeerData>): (m: map<string, TimeMap>)
    reads data.Values
    ensures m.Keys == data.Keys
    ensures forall p :: p in m ==> m[p] == data[p].timeMap
  {
    map p | p in data :: data[p].timeMap
  }

  ghost predicate Gathered(ops: seq<Operation>, clock: Clock, maps: map<string, TimeMap>) {
    && (forall p :: p in maps <==> HasOk(ops, p))
    && forall p :: p in maps ==> Matches(maps[p], ops, p, clock)
  }

  /** The operation's chunks are added to its peer's seconds, and nothing else changes. */
  ghost predicate Added(maps: map<string, TimeMap>, maps': map<string, TimeMap>, op: Operation, clock: Clock) {
    && maps'.Keys == maps.Keys + {op.peer}
    && (forall p :: p in maps && p != op.peer ==> maps'[p] == maps[p])
    && Applied(if op.peer in maps then maps[op.peer] else map[], op.chunks, clock, maps'[op.peer])
  }

  lemma GatheredMore(maps: map<string, TimeMap>, maps': map<string, TimeMap>, ops: seq<Operation>, op: Operation,
                     clock: Clock)
    requires Gathered(ops, clock, maps)
    requires if op.status != 0 then maps' == maps else Added(maps, maps', op, clock)
    ensures Gathered(ops + [op], clock, maps')
  {
    forall p ensures HasOk(ops + [op], p) <==> HasOk(ops, p) || Counts(op, p) {
      HasOkMore(ops, op, p);
    }
    if op.status != 0 || op.peer in maps {
      AllMatch(maps, maps', ops, op, clock);
    } else {
      EmptyMatches(ops, op.peer, clock);
      var more := maps[op.peer := map[]];
      AllMatch(more, maps', ops, op, clock);
    }
  }

  method AddOk(peers: seq<string>, data: map<string, PeerData>, op: Operation, clock: Clock)
    returns (peers': seq<string>, data': map<string, PeerData>)
    requires Separate(peers, data)
    modifies data.Values
    ensures Separate(peers', data') && fresh(data'.Values - data.Values)
    ensures peers' == if op.peer in peers then peers else peers + [op.peer]
    ensures Added(old(TimeMaps(data)), TimeMaps(data'), op, clock)
  {
    peers', data' := peers, data;
    if op.peer !in data {
      var d := new PeerData();
      data' := data[op.peer := d];
      peers' := peers + [op.peer];
    }
    data'[op.peer].ApplyChunks(op.chunks, clock);
  }

  method AddOperation(peers: seq<string>, data: map<string, PeerData>, ghost ops: seq<Operation>, op: Operation,
                      clock: Clock)
    returns (peers': seq<string>, data': map<string, PeerData>)
    requires Separate(peers, data) && peers == PeersOf(ops) && Gathered(ops, clock, TimeMaps(data))
    modifies data.Values
    ensures Separate(peers', data') && peers' == PeersOf(ops + [op]) && fresh(data'.Values - data.Values)
    ensures Gathered(ops + [op], clock, TimeMaps(data'))
  {
    peers', data' := peers, data;
    if op.status == 0 {
      peers', data' := AddOk(peers, data, op, clock);
    }
    assert (ops + [op])[..|ops|] == ops;
    GatheredMore(old(TimeMaps(data)), TimeMaps(data'), ops, op, clock);
  }

  method Collect(ops: seq<Operation>, clock: Clock) returns (peers: seq<string>, maps: seq<TimeMap>)
    ensures Collected(ops, clock, peers, maps)
  {
    peers := [];
    var data: map<string, PeerData> := map[];
    for i := 0 to |ops|
      invariant Separate(peers, data) && peers == PeersOf(ops[..i]) && Gathered(ops[..i], clock, TimeMaps(data))
      invariant fresh(data.Values)
    {
      peers, data := AddOperation(peers, data, ops[..i], ops[i], clock);
      assert ops[..i + 1] == ops[..i] + [ops[i]];
    }
    assert ops[..|ops|] == ops;
    maps := MapsOf(peers, data);
  }

  method MapsOf(peers: seq<string>, data: map<string, PeerData>) returns (maps: seq<TimeMap>)
    requires Separate(peers, data)
    ensures |maps| == |peers| && forall j :: 0 <= j < |peers| ==> maps[j] == TimeMaps(data)[peers[j]]
  {
    maps := [];
    for i := 0 to |peers|
      invariant |maps| == i && forall j :: 0 <= j < i ==> maps[j] == TimeMaps(data)[peers[j]]
    {
      maps := maps + [data[peers[i]].timeMap];
    }
  }

  lemma EmptyMatches(ops: seq<Operation>, peer: string, clock: Clock)
    requires !HasOk(ops, peer)
    ensures Matches(map[], ops, peer, clock)
  {
  }

  // ----- The rows -----

  lemma SomeElement(s: set<int>)
    requires s != {}
    ensures exists t :: t in s
  {
    if forall t :: t !in s {
      assert false;
    }
  }

  /** The smallest and the largest of a peer's seconds. */
  method Bounds(m: TimeMap) returns (lo: int, hi: int)
    requires m != map[]
    ensures lo in m && hi in m && forall t :: t in m ==> lo <= t <= hi
  {
    NonEmpty(m);
    var t0 :| t0 in m;
    lo, hi := t0, t0;
    var left := m.Keys;
    while left != {}
      invariant left <= m.Keys && lo in m && hi in m
      invariant forall t :: t in m && t !in left ==> lo <= t <= hi
      decreases left
    {
      SomeElement(left);
      var t :| t in left;
      left := left - {t};
      lo, hi := if t < lo then t else lo, if hi < t then t else hi;
    }
  }

  /** What `peer` did in second `t`, if it received anything then. */
  ghost function CellOf(ops: seq<Operation>, peer: string, clock: Clock, t: int): Option<TimeData> {
    if Touched(ops, peer, clock, t)
    then Some(TimeData(PeerCell(Count, ops, peer, clock, t), PeerCell(Bytes, ops, peer, clock, t)))
    else None
  }

  /** The row has a cell for every one of `peers`, and their sums. */
  ghost predicate FaithfulRow(row: Row, ops: seq<Operation>, peers: seq<string>, clock: Clock) {
    && |row.cells| == |peers|
    && (forall j :: 0 <= j < |peers| ==> row.cells[j] == CellOf(ops, peers[j], clock, row.time))
    && row.cAll == RowSum(Count, ops, peers, clock, row.time)
    && row.tAll == RowSum(Bytes, ops, peers, clock, row.time)
  }

  method RowAt(ops: seq<Operation>, clock: Clock, peers: seq<string>, maps: seq<TimeMap>, t: int) returns (row: Row)
    requires Collected(ops, clock, peers, maps)
    ensures row.time == t && FaithfulRow(row, ops, peers, clock)
  {
    var cells, cAll, tAll := [], 0, 0;
    for i := 0 to |maps|
      invariant |cells| == i && forall j :: 0 <= j < i ==> cells[j] == CellOf(ops, peers[j], clock, t)
      invariant cAll == RowSum(Count, ops, peers[..i], clock, t) && tAll == RowSum(Bytes, ops, peers[..i], clock, t)
    {
      assert peers[..i + 1][..i] == peers[..i];
      CellIs(maps[i], ops, peers[i], clock, t);
      if t in maps[i] {
        var td := maps[i][t];
        cells, cAll, tAll := cells + [Some(td)], cAll + td.readCount, tAll + td.readBytes;
      } else {
        cells := cells + [None];
      }
    }
    assert peers[..|maps|] == peers;
    row := Row(t, cells, cAll, tAll);
  }

  lemma CellIs(m: TimeMap, ops: seq<Operation>, peer: string, clock: Clock, t: int)
    requires Matches(m, ops, peer, clock)
    ensures CellOf(ops, peer, clock, t) == if t in m then Some(m[t]) else None
    ensures CountAt(m, t) == PeerCell(Count, ops, peer, clock, t)
    ensures BytesAt(m, t) == PeerCell(Bytes, ops, peer, clock, t)
  {
    CellsOf(m, ops, peer, clock, t);
  }

  function RowsTotal(m: Measure, rows: seq<Row>): int {
    if rows == [] then 0
    else
      var row := rows[|rows| - 1];
      RowsTotal(m, rows[..|rows| - 1]) + if m == Bytes then row.tAll else row.cAll
  }

  /** The rows of seconds `from`, `from` + 1, and so on. */
  ghost predicate Covers(rows: seq<Row>, ops: seq<Operation>, peers: seq<string>, clock: Clock, from: int) {
    forall k :: 0 <= k < |rows| ==> rows[k].time == from + k && FaithfulRow(rows[k], ops, peers, clock)
  }

  lemma TotalMore(m: Measure, rows: seq<Row>, row: Row)
    ensures RowsTotal(m, rows + [row]) == RowsTotal(m, rows) + if m == Bytes then row.tAll else row.cAll
  {
    assert (rows + [row])[..|rows|] == rows;
  }

  lemma CoversMore(rows: seq<Row>, row: Row, ops: seq<Operation>, peers: seq<string>, clock: Clock, from: int)
    requires Covers(rows, ops, peers, clock, from)
    requires row.time == from + |rows| && FaithfulRow(row, ops, peers, clock)
    ensures Covers(rows + [row], ops, peers, clock, from)
  {
    var more := rows + [row];
    forall k | 0 <= k < |more| ensures more[k].time == from + k && FaithfulRow(more[k], ops, peers, clock) {
      if k < |rows| {
        assert more[k] == rows[k];
      }
    }
  }

  method AddRow(ops: seq<Operation>, clock: Clock, peers: seq<string>, maps: seq<TimeMap>, ghost ts: int,
                rows: seq<Row>, tc: int)
    returns (rows': seq<Row>)
    requires Collected(ops, clock, peers, maps) && tc == ts + |rows|
    requires Covers(rows, ops, peers, clock, ts) && Summed(rows, ops, peers, clock, ts)
    ensures |rows'| == |rows| + 1 && Covers(rows', ops, peers, clock, ts) && Summed(rows', ops, peers, clock, ts)
  {
    var row := RowAt(ops, clock, peers, maps, tc);
    CoversMore(rows, row, ops, peers, clock, ts);
    SummedMore(rows, row, ops, peers, clock, ts);
    rows' := rows + [row];
  }

  method RowsFrom(ops: seq<Operation>, clock: Clock, peers: seq<string>, maps: seq<TimeMap>, ts: int, te: int)
    returns (rows: seq<Row>)
    requires Collected(ops, clock, peers, maps) && ts <= te
    ensures |rows| == te - ts + 1 && Covers(rows, ops, peers, clock, ts)
    ensures Summed(rows, ops, peers, clock, ts)
  {
    rows := [];
    var tc := ts;
    while tc <= te
      invariant tc == ts + |rows| <= te + 1
      invariant Covers(rows, ops, peers, clock, ts) && Summed(rows, ops, peers, clock, ts)
      decreases te - tc
    {
      rows := AddRow(ops, clock, peers, maps, ts, rows, tc);
      tc := tc + 1;
    }
  }

  /** The rows' sums add up to those of the grid. */
  ghost predicate Summed(rows: seq<Row>, ops: seq<Operation>, peers: seq<string>, clock: Clock, from: int) {
    && RowsTotal(Bytes, rows) == GridSum(Bytes, ops, peers, clock, from, |rows|)
    && RowsTotal(Count, rows) == GridSum(Count, ops, peers, clock, from, |rows|)
  }

  lemma SummedMore(rows: seq<Row>, row: Row, ops: seq<Operation>, peers: seq<string>, clock: Clock, from: int)
    requires Summed(rows, ops, peers, clock, from)
    requires row.cAll == RowSum(Count, ops, peers, clock, from + |rows|)
    requires row.tAll == RowSum(Bytes, ops, peers, clock, from + |rows|)
    ensures Summed(rows + [row], ops, peers, clock, from)
  {
    TotalMore(Bytes, rows, row);
    TotalMore(Count, rows, row);
  }

  /** The report exists: there is an OK operation, and every peer with one received something. */
  ghost predicate Reportable(ops: seq<Operation>, clock: Clock) {
    && (exists p :: HasOk(ops, p))
    && (forall p :: HasOk(ops, p) ==> exists t :: Touched(ops, p, clock, t))
  }

  ghost predicate SomeChunkIn(ops: seq<Operation>, clock: Clock, t: int) {
    exists p :: Touched(ops, p, clock, t)
  }

  /** `ts` and `te` are the smallest and the largest of all peers' seconds. */
  ghost predicate Bounded(maps: seq<TimeMap>, ts: int, te: int) {
    && (exists j :: 0 <= j < |maps| && ts in maps[j])
    && (exists j :: 0 <= j < |maps| && te in maps[j])
    && forall j, t :: 0 <= j < |maps| && t in maps[j] ==> ts <= t <= te
  }

  /** There are peers, and every one was seen in some second. */
  ghost predicate AllSeen(maps: seq<TimeMap>) {
    maps != [] && forall j :: 0 <= j < |maps| ==> maps[j] != map[]
  }

  /** The span of all peers' seconds; there is none when there is no peer, or one without seconds. */
  method Span(maps: seq<TimeMap>) returns (span: Option<(int, int)>)
    ensures span.Some? <==> AllSeen(maps)
    ensures span.Some? ==> Bounded(maps, span.value.0, span.value.1)
  {
    if maps == [] {
      return None;
    }
    var ts, te := 0, 0;
    for i := 0 to |maps|
      invariant forall j :: 0 <= j < i ==> maps[j] != map[]
      invariant forall j, t :: 0 <= j < i && t in maps[j] ==> ts <= t <= te
      invariant i > 0 ==> (exists j :: 0 <= j < i && ts in maps[j]) && (exists j :: 0 <= j < i && te in maps[j])
    {
      if maps[i] == map[] {
        return None;
      }
      var lo, hi := Bounds(maps[i]);
      ts, te := if i == 0 || lo < ts then lo else ts, if i == 0 || te < hi then hi else te;
    }
    span := Some((ts, te));
  }

  lemma PeerMap(ops: seq<Operation>, clock: Clock, peers: seq<string>, maps: seq<TimeMap>, p: string) returns (j: nat)
    requires Collected(ops, clock, peers, maps) && HasOk(ops, p)
    ensures j < |peers| && peers[j] == p && forall t :: t in maps[j] <==> Touched(ops, p, clock, t)
  {
    assert p in peers;
    j :| 0 <= j < |peers| && peers[j] == p;
  }

  lemma SpanOfChunks(ops: seq<Operation>, clock: Clock, peers: seq<string>, maps: seq<TimeMap>, ts: int, te: int)
    requires Collected(ops, clock, peers, maps)
    requires Bounded(maps, ts, te)
    ensures SpansChunks(ops, clock, ts, te)
    ensures forall i :: 0 <= i < |ops| && ops[i].status == 0 ==>
      ops[i].peer in peers && Within(ops[i], clock, ts, te - ts + 1)
  {
    InMapsIsChunk(ops, clock, peers, maps, ts);
    InMapsIsChunk(ops, clock, peers, maps, te);
    forall t | SomeChunkIn(ops, clock, t) ensures ts <= t <= te {
      var p :| Touched(ops, p, clock, t);
      var i :| 0 <= i < |ops| && Counts(ops[i], p) && t in Seconds(ops[i].chunks, clock);
      assert HasOk(ops, p);
      var j := PeerMap(ops, clock, peers, maps, p);
    }
    forall i | 0 <= i < |ops| && ops[i].status == 0
      ensures ops[i].peer in peers && Within(ops[i], clock, ts, te - ts + 1)
    {
      assert Counts(ops[i], ops[i].peer);
      assert HasOk(ops, ops[i].peer);
      forall t | t in Seconds(ops[i].chunks, clock) ensures ts <= t <= te {
        assert Touched(ops, ops[i].peer, clock, t);
        assert SomeChunkIn(ops, clock, t);
      }
    }
  }

  lemma ReportableIff(ops: seq<Operation>, clock: Clock, peers: seq<string>, maps: seq<TimeMap>)
    requires Collected(ops, clock, peers, maps)
    ensures Reportable(ops, clock) <==> AllSeen(maps)
  {
    if Reportable(ops, clock) {
      var p :| HasOk(ops, p);
      assert p in peers;
      forall j | 0 <= j < |maps| ensures maps[j] != map[] {
        assert peers[j] in peers;
        var t :| Touched(ops, peers[j], clock, t);
        assert t in maps[j];
      }
    }
    if AllSeen(maps) {
      assert peers[0] in peers;
      forall p | HasOk(ops, p) ensures exists t :: Touched(ops, p, clock, t) {
        var j := PeerMap(ops, clock, peers, maps, p);
        NonEmpty(maps[j]);
      }
    }
  }

  lemma NonEmpty(m: TimeMap)
    requires m != map[]
    ensures exists t :: t in m
  {
    if forall t :: t !in m {
      assert false;
    }
  }

  /** The analysis fails exactly when there is no OK operation, or a peer with OK operations and no chunk.
      Otherwise its rows are the seconds from the first to the last with a chunk in it, each once, with
      every peer's own counts and bytes; the bytes in the rows add up to all OK chunk bytes, and the counts
      to the number of distinct seconds of every OK operation. */
  method Transform(ops: seq<Operation>, clock: Clock) returns (report: Option<seq<Row>>)
    ensures report.Some? <==> Reportable(ops, clock)
    ensures report.Some? ==> FaithfulReport(ops, clock, report.value)
  {
    var peers, maps := Collect(ops, clock);
    ReportableIff(ops, clock, peers, maps);
    var span := Span(maps);
    if span == None {
      return None;
    }
    var rows := RowsBetween(ops, clock, peers, maps, span.value.0, span.value.1);
    report := Some(rows);
  }

  method RowsBetween(ops: seq<Operation>, clock: Clock, peers: seq<string>, maps: seq<TimeMap>, ts: int, te: int)
    returns (rows: seq<Row>)
    requires Collected(ops, clock, peers, maps) && Bounded(maps, ts, te)
    ensures FaithfulReport(ops, clock, rows)
  {
    SpanOfChunks(ops, clock, peers, maps, ts, te);
    rows := RowsFrom(ops, clock, peers, maps, ts, te);
    AreConsecutive(rows, ops, peers, clock, ts);
    TotalsAreWhole(ops, clock, peers, ts, rows);
    SpanOfRows(ops, clock, rows, ts, te);
  }

  lemma SpanOfRows(ops: seq<Operation>, clock: Clock, rows: seq<Row>, ts: int, te: int)
    requires SpansChunks(ops, clock, ts, te)
    requires rows != [] && rows[0].time == ts && rows[|rows| - 1].time == te
    ensures SpansChunks(ops, clock, rows[0].time, rows[|rows| - 1].time)
  {
  }

  lemma AreConsecutive(rows: seq<Row>, ops: seq<Operation>, peers: seq<string>, clock: Clock, ts: int)
    requires rows != [] && Covers(rows, ops, peers, clock, ts)
    ensures Consecutive(rows) && rows[0].time == ts && rows[|rows| - 1].time == ts + |rows| - 1
  {
    assert rows[0].time == ts + 0;
  }

  lemma TotalsAreWhole(ops: seq<Operation>, clock: Clock, peers: seq<string>, from: int, rows: seq<Row>)
    requires Distinct(peers) && Summed(rows, ops, peers, clock, from)
    requires forall i :: 0 <= i < |ops| && ops[i].status == 0 ==>
      ops[i].peer in peers && Within(ops[i], clock, from, |rows|)
    ensures RowsTotal(Bytes, rows) == Total(Bytes, ops, clock) && RowsTotal(Count, rows) == Total(Count, ops, clock)
  {
    GridIsTotal(Bytes, ops, peers, clock, from, |rows|);
    GridIsTotal(Count, ops, peers, clock, from, |rows|);
  }

  lemma InMapsIsChunk(ops: seq<Operation>, clock: Clock, peers: seq<string>, maps: seq<TimeMap>, t: int)
    requires Collected(ops, clock, peers, maps) && exists j :: 0 <= j < |maps| && t in maps[j]
    ensures SomeChunkIn(ops, clock, t)
  {
    var j :| 0 <= j < |maps| && t in maps[j];
    assert Touched(ops, peers[j], clock, t);
  }

  ghost predicate Consecutive(rows: seq<Row>) {
    forall k :: 0 <= k < |rows| ==> rows[k].time == rows[0].time + k
  }

  /** `first` and `last` are the first and the last second with an OK chunk in it. */
  ghost predicate SpansChunks(ops: seq<Operation>, clock: Clock, first: int, last: int) {
    && SomeChunkIn(ops, clock, first) && SomeChunkIn(ops, clock, last)
    && forall t :: SomeChunkIn(ops, clock, t) ==> first <= t <= last
  }

  ghost predicate FaithfulReport(ops: seq<Operation>, clock: Clock, rows: seq<Row>) {
    && rows != [] && Consecutive(rows)
    && (forall k :: 0 <= k < |rows| ==> FaithfulRow(rows[k], ops, PeersOf(ops), clock))
    && SpansChunks(ops, clock, rows[0].time, rows[|rows| - 1].time)
    && RowsTotal(Bytes, rows) == Total(Bytes, ops, clock)
    && RowsTotal(Count, rows) == Total(Count, ops, clock)
  }
}
