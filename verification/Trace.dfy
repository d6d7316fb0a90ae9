/** The trace of a benchmark: how it is written, line by line, and how it is read back. */
module Trace {
  import opened Wrappers
  import opened Decimal
  import opened Json
  import opened CleanJson
  import opened JsonRoundTrip

  /** Times are printed as strings, durations as decimal fractions; both are tokens here. */
  datatype Chunk = Chunk(time: string, bytes: int)

  datatype Operation = Operation(
    kind: int, runnerId: int, channelId: int, peer: string, bucket: string, objectName: string, status: int,
    bytes: int, time: string, elapsedTime: string, chunks: seq<Chunk>)

  datatype Trace = Trace(time: string, tag: string, duration: string, operations: seq<Operation>)

  // ----- The trace as a JSON value -----

  function Int(n: int): Json {
    Number(Print(n))
  }

  function ChunkMembers(c: Chunk): seq<Member> {
    [Member("time", String(c.time)), Member("bytes", Int(c.bytes))]
  }

  function ChunkItems(chunks: seq<Chunk>): (items: seq<Json>)
    ensures |items| == |chunks|
    ensures forall i :: 0 <= i < |items| ==> items[i] == Object(ChunkMembers(chunks[i]))
  {
    seq(|chunks|, i requires 0 <= i < |chunks| => Object(ChunkMembers(chunks[i])))
  }

  function CallMembers(op: Operation): seq<Member> {
    [Member("type", Int(op.kind)),
     Member("runner_id", Int(op.runnerId)),
     Member("channel_id", Int(op.channelId)),
     Member("peer", String(op.peer)),
     Member("bucket", String(op.bucket)),
     Member("object", String(op.objectName))]
  }

  function OutcomeMembers(op: Operation): seq<Member> {
    [Member("status", Int(op.status)),
     Member("bytes", Int(op.bytes)),
     Member("time", String(op.time)),
     Member("elapsed_time", Number(op.elapsedTime))]
  }

  function OperationMembers(op: Operation): seq<Member> {
    CallMembers(op) + OutcomeMembers(op) + [Member("chunks", Array(ChunkItems(op.chunks)))]
  }

  function OperationItems(ops: seq<Operation>): (items: seq<Json>)
    ensures |items| == |ops|
    ensures forall i :: 0 <= i < |items| ==> items[i] == Object(OperationMembers(ops[i]))
  {
    seq(|ops|, i requires 0 <= i < |ops| => Object(OperationMembers(ops[i])))
  }

  function HeaderMembers(t: Trace): seq<Member> {
    [Member("time", String(t.time)), Member("tag", String(t.tag)), Member("duration", Number(t.duration))]
  }

  function TraceValue(t: Trace): Json {
    Object(HeaderMembers(t) + [Member("operations", Array(OperationItems(t.operations)))])
  }

  // ----- Writing -----

  /** An object whose members so far are written, up to the next line. */
  function Opened(ms: seq<Member>, depth: nat): string {
    "{" + ShowMembers(ms, true, depth, TRAILING) + Lead(ms == [])
  }

  function OpenedArray(items: seq<Json>, depth: nat): string {
    "[" + ShowItems(items, true, depth, TRAILING) + Lead(items == [])
  }

  lemma {:induction false} MembersAppend(ms: seq<Member>, m: Member, first: bool, depth: nat)
    ensures ShowMembers(ms + [m], first, depth, TRAILING) ==
      ShowMembers(ms, first, depth, TRAILING) + Lead(first && ms == []) + Tabs(depth + 1)
      + ShowMember(m, depth + 1, TRAILING)
  {
    if ms == [] {
      assert ms + [m] == [m];
      assert ShowMembers([m][1..], false, depth, TRAILING) == "";
    } else {
      assert (ms + [m])[1..] == ms[1..] + [m];
      MembersAppend(ms[1..], m, false, depth);
    }
  }

  lemma {:induction false} ItemsAppend(items: seq<Json>, v: Json, first: bool, depth: nat)
    ensures ShowItems(items + [v], first, depth, TRAILING) ==
      ShowItems(items, first, depth, TRAILING) + Lead(first && items == []) + Tabs(depth + 1)
      + Show(v, depth + 1, TRAILING)
  {
    if items == [] {
      assert items + [v] == [v];
      assert ShowItems([v][1..], false, depth, TRAILING) == "";
    } else {
      assert (items + [v])[1..] == items[1..] + [v];
      ItemsAppend(items[1..], v, false, depth);
    }
  }

  lemma OpenedMore(ms: seq<Member>, m: Member, depth: nat)
    ensures Opened(ms + [m], depth) == Opened(ms, depth) + Tabs(depth + 1) + ShowMember(m, depth + 1, TRAILING) + ",\n"
  {
    MembersAppend(ms, m, true, depth);
  }

  /** Writes the line of one scalar member. */
  method WriteLine(text: string, ghost ms: seq<Member>, depth: nat, m: Member)
    returns (text': string, ghost ms': seq<Member>)
    requires text == Opened(ms, depth)
    ensures ms' == ms + [m] && text' == Opened(ms + [m], depth)
  {
    ms' := ms + [m];
    text' := text + Tabs(depth + 1) + ShowMember(m, depth + 1, TRAILING) + ",\n";
    OpenedMore(ms, m, depth);
  }

  method WriteChunk(c: Chunk) returns (text: string)
    ensures text == Show(Object(ChunkMembers(c)), 4, TRAILING)
  {
    ghost var ms: seq<Member>;
    text, ms := "{\n", [];
    text, ms := WriteLine(text, ms, 4, Member("time", String(c.time)));
    text, ms := WriteLine(text, ms, 4, Member("bytes", Int(c.bytes)));
    text := text + Tabs(4) + "}";
    assert ms == ChunkMembers(c);
    ClosedObject(ms, 4);
  }

  lemma ClosedObject(ms: seq<Member>, depth: nat)
    requires CommaAtEnd(ms)
    ensures Show(Object(ms), depth, TRAILING) == Opened(ms, depth) + Tabs(depth) + "}"
  {
  }

  lemma ClosedArray(items: seq<Json>, depth: nat)
    ensures Show(Array(items), depth, TRAILING) == OpenedArray(items, depth) + Tabs(depth) + "]"
  {
  }

  lemma Regroup(head: string, ms: string, lead: string, tabs: string, key: string, value: string, end: string)
    ensures head + (ms + lead + tabs + (key + ": " + value)) + end ==
      (head + ms + lead) + (tabs + key + ": " + value) + end
  {
  }

  /** An object whose last member is an array. */
  lemma ClosedWithArray(ms: seq<Member>, key: string, items: seq<Json>, depth: nat)
    requires ms != []
    ensures Show(Object(ms + [Member(key, Array(items))]), depth, TRAILING) ==
      Opened(ms, depth) + (Tabs(depth + 1) + Quoted(key) + ": " + Show(Array(items), depth + 1, TRAILING))
      + ("\n" + Tabs(depth) + "}")
  {
    var m := Member(key, Array(items));
    MembersAppend(ms, m, true, depth);
    assert Close("}", CommaAtEnd(ms + [m]), false, depth) == "\n" + Tabs(depth) + "}";
    Regroup("{", ShowMembers(ms, true, depth, TRAILING), Lead(false), Tabs(depth + 1), Quoted(key),
            Show(Array(items), depth + 1, TRAILING), "\n" + Tabs(depth) + "}");
  }

  lemma ArrayMore(items: seq<Json>, i: nat, depth: nat)
    requires i < |items|
    ensures OpenedArray(items[..i + 1], depth) ==
      OpenedArray(items[..i], depth) + (Tabs(depth + 1) + Show(items[i], depth + 1, TRAILING) + ",\n")
  {
    ItemsAppend(items[..i], items[i], true, depth);
    assert items[..i + 1] == items[..i] + [items[i]];
  }

  method WriteChunks(chunks: seq<Chunk>) returns (text: string)
    ensures text == Show(Array(ChunkItems(chunks)), 3, TRAILING)
  {
    text := "[\n";
    ghost var items := ChunkItems(chunks);
    for i := 0 to |chunks|
      invariant text == OpenedArray(items[..i], 3)
    {
      var chunk := WriteChunk(chunks[i]);
      ArrayMore(items, i, 3);
      text := text + (Tabs(4) + chunk + ",\n");
    }
    assert items[..|chunks|] == items;
    ClosedArray(items, 3);
    text := text + Tabs(3) + "]";
  }

  method WriteOperation(op: Operation) returns (text: string)
    ensures text == Show(Object(OperationMembers(op)), 2, TRAILING)
  {
    text := WriteCall(op);
    text := WriteOutcome(text, op, CallMembers(op));
    var chunks := WriteChunks(op.chunks);
    ClosedWithArray(CallMembers(op) + OutcomeMembers(op), "chunks", ChunkItems(op.chunks), 2);
    text := text + (Tabs(3) + Quoted("chunks") + ": " + chunks) + ("\n" + Tabs(2) + "}");
  }

  method WriteCall(op: Operation) returns (text: string)
    ensures text == Opened(CallMembers(op), 2)
  {
    ghost var ms: seq<Member>;
    text, ms := "{\n", [];
    text, ms := WriteLine(text, ms, 2, Member("type", Int(op.kind)));
    text, ms := WriteLine(text, ms, 2, Member("runner_id", Int(op.runnerId)));
    text, ms := WriteLine(text, ms, 2, Member("channel_id", Int(op.channelId)));
    text, ms := WriteLine(text, ms, 2, Member("peer", String(op.peer)));
    text, ms := WriteLine(text, ms, 2, Member("bucket", String(op.bucket)));
    text, ms := WriteLine(text, ms, 2, Member("object", String(op.objectName)));
    assert ms == CallMembers(op);
  }

  method WriteOutcome(call: string, op: Operation, ghost before: seq<Member>) returns (text: string)
    requires call == Opened(before, 2)
    ensures text == Opened(before + OutcomeMembers(op), 2)
  {
    ghost var ms: seq<Member>;
    text, ms := call, before;
    text, ms := WriteLine(text, ms, 2, Member("status", Int(op.status)));
    text, ms := WriteLine(text, ms, 2, Member("bytes", Int(op.bytes)));
    text, ms := WriteLine(text, ms, 2, Member("time", String(op.time)));
    text, ms := WriteLine(text, ms, 2, Member("elapsed_time", Number(op.elapsedTime)));
    assert ms == before + OutcomeMembers(op);
  }

  method WriteHeader(t: Trace) returns (text: string)
    ensures text == Opened(HeaderMembers(t), 0)
  {
    ghost var ms: seq<Member>;
    text, ms := "{\n", [];
    text, ms := WriteLine(text, ms, 0, Member("time", String(t.time)));
    text, ms := WriteLine(text, ms, 0, Member("tag", String(t.tag)));
    text, ms := WriteLine(text, ms, 0, Member("duration", Number(t.duration)));
    assert ms == HeaderMembers(t);
  }

  method WriteOperations(ops: seq<Operation>) returns (text: string)
    ensures text == Show(Array(OperationItems(ops)), 1, TRAILING)
  {
    text := "[\n";
    ghost var items := OperationItems(ops);
    for i := 0 to |ops|
      invariant text == OpenedArray(items[..i], 1)
    {
      var op := WriteOperation(ops[i]);
      ArrayMore(items, i, 1);
      text := text + (Tabs(2) + op + ",\n");
    }
    assert items[..|ops|] == items;
    ClosedArray(items, 1);
    text := text + Tabs(1) + "]";
  }

  method WriteData(t: Trace) returns (text: string)
    ensures text == Show(TraceValue(t), 0, TRAILING) + "\n"
  {
    text := WriteHeader(t);
    var ops := WriteOperations(t.operations);
    ClosedWithArray(HeaderMembers(t), "operations", OperationItems(t.operations), 0);
    text := text + (Tabs(1) + Quoted("operations") + ": " + ops) + ("\n" + Tabs(0) + "}");
    text := text + "\n";
  }

  // ----- Reading -----

  /** The value of a key; where a key is repeated, the last member counts. */
  function Lookup(ms: seq<Member>, key: string): Option<Json> {
    if ms == [] then None
    else
      var k := |ms| - 1;
      if ms[k].key == key then Some(ms[k].value) else Lookup(ms[..k], key)
  }

  function TextOf(ms: seq<Member>, key: string): Option<string> {
    match Lookup(ms, key)
    case Some(String(text)) => Some(text)
    case _ => None
  }

  function TokenOf(ms: seq<Member>, key: string): Option<string> {
    match Lookup(ms, key)
    case Some(Number(token)) => Some(token)
    case _ => None
  }

  function IntOf(ms: seq<Member>, key: string): Option<int> {
    match TokenOf(ms, key)
    case Some(token) => if IsNumeral(token) then Some(Read(token)) else None
    case None => None
  }

  function ItemsOf(ms: seq<Member>, key: string): Option<seq<Json>> {
    match Lookup(ms, key)
    case Some(Array(items)) => Some(items)
    case _ => None
  }

  function ReadChunk(v: Json): Option<Chunk> {
    if !v.Object? then None
    else
      match (TextOf(v.members, "time"), IntOf(v.members, "bytes"))
      case (Some(time), Some(bytes)) => Some(Chunk(time, bytes))
      case _ => None
  }

  function ReadChunks(items: seq<Json>): Option<seq<Chunk>> {
    if items == [] then Some([])
    else
      match (ReadChunk(items[0]), ReadChunks(items[1..]))
      case (Some(chunk), Some(chunks)) => Some([chunk] + chunks)
      case _ => None
  }

  /** The numbers of an operation, in the order they are written. */
  function Ints(ms: seq<Member>): Option<(int, int, int, int, int)> {
    match (IntOf(ms, "type"), IntOf(ms, "runner_id"), IntOf(ms, "channel_id"), IntOf(ms, "status"), IntOf(ms, "bytes"))
    case (Some(a), Some(b), Some(c), Some(d), Some(e)) => Some((a, b, c, d, e))
    case _ => None
  }

  function Texts(ms: seq<Member>): Option<(string, string, string, string, string)> {
    match (TextOf(ms, "peer"), TextOf(ms, "bucket"), TextOf(ms, "object"), TextOf(ms, "time"),
           TokenOf(ms, "elapsed_time"))
    case (Some(a), Some(b), Some(c), Some(d), Some(e)) => Some((a, b, c, d, e))
    case _ => None
  }

  function ReadOperation(v: Json): Option<Operation> {
    if !v.Object? then None
    else
      match (Ints(v.members), Texts(v.members), ItemsOf(v.members, "chunks"))
      case (Some(n), Some(t), Some(items)) =>
        (match ReadChunks(items)
         case Some(chunks) => Some(Operation(n.0, n.1, n.2, t.0, t.1, t.2, n.3, n.4, t.3, t.4, chunks))
         case None => None)
      case _ => None
  }

  function ReadOperations(items: seq<Json>): Option<seq<Operation>> {
    if items == [] then Some([])
    else
      match (ReadOperation(items[0]), ReadOperations(items[1..]))
      case (Some(op), Some(ops)) => Some([op] + ops)
      case _ => None
  }

  function ReadValue(v: Json): Option<Trace> {
    if !v.Object? then None
    else
      match (TextOf(v.members, "time"), TextOf(v.members, "tag"), TokenOf(v.members, "duration"),
             ItemsOf(v.members, "operations"))
      case (Some(time), Some(tag), Some(duration), Some(items)) =>
        (match ReadOperations(items)
         case Some(ops) => Some(Trace(time, tag, duration, ops))
         case None => None)
      case _ => None
  }

  /** Cleans a text, reads it as JSON, and finds the trace in it. */
  function ReadTrace(text: string): Option<Trace> {
    match Parse(Clean(text))
    case Done(v, _) => ReadValue(v)
    case Fail => None
  }

  // ----- What is written can be read -----

  /** The trace's strings survive being printed between quotes, and its durations are decimal fractions. */
  predicate HarmlessOperation(op: Operation) {
    && Harmless(op.peer) && Harmless(op.bucket) && Harmless(op.objectName) && Harmless(op.time)
    && IsNumber(op.elapsedTime)
    && forall i :: 0 <= i < |op.chunks| ==> Harmless(op.chunks[i].time)
  }

  predicate HarmlessTrace(t: Trace) {
    && Harmless(t.time) && Harmless(t.tag) && IsNumber(t.duration)
    && forall i :: 0 <= i < |t.operations| ==> HarmlessOperation(t.operations[i])
  }

  lemma DigitsEndAt(s: string, i: nat)
    requires i <= |s| && forall k :: i <= k < |s| ==> IsDigit(s[k])
    ensures DigitsEnd(s, i) == |s|
  {
  }

  lemma PrintIsNumber(n: int)
    ensures IsNumber(Print(n))
  {
    var m: nat := if n < 0 then -n else n;
    var digits, s := PrintNat(m), Print(n);
    NoLeadingZero(m);
    if n < 0 {
      assert s[1..] == digits && s[1] == digits[0];
      forall k | 1 <= k < |s| ensures IsDigit(s[k]) {
        assert s[k] == digits[k - 1];
      }
      DigitsEndAt(s, 1);
    } else {
      DigitsEndAt(s, 0);
    }
  }

  predicate IsKey(s: string) {
    forall i :: 0 <= i < |s| ==> 'a' <= s[i] <= 'z' || s[i] == '_'
  }

  lemma KeyIsHarmless(s: string)
    requires IsKey(s)
    ensures Harmless(s)
  {
  }

  lemma KeysAreHarmless()
    ensures Harmless("time") && Harmless("bytes") && Harmless("type") && Harmless("runner_id") && Harmless("channel_id")
    ensures Harmless("peer") && Harmless("bucket") && Harmless("object") && Harmless("status")
    ensures Harmless("elapsed_time")
    ensures Harmless("chunks") && Harmless("tag") && Harmless("duration") && Harmless("operations")
  {
    KeyIsHarmless("time");
    KeyIsHarmless("bytes");
    KeyIsHarmless("type");
    KeyIsHarmless("runner_id");
    KeyIsHarmless("channel_id");
    KeyIsHarmless("peer");
    KeyIsHarmless("bucket");
    KeyIsHarmless("object");
    KeyIsHarmless("status");
    KeyIsHarmless("elapsed_time");
    KeyIsHarmless("chunks");
    KeyIsHarmless("tag");
    KeyIsHarmless("duration");
    KeyIsHarmless("operations");
  }

  lemma ChunksArePrintable(chunks: seq<Chunk>)
    requires forall i :: 0 <= i < |chunks| ==> Harmless(chunks[i].time)
    ensures Printable(Array(ChunkItems(chunks)))
  {
    KeysAreHarmless();
    forall i | 0 <= i < |chunks| ensures Printable(ChunkItems(chunks)[i]) {
      PrintIsNumber(chunks[i].bytes);
    }
  }

  predicate AllPrintable(ms: seq<Member>) {
    forall i :: 0 <= i < |ms| ==> Harmless(ms[i].key) && Printable(ms[i].value)
  }

  lemma CallIsPrintable(op: Operation)
    requires HarmlessOperation(op)
    ensures AllPrintable(CallMembers(op))
  {
    KeysAreHarmless();
    PrintIsNumber(op.kind);
    PrintIsNumber(op.runnerId);
    PrintIsNumber(op.channelId);
  }

  lemma OutcomeIsPrintable(op: Operation)
    requires HarmlessOperation(op)
    ensures AllPrintable(OutcomeMembers(op))
  {
    KeysAreHarmless();
    PrintIsNumber(op.status);
    PrintIsNumber(op.bytes);
  }

  lemma ConcatIsPrintable(ms: seq<Member>, more: seq<Member>, last: Member)
    requires AllPrintable(ms) && AllPrintable(more) && Harmless(last.key) && Printable(last.value)
    ensures Printable(Object(ms + more + [last]))
  {
    var all := ms + more + [last];
    assert AllPrintable(all);
  }

  lemma OperationIsPrintable(op: Operation)
    requires HarmlessOperation(op)
    ensures Printable(Object(OperationMembers(op)))
  {
    KeyIsHarmless("chunks");
    ChunksArePrintable(op.chunks);
    CallIsPrintable(op);
    OutcomeIsPrintable(op);
    ConcatIsPrintable(CallMembers(op), OutcomeMembers(op), Member("chunks", Array(ChunkItems(op.chunks))));
  }

  lemma TraceIsPrintable(t: Trace)
    requires HarmlessTrace(t)
    ensures Printable(TraceValue(t))
  {
    KeysAreHarmless();
    forall i | 0 <= i < |t.operations| ensures Printable(OperationItems(t.operations)[i]) {
      OperationIsPrintable(t.operations[i]);
    }
  }

  lemma {:induction false} LookupAt(ms: seq<Member>, i: nat)
    requires i < |ms| && forall j :: i < j < |ms| ==> ms[j].key != ms[i].key
    ensures Lookup(ms, ms[i].key) == Some(ms[i].value)
  {
    if i < |ms| - 1 {
      LookupAt(ms[..|ms| - 1], i);
    }
  }

  ghost predicate DistinctKeys(ms: seq<Member>) {
    forall i, j :: 0 <= i < j < |ms| ==> ms[i].key != ms[j].key
  }

  lemma AllLookups(ms: seq<Member>)
    requires DistinctKeys(ms)
    ensures forall i :: 0 <= i < |ms| ==> Lookup(ms, ms[i].key) == Some(ms[i].value)
  {
    forall i | 0 <= i < |ms| ensures Lookup(ms, ms[i].key) == Some(ms[i].value) {
      LookupAt(ms, i);
    }
  }

  lemma ReadsChunk(c: Chunk)
    ensures ReadChunk(Object(ChunkMembers(c))) == Some(c)
  {
    var ms := ChunkMembers(c);
    LookupAt(ms, 0);
    LookupAt(ms, 1);
    ReadPrint(c.bytes);
    assert ms[0].key == "time" && ms[1].key == "bytes";
  }

  lemma {:induction false} ReadsChunks(chunks: seq<Chunk>)
    ensures ReadChunks(ChunkItems(chunks)) == Some(chunks)
  {
    if chunks != [] {
      assert ChunkItems(chunks)[1..] == ChunkItems(chunks[1..]);
      ReadsChunk(chunks[0]);
      ReadsChunks(chunks[1..]);
      assert chunks == [chunks[0]] + chunks[1..];
    }
  }

  lemma OperationKeysDistinct(op: Operation)
    ensures DistinctKeys(OperationMembers(op))
  {
    var ms := OperationMembers(op);
    forall i, j | 0 <= i < j < |ms| ensures ms[i].key != ms[j].key {
      assert |ms| == 11;
      assert ms[10].key == "chunks";
    }
  }

  lemma ReadsIntAt(ms: seq<Member>, i: nat, n: int)
    requires DistinctKeys(ms) && i < |ms| && ms[i].value == Int(n)
    ensures IntOf(ms, ms[i].key) == Some(n)
  {
    LookupAt(ms, i);
    ReadPrint(n);
  }

  lemma IntMembers(op: Operation)
    ensures var ms := OperationMembers(op);
      && |ms| == 11 && ms[0] == Member("type", Int(op.kind)) && ms[1] == Member("runner_id", Int(op.runnerId))
      && ms[2] == Member("channel_id", Int(op.channelId)) && ms[6] == Member("status", Int(op.status))
      && ms[7] == Member("bytes", Int(op.bytes))
  {
  }

  lemma ReadsInts(op: Operation)
    ensures Ints(OperationMembers(op)) == Some((op.kind, op.runnerId, op.channelId, op.status, op.bytes))
  {
    var ms := OperationMembers(op);
    OperationKeysDistinct(op);
    IntMembers(op);
    ReadsIntAt(ms, 0, op.kind);
    ReadsIntAt(ms, 1, op.runnerId);
    ReadsIntAt(ms, 2, op.channelId);
    ReadsIntAt(ms, 6, op.status);
    ReadsIntAt(ms, 7, op.bytes);
  }

  lemma ReadsTexts(op: Operation)
    ensures Texts(OperationMembers(op)) == Some((op.peer, op.bucket, op.objectName, op.time, op.elapsedTime))
    ensures ItemsOf(OperationMembers(op), "chunks") == Some(ChunkItems(op.chunks))
  {
    var ms := OperationMembers(op);
    OperationKeysDistinct(op);
    AllLookups(ms);
    assert ms[3].key == "peer" && ms[4].key == "bucket" && ms[5].key == "object";
    assert ms[8].key == "time" && ms[9].key == "elapsed_time" && ms[10].key == "chunks";
  }

  lemma ReadsOperation(op: Operation)
    ensures ReadOperation(Object(OperationMembers(op))) == Some(op)
  {
    ReadsInts(op);
    ReadsTexts(op);
    ReadsChunks(op.chunks);
  }

  lemma ReadMoreOperations(items: seq<Json>, op: Operation, ops: seq<Operation>)
    requires items != [] && ReadOperation(items[0]) == Some(op) && ReadOperations(items[1..]) == Some(ops)
    ensures ReadOperations(items) == Some([op] + ops)
  {
  }

  lemma {:induction false} ReadsOperations(ops: seq<Operation>)
    ensures ReadOperations(OperationItems(ops)) == Some(ops)
  {
    if ops != [] {
      assert OperationItems(ops)[1..] == OperationItems(ops[1..]);
      ReadsOperation(ops[0]);
      ReadsOperations(ops[1..]);
      ReadMoreOperations(OperationItems(ops), ops[0], ops[1..]);
      assert ops == [ops[0]] + ops[1..];
    }
  }

  lemma ReadsTrace(t: Trace)
    ensures ReadValue(TraceValue(t)) == Some(t)
  {
    var ms := TraceValue(t).members;
    assert ms[0].key == "time" && ms[1].key == "tag" && ms[2].key == "duration" && ms[3].key == "operations";
    LookupAt(ms, 0);
    LookupAt(ms, 1);
    LookupAt(ms, 2);
    LookupAt(ms, 3);
    ReadsOperations(t.operations);
  }

  /** What WriteData writes, the reader reads back as exactly the same trace. */
  lemma TraceRoundTrip(t: Trace)
    requires HarmlessTrace(t)
    ensures ReadTrace(Show(TraceValue(t), 0, TRAILING) + "\n") == Some(t)
  {
    TraceIsPrintable(t);
    WrittenTextReads(TraceValue(t), "\n");
    ReadsTrace(t);
  }

  lemma {:induction false} AnyMemberAppend(ms: seq<Member>, m: Member, style: Style)
    ensures AnyMember(ms + [m], style) <==> AnyMember(ms, style) || LeavesComma(m.value, style)
  {
    if ms == [] {
      assert ms + [m] == [m];
    } else {
      assert (ms + [m])[1..] == ms[1..] + [m];
      AnyMemberAppend(ms[1..], m, style);
    }
  }

  lemma {:induction false} ScalarsLeaveNoComma(ms: seq<Member>, style: Style)
    requires forall i :: 0 <= i < |ms| ==> ms[i].value.Number? || ms[i].value.String?
    ensures !AnyMember(ms, style)
  {
    if ms != [] {
      ScalarsLeaveNoComma(ms[1..], style);
    }
  }

  /** Without the clean-up, the text is JSON only when there is no operation in it. */
  lemma RawTextIsJsonIff(t: Trace)
    requires HarmlessTrace(t)
    ensures Parse(Show(TraceValue(t), 0, TRAILING) + "\n").Done? <==> t.operations == []
  {
    TraceIsPrintable(t);
    WrittenTextReads(TraceValue(t), "\n");
    var m := Member("operations", Array(OperationItems(t.operations)));
    AnyMemberAppend(HeaderMembers(t), m, TRAILING);
    ScalarsLeaveNoComma(HeaderMembers(t), TRAILING);
  }
}
