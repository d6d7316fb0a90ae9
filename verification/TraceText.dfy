/** The text of a trace, written out line by line, and that this is what the writer writes. */
module TraceText {
  import opened Decimal
  import opened Json
  import opened Trace

  /** A line with one member and a comma. */
  function Line(tabs: nat, key: string, value: string): string {
    Tabs(tabs) + ("\"" + key + "\": " + value + ",\n")
  }

  function InQuotes(text: string): string {
    "\"" + text + "\""
  }

  function ChunkText(c: Chunk): string {
    Tabs(4) + ("{\n" + Line(5, "time", InQuotes(c.time)) + Line(5, "bytes", Print(c.bytes)) + Tabs(4) + "}") + ",\n"
  }

  function ChunksText(chunks: seq<Chunk>): string {
    if chunks == [] then "" else ChunksText(chunks[..|chunks| - 1]) + ChunkText(chunks[|chunks| - 1])
  }

  function PlaceLines(op: Operation): string {
    "{\n" + Line(3, "type", Print(op.kind)) + Line(3, "runner_id", Print(op.runnerId))
    + Line(3, "channel_id", Print(op.channelId))
  }

  function NameLines(op: Operation, before: string): string {
    before + Line(3, "peer", InQuotes(op.peer)) + Line(3, "bucket", InQuotes(op.bucket))
    + Line(3, "object", InQuotes(op.objectName))
  }

  function ResultLines(op: Operation, before: string): string {
    before + Line(3, "status", Print(op.status)) + Line(3, "bytes", Print(op.bytes))
  }

  function TimeLines(op: Operation, before: string): string {
    before + Line(3, "time", InQuotes(op.time)) + Line(3, "elapsed_time", op.elapsedTime)
  }

  function OperationLines(op: Operation): string {
    TimeLines(op, ResultLines(op, NameLines(op, PlaceLines(op))))
  }

  /** The rest of an object whose last member is an array. */
  function WithArray(lines: string, tabs: nat, key: string, items: string): string {
    lines + (Tabs(tabs + 1) + "\"" + key + "\": [\n" + items + Tabs(tabs + 1) + "]\n") + (Tabs(tabs) + "}")
  }

  function OperationText(op: Operation): string {
    Tabs(2) + WithArray(OperationLines(op), 2, "chunks", ChunksText(op.chunks)) + ",\n"
  }

  function OperationsText(ops: seq<Operation>): string {
    if ops == [] then "" else OperationsText(ops[..|ops| - 1]) + OperationText(ops[|ops| - 1])
  }

  function HeaderText(t: Trace): string {
    "{\n" + Line(1, "time", InQuotes(t.time)) + Line(1, "tag", InQuotes(t.tag)) + Line(1, "duration", t.duration)
  }

  function TraceText(t: Trace): string {
    WithArray(HeaderText(t), 0, "operations", OperationsText(t.operations)) + "\n"
  }

  // ----- The writer writes this text -----

  lemma LineOf(key: string, value: string, tabs: string)
    ensures tabs + (Quoted(key) + ": " + value) + ",\n" == tabs + ("\"" + key + "\": " + value + ",\n")
  {
    assert Quoted(key) + ": " == "\"" + key + "\": ";
  }

  lemma AppendToLine(before: string, tabs: string, member: string, end: string)
    ensures before + tabs + member + end == before + (tabs + member + end)
  {
  }

  lemma OpenedLine(ms: seq<Member>, key: string, v: Json, depth: nat, more: seq<Member>)
    requires more == ms + [Member(key, v)]
    ensures Opened(more, depth) == Opened(ms, depth) + Line(depth + 1, key, Show(v, depth + 1, TRAILING))
  {
    var m := Member(key, v);
    OpenedMore(ms, m, depth);
    AppendToLine(Opened(ms, depth), Tabs(depth + 1), ShowMember(m, depth + 1, TRAILING), ",\n");
    LineOf(key, Show(v, depth + 1, TRAILING), Tabs(depth + 1));
  }

  lemma NothingOpened(depth: nat)
    ensures Opened([], depth) == "{\n" && OpenedArray([], depth) == "[\n"
  {
  }

  lemma ChunkShown(c: Chunk)
    ensures Tabs(4) + Show(Object(ChunkMembers(c)), 4, TRAILING) + ",\n" == ChunkText(c)
  {
    var ms := ChunkMembers(c);
    NothingOpened(4);
    OpenedLine([], "time", String(c.time), 4, ms[..1]);
    OpenedLine(ms[..1], "bytes", Int(c.bytes), 4, ms);
    ClosedObject(ms, 4);
  }

  lemma Associate(a: string, b: string, c: string)
    ensures a + b + c == a + (b + c)
  {
  }

  /** The text of the items up to number `k`, with that of item `k` behind it. */
  lemma OneMoreShown(items: seq<Json>, k: nat, depth: nat, before: string, item: string)
    requires k < |items| && OpenedArray(items[..k], depth) == "[\n" + before
    requires Tabs(depth + 1) + Show(items[k], depth + 1, TRAILING) + ",\n" == item
    ensures OpenedArray(items[..k + 1], depth) == "[\n" + (before + item)
  {
    ArrayMore(items, k, depth);
    Associate("[\n", before, item);
  }

  lemma ChunkPrefix(chunks: seq<Chunk>, k: nat)
    requires |chunks| == k + 1
    ensures var items := ChunkItems(chunks); items[..k] == ChunkItems(chunks[..k]) && items[..k + 1] == items
  {
  }

  lemma {:induction false} ChunksShown(chunks: seq<Chunk>)
    ensures OpenedArray(ChunkItems(chunks), 3) == "[\n" + ChunksText(chunks)
  {
    if chunks == [] {
      NothingOpened(3);
    } else {
      var k := |chunks| - 1;
      var items := ChunkItems(chunks);
      ChunksShown(chunks[..k]);
      ChunkShown(chunks[k]);
      ChunkPrefix(chunks, k);
      OneMoreShown(items, k, 3, ChunksText(chunks[..k]), ChunkText(chunks[k]));
    }
  }

  lemma PlaceShown(op: Operation)
    ensures Opened(CallMembers(op)[..3], 2) == PlaceLines(op)
  {
    var ms := CallMembers(op);
    NothingOpened(2);
    OpenedLine([], "type", Int(op.kind), 2, ms[..1]);
    OpenedLine(ms[..1], "runner_id", Int(op.runnerId), 2, ms[..2]);
    OpenedLine(ms[..2], "channel_id", Int(op.channelId), 2, ms[..3]);
  }

  lemma NamesShown(op: Operation, before: string)
    requires Opened(CallMembers(op)[..3], 2) == before
    ensures Opened(CallMembers(op), 2) == NameLines(op, before)
  {
    var ms := CallMembers(op);
    OpenedLine(ms[..3], "peer", String(op.peer), 2, ms[..4]);
    OpenedLine(ms[..4], "bucket", String(op.bucket), 2, ms[..5]);
    OpenedLine(ms[..5], "object", String(op.objectName), 2, ms);
  }

  lemma ResultShown(op: Operation, ms: seq<Member>, before: string)
    requires Opened(ms, 2) == before
    ensures Opened(ms + OutcomeMembers(op)[..2], 2) == ResultLines(op, before)
  {
    var more := OutcomeMembers(op);
    OpenedLine(ms, "status", Int(op.status), 2, ms + more[..1]);
    OpenedLine(ms + more[..1], "bytes", Int(op.bytes), 2, ms + more[..2]);
  }

  lemma TimesShown(op: Operation, ms: seq<Member>, before: string)
    requires Opened(ms + OutcomeMembers(op)[..2], 2) == before
    ensures Opened(ms + OutcomeMembers(op), 2) == TimeLines(op, before)
  {
    var more := OutcomeMembers(op);
    OpenedLine(ms + more[..2], "time", String(op.time), 2, ms + more[..3]);
    OpenedLine(ms + more[..3], "elapsed_time", Number(op.elapsedTime), 2, ms + more);
  }

  lemma LinesShown(op: Operation)
    ensures Opened(CallMembers(op) + OutcomeMembers(op), 2) == OperationLines(op)
  {
    PlaceShown(op);
    NamesShown(op, PlaceLines(op));
    ResultShown(op, CallMembers(op), NameLines(op, PlaceLines(op)));
    TimesShown(op, CallMembers(op), ResultLines(op, NameLines(op, PlaceLines(op))));
  }

  lemma ArrayLine(tabs: string, key: string, quoted: string, items: string)
    requires quoted == "\"" + key + "\""
    ensures tabs + quoted + ": " + ("[\n" + items + tabs + "]") + "\n"
      == tabs + "\"" + key + "\": [\n" + items + tabs + "]\n"
  {
    assert quoted + ": " + "[\n" == "\"" + key + "\": [\n";
    assert "]" + "\n" == "]\n";
  }

  lemma EndLine(lines: string, line: string, close: string)
    ensures lines + line + ("\n" + close) == lines + (line + "\n") + close
  {
  }

  /** An object with an array as its last member. */
  lemma ObjectShown(ms: seq<Member>, key: string, items: seq<Json>, depth: nat, lines: string, text: string)
    requires ms != [] && Opened(ms, depth) == lines && OpenedArray(items, depth + 1) == "[\n" + text
    ensures Show(Object(ms + [Member(key, Array(items))]), depth, TRAILING) == WithArray(lines, depth, key, text)
  {
    var tabs, close := Tabs(depth + 1), Tabs(depth) + "}";
    ClosedArray(items, depth + 1);
    ClosedWithArray(ms, key, items, depth);
    ArrayLine(tabs, key, Quoted(key), text);
    EndLine(lines, tabs + Quoted(key) + ": " + ("[\n" + text + tabs + "]"), close);
    assert "\n" + Tabs(depth) + "}" == "\n" + close;
  }

  lemma OperationShown(op: Operation)
    ensures Tabs(2) + Show(Object(OperationMembers(op)), 2, TRAILING) + ",\n" == OperationText(op)
  {
    LinesShown(op);
    ChunksShown(op.chunks);
    ObjectShown(CallMembers(op) + OutcomeMembers(op), "chunks", ChunkItems(op.chunks), 2, OperationLines(op),
                ChunksText(op.chunks));
  }

  lemma OperationPrefix(ops: seq<Operation>, k: nat)
    requires |ops| == k + 1
    ensures var items := OperationItems(ops); items[..k] == OperationItems(ops[..k]) && items[..k + 1] == items
  {
  }

  lemma {:induction false} OperationsShown(ops: seq<Operation>)
    ensures OpenedArray(OperationItems(ops), 1) == "[\n" + OperationsText(ops)
  {
    if ops == [] {
      NothingOpened(1);
    } else {
      var k := |ops| - 1;
      var items := OperationItems(ops);
      OperationsShown(ops[..k]);
      OperationShown(ops[k]);
      OperationPrefix(ops, k);
      OneMoreShown(items, k, 1, OperationsText(ops[..k]), OperationText(ops[k]));
    }
  }

  lemma HeaderShown(t: Trace)
    ensures Opened(HeaderMembers(t), 0) == HeaderText(t)
  {
    var ms := HeaderMembers(t);
    NothingOpened(0);
    OpenedLine([], "time", String(t.time), 0, ms[..1]);
    OpenedLine(ms[..1], "tag", String(t.tag), 0, ms[..2]);
    OpenedLine(ms[..2], "duration", Number(t.duration), 0, ms);
  }

  /** What is written is exactly this text. */
  lemma TraceShown(t: Trace)
    ensures Show(TraceValue(t), 0, TRAILING) + "\n" == TraceText(t)
  {
    HeaderShown(t);
    OperationsShown(t.operations);
    ObjectShown(HeaderMembers(t), "operations", OperationItems(t.operations), 0, HeaderText(t),
                OperationsText(t.operations));
  }
}
