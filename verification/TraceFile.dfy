/** A trace through its file: written by the benchmark, read back as text by the analysis. */
module TraceFile {
  import opened Wrappers
  import opened Json
  import opened CleanJson
  import opened TextMode
  import opened Trace

  /** The reader's whole way from the characters in the file to the trace. */
  function ReadFile(file: string): Option<Trace> {
    ReadTrace(Translate(file))
  }

  function TranslateChunk(c: Chunk): Chunk {
    c.(time := Translate(c.time))
  }

  function TranslateOperation(op: Operation): Operation {
    op.(peer := Translate(op.peer), bucket := Translate(op.bucket), objectName := Translate(op.objectName),
        time := Translate(op.time), chunks := TranslateChunks(op.chunks))
  }

  function TranslateChunks(chunks: seq<Chunk>): (r: seq<Chunk>)
    ensures |r| == |chunks|
    ensures forall i :: 0 <= i < |r| ==> r[i] == TranslateChunk(chunks[i])
  {
    seq(|chunks|, i requires 0 <= i < |chunks| => TranslateChunk(chunks[i]))
  }

  function TranslateOperations(ops: seq<Operation>): (r: seq<Operation>)
    ensures |r| == |ops|
    ensures forall i :: 0 <= i < |r| ==> r[i] == TranslateOperation(ops[i])
  {
    seq(|ops|, i requires 0 <= i < |ops| => TranslateOperation(ops[i]))
  }

  /** The trace with every string translated. */
  function TranslateTrace(t: Trace): Trace {
    t.(time := Translate(t.time), tag := Translate(t.tag), operations := TranslateOperations(t.operations))
  }

  predicate OperationHasNoReturn(op: Operation) {
    && '\r' !in op.peer && '\r' !in op.bucket && '\r' !in op.objectName && '\r' !in op.time
    && forall i :: 0 <= i < |op.chunks| ==> '\r' !in op.chunks[i].time
  }

  /** No string of the trace has a carriage return in it. */
  predicate HasNoReturn(t: Trace) {
    && '\r' !in t.time && '\r' !in t.tag
    && forall i :: 0 <= i < |t.operations| ==> OperationHasNoReturn(t.operations[i])
  }

  lemma OperationUntouchedIff(op: Operation)
    ensures TranslateOperation(op) == op <==> OperationHasNoReturn(op)
  {
    TranslateIsIdentityIff(op.peer);
    TranslateIsIdentityIff(op.bucket);
    TranslateIsIdentityIff(op.objectName);
    TranslateIsIdentityIff(op.time);
    forall i | 0 <= i < |op.chunks|
      ensures TranslateChunks(op.chunks)[i] == op.chunks[i] <==> '\r' !in op.chunks[i].time
    {
      TranslateIsIdentityIff(op.chunks[i].time);
    }
  }

  lemma TraceUntouchedIff(t: Trace)
    ensures TranslateTrace(t) == t <==> HasNoReturn(t)
  {
    TranslateIsIdentityIff(t.time);
    TranslateIsIdentityIff(t.tag);
    forall i | 0 <= i < |t.operations|
      ensures TranslateOperations(t.operations)[i] == t.operations[i] <==> OperationHasNoReturn(t.operations[i])
    {
      OperationUntouchedIff(t.operations[i]);
    }
  }

  lemma TranslateKeepsTraceHarmless(t: Trace)
    requires HarmlessTrace(t)
    ensures HarmlessTrace(TranslateTrace(t))
  {
    TranslateKeepsHarmless(t.time);
    TranslateKeepsHarmless(t.tag);
    forall i | 0 <= i < |t.operations| ensures HarmlessOperation(TranslateOperation(t.operations[i])) {
      var op := t.operations[i];
      TranslateKeepsHarmless(op.peer);
      TranslateKeepsHarmless(op.bucket);
      TranslateKeepsHarmless(op.objectName);
      TranslateKeepsHarmless(op.time);
      forall j | 0 <= j < |op.chunks| ensures Harmless(TranslateChunk(op.chunks[j]).time) {
        TranslateKeepsHarmless(op.chunks[j].time);
      }
    }
  }

  // ----- Translating the trace's value is translating the trace -----

  lemma MembersTranslated(ms: seq<Member>, ms': seq<Member>)
    requires |ms'| == |ms| && forall i :: 0 <= i < |ms| ==> TranslateMember(ms[i]) == ms'[i]
    ensures TranslateMembers(ms) == ms'
  {
  }

  lemma ChunkTranslates(c: Chunk)
    ensures TranslateValue(Object(ChunkMembers(c))) == Object(ChunkMembers(TranslateChunk(c)))
  {
    MembersTranslated(ChunkMembers(c), ChunkMembers(TranslateChunk(c)));
  }

  lemma ChunksTranslate(chunks: seq<Chunk>)
    ensures TranslateValue(Array(ChunkItems(chunks))) == Array(ChunkItems(TranslateChunks(chunks)))
  {
    forall i | 0 <= i < |chunks|
      ensures TranslateItems(ChunkItems(chunks))[i] == ChunkItems(TranslateChunks(chunks))[i]
    {
      ChunkTranslates(chunks[i]);
    }
  }

  lemma CallTranslates(op: Operation)
    ensures TranslateMembers(CallMembers(op)) == CallMembers(TranslateOperation(op))
  {
    MembersTranslated(CallMembers(op), CallMembers(TranslateOperation(op)));
  }

  lemma OutcomeTranslates(op: Operation)
    ensures TranslateMembers(OutcomeMembers(op)) == OutcomeMembers(TranslateOperation(op))
  {
    MembersTranslated(OutcomeMembers(op), OutcomeMembers(TranslateOperation(op)));
  }

  lemma HeaderTranslates(t: Trace)
    ensures TranslateMembers(HeaderMembers(t)) == HeaderMembers(TranslateTrace(t))
  {
    MembersTranslated(HeaderMembers(t), HeaderMembers(TranslateTrace(t)));
  }

  lemma ListAdded(ms: seq<Member>, ms': seq<Member>, key: string, items: seq<Json>, items': seq<Json>)
    requires TranslateMembers(ms) == ms' && TranslateValue(Array(items)) == Array(items')
    ensures TranslateMembers(ms + [Member(key, Array(items))]) == ms' + [Member(key, Array(items'))]
  {
    MembersTranslated(ms + [Member(key, Array(items))], ms' + [Member(key, Array(items'))]);
  }

  lemma OperationTranslates(op: Operation)
    ensures TranslateValue(Object(OperationMembers(op))) == Object(OperationMembers(TranslateOperation(op)))
  {
    var op' := TranslateOperation(op);
    CallTranslates(op);
    OutcomeTranslates(op);
    ChunksTranslate(op.chunks);
    MembersTranslated(CallMembers(op) + OutcomeMembers(op), CallMembers(op') + OutcomeMembers(op'));
    ListAdded(CallMembers(op) + OutcomeMembers(op), CallMembers(op') + OutcomeMembers(op'),
              "chunks", ChunkItems(op.chunks), ChunkItems(op'.chunks));
  }

  lemma OperationsTranslate(ops: seq<Operation>)
    ensures TranslateValue(Array(OperationItems(ops))) == Array(OperationItems(TranslateOperations(ops)))
  {
    forall i | 0 <= i < |ops|
      ensures TranslateItems(OperationItems(ops))[i] == OperationItems(TranslateOperations(ops))[i]
    {
      OperationTranslates(ops[i]);
    }
  }

  lemma TraceTranslates(t: Trace)
    ensures TranslateValue(TraceValue(t)) == TraceValue(TranslateTrace(t))
  {
    OperationsTranslate(t.operations);
    HeaderTranslates(t);
    ListAdded(HeaderMembers(t), HeaderMembers(TranslateTrace(t)), "operations",
              OperationItems(t.operations), OperationItems(TranslateOperations(t.operations)));
  }

  // ----- The trace's keys are plain -----

  predicate AllPlain(ms: seq<Member>) {
    forall i :: 0 <= i < |ms| ==> PlainMember(ms[i])
  }

  lemma ChunksArePlain(chunks: seq<Chunk>)
    ensures PlainKeys(Array(ChunkItems(chunks)))
  {
    forall i | 0 <= i < |chunks| ensures PlainKeys(ChunkItems(chunks)[i]) {
      assert AllPlain(ChunkMembers(chunks[i]));
    }
  }

  lemma CallIsPlain(op: Operation)
    ensures AllPlain(CallMembers(op))
  {
  }

  lemma OutcomeIsPlain(op: Operation)
    ensures AllPlain(OutcomeMembers(op))
  {
  }

  lemma ConcatIsPlain(ms: seq<Member>, more: seq<Member>, last: Member)
    requires AllPlain(ms) && AllPlain(more) && PlainMember(last)
    ensures PlainKeys(Object(ms + more + [last]))
  {
    assert AllPlain(ms + more + [last]);
  }

  lemma OperationsArePlain(ops: seq<Operation>)
    ensures PlainKeys(Array(OperationItems(ops)))
  {
    forall i | 0 <= i < |ops| ensures PlainKeys(OperationItems(ops)[i]) {
      CallIsPlain(ops[i]);
      OutcomeIsPlain(ops[i]);
      ChunksArePlain(ops[i].chunks);
      ConcatIsPlain(CallMembers(ops[i]), OutcomeMembers(ops[i]), Member("chunks", Array(ChunkItems(ops[i].chunks))));
    }
  }

  lemma TraceIsPlain(t: Trace)
    ensures PlainKeys(TraceValue(t))
  {
    OperationsArePlain(t.operations);
    assert AllPlain(HeaderMembers(t));
    ConcatIsPlain(HeaderMembers(t), [], Member("operations", Array(OperationItems(t.operations))));
    assert HeaderMembers(t) + [] == HeaderMembers(t);
  }

  /** The file that WriteData writes is read back as the trace with its strings translated. So it is read
      back as exactly the same trace if and only if no string has a carriage return in it. */
  lemma FileRoundTrip(t: Trace)
    requires HarmlessTrace(t)
    ensures var file := Show(TraceValue(t), 0, TRAILING) + "\n";
      && ReadFile(file) == Some(TranslateTrace(t))
      && (ReadFile(file) == Some(t) <==> HasNoReturn(t))
  {
    var text := Show(TraceValue(t), 0, TRAILING);
    TraceIsPrintable(t);
    TraceIsPlain(t);
    TranslateShow(TraceValue(t), 0, TRAILING);
    TranslateConcat(text, "\n");
    Untouched("\n");
    TraceTranslates(t);
    TranslateKeepsTraceHarmless(t);
    TraceRoundTrip(TranslateTrace(t));
    TraceUntouchedIff(t);
  }
}
