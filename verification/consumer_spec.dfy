/**
 One consumer command over the socket, as a state machine over the events its handlers apply:
 responses, chunks and completes in the order the decode queue hands them on, and whatever ends
 the command from outside.
 */
module ConsumerSpec {
  import opened Wrappers
  import opened StreamRows

  datatype Limits = Limits(maxBufferedBytes: nat, maxBufferedRows: nat, maxBufferedChunkItems: nat)

  /** How the stream says it ended. */
  datatype Terminal = Completed | Aborted | Failed

  datatype Failure = Refused | InvalidResponse | BufferLimit | External

  datatype Outcome =
    | Notified
    | Resolved(response: Body, raw: Body, chunks: seq<Chunk>, chunkCount: nat, bufferedRows: nat,
               terminal: Option<Terminal>)
    | Rejected(failure: Failure)

  /**
   `matched` and `responses` record, for the theorems, which chunks and responses were accepted;
   `since` is the number of chunks accepted before the last of those responses, and `under` says
   of each chunk whether the last response so far had a row array when it was accepted.
   */
  datatype State = State(mode: Mode, limits: Limits, commandRequestId: string,
                         activeRequestId: string, activeStreamId: Option<string>,
                         raw: Option<Body>, normalized: Option<Body>, chunks: seq<Chunk>,
                         chunkCount: nat, bufferedBytes: nat, bufferedRows: nat,
                         ignoredResponses: nat, ignoredChunks: nat, ignoredCompletes: nat,
                         outcome: Option<Outcome>,
                         matched: seq<Chunk>, responses: seq<Body>, since: nat, under: seq<bool>)

  function Initial(mode: Mode, limits: Limits, id: string): State {
    State(mode, limits, id, id, None, None, None, [], 0, 0, 0, 0, 0, 0, None, [], [], 0, [])
  }

  function Settle(s: State, o: Outcome): State {
    if s.outcome.Some? then s else s.(outcome := Some(o))
  }

  predicate WithinLimits(s: State) {
    && s.bufferedBytes <= s.limits.maxBufferedBytes
    && s.bufferedRows <= s.limits.maxBufferedRows
    && s.chunkCount <= s.limits.maxBufferedChunkItems
  }

  function SumRows(items: seq<Item>): nat {
    if items == [] then 0
    else
      var i := items[|items| - 1];
      SumRows(items[..|items| - 1]) + (if i.success && i.result.Record? then CountRows(i.result.rows) else 0)
  }

  function BodyRowCount(b: Body): nat {
    match b
    case Single(_, item) => if b.HasRows() then |b.Rows()| else 0
    case Batch(items) => SumRows(items)
    case Raw(_) => 0
  }

  // ---------- the events ----------

  /** An agents:command_response that could be decoded. */
  datatype Response = Response(requestId: Option<string>, clientRequestId: Option<string>, success: bool,
                               identityOk: bool, notification: bool, body: Body, streamId: Option<string>,
                               wireBytes: nat)

  datatype Complete = Complete(requestId: Option<string>, streamId: Option<string>, terminal: Terminal)

  datatype Event =
    | GotResponse(response: Response)
    | GotChunk(chunk: Chunk)
    | GotComplete(complete: Complete)
    | Ended // a decode error, an error or disconnect of the socket, the idle timer, or an abort

  /** matchesConsumerStreamPayload */
  predicate Matches(s: State, requestId: Option<string>, streamId: Option<string>) {
    && (requestId == Some(s.activeRequestId) || requestId == Some(s.commandRequestId))
    && s.activeStreamId.Some?
    && (streamId.None? || streamId == s.activeStreamId)
  }

  predicate IsTyped(b: Body) { !(b.Raw? && !b.typed) }

  /** A response that is accepted: what it says replaces what earlier ones said. */
  function Adopt(s: State, r: Response): State
    requires r.requestId.Some?
  {
    s.(activeRequestId := r.requestId.value,
       raw := Some(r.body),
       normalized := if r.notification || !IsTyped(r.body) then None else Some(r.body),
       bufferedBytes := s.bufferedBytes + r.wireBytes,
       bufferedRows := s.bufferedRows + BodyRowCount(r.body),
       responses := s.responses + [r.body],
       since := |s.matched|)
  }

  function ResponseStep(s: State, r: Response): State {
    if s.outcome.Some? then s
    else if r.success && r.requestId.None? then Settle(s, Rejected(InvalidResponse))
    else if r.requestId != Some(s.commandRequestId) && r.clientRequestId != Some(s.commandRequestId) then
      s.(ignoredResponses := s.ignoredResponses + 1)
    else if !r.identityOk then Settle(s, Rejected(InvalidResponse))
    else if !r.success then Settle(s, Rejected(Refused))
    else AcceptStep(s, r)
  }

  /** The command's own successful response: it resolves the command, or starts its stream. */
  function AcceptStep(s: State, r: Response): State
    requires r.requestId.Some?
  {
    var t := Adopt(s, r);
    if !WithinLimits(t) then Settle(t, Rejected(BufferLimit))
    else if r.notification then Settle(t, Notified)
    else if r.streamId.None? then
      Settle(t, Resolved(if t.normalized.Some? then t.normalized.value else r.body, r.body, t.chunks,
                         t.chunkCount, t.bufferedRows, None))
    else StartStream(t, r.streamId)
  }

  function StartStream(s: State, streamId: Option<string>): State {
    s.(activeStreamId := streamId,
       normalized := if s.mode.Aggregated() && s.normalized.Some? then Some(s.normalized.value.WithoutMarker())
                     else s.normalized)
  }

  /** Rows were pushed to the response; the raw payload shares its row array. */
  function Merged(s: State, merged: Body): State {
    s.(normalized := Some(merged),
       raw := if s.raw.Some? && s.raw.value.HasRows() && merged.HasRows()
              then Some(s.raw.value.WithRows(merged.Rows())) else s.raw)
  }

  predicate LastHasRows(responses: seq<Body>) {
    responses != [] && responses[|responses| - 1].HasRows()
  }

  function Count(s: State, c: Chunk): State {
    s.(chunks := s.chunks + [c],
       chunkCount := s.chunkCount + 1,
       bufferedBytes := s.bufferedBytes + c.wireBytes,
       bufferedRows := s.bufferedRows + CountRows(c.rows),
       matched := s.matched + [c],
       under := s.under + [LastHasRows(s.responses)])
  }

  /** A chunk is counted and kept, unless its rows could be merged. */
  function Take(s: State, c: Chunk): State {
    var t := Count(s, c);
    var merged := if s.mode.Aggregated() then TryMerge(s.normalized, c) else None;
    if merged.None? then t else Merged(t, merged.value).(chunks := s.chunks)
  }

  function ChunkStep(s: State, c: Chunk): State {
    if s.outcome.Some? then s
    else if !Matches(s, c.requestId, c.streamId) then s.(ignoredChunks := s.ignoredChunks + 1)
    else
      var t := Take(s, c);
      if WithinLimits(t) then t else Settle(t, Rejected(BufferLimit))
  }

  function CompleteStep(s: State, c: Complete): State {
    if s.outcome.Some? then s
    else if !Matches(s, c.requestId, c.streamId) || s.raw.None? then s.(ignoredCompletes := s.ignoredCompletes + 1)
    else
      Settle(s, Resolved(if s.mode.Aggregated() && s.normalized.Some? then s.normalized.value else s.raw.value,
                         s.raw.value, s.chunks, s.chunkCount, s.bufferedRows, Some(c.terminal)))
  }

  function Step(s: State, e: Event): State {
    match e
    case GotResponse(r) => ResponseStep(s, r)
    case GotChunk(c) => ChunkStep(s, c)
    case GotComplete(c) => CompleteStep(s, c)
    case Ended => Settle(s, Rejected(External))
  }

  function After(s: State, es: seq<Event>): State
    decreases |es|
  {
    if es == [] then s else After(Step(s, es[0]), es[1..])
  }

  // ---------- the node's output ----------

  datatype OutputError = StreamAborted | StreamError | NotSuccessful | UnrecognizedPayload

  datatype Output = Items(items: seq<OutputItem>) | Whole(response: Body, chunks: seq<Chunk>)
    | PerChunk(chunks: seq<Chunk>)

  predicate SomeFail(items: seq<Item>) {
    exists i :: 0 <= i < |items| && !items[i].success
  }

  /** buildNodeOutputItems, for a command that resolved over the socket. */
  function BuildOutput(o: Outcome, mode: Mode, hints: bool): Result<Output, OutputError>
    requires o.Resolved?
  {
    if o.terminal == Some(Aborted) then Err(StreamAborted)
    else if o.terminal == Some(Failed) then Err(StreamError)
    else
      var response := if mode.ChunkItems? then o.response else Aggregate(o.response, o.chunks);
      match mode
      case RawJsonRpc => Ok(Whole(response, o.chunks))
      case ChunkItems => Ok(PerChunk(o.chunks))
      case _ =>
        match response
        case Raw(_) => Err(UnrecognizedPayload)
        case Single(_, item) => if !item.success then Err(NotSuccessful)
          else Ok(Items(SingleItems(item.result, mode, hints)))
        case Batch(items) =>
          if SomeFail(items) then Err(NotSuccessful) else Ok(Whole(response, []))
  }

  /**
   The rows in the items themselves or in their response, or chunk by chunk; a raw item has the
   chunks beside its response, whether or not their rows are in it.
   */
  function RowsOut(o: Output): seq<Row> {
    match o
    case Items(items) => ItemRows(items)
    case Whole(response, _) =>
      if response.Single? && response.item.result.Record? && response.item.result.rows.Some?
      then response.item.result.rows.value else []
    case PerChunk(chunks) => RowsOf(chunks)
  }
}
