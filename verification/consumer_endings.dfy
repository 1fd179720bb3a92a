/** Exactly which events end a consumer command, with which outcome, and which it ignores. */
module ConsumerEndings {
  import opened Wrappers
  import opened StreamRows
  import opened ConsumerSpec
  import opened ConsumerSafety
  import opened ConsumerStories
  import opened ConsumerTheorems

  /** The response answers this command. */
  predicate Own(r: Response, id: string) {
    r.requestId == Some(id) || r.clientRequestId == Some(id)
  }

  /** A chunk or complete with these ids belongs to the stream that is open. */
  predicate Belongs(f: Story, id: string, requestId: Option<string>, streamId: Option<string>) {
    && f.streamId.Some? && (requestId == Some(f.activeId) || requestId == Some(id))
    && (streamId == None || streamId == f.streamId)
  }

  /** The response can be taken: it has an id, answers this command, and is a success of the right identity. */
  predicate Acceptable(r: Response, id: string) {
    r.requestId.Some? && Own(r, id) && r.identityOk && r.success
  }

  function RowCount(f: Story): nat { TotalRows(f.responses) + |RowsOf(f.chunks)| }

  predicate Fits(limits: Limits, bytes: nat, rows: nat, items: nat) {
    bytes <= limits.maxBufferedBytes && rows <= limits.maxBufferedRows && items <= limits.maxBufferedChunkItems
  }

  /** With this response or chunk, what was accepted passes no limit. */
  predicate StillFits(f: Story, e: Event, limits: Limits) {
    match e
    case GotResponse(r) => Fits(limits, f.bytes + r.wireBytes, RowCount(f) + BodyRowCount(r.body), |f.chunks|)
    case GotChunk(c) => Fits(limits, f.bytes + c.wireBytes, RowCount(f) + |c.Rows()|, |f.chunks| + 1)
    case _ => true
  }

  /** The event ends the command, which is rejected with this failure. */
  predicate Rejects(f: Story, e: Event, id: string, limits: Limits, failure: Failure) {
    match failure
    case External => e.Ended?
    case InvalidResponse =>
      e.GotResponse?
      && ((e.response.success && e.response.requestId.None?) || (Own(e.response, id) && !e.response.identityOk))
    case Refused => e.GotResponse? && Own(e.response, id) && e.response.identityOk && !e.response.success
    case BufferLimit =>
      && !StillFits(f, e, limits)
      && if e.GotResponse? then Acceptable(e.response, id)
         else e.GotChunk? && Belongs(f, id, e.chunk.requestId, e.chunk.streamId)
  }

  /** The event ends the command as a notification. */
  predicate Notifies(f: Story, e: Event, id: string, limits: Limits) {
    e.GotResponse? && Acceptable(e.response, id) && StillFits(f, e, limits) && e.response.notification
  }

  /** The event resolves the command: a response without a stream, or the end of the stream. */
  predicate Resolves(f: Story, e: Event, id: string, limits: Limits) {
    || (e.GotResponse? && Acceptable(e.response, id) && StillFits(f, e, limits)
        && !e.response.notification && e.response.streamId.None?)
    || (e.GotComplete? && Belongs(f, id, e.complete.requestId, e.complete.streamId))
  }

  predicate Ends(f: Story, e: Event, id: string, limits: Limits) {
    || Rejects(f, e, id, limits, External) || Rejects(f, e, id, limits, InvalidResponse)
    || Rejects(f, e, id, limits, Refused) || Rejects(f, e, id, limits, BufferLimit)
    || Notifies(f, e, id, limits) || Resolves(f, e, id, limits)
  }

  /** The outcome is the one the event ends the command with. */
  ghost predicate EndedBy(f: Story, e: Event, id: string, limits: Limits, o: Outcome) {
    && (forall failure :: Rejects(f, e, id, limits, failure) <==> o == Rejected(failure))
    && (Notifies(f, e, id, limits) <==> o == Notified)
    && (Resolves(f, e, id, limits) <==> o.Resolved?)
    && (o.Resolved? ==> o.terminal == if e.GotComplete? then Some(e.complete.terminal) else None)
  }

  /** A command that is live, and has been told this story. */
  ghost predicate Told(s: State, f: Story, id: string, limits: Limits) {
    Inv(s) && s.outcome.None? && Tells(s, f) && StoryOk(f) && s.commandRequestId == id && s.limits == limits
  }

  lemma AcceptedEnds(s: State, f: Story, r: Response, id: string, limits: Limits)
    requires Told(s, f, id, limits) && Acceptable(r, id)
    ensures var t, e := AcceptStep(s, r), GotResponse(r);
      && (t.outcome.Some? <==> Ends(f, e, id, limits))
      && (t.outcome.Some? ==> EndedBy(f, e, id, limits, t.outcome.value))
  {
    assert WithinLimits(Adopt(s, r)) <==> StillFits(f, GotResponse(r), limits);
  }

  lemma ResponseEnds(s: State, f: Story, r: Response, id: string, limits: Limits)
    requires Told(s, f, id, limits)
    ensures var t, e := Step(s, GotResponse(r)), GotResponse(r);
      && (t.outcome.Some? <==> Ends(f, e, id, limits))
      && (t.outcome.Some? ==> EndedBy(f, e, id, limits, t.outcome.value))
  {
    if Acceptable(r, id) {
      AcceptedEnds(s, f, r, id, limits);
    }
  }

  lemma ChunkEnds(s: State, f: Story, c: Chunk, id: string, limits: Limits)
    requires Told(s, f, id, limits)
    ensures var t, e := Step(s, GotChunk(c)), GotChunk(c);
      && (t.outcome.Some? <==> Ends(f, e, id, limits))
      && (t.outcome.Some? ==> EndedBy(f, e, id, limits, t.outcome.value))
  {
    TakeCounts(s, c);
  }

  lemma StepEnds(s: State, f: Story, e: Event, id: string, limits: Limits)
    requires Told(s, f, id, limits)
    ensures var t := Step(s, e);
      && (t.outcome.Some? <==> Ends(f, e, id, limits))
      && (t.outcome.Some? ==> EndedBy(f, e, id, limits, t.outcome.value))
  {
    match e
    case GotResponse(r) => ResponseEnds(s, f, r, id, limits);
    case GotChunk(c) => ChunkEnds(s, f, c, id, limits);
    case GotComplete(_) =>
    case Ended =>
  }

  lemma LiveIsTold(mode: Mode, limits: Limits, id: string, es: seq<Event>)
    requires After(Initial(mode, limits, id), es).outcome.None?
    ensures Told(After(Initial(mode, limits, id), es), StoryOf(es, id), id, limits)
  {
    RunInv(mode, limits, id, es);
    LiveTells(mode, limits, id, es);
    StoryIsOk(es, id);
  }

  /** Event n of the run ends a command that has been told the events before it. */
  ghost predicate EndsAtEvent(es: seq<Event>, id: string, limits: Limits, n: int) {
    0 <= n < |es| && Ends(StoryOf(es[..n], id), es[n], id, limits)
  }

  /** As long as no event ends it, a command is not settled. */
  lemma {:induction false} StaysLive(mode: Mode, limits: Limits, id: string, es: seq<Event>, m: nat)
    requires m <= |es| && forall n :: 0 <= n < m ==> !EndsAtEvent(es, id, limits, n)
    ensures After(Initial(mode, limits, id), es[..m]).outcome.None?
  {
    if m > 0 {
      var s0 := Initial(mode, limits, id);
      StaysLive(mode, limits, id, es, m - 1);
      assert es[..m] == es[..m - 1] + [es[m - 1]];
      AfterAppend(s0, es[..m - 1], es[m - 1]);
      LiveIsTold(mode, limits, id, es[..m - 1]);
      assert !EndsAtEvent(es, id, limits, m - 1);
      StepEnds(After(s0, es[..m - 1]), StoryOf(es[..m - 1], id), es[m - 1], id, limits);
    }
  }

  /**
   In every run: a command has settled if and only if some event ended it, and its outcome is the
   one the first such event ends it with.
   */
  lemma SettlesExactly(mode: Mode, limits: Limits, id: string, es: seq<Event>)
    ensures var o := After(Initial(mode, limits, id), es).outcome;
      && (o.Some? <==> exists n :: EndsAtEvent(es, id, limits, n))
      && (o.Some? ==>
          exists n :: EndsAtEvent(es, id, limits, n) && (forall m :: 0 <= m < n ==> !EndsAtEvent(es, id, limits, m))
                      && EndedBy(StoryOf(es[..n], id), es[n], id, limits, o.value))
  {
    var s0 := Initial(mode, limits, id);
    if n :| EndsAtEvent(es, id, limits, n) {
      var first := FirstEnd(es, id, limits, n);
      StaysLive(mode, limits, id, es, first);
      LiveIsTold(mode, limits, id, es[..first]);
      StepEnds(After(s0, es[..first]), StoryOf(es[..first], id), es[first], id, limits);
      StaysSettled(s0, es, first);
    } else {
      StaysLive(mode, limits, id, es, |es|);
      assert es[..|es|] == es;
    }
  }

  lemma {:induction false} FirstEnd(es: seq<Event>, id: string, limits: Limits, n: nat) returns (first: nat)
    requires EndsAtEvent(es, id, limits, n)
    ensures EndsAtEvent(es, id, limits, first) && forall m :: 0 <= m < first ==> !EndsAtEvent(es, id, limits, m)
  {
    if m :| 0 <= m < n && EndsAtEvent(es, id, limits, m) {
      first := FirstEnd(es, id, limits, m);
    } else {
      first := n;
    }
  }

  lemma {:induction false} StaysSettled(s: State, es: seq<Event>, n: nat)
    requires n < |es| && Step(After(s, es[..n]), es[n]).outcome.Some?
    ensures After(s, es) == Step(After(s, es[..n]), es[n])
    decreases |es|
  {
    if n == 0 {
      assert es[..0] == [];
      SettlesOnce(Step(s, es[0]), es[1..]);
    } else {
      assert es[..n][1..] == es[1..][..n - 1] && es[..n][0] == es[0];
      StaysSettled(Step(s, es[0]), es[1..], n - 1);
    }
  }

  // ---------- what is meant for others ----------

  /** A response, chunk or complete for another command or stream is counted as ignored, and changes nothing else. */
  lemma OthersAreIgnored(s: State, f: Story, e: Event, id: string, limits: Limits)
    requires Told(s, f, id, limits)
    ensures var t := Step(s, e);
      && (e.GotResponse? && !Own(e.response, id) && (e.response.success ==> e.response.requestId.Some?) ==>
            t == s.(ignoredResponses := s.ignoredResponses + 1))
      && (e.GotChunk? && !Belongs(f, id, e.chunk.requestId, e.chunk.streamId) ==>
            t == s.(ignoredChunks := s.ignoredChunks + 1))
      && (e.GotComplete? && !Belongs(f, id, e.complete.requestId, e.complete.streamId) ==>
            t == s.(ignoredCompletes := s.ignoredCompletes + 1))
  {
  }

  /** A live command has buffered the bytes, rows and chunks of what it accepted. */
  lemma BuffersExactly(mode: Mode, limits: Limits, id: string, es: seq<Event>)
    requires After(Initial(mode, limits, id), es).outcome.None?
    ensures var s, f := After(Initial(mode, limits, id), es), StoryOf(es, id);
      s.bufferedBytes == f.bytes && s.bufferedRows == RowCount(f) && s.chunkCount == |f.chunks|
      && Fits(limits, f.bytes, RowCount(f), |f.chunks|)
  {
    LiveIsTold(mode, limits, id, es);
  }

  /** The rows of the items of a batch that succeeded, in order. */
  function BatchRows(items: seq<Item>): seq<Row> {
    if items == [] then []
    else
      BatchRows(items[..|items| - 1]) +
      match items[|items| - 1]
      case Item(true, Record(Some(rows), _, _)) => rows
      case _ => []
  }

  /** The rows of a response are counted as those it carries, item by item. */
  lemma {:induction false} RowsAreCounted(items: seq<Item>)
    ensures BodyRowCount(Batch(items)) == |BatchRows(items)|
  {
    if items != [] {
      RowsAreCounted(items[..|items| - 1]);
    }
  }

  /** What is meant for the command is not counted as ignored. */
  lemma OwnAreNotIgnored(s: State, f: Story, e: Event, id: string, limits: Limits)
    requires Told(s, f, id, limits)
    ensures var t := Step(s, e);
      && (e.GotResponse? && Own(e.response, id) ==> t.ignoredResponses == s.ignoredResponses)
      && (e.GotChunk? && Belongs(f, id, e.chunk.requestId, e.chunk.streamId) ==> t.ignoredChunks == s.ignoredChunks)
  {
    if e.GotChunk? {
      TakeCounts(s, e.chunk);
    }
  }

  // ---------- the node's output ----------

  predicate SomeFailed(b: Body) {
    || (b.Single? && !b.item.success)
    || (b.Batch? && exists i :: 0 <= i < |b.items| && !b.items[i].success)
  }

  /** A successful single response whose result has a stream marker. */
  predicate IsMarked(b: Body) {
    b.Single? && b.item.success && b.item.result.Record? && b.item.result.streamId.Some?
  }

  /** Appending chunks changes rows and takes the marker away, and nothing a caller is told besides. */
  lemma AggregateKeepsRest(b: Body, chunks: seq<Chunk>)
    ensures var a := Aggregate(b, chunks);
      && (!IsMarked(b) ==> a == b)
      && (IsMarked(b) ==>
            && a.Single? && a.success == b.success && a.item.success && a.item.result.Record?
            && a.item.result.streamId.None? && a.item.result.rowCount == b.item.result.rowCount)
      && (SomeFailed(a) <==> SomeFailed(b))
  {
  }

  /** When there is no output but an error, and which. */
  lemma OutputErrorsExactly(o: ConsumerSpec.Outcome, mode: Mode, hints: bool)
    requires o.Resolved?
    ensures BuildOutput(o, mode, hints) == Err(StreamAborted) <==> o.terminal == Some(Aborted)
    ensures BuildOutput(o, mode, hints) == Err(StreamError) <==> o.terminal == Some(Failed)
    ensures BuildOutput(o, mode, hints) == Err(UnrecognizedPayload) <==>
            o.terminal != Some(Aborted) && o.terminal != Some(Failed) && mode.Aggregated() && o.response.Raw?
    ensures BuildOutput(o, mode, hints) == Err(NotSuccessful) <==>
            o.terminal != Some(Aborted) && o.terminal != Some(Failed) && mode.Aggregated() && SomeFailed(o.response)
  {
    AggregateKeepsRest(o.response, o.chunks);
  }

  /** What the output hands on besides rows: the chunks in the raw mode and per chunk, and a batch as it came. */
  lemma OutputCarries(o: ConsumerSpec.Outcome, mode: Mode, hints: bool)
    requires o.Resolved? && BuildOutput(o, mode, hints).Ok?
    ensures var out := BuildOutput(o, mode, hints).value;
      && (mode.RawJsonRpc? ==> out.Whole? && out.chunks == o.chunks)
      && (mode.ChunkItems? ==> out == PerChunk(o.chunks))
      && (!mode.ChunkItems? && !o.response.Single? ==> out.Whole? && out.response == o.response)
      && (mode.Aggregated() && o.response.Single? ==> out.Items?)
  {
  }

  /** There are no rows, and the result says so. */
  predicate IsEmpty(result: SqlResult)
    requires result.Record?
  {
    result.rows == Some([]) || (result.rows.None? && result.rowCount == Some(0))
  }

  /**
   How a result is laid out in an aggregated mode.  One without rows is a summary of none if it says
   so, and is handed on as it is otherwise.  One with rows is one summary with the row count it states, or
   its number of rows, in single-item mode or beyond the threshold with hints; and row by row else.
   */
  lemma LayoutExactly(result: SqlResult, mode: Mode, hints: bool)
    requires mode.Aggregated()
    ensures var items := SingleItems(result, mode, hints);
      if !result.Record? then items == [ResultItem(result)]
      else if IsEmpty(result) then |items| == 1 && items[0].Summary? && items[0].rowCount == 0 && items[0].rows == []
      else if result.rows.None? then items == [ResultItem(result)]
      else
        var rows := result.rows.value;
        if mode.AggregatedSingleItem? || (hints && |rows| > 1000) then
          && |items| == 1 && items[0].Summary? && items[0].rows == rows
          && items[0].rowCount == (if result.rowCount.Some? then result.rowCount.value else |rows|)
        else
          && |items| == |rows|
          && forall i :: 0 <= i < |rows| ==> items[i].RowItem? && items[i].row == rows[i] && items[i].rowIndex == i
  {
  }
}
