/** What a stream that was resolved contains, and exactly when the response modes agree about its rows. */
module ConsumerTheorems {
  import opened Wrappers
  import opened StreamRows
  import opened ConsumerSpec
  import opened ConsumerSafety
  import opened ConsumerStories

  /** The command resolved at the end of a stream. */
  ghost predicate Streamed(s: State) {
    s.outcome.Some? && s.outcome.value.Resolved? && s.outcome.value.terminal.Some?
  }

  lemma RunInv(mode: Mode, limits: Limits, id: string, es: seq<Event>)
    ensures var s := After(Initial(mode, limits, id), es);
      Inv(s) && s.mode == mode && s.limits == limits && s.commandRequestId == id
  {
    InitialInv(mode, limits, id);
    RunKeeps(Initial(mode, limits, id), es);
    FixedInputs(Initial(mode, limits, id), es);
  }

  lemma {:induction false} AfterAppend(s: State, es: seq<Event>, e: Event)
    ensures After(s, es + [e]) == Step(After(s, es), e)
    decreases |es|
  {
    if es == [] {
      assert [e][1..] == [];
    } else {
      assert (es + [e])[1..] == es[1..] + [e];
      AfterAppend(Step(s, es[0]), es[1..], e);
    }
  }

  // ---------- a command knows what the events tell ----------

  /** What a command has recorded is the story. */
  ghost predicate Records(s: State, f: Story) {
    && s.matched == f.chunks && s.under == f.under && s.since == f.since && s.responses == f.responses
    && s.bufferedBytes == f.bytes
  }

  ghost predicate Tells(s: State, f: Story) {
    Records(s, f) && s.activeRequestId == f.activeId && s.activeStreamId == f.streamId
  }

  /** While a command is not settled, each event tells it what it tells. */
  lemma TellsStep(s: State, f: Story, e: Event)
    requires Tells(s, f) && Step(s, e).outcome.None?
    ensures Tells(Step(s, e), Tell(f, e, s.commandRequestId))
  {
    if e.GotChunk? {
      TakeCounts(s, e.chunk);
    } else if e.GotResponse? && Step(s, e) != s.(ignoredResponses := s.ignoredResponses + 1) {
      AcceptedTells(s, f, e.response);
    }
  }

  lemma AcceptedTells(s: State, f: Story, r: Response)
    requires Tells(s, f) && Step(s, GotResponse(r)).outcome.None?
    requires Step(s, GotResponse(r)) != s.(ignoredResponses := s.ignoredResponses + 1)
    ensures Tells(Step(s, GotResponse(r)), Tell(f, GotResponse(r), s.commandRequestId))
  {
  }

  lemma {:induction false} LiveTells(mode: Mode, limits: Limits, id: string, es: seq<Event>)
    requires After(Initial(mode, limits, id), es).outcome.None?
    ensures Tells(After(Initial(mode, limits, id), es), StoryOf(es, id))
    decreases |es|
  {
    if es != [] {
      var s0, m := Initial(mode, limits, id), |es| - 1;
      assert es == es[..m] + [es[m]];
      AfterAppend(s0, es[..m], es[m]);
      StepsStayOpen(After(s0, es[..m]), es[m]);
      LiveTells(mode, limits, id, es[..m]);
      FixedInputs(s0, es[..m]);
      TellsStep(After(s0, es[..m]), StoryOf(es[..m], id), es[m]);
    }
  }

  lemma StepsStayOpen(s: State, e: Event)
    requires Step(s, e).outcome.None?
    ensures s.outcome.None?
  {
  }

  /** Where a settled run settled. */
  lemma {:induction false} SettledAt(s: State, es: seq<Event>) returns (n: nat)
    requires s.outcome.None? && After(s, es).outcome.Some?
    ensures n < |es| && After(s, es[..n]).outcome.None? && After(s, es) == Step(After(s, es[..n]), es[n])
    decreases |es|
  {
    var t := Step(s, es[0]);
    if t.outcome.Some? {
      SettlesOnce(t, es[1..]);
      n := 0;
    } else {
      var m := SettledAt(t, es[1..]);
      n := m + 1;
      assert es[..n][1..] == es[1..][..m] && es[..n][0] == es[0];
    }
  }

  lemma StreamEnds(s: State, e: Event)
    requires Inv(s) && s.outcome.None? && Streamed(Step(s, e))
    ensures e.GotComplete? && s.responses != []
    ensures Step(s, e) == s.(outcome := Step(s, e).outcome)
    ensures Step(s, e).outcome.value.terminal == Some(e.complete.terminal)
  {
  }

  /** Event n is the complete that resolves the command. */
  ghost predicate CompletedAt(s0: State, es: seq<Event>, n: int) {
    && 0 <= n < |es| && es[n].GotComplete? && After(s0, es[..n]).outcome.None?
    && After(s0, es) == Step(After(s0, es[..n]), es[n])
    && Streamed(After(s0, es)) && After(s0, es).outcome.value.terminal == Some(es[n].complete.terminal)
  }

  /** A stream is resolved by a complete, and by then the command has recorded the story of the events before it. */
  lemma WhereCompleted(mode: Mode, limits: Limits, id: string, es: seq<Event>) returns (n: nat)
    requires Streamed(After(Initial(mode, limits, id), es))
    ensures CompletedAt(Initial(mode, limits, id), es, n)
    ensures var f := StoryOf(es[..n], id);
      Records(After(Initial(mode, limits, id), es), f) && StoryOk(f) && f.responses != []
  {
    var s0 := Initial(mode, limits, id);
    n := SettledAt(s0, es);
    RunInv(mode, limits, id, es[..n]);
    StreamEnds(After(s0, es[..n]), es[n]);
    LiveTells(mode, limits, id, es[..n]);
    StoryIsOk(es[..n], id);
  }

  ghost predicate EndsWith(chunks: seq<Chunk>, tail: seq<Chunk>) {
    |tail| <= |chunks| && chunks[|chunks| - |tail|..] == tail
  }

  /** What a resolved stream holds of the story: rows merged into the last response, and chunks beside it. */
  ghost predicate Holds(mode: Mode, o: Outcome, f: Story)
    requires o.Resolved? && StoryOk(f) && f.responses != []
  {
    var base := Last(f.responses);
    var merged := mode.Aggregated() && base.HasRows();
    && (merged ==> o.response == base.WithoutMarker().WithRows(base.Rows() + RowsOf(Since(f))))
    && (merged ==> o.raw == base.WithRows(base.Rows() + RowsOf(Since(f))))
    && (!merged ==> o.response == o.raw == base && EndsWith(o.chunks, Since(f)))
    && (!merged && |f.responses| == 1 ==> o.chunks == Since(f))
    && o.chunks == Beside(mode, f.chunks, f.under)
    && o.chunkCount == |f.chunks| && o.bufferedRows == TotalRows(f.responses) + |RowsOf(f.chunks)|
  }

  /** Chunks that find no row array are all kept. */
  lemma {:induction false} KeptTail(matched: seq<Chunk>, under: seq<bool>, since: nat)
    requires |under| == |matched| && since <= |matched| && SameSince(under, since, false)
    ensures EndsWith(KeptOf(matched, under), matched[since..])
  {
    if since < |matched| {
      var n := |matched| - 1;
      assert !under[n];
      KeptTail(matched[..n], under[..n], since);
      var kept, tail := KeptOf(matched[..n], under[..n]), matched[..n][since..];
      assert matched[since..] == tail + [matched[n]];
      assert (kept + [matched[n]])[|kept| - |tail|..] == kept[|kept| - |tail|..] + [matched[n]];
    }
  }

  lemma StateHolds(s: State, f: Story)
    requires Inv(s) && Streamed(s) && Records(s, f) && StoryOk(f)
    ensures Holds(s.mode, s.outcome.value, f)
  {
    if !Last(f.responses).HasRows() && s.mode.Aggregated() {
      KeptTail(f.chunks, f.under, f.since);
    }
    if |f.responses| == 1 {
      assert Since(f) == f.chunks;
      if !Last(f.responses).HasRows() {
        KeptAll(f.chunks, f.under);
      }
    }
  }

  /** Event n completes the stream that event k started, the last response the command accepted. */
  ghost predicate EndsAt(s0: State, es: seq<Event>, id: string, k: int, n: int) {
    && CompletedAt(s0, es, n) && LastStart(es[..n], id, k)
    && StoryOk(StoryOf(es[..n], id)) && Since(StoryOf(es[..n], id)) == ChunksBetween(es, id, k, n)
  }

  lemma LastStartOf(es: seq<Event>, id: string, n: nat) returns (k: nat)
    requires n <= |es| && StoryOf(es[..n], id).responses != []
    ensures LastStart(es[..n], id, k) && Last(StoryOf(es[..n], id).responses) == es[k].response.body
    ensures Since(StoryOf(es[..n], id)) == ChunksBetween(es, id, k, n)
  {
    k := LastStartIs(es[..n], id);
    assert es[..n][k + 1..n] == es[k + 1..n];
  }

  /**
   For every sequence of events whose outcome is a stream: some event n is the complete that
   resolves it, some event k before it the last response accepted, and the outcome holds exactly
   what the events before n tell.  The chunks that arrived between the two are there each once and
   in order: as rows pushed to the response's own, or as the last of the chunks kept beside it.
   Before those stand the chunks of earlier streams that were not merged into their responses.
   */
  lemma ResolvedStream(mode: Mode, limits: Limits, id: string, es: seq<Event>)
    requires Streamed(After(Initial(mode, limits, id), es))
    ensures var s0 := Initial(mode, limits, id);
      exists k, n :: EndsAt(s0, es, id, k, n) && Holds(mode, After(s0, es).outcome.value, StoryOf(es[..n], id))
  {
    var n := WhereCompleted(mode, limits, id, es);
    var k := LastStartOf(es, id, n);
    RunInv(mode, limits, id, es);
    StateHolds(After(Initial(mode, limits, id), es), StoryOf(es[..n], id));
    assert EndsAt(Initial(mode, limits, id), es, id, k, n);
  }

  /** What a resolved stream holds was counted, chunk by chunk and row by row, and is within the limits. */
  lemma StreamIsCounted(mode: Mode, limits: Limits, id: string, es: seq<Event>)
    requires Streamed(After(Initial(mode, limits, id), es))
    ensures var s := After(Initial(mode, limits, id), es); var o := s.outcome.value;
      && o.chunkCount == |s.matched| <= limits.maxBufferedChunkItems
      && o.bufferedRows == TotalRows(s.responses) + |RowsOf(s.matched)| <= limits.maxBufferedRows
  {
    RunInv(mode, limits, id, es);
  }

  // ---------- rows in the output ----------

  /** Laying a successful response out in items loses no row. */
  lemma ItemsOut(o: Outcome, mode: Mode, hints: bool)
    requires o.Resolved? && o.terminal == Some(Completed) && mode.Aggregated()
    requires o.response.Single? && o.response.item.success
    ensures BuildOutput(o, mode, hints).Ok?
    ensures RowsOut(BuildOutput(o, mode, hints).value) == OwnRows(Aggregate(o.response, o.chunks))
  {
    var a := Aggregate(o.response, o.chunks);
    var items := SingleItems(a.item.result, mode, hints);
    if a.item.result.Record? && a.item.result.rows.Some? {
      ItemsCarryRows(a.item.result, mode, hints);
    } else {
      assert items[..|items| - 1] == [] && ItemRows(items) == ItemRows([]) + [];
    }
  }

  /** Appending late finds the rows of the chunks exactly when the response carries a stream marker. */
  lemma LateRows(base: Body, chunks: seq<Chunk>)
    requires base.Single? && base.item.success
    ensures OwnRows(Aggregate(base, chunks)) == OwnRows(base) + (if HasMarker(base) then RowsOf(chunks) else [])
  {
    assert OwnRows(base) + [] == OwnRows(base);
  }

  /** The stream completed, and its last response is the success of a single command. */
  ghost predicate Completes(s: State) {
    && Streamed(s) && s.outcome.value.terminal == Some(Completed)
    && s.responses != [] && Last(s.responses).Single? && Last(s.responses).item.success
  }

  lemma RowsOfState(s: State, f: Story, hints: bool)
    requires Inv(s) && Completes(s) && Records(s, f) && StoryOk(f)
    ensures var out := BuildOutput(s.outcome.value, s.mode, hints);
      out.Ok? && RowsOut(out.value) == StoryRows(s.mode, f)
  {
    var o := s.outcome.value;
    if s.mode.Aggregated() {
      ItemsOut(o, s.mode, hints);
    }
    LateRows(Last(s.responses), o.chunks);
  }

  ghost predicate Outputs(s: State, hints: bool, rows: seq<Row>)
    requires Streamed(s)
  {
    var out := BuildOutput(s.outcome.value, s.mode, hints);
    out.Ok? && RowsOut(out.value) == rows
  }

  /**
   The rows in the items of a completed stream, in each mode, after any number of responses, are
   what the events before the complete come to; with one response, and in general when they are
   merged, those are its own rows and the rows of the chunks between the two events.
   */
  lemma OutputOfStream(mode: Mode, limits: Limits, id: string, es: seq<Event>, hints: bool)
    requires Completes(After(Initial(mode, limits, id), es))
    ensures var s0 := Initial(mode, limits, id);
      exists k, n :: EndsAt(s0, es, id, k, n) && OutputTells(After(s0, es), hints, es, id, k, n)
  {
    var s := After(Initial(mode, limits, id), es);
    var n := WhereCompleted(mode, limits, id, es);
    var k := LastStartOf(es, id, n);
    RunInv(mode, limits, id, es);
    var f := StoryOf(es[..n], id);
    RowsOfState(s, f, hints);
    assert EndsAt(Initial(mode, limits, id), es, id, k, n);
    if |f.responses| == 1 || (mode.Aggregated() && Last(f.responses).HasRows()) {
      SingleStory(mode, f);
    }
    assert OutputTells(s, hints, es, id, k, n);
  }

  ghost predicate OutputTells(s: State, hints: bool, es: seq<Event>, id: string, k: int, n: int)
    requires Streamed(s) && 0 <= k < n <= |es| && LastStart(es[..n], id, k) && StoryOk(StoryOf(es[..n], id))
  {
    var f, base := StoryOf(es[..n], id), es[k].response.body;
    && base.Single? && Outputs(s, hints, StoryRows(s.mode, f))
    && (|f.responses| == 1 || (s.mode.Aggregated() && base.HasRows()) ==>
          Outputs(s, hints, SingleStreamRows(s.mode, base, ChunksBetween(es, id, k, n))))
  }

  // ---------- merging early and merging late ----------

  ghost predicate SameRows(early: State, late: State, hints: bool)
    requires Streamed(early) && Streamed(late)
  {
    var a, b := BuildOutput(early.outcome.value, early.mode, hints), BuildOutput(late.outcome.value, late.mode, hints);
    a.Ok? && b.Ok? && RowsOut(a.value) == RowsOut(b.value)
  }

  /**
   Merging chunks into the response as they arrive gives the rows that appending them at the end
   gives, for every sequence of events, any number of responses and either aggregated mode, if and
   only if no chunk with rows parts the two.
   */
  lemma MergingEarlyIsMergingLate(mode: Mode, limits: Limits, id: string, es: seq<Event>, hints: bool)
    requires mode.Aggregated() && Completes(After(Initial(mode, limits, id), es))
    ensures var s, t := After(Initial(mode, limits, id), es), After(Initial(RawJsonRpc, limits, id), es);
      && Completes(t)
      && exists n :: CompletedAt(Initial(mode, limits, id), es, n) && PartedBy(s, t, hints, StoryOf(es[..n], id))
  {
    var s, t := After(Initial(mode, limits, id), es), After(Initial(RawJsonRpc, limits, id), es);
    ModeChangesNothingElse(Initial(mode, limits, id), Initial(RawJsonRpc, limits, id), es);
    RunInv(RawJsonRpc, limits, id, es);
    RunInv(mode, limits, id, es);
    var n := WhereCompleted(mode, limits, id, es);
    var f := StoryOf(es[..n], id);
    RowsOfState(s, f, hints);
    RowsOfState(t, f, hints);
    PartsExactly(mode, f);
    assert PartedBy(s, t, hints, f);
  }

  ghost predicate PartedBy(early: State, late: State, hints: bool, f: Story)
    requires Streamed(early) && Streamed(late)
  {
    && StoryOk(f) && f.responses != [] && Last(f.responses).Single?
    && BuildOutput(early.outcome.value, early.mode, hints).Ok? && BuildOutput(late.outcome.value, late.mode, hints).Ok?
    && (SameRows(early, late, hints) <==> forall k :: !Parts(f, k))
  }
}
