/**
 Runs in which the response modes give different rows: a row array without a stream marker, and a
 second response that replaces what was merged into the first.
 */
module ConsumerScenarios {
  import opened Wrappers
  import opened StreamRows
  import opened ConsumerSpec
  import opened ConsumerStories
  import opened ConsumerTheorems
  import ConsumerSafety

  const UNLIMITED := Limits(1000, 1000, 1000)

  function BodyOf(rows: Option<seq<Row>>, marker: Option<string>): Body {
    Single(true, Item(true, Record(rows, marker, None)))
  }

  /** The success of a single command that starts a stream. */
  function Start(id: string, body: Body, streamId: string): Event {
    GotResponse(Response(Some(id), None, true, true, false, body, Some(streamId), 0))
  }

  function ChunkOf(id: string, streamId: string, row: Row): Chunk {
    Chunk(Some(id), Some(streamId), Some([row]), 0)
  }

  function EndOf(id: string, streamId: string): Event {
    GotComplete(Complete(Some(id), Some(streamId), Completed))
  }

  /** The output of a run that resolves. */
  function OutputOf(mode: Mode, id: string, es: seq<Event>): Option<Output> {
    var s := After(Initial(mode, UNLIMITED, id), es);
    if s.outcome.Some? && s.outcome.value.Resolved? && BuildOutput(s.outcome.value, mode, false).Ok?
    then Some(BuildOutput(s.outcome.value, mode, false).value) else None
  }

  lemma ThreeSteps(s: State, a: Event, b: Event, c: Event)
    ensures After(s, [a] + [b] + [c]) == Step(Step(Step(s, a), b), c)
  {
    AfterAppend(s, [a] + [b], c);
    AfterAppend(s, [a], b);
    assert [a][1..] == [];
  }

  /** A live command that has buffered few rows and chunks, and recorded a story. */
  ghost predicate Live(s: State, mode: Mode, id: string, rows: nat, f: Story) {
    && s.outcome.None? && s.mode == mode && s.limits == UNLIMITED && s.commandRequestId == id
    && s.bufferedBytes == 0 && s.bufferedRows == rows && s.chunkCount == |f.chunks| && Tells(s, f)
  }

  lemma StartStep(s: State, mode: Mode, id: string, rows: nat, f: Story, body: Body, streamId: string)
    requires Live(s, mode, id, rows, f) && rows <= 100 && |f.chunks| <= 100 && BodyRowCount(body) <= 100
    ensures var e := Start(id, body, streamId); var t := Step(s, e);
      Live(t, mode, id, rows + BodyRowCount(body), Tell(f, e, id)) && t.raw.Some?
  {
    var t := Adopt(s, Start(id, body, streamId).response);
    assert WithinLimits(t);
  }

  lemma ChunkStepLive(s: State, mode: Mode, id: string, rows: nat, f: Story, streamId: string, row: Row)
    requires Live(s, mode, id, rows, f) && rows <= 300 && |f.chunks| <= 300
    requires f.activeId == id && f.streamId == Some(streamId)
    ensures var e := GotChunk(ChunkOf(id, streamId, row)); var t := Step(s, e);
      Live(t, mode, id, rows + 1, Tell(f, e, id)) && t.raw.Some? == s.raw.Some?
  {
    ConsumerSafety.TakeCounts(s, ChunkOf(id, streamId, row));
  }

  lemma EndStep(s: State, mode: Mode, id: string, rows: nat, f: Story, streamId: string)
    requires Live(s, mode, id, rows, f) && s.raw.Some? && f.activeId == id && f.streamId == Some(streamId)
    requires f.responses != [] && ConsumerSafety.Last(f.responses).Single?
             && ConsumerSafety.Last(f.responses).item.success
    ensures var t := Step(s, EndOf(id, streamId)); Completes(t) && Records(t, f) && t.mode == mode
  {
  }

  lemma OutputIs(mode: Mode, id: string, es: seq<Event>, f: Story)
    requires var s := After(Initial(mode, UNLIMITED, id), es); Completes(s) && Records(s, f) && StoryOk(f)
    ensures OutputOf(mode, id, es).Some? && RowsOut(OutputOf(mode, id, es).value) == StoryRows(mode, f)
    ensures mode.RawJsonRpc? ==> OutputOf(mode, id, es).value.Whole? && OutputOf(mode, id, es).value.chunks == f.chunks
  {
    RunInv(mode, UNLIMITED, id, es);
    RowsOfState(After(Initial(mode, UNLIMITED, id), es), f, false);
  }

  lemma RowsOfOne(c: Chunk, row: Row)
    requires c.Rows() == [row]
    ensures RowsOf([c]) == [row] && [c][0..] == [c] && [c][1..] == []
  {
    assert [c][..0] == [] && RowsOf([]) + [row] == [row];
  }

  // ---------- one response ----------

  /** A response with rows, one chunk and the complete. */
  function OneResponse(id: string, streamId: string, a: Row, b: Row): seq<Event> {
    [Start(id, BodyOf(Some([a]), None), streamId)] + [GotChunk(ChunkOf(id, streamId, b))] + [EndOf(id, streamId)]
  }

  function OneStory(id: string, streamId: string, a: Row, b: Row): Story {
    Story(id, Some(streamId), [BodyOf(Some([a]), None)], [ChunkOf(id, streamId, b)], [true], 0, 0)
  }

  /** Up to its first chunk. */
  lemma BeginRun(mode: Mode, id: string, streamId: string, a: Row, b: Row)
    ensures var s := Step(Initial(mode, UNLIMITED, id), Start(id, BodyOf(Some([a]), None), streamId));
      var t := Step(s, GotChunk(ChunkOf(id, streamId, b)));
      Live(t, mode, id, 2, OneStory(id, streamId, a, b)) && t.raw.Some?
  {
    var s0, f0 := Initial(mode, UNLIMITED, id), Story(id, None, [], [], [], 0, 0);
    var body := BodyOf(Some([a]), None);
    var f := Story(id, Some(streamId), [body], [], [], 0, 0);
    StartStep(s0, mode, id, 0, f0, body, streamId);
    assert [] + [body] == [body];
    assert Tell(f0, Start(id, body, streamId), id) == f;
    ChunkStepLive(Step(s0, Start(id, body, streamId)), mode, id, 1, f, streamId, b);
    assert [] + [ChunkOf(id, streamId, b)] == [ChunkOf(id, streamId, b)] && [] + [true] == [true];
  }

  lemma OneResponseRun(mode: Mode, id: string, streamId: string, a: Row, b: Row)
    ensures var s := After(Initial(mode, UNLIMITED, id), OneResponse(id, streamId, a, b));
      Completes(s) && Records(s, OneStory(id, streamId, a, b))
  {
    var s0 := Initial(mode, UNLIMITED, id);
    var e, c := Start(id, BodyOf(Some([a]), None), streamId), GotChunk(ChunkOf(id, streamId, b));
    ThreeSteps(s0, e, c, EndOf(id, streamId));
    BeginRun(mode, id, streamId, a, b);
    EndStep(Step(Step(s0, e), c), mode, id, 2, OneStory(id, streamId, a, b), streamId);
  }

  /**
   A row array without a marker: the raw mode leaves the row of the chunk out of the response and
   hands the chunk on beside it, while an aggregated mode has it in the response.
   */
  lemma RawModeLeavesRowsOut(id: string, streamId: string, a: Row, b: Row)
    ensures var es := OneResponse(id, streamId, a, b);
      var early, late := OutputOf(AggregatedJson, id, es), OutputOf(RawJsonRpc, id, es);
      && early.Some? && RowsOut(early.value) == [a, b]
      && late.Some? && RowsOut(late.value) == [a] && late.value.Whole?
         && late.value.chunks == [ChunkOf(id, streamId, b)]
  {
    var es, f := OneResponse(id, streamId, a, b), OneStory(id, streamId, a, b);
    OneResponseRun(AggregatedJson, id, streamId, a, b);
    OneResponseRun(RawJsonRpc, id, streamId, a, b);
    OutputIs(AggregatedJson, id, es, f);
    OutputIs(RawJsonRpc, id, es, f);
    RowsOfOne(ChunkOf(id, streamId, b), b);
    assert [a] + [b] == [a, b] && [a] + [] == [a];
  }

  // ---------- two responses ----------

  /** The same, with a second response before the complete. */
  function TwoResponses(id: string, streamId: string, a: Row, b: Row, second: Body): seq<Event> {
    [Start(id, BodyOf(Some([a]), None), streamId)] + [GotChunk(ChunkOf(id, streamId, b))]
      + [Start(id, second, streamId)]
    + [EndOf(id, streamId)]
  }

  function TwoStory(id: string, streamId: string, a: Row, b: Row, second: Body): Story {
    Story(id, Some(streamId), [BodyOf(Some([a]), None)] + [second], [ChunkOf(id, streamId, b)], [true], 1, 0)
  }

  lemma TwoResponsesRun(mode: Mode, id: string, streamId: string, a: Row, b: Row, second: Body)
    requires BodyRowCount(second) <= 100 && second.Single? && second.item.success
    ensures var s := After(Initial(mode, UNLIMITED, id), TwoResponses(id, streamId, a, b, second));
      Completes(s) && Records(s, TwoStory(id, streamId, a, b, second))
  {
    var s0 := Initial(mode, UNLIMITED, id);
    var e, c := Start(id, BodyOf(Some([a]), None), streamId), GotChunk(ChunkOf(id, streamId, b));
    var d := Start(id, second, streamId);
    ThreeSteps(s0, e, c, d);
    AfterAppend(s0, [e] + [c] + [d], EndOf(id, streamId));
    BeginRun(mode, id, streamId, a, b);
    var t := Step(Step(s0, e), c);
    StartStep(t, mode, id, 2, OneStory(id, streamId, a, b), second, streamId);
    EndStep(Step(t, d), mode, id, 2 + BodyRowCount(second), TwoStory(id, streamId, a, b, second), streamId);
  }

  /**
   A second response with a marker: what was merged into the first one is gone, while the raw mode
   still finds the chunk, whether or not the second response has a row array.
   */
  lemma SecondResponseLosesMergedRows(id: string, streamId: string, a: Row, b: Row, rows: Option<seq<Row>>)
    requires rows.Some? ==> |rows.value| <= 100
    ensures var es := TwoResponses(id, streamId, a, b, BodyOf(rows, Some(streamId)));
      var own := if rows.Some? then rows.value else [];
      var early, late := OutputOf(AggregatedJson, id, es), OutputOf(RawJsonRpc, id, es);
      && early.Some? && RowsOut(early.value) == own
      && late.Some? && RowsOut(late.value) == own + [b]
  {
    var second := BodyOf(rows, Some(streamId));
    var es, f := TwoResponses(id, streamId, a, b, second), TwoStory(id, streamId, a, b, second);
    TwoResponsesRun(AggregatedJson, id, streamId, a, b, second);
    TwoResponsesRun(RawJsonRpc, id, streamId, a, b, second);
    OutputIs(AggregatedJson, id, es, f);
    OutputIs(RawJsonRpc, id, es, f);
    RowsOfOne(ChunkOf(id, streamId, b), b);
    var own := if rows.Some? then rows.value else [];
    assert own + [] == own;
    assert ConsumerSafety.KeptOf(f.chunks, [true]) == [] by {
      assert f.chunks[..0] == [] && [true][..0] == [];
    }
  }
}
