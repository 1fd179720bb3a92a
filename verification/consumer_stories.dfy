/**
 What the events of a consumer command tell, without the command: which responses start a stream,
 which chunks belong to it, and which rows they come to in each mode.
 */
module ConsumerStories {
  import opened Wrappers
  import opened StreamRows
  import opened ConsumerSpec
  import opened ConsumerSafety

  /**
   The stream that is open, the responses that started streams, and the chunks that belong to them;
   `since` and `under` as in the state of a command, and the bytes of both on the wire.
   */
  datatype Story = Story(activeId: string, streamId: Option<string>, responses: seq<Body>,
                         chunks: seq<Chunk>, under: seq<bool>, since: nat, bytes: nat)

  /** A response to the command that starts a stream. */
  predicate Starts(r: Response, commandId: string) {
    && r.success && r.identityOk && !r.notification && r.requestId.Some? && r.streamId.Some?
    && (r.requestId == Some(commandId) || r.clientRequestId == Some(commandId))
  }

  function Tell(f: Story, e: Event, commandId: string): Story {
    match e
    case GotResponse(r) =>
      if Starts(r, commandId) then
        f.(activeId := r.requestId.value, streamId := r.streamId,
           responses := f.responses + [r.body], since := |f.chunks|, bytes := f.bytes + r.wireBytes)
      else f
    case GotChunk(c) =>
      if f.streamId.Some? && MatchingChunk(e, f.activeId, commandId, f.streamId.value) != [] then
        f.(chunks := f.chunks + [c], under := f.under + [LastHasRows(f.responses)], bytes := f.bytes + c.wireBytes)
      else f
    case _ => f
  }

  function StoryOf(es: seq<Event>, commandId: string): Story {
    if es == [] then Story(commandId, None, [], [], [], 0, 0)
    else Tell(StoryOf(es[..|es| - 1], commandId), es[|es| - 1], commandId)
  }

  /** The chunks among some events that belong to a stream, in order of arrival. */
  function MatchingChunks(es: seq<Event>, activeId: string, commandId: string, streamId: string): seq<Chunk> {
    if es == [] then []
    else
      MatchingChunks(es[..|es| - 1], activeId, commandId, streamId)
      + MatchingChunk(es[|es| - 1], activeId, commandId, streamId)
  }

  function MatchingChunk(e: Event, activeId: string, commandId: string, streamId: string): seq<Chunk> {
    if e.GotChunk? && (e.chunk.requestId == Some(activeId) || e.chunk.requestId == Some(commandId))
       && (e.chunk.streamId.None? || e.chunk.streamId == Some(streamId))
    then [e.chunk] else []
  }

  /** The chunks between two events, as far as they belong to the stream the first one starts. */
  function ChunksBetween(es: seq<Event>, commandId: string, k: nat, n: nat): seq<Chunk>
    requires k < n <= |es| && es[k].GotResponse? && es[k].response.requestId.Some? && es[k].response.streamId.Some?
  {
    MatchingChunks(es[k + 1..n], es[k].response.requestId.value, commandId, es[k].response.streamId.value)
  }

  ghost predicate StoryOk(f: Story) {
    && |f.under| == |f.chunks| && f.since <= |f.chunks|
    && (f.responses == [] ==> f.chunks == [] && f.streamId.None?)
    && (|f.responses| <= 1 ==> f.since == 0)
    && SameSince(f.under, f.since, LastHasRows(f.responses))
  }

  lemma {:induction false} StoryIsOk(es: seq<Event>, commandId: string)
    ensures StoryOk(StoryOf(es, commandId))
  {
    if es != [] {
      StoryIsOk(es[..|es| - 1], commandId);
    }
  }

  /** The chunks since the last response. */
  function Since(f: Story): seq<Chunk>
    requires f.since <= |f.chunks|
  {
    f.chunks[f.since..]
  }

  /** Event k is the last one that starts a stream, and the chunks since are those of this stream. */
  ghost predicate LastStart(es: seq<Event>, commandId: string, k: int) {
    var f := StoryOf(es, commandId);
    && 0 <= k < |es| && es[k].GotResponse? && Starts(es[k].response, commandId)
    && f.responses == StoryOf(es[..k], commandId).responses + [es[k].response.body]
    && f.since <= |f.chunks| && Since(f) == ChunksBetween(es, commandId, k, |es|)
  }

  ghost predicate Follows(es: seq<Event>, commandId: string, k: int) {
    var f := StoryOf(es, commandId);
    && LastStart(es, commandId, k)
    && f.activeId == es[k].response.requestId.value && f.streamId == es[k].response.streamId
  }

  lemma StartsHere(es: seq<Event>, commandId: string)
    requires es != [] && es[|es| - 1].GotResponse? && Starts(es[|es| - 1].response, commandId)
    ensures Follows(es, commandId, |es| - 1)
  {
    var f := StoryOf(es, commandId);
    assert f.chunks[f.since..] == [];
    assert es[|es|..|es|] == [];
  }

  lemma GoesOn(es: seq<Event>, commandId: string, k: nat)
    requires es != [] && !(es[|es| - 1].GotResponse? && Starts(es[|es| - 1].response, commandId))
    requires Follows(es[..|es| - 1], commandId, k)
    ensures Follows(es, commandId, k)
  {
    var n := |es| - 1;
    var f, tail := StoryOf(es[..n], commandId), es[k + 1..n];
    assert es[..n][k + 1..n] == tail && es[k + 1..n + 1] == tail + [es[n]] && es[..n][..k] == es[..k];
    assert (tail + [es[n]])[..|tail|] == tail;
    if StoryOf(es, commandId).chunks != f.chunks {
      assert (f.chunks + [es[n].chunk])[f.since..] == f.chunks[f.since..] + [es[n].chunk];
    }
  }

  lemma {:induction false} LastStartIs(es: seq<Event>, commandId: string) returns (k: nat)
    requires StoryOf(es, commandId).responses != []
    ensures Follows(es, commandId, k)
  {
    var n := |es| - 1;
    if es[n].GotResponse? && Starts(es[n].response, commandId) {
      k := n;
      StartsHere(es, commandId);
    } else {
      k := LastStartIs(es[..n], commandId);
      GoesOn(es, commandId, k);
    }
  }

  // ---------- rows ----------

  /** The rows of a single success: those of its result, if it has an array of them. */
  function OwnRows(base: Body): seq<Row>
    requires base.Single?
  {
    if base.item.result.Record? && base.item.result.rows.Some? then base.item.result.rows.value else []
  }

  predicate HasMarker(base: Body)
    requires base.Single?
  {
    base.item.result.Record? && base.item.result.streamId.Some?
  }

  /** The rows in the items' response when a stream completes: merged into the last response, or appended late. */
  function StoryRows(mode: Mode, f: Story): seq<Row>
    requires StoryOk(f) && f.responses != [] && Last(f.responses).Single?
  {
    var base := Last(f.responses);
    if mode.ChunkItems? then RowsOf(f.chunks)
    else if mode.Aggregated() && base.HasRows() then base.Rows() + RowsOf(Since(f))
    else OwnRows(base) + (if HasMarker(base) then RowsOf(Beside(mode, f.chunks, f.under)) else [])
  }

  /**
   The rows of a single response's stream: its own, and those of its chunks if the mode or the marker lets them in.
   */
  function SingleStreamRows(mode: Mode, base: Body, chunks: seq<Chunk>): seq<Row>
    requires base.Single?
  {
    if mode.ChunkItems? then RowsOf(chunks)
    else OwnRows(base) + (if HasMarker(base) || (mode.Aggregated() && base.HasRows()) then RowsOf(chunks) else [])
  }

  lemma {:induction false} KeptAll(matched: seq<Chunk>, under: seq<bool>)
    requires |under| == |matched| && forall k :: 0 <= k < |under| ==> !under[k]
    ensures KeptOf(matched, under) == matched
  {
    if matched != [] {
      var n := |matched| - 1;
      assert !under[n];
      KeptAll(matched[..n], under[..n]);
      assert matched == matched[..n] + [matched[n]];
    }
  }

  lemma SingleStory(mode: Mode, f: Story)
    requires StoryOk(f) && f.responses != [] && Last(f.responses).Single?
    requires |f.responses| == 1 || (mode.Aggregated() && Last(f.responses).HasRows())
    ensures StoryRows(mode, f) == SingleStreamRows(mode, Last(f.responses), Since(f))
  {
    if |f.responses| == 1 {
      assert Since(f) == f.chunks;
      if !Last(f.responses).HasRows() {
        KeptAll(f.chunks, f.under);
      }
    }
  }

  // ---------- the chunks that part the modes ----------

  lemma {:induction false} RowsOfConcat(a: seq<Chunk>, b: seq<Chunk>)
    ensures RowsOf(a + b) == RowsOf(a) + RowsOf(b)
  {
    if b == [] {
      assert a + b == a && RowsOf(a) + [] == RowsOf(a);
    } else {
      var n := |b| - 1;
      assert (a + b)[..|a| + n] == a + b[..n];
      RowsOfConcat(a, b[..n]);
    }
  }

  lemma {:induction false} NoRows(chunks: seq<Chunk>)
    ensures RowsOf(chunks) == [] <==> forall k :: 0 <= k < |chunks| ==> chunks[k].Rows() == []
  {
    if chunks != [] {
      var n := |chunks| - 1;
      NoRows(chunks[..n]);
      assert |RowsOf(chunks)| == |RowsOf(chunks[..n])| + |chunks[n].Rows()|;
    }
  }

  lemma NoRowsBefore(matched: seq<Chunk>, since: nat)
    requires since <= |matched|
    ensures RowsOf(matched[..since]) == [] <==> forall k :: 0 <= k < since ==> matched[k].Rows() == []
  {
    NoRows(matched[..since]);
    assert forall k :: 0 <= k < since ==> matched[..since][k] == matched[k];
  }

  lemma NoRowsSince(matched: seq<Chunk>, since: nat)
    requires since <= |matched|
    ensures RowsOf(matched[since..]) == [] <==> forall k :: since <= k < |matched| ==> matched[k].Rows() == []
  {
    var tail := matched[since..];
    NoRows(tail);
    assert forall k :: since <= k < |matched| ==> matched[k] == tail[k - since];
    assert forall k :: 0 <= k < |tail| ==> tail[k] == matched[k + since];
  }

  lemma KeptStep(matched: seq<Chunk>, under: seq<bool>)
    requires |under| == |matched| > 0
    ensures var n := |matched| - 1;
      RowsOf(KeptOf(matched, under)) == RowsOf(KeptOf(matched[..n], under[..n]))
        + (if under[n] then [] else matched[n].Rows())
  {
    var n := |matched| - 1;
    var kept := KeptOf(matched[..n], under[..n]);
    if under[n] && matched[n].Rows() != [] {
      assert KeptOf(matched, under) == kept;
    } else {
      assert KeptOf(matched, under) == kept + [matched[n]];
      RowsOfAppend(kept, matched[n]);
    }
  }

  lemma KeptLength(matched: seq<Chunk>, under: seq<bool>)
    requires |under| == |matched| > 0
    ensures var n := |matched| - 1;
      && |RowsOf(matched)| == |RowsOf(matched[..n])| + |matched[n].Rows()|
      && |RowsOf(KeptOf(matched, under))| ==
           |RowsOf(KeptOf(matched[..n], under[..n]))| + if under[n] then 0 else |matched[n].Rows()|
  {
    KeptStep(matched, under);
  }

  lemma {:induction false} KeptIsNoMore(matched: seq<Chunk>, under: seq<bool>)
    requires |under| == |matched|
    ensures |RowsOf(KeptOf(matched, under))| <= |RowsOf(matched)|
  {
    if matched != [] {
      var n := |matched| - 1;
      KeptIsNoMore(matched[..n], under[..n]);
      KeptLength(matched, under);
    }
  }

  lemma {:induction false} KeptIsAll(matched: seq<Chunk>, under: seq<bool>)
    requires |under| == |matched| && forall k :: 0 <= k < |matched| && under[k] ==> matched[k].Rows() == []
    ensures RowsOf(KeptOf(matched, under)) == RowsOf(matched)
  {
    if matched != [] {
      var n := |matched| - 1;
      KeptIsAll(matched[..n], under[..n]);
      KeptStep(matched, under);
      assert under[n] ==> matched[n].Rows() == [];
    }
  }

  lemma {:induction false} KeptIsLess(matched: seq<Chunk>, under: seq<bool>, k: nat)
    requires |under| == |matched| && k < |matched| && under[k] && matched[k].Rows() != []
    ensures |RowsOf(KeptOf(matched, under))| < |RowsOf(matched)|
  {
    var n := |matched| - 1;
    KeptLength(matched, under);
    if k < n {
      KeptIsLess(matched[..n], under[..n], k);
    } else {
      KeptIsNoMore(matched[..n], under[..n]);
    }
  }

  /**
   Chunk k has rows that one mode outputs and the other does not.  If the last response has a row
   array, those are the chunks before it when it carries a stream marker (in the aggregated modes
   their rows went with an earlier response, or wait beside one whose marker was removed), and the
   chunks since it when it carries none (the raw mode then does not look for them).  If it has only
   a marker, those are the chunks that were merged into an earlier response.
   */
  ghost predicate Parts(f: Story, k: int)
    requires StoryOk(f) && f.responses != [] && Last(f.responses).Single?
  {
    && 0 <= k < |f.chunks| && f.chunks[k].Rows() != []
    && var base := Last(f.responses);
       if base.HasRows() then (if HasMarker(base) then k < f.since else f.since <= k)
       else HasMarker(base) && f.under[k]
  }

  lemma RowsSplit(f: Story)
    requires StoryOk(f)
    ensures RowsOf(f.chunks) == RowsOf(f.chunks[..f.since]) + RowsOf(Since(f))
  {
    assert f.chunks == f.chunks[..f.since] + Since(f);
    RowsOfConcat(f.chunks[..f.since], Since(f));
  }

  /** Rows put between are seen. */
  lemma Between(a: seq<Row>, b: seq<Row>, c: seq<Row>)
    ensures a + c == a + (b + c) <==> b == []
  {
    if b == [] {
      assert b + c == c;
    } else {
      assert |a + c| < |a + (b + c)|;
    }
  }

  lemma AfterPrefix(a: seq<Row>, b: seq<Row>, c: seq<Row>)
    ensures a + b == a + c <==> b == c
  {
    if a + b == a + c {
      assert b == (a + b)[|a|..] && c == (a + c)[|a|..];
    }
  }

  lemma PartsWithRows(mode: Mode, f: Story)
    requires StoryOk(f) && mode.Aggregated() && f.responses != [] && Last(f.responses).HasRows()
    ensures StoryRows(mode, f) == StoryRows(RawJsonRpc, f) <==> forall k :: !Parts(f, k)
  {
    var base := Last(f.responses);
    if HasMarker(base) {
      RowsSplit(f);
      Between(base.Rows(), RowsOf(f.chunks[..f.since]), RowsOf(Since(f)));
      NoRowsBefore(f.chunks, f.since);
      if RowsOf(f.chunks[..f.since]) != [] {
        var k :| 0 <= k < f.since && f.chunks[k].Rows() != [];
        assert Parts(f, k);
      }
    } else {
      AfterPrefix(base.Rows(), RowsOf(Since(f)), []);
      NoRowsSince(f.chunks, f.since);
      if RowsOf(Since(f)) != [] {
        var k :| f.since <= k < |f.chunks| && f.chunks[k].Rows() != [];
        assert Parts(f, k);
      }
    }
  }

  lemma PartsWithoutRows(mode: Mode, f: Story)
    requires StoryOk(f) && mode.Aggregated() && f.responses != [] && Last(f.responses).Single?
    requires !Last(f.responses).HasRows()
    ensures StoryRows(mode, f) == StoryRows(RawJsonRpc, f) <==> forall k :: !Parts(f, k)
  {
    if HasMarker(Last(f.responses)) {
      AfterPrefix(OwnRows(Last(f.responses)), RowsOf(KeptOf(f.chunks, f.under)), RowsOf(f.chunks));
      if exists k :: Parts(f, k) {
        var k :| Parts(f, k);
        KeptIsLess(f.chunks, f.under, k);
      } else {
        forall k | 0 <= k < |f.chunks| && f.under[k] ensures f.chunks[k].Rows() == [] {
          assert !Parts(f, k);
        }
        KeptIsAll(f.chunks, f.under);
      }
    }
  }

  /** An aggregated mode gives the rows of the raw mode if and only if no chunk with rows parts them. */
  lemma PartsExactly(mode: Mode, f: Story)
    requires StoryOk(f) && mode.Aggregated() && f.responses != [] && Last(f.responses).Single?
    ensures StoryRows(mode, f) == StoryRows(RawJsonRpc, f) <==> forall k :: !Parts(f, k)
  {
    if Last(f.responses).HasRows() {
      PartsWithRows(mode, f);
    } else {
      PartsWithoutRows(mode, f);
    }
  }

  /** After one response only, the modes part exactly if it has a row array, no marker, and some chunk has rows. */
  lemma OneResponseParts(es: seq<Event>, commandId: string)
    requires var f := StoryOf(es, commandId); |f.responses| == 1 && Last(f.responses).Single?
    ensures var f := StoryOf(es, commandId); var base := Last(f.responses);
      && StoryOk(f)
      && ((exists k :: Parts(f, k)) <==> base.HasRows() && !HasMarker(base) && RowsOf(f.chunks) != [])
  {
    var f := StoryOf(es, commandId);
    StoryIsOk(es, commandId);
    NoRows(f.chunks);
    if Last(f.responses).HasRows() && !HasMarker(Last(f.responses)) && RowsOf(f.chunks) != [] {
      var k :| 0 <= k < |f.chunks| && f.chunks[k].Rows() != [];
      assert Parts(f, k);
    }
  }
}
