/** What a consumer command keeps over every sequence of events. */
module ConsumerSafety {
  import opened Wrappers
  import opened StreamRows
  import opened ConsumerSpec

  // ---------- settling ----------

  /** A command settles at most once, and ignores everything afterwards. */
  lemma {:induction false} SettlesOnce(s: State, es: seq<Event>)
    requires s.outcome.Some?
    ensures After(s, es) == s
    decreases |es|
  {
    if es != [] {
      SettlesOnce(Step(s, es[0]), es[1..]);
    }
  }

  // ---------- the invariant ----------

  function TotalRows(responses: seq<Body>): nat {
    if responses == [] then 0 else TotalRows(responses[..|responses| - 1]) + BodyRowCount(responses[|responses| - 1])
  }

  function Last(responses: seq<Body>): Body
    requires responses != []
  {
    responses[|responses| - 1]
  }

  /** The counters of everything accepted so far. */
  ghost predicate Counted(s: State) {
    && s.chunkCount == |s.matched| == |s.under| && s.since <= |s.matched|
    && s.bufferedRows == TotalRows(s.responses) + |RowsOf(s.matched)|
    && (|s.responses| <= 1 ==> s.since == 0)
    && SameSince(s.under, s.since, LastHasRows(s.responses))
  }

  /** The last response decides for every chunk since it. */
  ghost predicate SameSince(under: seq<bool>, since: nat, b: bool) {
    forall k :: since <= k < |under| ==> under[k] == b
  }

  /** Before a response there is nothing; a live command that has one is streaming. */
  ghost predicate Phases(s: State) {
    && (s.outcome.None? ==> WithinLimits(s))
    && (s.outcome.None? && s.responses == [] ==>
          s.activeStreamId.None? && s.raw.None? && s.normalized.None? && s.chunks == [] && s.matched == []
          && s.activeRequestId == s.commandRequestId)
    && (s.outcome.None? && s.responses != [] ==> s.activeStreamId.Some? && s.raw.Some?)
  }

  /** The chunks an aggregated mode keeps: those without rows, and those that found no row array to be merged into. */
  function KeptOf(matched: seq<Chunk>, under: seq<bool>): seq<Chunk>
    requires |under| == |matched|
  {
    if matched == [] then []
    else
      var n := |matched| - 1;
      KeptOf(matched[..n], under[..n]) + (if under[n] && matched[n].Rows() != [] then [] else [matched[n]])
  }

  /** The chunks held beside the response. */
  function Beside(mode: Mode, matched: seq<Chunk>, under: seq<bool>): seq<Chunk>
    requires |under| == |matched|
  {
    if mode.Aggregated() then KeptOf(matched, under) else matched
  }

  /**
   What is held of a stream: the last response, with `rows` in its row array if they are merged, and chunks beside
   it.
   */
  ghost predicate Held(response: Option<Body>, raw: Option<Body>, mode: Mode, base: Body, rows: seq<Row>) {
    if mode.Aggregated() && base.HasRows() then
      && response == Some(base.WithoutMarker().WithRows(rows))
      && raw == Some(base.WithRows(rows))
    else
      && raw == Some(base)
      && (response.Some? ==> response == Some(base))
  }

  /** The rows of the response followed by those of the chunks. */
  function AllRows(base: Body, chunks: seq<Chunk>): seq<Row> {
    (if base.HasRows() then base.Rows() else []) + RowsOf(chunks)
  }

  /**
   What a live command holds: of earlier responses nothing is left but the chunks that could not be merged into
   them.
   */
  ghost predicate LiveOk(s: State)
    requires Counted(s)
  {
    s.outcome.None? ==>
      && s.chunks == Beside(s.mode, s.matched, s.under)
      && (s.responses != [] ==>
            Held(s.normalized, s.raw, s.mode, Last(s.responses), AllRows(Last(s.responses), s.matched[s.since..])))
  }

  ghost predicate OutcomeOk(s: State)
    requires Counted(s)
  {
    s.outcome.Some? && s.outcome.value.Resolved? ==>
      var o := s.outcome.value;
      && WithinLimits(s) && s.responses != []
      && o.chunkCount == s.chunkCount && o.bufferedRows == s.bufferedRows
      && o.chunks == Beside(s.mode, s.matched, s.under)
      && if o.terminal.None? then o.response == o.raw == Last(s.responses)
         else Held(Some(o.response), Some(o.raw), s.mode, Last(s.responses),
                   AllRows(Last(s.responses), s.matched[s.since..]))
  }

  ghost predicate Inv(s: State) {
    Counted(s) && Phases(s) && LiveOk(s) && OutcomeOk(s)
  }

  lemma WithOwnRows(base: Body)
    requires base.HasRows()
    ensures base.WithRows(base.Rows()) == base
  {
  }

  lemma SettledKeeps(s: State, o: Outcome)
    requires s.outcome.None? && !o.Resolved? && Counted(s)
    ensures Inv(Settle(s, o))
  {
  }

  // ---------- responses ----------

  /** A new response is held as it came, with or without its stream marker. */
  lemma HeldAtFirst(base: Body, mode: Mode, normalized: Option<Body>)
    requires normalized.Some? ==> normalized == Some(base)
    requires base.HasRows() ==> normalized.Some?
    ensures Held(if mode.Aggregated() && normalized.Some? then Some(normalized.value.WithoutMarker()) else normalized,
                 Some(base), mode, base, AllRows(base, []))
  {
    if base.HasRows() {
      assert AllRows(base, []) == base.Rows();
      WithOwnRows(base);
      WithOwnRows(base.WithoutMarker());
    }
  }

  lemma AdoptKeeps(s: State, r: Response)
    requires Inv(s) && s.outcome.None? && r.requestId.Some?
    ensures var t := Adopt(s, r);
      Counted(t) && t.chunks == Beside(t.mode, t.matched, t.under) && t.responses != [] && Last(t.responses) == r.body
  {
    assert Adopt(s, r).responses[..|s.responses|] == s.responses;
  }

  lemma StreamStartKeeps(s: State, r: Response)
    requires Inv(s) && s.outcome.None? && r.requestId.Some? && r.streamId.Some? && !r.notification
             && WithinLimits(Adopt(s, r))
    ensures Inv(StartStream(Adopt(s, r), r.streamId))
  {
    AdoptKeeps(s, r);
    var t := Adopt(s, r);
    assert t.matched[t.since..] == [];
    HeldAtFirst(r.body, s.mode, t.normalized);
  }

  lemma AcceptKeeps(s: State, r: Response)
    requires Inv(s) && s.outcome.None? && r.requestId.Some?
    ensures Inv(AcceptStep(s, r))
  {
    var t := Adopt(s, r);
    AdoptKeeps(s, r);
    if !WithinLimits(t) {
      SettledKeeps(t, Rejected(BufferLimit));
    } else if r.notification {
      SettledKeeps(t, Notified);
    } else if r.streamId.Some? {
      StreamStartKeeps(s, r);
    }
  }

  lemma ResponseKeeps(s: State, r: Response)
    requires Inv(s)
    ensures Inv(ResponseStep(s, r))
  {
    if s.outcome.None? {
      SettledKeeps(s, Rejected(InvalidResponse));
      SettledKeeps(s, Rejected(Refused));
      if r.requestId.Some? {
        AcceptKeeps(s, r);
      }
    }
  }

  // ---------- chunks ----------

  lemma MergeRows(b: Body, rows: seq<Row>, c: Chunk)
    requires b.HasRows()
    ensures TryMerge(Some(b.WithRows(rows)), c) == if c.Rows() == [] then None else Some(b.WithRows(rows + c.Rows()))
    ensures b.WithRows(rows).HasRows() && b.WithRows(rows).Rows() == rows
    ensures forall more :: b.WithRows(rows).WithRows(more) == b.WithRows(more)
  {
  }

  /** A chunk is merged exactly when its rows can be pushed, and kept otherwise. */
  lemma HeldGrows(s: State, c: Chunk, base: Body, rows: seq<Row>)
    requires Held(s.normalized, s.raw, s.mode, base, rows)
    ensures var t := Take(s, c);
      && Held(t.normalized, t.raw, t.mode, base, rows + c.Rows())
      && t.chunks == if s.mode.Aggregated() && base.HasRows() && c.Rows() != [] then s.chunks else s.chunks + [c]
  {
    if s.mode.Aggregated() && base.HasRows() {
      MergeRows(base.WithoutMarker(), rows, c);
      MergeRows(base, rows, c);
      if c.Rows() == [] {
        assert rows + c.Rows() == rows;
      }
    } else {
      assert s.normalized.Some? && s.mode.Aggregated() ==> !s.normalized.value.HasRows();
    }
  }

  lemma BesideGrows(mode: Mode, matched: seq<Chunk>, under: seq<bool>, c: Chunk, b: bool)
    requires |under| == |matched|
    ensures Beside(mode, matched + [c], under + [b]) ==
            if mode.Aggregated() && b && c.Rows() != [] then Beside(mode, matched, under)
            else Beside(mode, matched, under) + [c]
  {
    assert (matched + [c])[..|matched|] == matched && (under + [b])[..|matched|] == under;
  }

  lemma RowsGrow(base: Body, matched: seq<Chunk>, since: nat, c: Chunk)
    requires since <= |matched|
    ensures AllRows(base, (matched + [c])[since..]) == AllRows(base, matched[since..]) + c.Rows()
  {
    assert (matched + [c])[since..] == matched[since..] + [c];
    RowsOfAppend(matched[since..], c);
  }

  lemma TakeCounts(s: State, c: Chunk)
    ensures var t := Take(s, c); var k := Count(s, c);
      t == k.(chunks := t.chunks, normalized := t.normalized, raw := t.raw) && t.raw.Some? == s.raw.Some?
  {
  }

  lemma TakeKeeps(s: State, c: Chunk)
    requires Inv(s) && s.outcome.None? && s.responses != []
    ensures var t := Take(s, c); Counted(t) && LiveOk(t)
  {
    TakeCounts(s, c);
    RowsOfAppend(s.matched, c);
    var base := Last(s.responses);
    HeldGrows(s, c, base, AllRows(base, s.matched[s.since..]));
    RowsGrow(base, s.matched, s.since, c);
    BesideGrows(s.mode, s.matched, s.under, c, base.HasRows());
  }

  lemma ChunkKeeps(s: State, c: Chunk)
    requires Inv(s)
    ensures Inv(ChunkStep(s, c))
  {
    if s.outcome.None? && Matches(s, c.requestId, c.streamId) {
      TakeKeeps(s, c);
      TakeCounts(s, c);
      SettledKeeps(Take(s, c), Rejected(BufferLimit));
    }
  }

  lemma CompleteKeeps(s: State, c: Complete)
    requires Inv(s)
    ensures Inv(CompleteStep(s, c))
  {
  }

  lemma EndedKeeps(s: State)
    requires Inv(s)
    ensures Inv(Settle(s, Rejected(External)))
  {
    if s.outcome.None? {
      SettledKeeps(s, Rejected(External));
    }
  }

  lemma StepKeeps(s: State, e: Event)
    requires Inv(s)
    ensures Inv(Step(s, e))
  {
    match e
    case GotResponse(r) => ResponseKeeps(s, r);
    case GotChunk(c) => ChunkKeeps(s, c);
    case GotComplete(c) => CompleteKeeps(s, c);
    case Ended => EndedKeeps(s);
  }

  lemma {:induction false} RunKeeps(s: State, es: seq<Event>)
    requires Inv(s)
    ensures Inv(After(s, es))
    decreases |es|
  {
    if es != [] {
      StepKeeps(s, es[0]);
      RunKeeps(Step(s, es[0]), es[1..]);
    }
  }

  lemma InitialInv(mode: Mode, limits: Limits, id: string)
    ensures Inv(Initial(mode, limits, id))
  {
  }

  // ---------- what the mode does not touch ----------

  lemma {:induction false} FixedInputs(s: State, es: seq<Event>)
    ensures After(s, es).mode == s.mode && After(s, es).limits == s.limits
            && After(s, es).commandRequestId == s.commandRequestId
    decreases |es|
  {
    if es != [] {
      FixedInputs(Step(s, es[0]), es[1..]);
    }
  }

  /** Two commands that saw the same events and differ only in how they hold rows. */
  ghost predicate Alike(s: State, t: State) {
    && s.limits == t.limits && s.commandRequestId == t.commandRequestId
    && s.activeRequestId == t.activeRequestId && s.activeStreamId == t.activeStreamId
    && s.chunkCount == t.chunkCount && s.bufferedBytes == t.bufferedBytes && s.bufferedRows == t.bufferedRows
    && s.matched == t.matched && s.responses == t.responses && s.since == t.since && s.under == t.under
    && s.raw.Some? == t.raw.Some?
    && (s.outcome.Some? <==> t.outcome.Some?)
    && (s.outcome.Some? ==>
          match s.outcome.value
          case Resolved(_, _, _, n, m, terminal) =>
            var o := t.outcome.value; o.Resolved? && o.chunkCount == n && o.bufferedRows == m && o.terminal == terminal
          case o => t.outcome == Some(o))
  }

  lemma AlikeSettled(s: State, t: State, o: Outcome)
    requires Alike(s, t) && s.outcome.None? && !o.Resolved?
    ensures Alike(Settle(s, o), Settle(t, o))
  {
  }

  lemma AlikeResponse(s: State, t: State, r: Response)
    requires Alike(s, t) && s.outcome.None?
    ensures Alike(ResponseStep(s, r), ResponseStep(t, r))
  {
    AlikeSettled(s, t, Rejected(InvalidResponse));
    AlikeSettled(s, t, Rejected(Refused));
    if r.requestId.Some? {
      AlikeAccept(s, t, r);
    }
  }

  lemma AlikeAccept(s: State, t: State, r: Response)
    requires Alike(s, t) && s.outcome.None? && r.requestId.Some?
    ensures Alike(AcceptStep(s, r), AcceptStep(t, r))
  {
    assert Alike(Adopt(s, r), Adopt(t, r));
    AlikeSettled(Adopt(s, r), Adopt(t, r), Rejected(BufferLimit));
    AlikeSettled(Adopt(s, r), Adopt(t, r), Notified);
  }

  lemma AlikeTaken(s: State, t: State)
    requires Alike(s, t) && s.outcome.None?
    ensures var o := Rejected(BufferLimit);
      Alike(if WithinLimits(s) then s else Settle(s, o), if WithinLimits(t) then t else Settle(t, o))
  {
  }

  lemma AlikeChunk(s: State, t: State, c: Chunk)
    requires Alike(s, t) && s.outcome.None?
    ensures Alike(ChunkStep(s, c), ChunkStep(t, c))
  {
    TakeCounts(s, c);
    TakeCounts(t, c);
    if Matches(s, c.requestId, c.streamId) {
      AlikeTaken(Take(s, c), Take(t, c));
    }
  }

  lemma AlikeStep(s: State, t: State, e: Event)
    requires Alike(s, t)
    ensures Alike(Step(s, e), Step(t, e))
  {
    if s.outcome.None? {
      match e
      case GotResponse(r) => AlikeResponse(s, t, r);
      case GotChunk(c) => AlikeChunk(s, t, c);
      case GotComplete(c) =>
      case Ended =>
    }
  }

  /** The response mode decides how rows are held, and nothing else about a command. */
  lemma {:induction false} ModeChangesNothingElse(s: State, t: State, es: seq<Event>)
    requires Alike(s, t)
    ensures Alike(After(s, es), After(t, es))
    decreases |es|
  {
    if es != [] {
      AlikeStep(s, t, es[0]);
      ModeChangesNothingElse(Step(s, es[0]), Step(t, es[0]), es[1..]);
    }
  }
}
