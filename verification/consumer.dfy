/** A consumer command with its accumulated state; row arrays are shared objects that merging pushes to. */
module ConsumerCommands {
  import opened Wrappers
  import opened StreamRows
  import Spec = ConsumerSpec
  import Safety = ConsumerSafety

  /** The array in a result's `rows` field. */
  class RowArray {
    var rows: seq<Row>

    constructor (rows: seq<Row>)
      ensures this.rows == rows
    {
      this.rows := rows;
    }

    method Push(row: Row)
      modifies this
      ensures rows == old(rows) + [row]
    {
      rows := rows + [row];
    }
  }

  /** A response as an object: everything but its row array, and a reference to that. */
  datatype Payload = Payload(shell: Body, rowArray: RowArray?)
  {
    ghost predicate Valid() {
      shell.HasRows() <==> rowArray != null
    }

    ghost function Value(): Body
      requires Valid()
      reads rowArray
    {
      if rowArray == null then shell else shell.WithRows(rowArray.rows)
    }
  }

  class ConsumerCommand {
    const mode: Mode
    const limits: Spec.Limits
    const commandRequestId: string
    var activeRequestId: string
    var activeStreamId: Option<string>
    var rawResponse: Option<Payload>
    var normalized: Option<Payload>
    var chunks: seq<Chunk>
    var chunkCount: nat
    var bufferedBytes: nat
    var bufferedRows: nat
    var ignoredResponses: nat
    var ignoredChunks: nat
    var ignoredCompletes: nat
    var outcome: Option<Spec.Outcome>
    ghost var matched: seq<Chunk>
    ghost var responses: seq<Body>
    ghost var since: nat
    ghost var under: seq<bool>

    ghost function Arrays(): set<object>
      reads this
    {
      (if normalized.Some? && normalized.value.rowArray != null then {normalized.value.rowArray} else {})
      + (if rawResponse.Some? && rawResponse.value.rowArray != null then {rawResponse.value.rowArray} else {})
    }

    /** The normalized response and the raw payload share their row array. */
    ghost predicate Shared()
      reads this
    {
      && (rawResponse.Some? ==> rawResponse.value.Valid())
      && (normalized.Some? ==>
          normalized.value.Valid() && rawResponse.Some? && rawResponse.value.rowArray == normalized.value.rowArray)
    }

    ghost function View(): Spec.State
      requires Shared()
      reads this, Arrays()
    {
      Spec.State(mode, limits, commandRequestId, activeRequestId, activeStreamId,
                 if rawResponse.Some? then Some(rawResponse.value.Value()) else None,
                 if normalized.Some? then Some(normalized.value.Value()) else None,
                 chunks, chunkCount, bufferedBytes, bufferedRows, ignoredResponses, ignoredChunks, ignoredCompletes,
                 outcome, matched, responses, since, under)
    }

    ghost predicate Valid()
      reads this, Arrays()
    {
      Shared() && Safety.Inv(View())
    }

    constructor (mode: Mode, limits: Spec.Limits, id: string)
      ensures Valid() && View() == Spec.Initial(mode, limits, id)
    {
      this.mode, this.limits, commandRequestId := mode, limits, id;
      activeRequestId, activeStreamId, rawResponse, normalized, chunks := id, None, None, None, [];
      chunkCount, bufferedBytes, bufferedRows := 0, 0, 0;
      ignoredResponses, ignoredChunks, ignoredCompletes, outcome := 0, 0, 0, None;
      matched, responses, since, under := [], [], 0, [];
    }

    method Settle(o: Spec.Outcome)
      requires Shared()
      modifies `outcome
      ensures Shared() && View() == Spec.Settle(old(View()), o)
    {
      if outcome.None? {
        outcome := Some(o);
      }
    }

    predicate WithinLimits()
      reads this
    {
      && bufferedBytes <= limits.maxBufferedBytes
      && bufferedRows <= limits.maxBufferedRows
      && chunkCount <= limits.maxBufferedChunkItems
    }

    predicate Matches(requestId: Option<string>, streamId: Option<string>)
      reads this
    {
      && (requestId == Some(activeRequestId) || requestId == Some(commandRequestId))
      && activeStreamId.Some?
      && (streamId.None? || streamId == activeStreamId)
    }

    /** tryMergeChunkRowsIntoConsumerResponse: pushes the rows of a chunk to the shared array, if there is one. */
    method TryMerge(c: Chunk) returns (merged: bool)
      requires Shared()
      modifies if normalized.Some? then {normalized.value.rowArray} else {}
      ensures Shared()
      ensures var m := StreamRows.TryMerge(old(View()).normalized, c);
        merged == m.Some? && View() == if m.Some? then Spec.Merged(old(View()), m.value) else old(View())
    {
      if normalized.None? || normalized.value.rowArray == null || c.Rows() == [] {
        return false;
      }
      var target := normalized.value.rowArray;
      var rows := c.Rows();
      ghost var before := target.rows;
      for k := 0 to |rows|
        invariant target.rows == before + rows[..k]
      {
        target.Push(rows[k]);
      }
      assert target.rows == before + rows;
      Safety.MergeRows(normalized.value.shell, before, c);
      Safety.MergeRows(rawResponse.value.shell, before, c);
      return true;
    }

    method CountChunk(c: Chunk)
      requires Shared()
      modifies `chunks, `chunkCount, `bufferedBytes, `bufferedRows, `matched, `under
      ensures Shared() && View() == Spec.Count(old(View()), c)
    {
      chunks, chunkCount := chunks + [c], chunkCount + 1;
      bufferedBytes, bufferedRows := bufferedBytes + c.wireBytes, bufferedRows + CountRows(c.rows);
      RecordChunk(c);
    }

    ghost method RecordChunk(c: Chunk)
      requires Shared()
      modifies `matched, `under
      ensures Shared()
      ensures View() == old(View()).(matched := matched, under := under)
      ensures matched == old(matched) + [c] && under == old(under) + [Spec.LastHasRows(responses)]
    {
      matched, under := matched + [c], under + [Spec.LastHasRows(responses)];
    }

    ghost method RecordResponse(b: Body)
      requires Shared()
      modifies `responses, `since
      ensures Shared()
      ensures View() == old(View()).(responses := responses, since := since)
      ensures responses == old(responses) + [b] && since == |matched|
    {
      responses, since := responses + [b], |matched|;
    }

    method Take(c: Chunk)
      requires Shared()
      modifies `chunks, `chunkCount, `bufferedBytes, `bufferedRows, `matched, `under,
               if normalized.Some? then {normalized.value.rowArray} else {}
      ensures Shared() && View() == Spec.Take(old(View()), c)
    {
      ghost var kept := chunks;
      CountChunk(c);
      if mode.Aggregated() {
        var merged := TryMerge(c);
        if merged {
          chunks := chunks[..|chunks| - 1];
          assert chunks == kept;
        }
      }
    }

    // ---------- the events ----------

    method GotChunk(c: Chunk)
      requires Valid()
      modifies this, if normalized.Some? then {normalized.value.rowArray} else {}
      ensures Valid() && View() == Spec.Step(old(View()), Spec.GotChunk(c))
    {
      Safety.StepKeeps(View(), Spec.GotChunk(c));
      HandleChunk(c);
    }

    method HandleChunk(c: Chunk)
      requires Shared()
      modifies this, if normalized.Some? then {normalized.value.rowArray} else {}
      ensures Shared() && View() == Spec.ChunkStep(old(View()), c)
    {
      if outcome.Some? {
      } else if !Matches(c.requestId, c.streamId) {
        ignoredChunks := ignoredChunks + 1;
      } else {
        Take(c);
        if !WithinLimits() {
          Settle(Spec.Rejected(Spec.BufferLimit));
        }
      }
    }

    /** A decoded response; `rows` is the array in its result. */
    method GotResponse(r: Spec.Response, rows: RowArray?)
      requires Valid()
      requires r.body.HasRows() <==> rows != null
      requires rows != null ==> rows.rows == r.body.Rows()
      modifies this
      ensures Valid() && View() == Spec.Step(old(View()), Spec.GotResponse(r))
    {
      Safety.StepKeeps(View(), Spec.GotResponse(r));
      HandleResponse(r, rows);
    }

    method HandleResponse(r: Spec.Response, rows: RowArray?)
      requires Shared()
      requires r.body.HasRows() <==> rows != null
      requires rows != null ==> rows.rows == r.body.Rows()
      modifies this
      ensures Shared() && View() == Spec.ResponseStep(old(View()), r)
    {
      if outcome.Some? {
      } else if r.success && r.requestId.None? {
        Settle(Spec.Rejected(Spec.InvalidResponse));
      } else if r.requestId != Some(commandRequestId) && r.clientRequestId != Some(commandRequestId) {
        ignoredResponses := ignoredResponses + 1;
      } else if !r.identityOk {
        Settle(Spec.Rejected(Spec.InvalidResponse));
      } else if !r.success {
        Settle(Spec.Rejected(Spec.Refused));
      } else {
        Accept(r, rows);
      }
    }

    method Accept(r: Spec.Response, rows: RowArray?)
      requires Shared() && r.requestId.Some? && r.success
      requires r.body.HasRows() <==> rows != null
      requires rows != null ==> rows.rows == r.body.Rows()
      modifies this
      ensures Shared() && View() == Spec.AcceptStep(old(View()), r)
    {
      Adopt(r, rows);
      if !WithinLimits() {
        Settle(Spec.Rejected(Spec.BufferLimit));
      } else if r.notification {
        Settle(Spec.Notified);
      } else if r.streamId.None? {
        var response := r.body;
        if normalized.Some? {
          response := Current(normalized.value);
        }
        Settle(Spec.Resolved(response, r.body, chunks, chunkCount, bufferedRows, None));
      } else {
        StartStream(r.streamId);
      }
    }

    /** The raw payload and the normalized response are the same object. */
    method Hold(requestId: string, payload: Payload, typed: bool)
      requires payload.Valid() && Shared()
      modifies `activeRequestId, `rawResponse, `normalized
      ensures Shared()
      ensures View() == old(View()).(activeRequestId := requestId, raw := Some(old(payload.Value())),
                                     normalized := if typed then Some(old(payload.Value())) else None)
    {
      activeRequestId, rawResponse := requestId, Some(payload);
      normalized := if typed then Some(payload) else None;
    }

    method Adopt(r: Spec.Response, rows: RowArray?)
      requires Shared() && r.requestId.Some?
      requires r.body.HasRows() <==> rows != null
      requires rows != null ==> rows.rows == r.body.Rows()
      modifies `activeRequestId, `rawResponse, `normalized, `bufferedBytes, `bufferedRows, `responses, `since
      ensures Shared() && View() == Spec.Adopt(old(View()), r)
    {
      assert Payload(r.body, rows).Valid() && Payload(r.body, rows).Value() == r.body by {
        if rows != null {
          Safety.WithOwnRows(r.body);
        }
      }
      Hold(r.requestId.value, Payload(r.body, rows), !r.notification && Spec.IsTyped(r.body));
      bufferedBytes, bufferedRows := bufferedBytes + r.wireBytes, bufferedRows + Spec.BodyRowCount(r.body);
      RecordResponse(r.body);
    }

    /** removeStreamMarkerFromConsumerResponse copies the response, but not its row array. */
    method StartStream(streamId: Option<string>)
      requires Shared()
      modifies this
      ensures Shared()
      ensures View() == Spec.StartStream(old(View()), streamId)
    {
      activeStreamId := streamId;
      if mode.Aggregated() && normalized.Some? {
        normalized := Some(Payload(normalized.value.shell.WithoutMarker(), normalized.value.rowArray));
      }
    }

    method GotComplete(c: Spec.Complete)
      requires Valid()
      modifies this
      ensures Valid() && View() == Spec.Step(old(View()), Spec.GotComplete(c))
    {
      Safety.StepKeeps(View(), Spec.GotComplete(c));
      HandleComplete(c);
    }

    method HandleComplete(c: Spec.Complete)
      requires Shared()
      modifies `ignoredCompletes, `outcome
      ensures Shared() && View() == Spec.CompleteStep(old(View()), c)
    {
      if outcome.Some? {
      } else if !Matches(c.requestId, c.streamId) || rawResponse.None? {
        ignoredCompletes := ignoredCompletes + 1;
      } else {
        var raw := Current(rawResponse.value);
        var response := raw;
        if mode.Aggregated() && normalized.Some? {
          response := Current(normalized.value);
        }
        Settle(Spec.Resolved(response, raw, chunks, chunkCount, bufferedRows, Some(c.terminal)));
      }
    }

    /** What a payload is at this moment. */
    method Current(p: Payload) returns (b: Body)
      requires p.Valid()
      ensures b == p.Value()
    {
      b := if p.rowArray == null then p.shell else p.shell.WithRows(p.rowArray.rows);
    }

    method Ended()
      requires Valid()
      modifies this
      ensures Valid() && View() == Spec.Step(old(View()), Spec.Ended)
    {
      Safety.StepKeeps(View(), Spec.Ended);
      Settle(Spec.Rejected(Spec.External));
    }
  }
}
