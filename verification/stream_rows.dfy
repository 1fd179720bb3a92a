/**
 The rows of a streamed response: merged into the response as chunks arrive, or appended when
 the output is built.  Rows are opaque tokens.
 */
module StreamRows {
  import opened Wrappers

  type Row = int

  datatype Mode = AggregatedJson | AggregatedSingleItem | ChunkItems | RawJsonRpc
  {
    predicate Aggregated() { AggregatedJson? || AggregatedSingleItem? }
  }

  /** `rows` is there when the field is an array, `streamId` when it is a string. */
  datatype SqlResult = NotRecord | Record(rows: Option<seq<Row>>, streamId: Option<string>, rowCount: Option<int>)

  datatype Item = Item(success: bool, result: SqlResult)

  datatype Body = Single(success: bool, item: Item) | Batch(items: seq<Item>) | Raw(typed: bool)
  {
    /** isConsumerSingleSuccessWithRows */
    predicate HasRows() {
      Single? && success && item.success && item.result.Record? && item.result.rows.Some?
    }

    function Rows(): seq<Row>
      requires HasRows()
    {
      item.result.rows.value
    }

    function WithRows(rows: seq<Row>): Body
      requires HasRows()
    {
      this.(item := item.(result := item.result.(rows := Some(rows))))
    }

    function WithoutMarker(): Body {
      if HasRows() then this.(item := item.(result := item.result.(streamId := None))) else this
    }
  }

  datatype Chunk = Chunk(requestId: Option<string>, streamId: Option<string>, rows: Option<seq<Row>>, wireBytes: nat)
  {
    function Rows(): seq<Row> { if rows.Some? then rows.value else [] }
  }

  function CountRows(rows: Option<seq<Row>>): nat {
    if rows.Some? then |rows.value| else 0
  }

  function RowsOf(chunks: seq<Chunk>): seq<Row> {
    if chunks == [] then [] else RowsOf(chunks[..|chunks| - 1]) + chunks[|chunks| - 1].Rows()
  }

  /** The response with the rows of a chunk pushed, or nothing when the chunk is to be kept for later. */
  function TryMerge(response: Option<Body>, chunk: Chunk): Option<Body> {
    if response.None? || !response.value.HasRows() || chunk.Rows() == [] then None
    else Some(response.value.WithRows(response.value.Rows() + chunk.Rows()))
  }

  /** aggregateSocketSqlStream: what building the output makes of a response and the chunks kept beside it. */
  function Aggregate(response: Body, chunks: seq<Chunk>): Body {
    if !response.Single? || !response.item.success || !response.item.result.Record?
       || response.item.result.streamId.None? then response
    else
      var r := response.item.result;
      var rows := (if r.rows.Some? then r.rows.value else []) + RowsOf(chunks);
      response.(item := response.item.(result := r.(rows := Some(rows), streamId := None)))
  }

  /** The same, as the source does it: a row array that is pushed to, chunk by chunk and row by row. */
  method AggregateInLoop(response: Body, chunks: seq<Chunk>) returns (r: Body)
    ensures r == Aggregate(response, chunks)
  {
    if !response.Single? || !response.item.success || !response.item.result.Record?
       || response.item.result.streamId.None? {
      return response;
    }
    var result := response.item.result;
    var base := if result.rows.Some? then result.rows.value else [];
    var rows := base;
    for c := 0 to |chunks|
      invariant rows == base + RowsOf(chunks[..c])
    {
      assert chunks[..c + 1][..c] == chunks[..c];
      var pushed := chunks[c].Rows();
      for k := 0 to |pushed|
        invariant rows == base + RowsOf(chunks[..c]) + pushed[..k]
      {
        rows := rows + [pushed[k]];
      }
    }
    assert chunks[..|chunks|] == chunks;
    return response.(item := response.item.(result := result.(rows := Some(rows), streamId := None)));
  }

  // ---------- the output items ----------

  datatype OutputItem =
    | Summary(rowCount: int, rows: seq<Row>)
    | RowItem(row: Row, rowIndex: nat)
    | ResultItem(result: SqlResult)

  const LARGE_AGGREGATED_JSON_ROW_THRESHOLD := 1000

  /** buildSingleSuccessItems */
  function SingleItems(result: SqlResult, mode: Mode, hints: bool): seq<OutputItem> {
    if !result.Record? then [ResultItem(result)]
    else if mode.Aggregated() && (result.rows == Some([]) || (result.rows.None? && result.rowCount == Some(0))) then
      [Summary(0, [])]
    else if result.rows.Some? then
      var rows := result.rows.value;
      if mode.AggregatedSingleItem?
        || (mode.AggregatedJson? && hints && |rows| > LARGE_AGGREGATED_JSON_ROW_THRESHOLD) then
        [Summary(if result.rowCount.Some? then result.rowCount.value else |rows|, rows)]
      else seq(|rows|, i requires 0 <= i < |rows| => RowItem(rows[i], i))
    else [ResultItem(result)]
  }

  /** The rows carried by the output items, in order. */
  function ItemRows(items: seq<OutputItem>): seq<Row> {
    if items == [] then []
    else
      ItemRows(items[..|items| - 1]) +
      match items[|items| - 1]
      case Summary(_, rows) => rows
      case RowItem(row, _) => [row]
      case ResultItem(result) => if result.Record? && result.rows.Some? then result.rows.value else []
  }

  lemma {:induction false} RowItemsCarryRows(rows: seq<Row>, n: nat)
    requires n <= |rows|
    ensures ItemRows(seq(n, i requires 0 <= i < n => RowItem(rows[i], i))) == rows[..n]
  {
    if n > 0 {
      var items := seq(n, i requires 0 <= i < n => RowItem(rows[i], i));
      RowItemsCarryRows(rows, n - 1);
      assert items[..n - 1] == seq(n - 1, i requires 0 <= i < n - 1 => RowItem(rows[i], i));
    }
  }

  /** However a result is laid out in items, they carry its rows, each once and in order. */
  lemma ItemsCarryRows(result: SqlResult, mode: Mode, hints: bool)
    requires result.Record? && result.rows.Some?
    ensures ItemRows(SingleItems(result, mode, hints)) == result.rows.value
  {
    var rows := result.rows.value;
    RowItemsCarryRows(rows, |rows|);
    assert rows[..|rows|] == rows;
    var items := SingleItems(result, mode, hints);
    if |items| == 1 {
      assert items[..0] == [];
    }
  }

  lemma RowsOfAppend(chunks: seq<Chunk>, c: Chunk)
    ensures RowsOf(chunks + [c]) == RowsOf(chunks) + c.Rows()
  {
    assert (chunks + [c])[..|chunks|] == chunks;
  }
}
