/**
 Correlating the responses of a relay batch with its commands.  Responses may come before the
 hub has accepted the batch, in any order and more than once; early ones are buffered, up to the
 size of the batch.  Response payloads are opaque tokens.
 */
module RelayBatchSpec {
  import opened RpcIds
  import opened Wrappers

  const MAX_RELAY_BATCH_COMMANDS := 32

  // ---------- the commands ----------

  datatype CommandError = Empty | TooMany | Notification | DuplicateId

  /** The ids the batch is correlated by; absent ones are made up. */
  function IdTexts(ids: seq<CommandId>, uuids: seq<string>): seq<string>
    requires |uuids| == |ids|
  {
    seq(|ids|, i requires 0 <= i < |ids| => if ids[i].Absent? || ids[i].Null? then uuids[i] else ids[i].text)
  }

  // ---------- the hub's acceptance ----------

  /** Without a request id the item carries the error it was refused with. */
  datatype AcceptItem = AcceptItem(clientId: string, requestId: Option<string>)

  predicate UniqueItems(items: seq<AcceptItem>) {
    forall i, j :: 0 <= i < j < |items| ==>
      items[i].clientId != items[j].clientId
      && (items[i].requestId.Some? && items[j].requestId.Some? ==> items[i].requestId != items[j].requestId)
  }

  function Find(items: seq<AcceptItem>, clientId: string): Option<AcceptItem> {
    if items == [] then None
    else if items[0].clientId == clientId then Some(items[0])
    else Find(items[1..], clientId)
  }

  // ---------- the state ----------

  /**
   A response frame: the request id in its header, the id in its body; `sound` unless its agent or
   the type of its id is wrong; `fits` unless it is no stream and exceeds the buffer limits.
   */
  datatype Reply = Reply(requestId: Option<string>, bodyId: Option<string>, sound: bool, fits: bool, payload: int)

  datatype Code = Missing | RefusedItem

  datatype ItemResult = Success(clientId: string, requestId: string, payload: int)
    | Failure(clientId: string, code: Code)

  /** A response matched to a command: what it was matched by, and itself. */
  datatype Match = Match(key: string, reply: Reply)

  datatype State = State(fast: bool, ids: seq<string>, isOpen: bool, items: seq<AcceptItem>,
                         pending: map<string, string>,  // key to client id
                         buffered: map<string, Reply>,
                         matched: map<string, Match>,   // by client id
                         failures: map<string, Code>,
                         failed: bool,
                         arrived: set<string>)          // the keys of all responses so far

  function Initial(fast: bool, ids: seq<string>): State {
    State(fast, ids, false, [], map[], map[], map[], map[], false, {})
  }

  /** What a response is correlated by: the hub's request id, or on the fast path its own id. */
  function KeyOf(fast: bool, r: Reply): Option<string> {
    if fast then r.bodyId else r.requestId
  }

  function Receive(s: State, key: string, r: Reply): State {
    var t := s.(arrived := s.arrived + {key});
    if key in s.pending then
      t.(pending := s.pending - {key}, matched := s.matched[s.pending[key] := Match(key, r)])
    else if |s.buffered| < |s.ids| then t.(buffered := s.buffered[key := r])
    else t
  }

  function ReplyStep(s: State, r: Reply): State {
    if s.failed then s
    else if s.fast && r.bodyId.None? then s.(failed := true)
    else if KeyOf(s.fast, r).None? then s
    else if s.fast && r.bodyId.value !in s.ids then s
    else Receive(s, KeyOf(s.fast, r).value, r)
  }

  /** Starts waiting for the response of one command, or takes it from the buffer. */
  function Await(s: State, key: string, clientId: string): State {
    if key in s.buffered then
      s.(buffered := s.buffered - {key}, matched := s.matched[clientId := Match(key, s.buffered[key])])
    else s.(pending := s.pending[key := clientId])
  }

  function OpenOne(s: State, items: seq<AcceptItem>, clientId: string): State {
    if s.fast then Await(s, clientId, clientId)
    else
      match Find(items, clientId)
      case None => s.(failures := s.failures[clientId := Missing])
      case Some(item) =>
        if item.requestId.None? then s.(failures := s.failures[clientId := RefusedItem])
        else Await(s, item.requestId.value, clientId)
  }

  function OpenEach(s: State, items: seq<AcceptItem>, ids: seq<string>): State {
    if ids == [] then s
    else OpenOne(OpenEach(s, items, ids[..|ids| - 1]), items, ids[|ids| - 1])
  }

  datatype Event =
    | Replied(reply: Reply)
    | Opened(items: seq<AcceptItem>) // the acceptance; on the fast path, the moment the waiters are set up
    | Broke                          // an error, a disconnect, an abort or a timeout

  predicate Enabled(s: State, e: Event) {
    match e
    case Opened(items) => !s.isOpen && UniqueItems(items)
    case _ => true
  }

  function Step(s: State, e: Event): State
    requires Enabled(s, e)
  {
    match e
    case Replied(r) => ReplyStep(s, r)
    case Opened(items) => if s.failed then s else OpenEach(s, items, s.ids).(isOpen := true, items := items)
    case Broke => s.(failed := true)
  }

  /** All members have their response. */
  predicate Complete(s: State) { s.isOpen && !s.failed && |s.pending| == 0 }

  /** assertResponseAgentIdentity and assertRpcResponseIdentity for one command, and the buffer limits. */
  predicate Acceptable(s: State, clientId: string, m: Match) {
    m.reply.sound && m.reply.fits
      && (m.reply.bodyId.None? || m.reply.bodyId == Some(clientId) || (!s.fast && m.reply.bodyId == Some(m.key)))
  }

  function ResultFor(s: State, clientId: string): ItemResult {
    if clientId in s.matched then
      Success(clientId,
              if s.fast then
                (if s.matched[clientId].reply.requestId.Some? then s.matched[clientId].reply.requestId.value
                 else clientId)
              else s.matched[clientId].key,
              s.matched[clientId].reply.payload)
    else Failure(clientId, if clientId in s.failures then s.failures[clientId] else Missing)
  }

  /** The results of a complete batch, one a command, or none when a response has the wrong identity or is too large. */
  function Results(s: State): Option<seq<ItemResult>>
    requires Complete(s)
  {
    if exists i :: 0 <= i < |s.ids| && s.ids[i] in s.matched && !Acceptable(s, s.ids[i], s.matched[s.ids[i]]) then None
    else Some(seq(|s.ids|, i requires 0 <= i < |s.ids| => ResultFor(s, s.ids[i])))
  }
}
