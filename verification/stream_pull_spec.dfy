/**
 Pulls for more of a stream over one transport: a set of the pulls under way is to keep a second
 one for the same request and stream out.  Decoding a response takes a while, so several responses
 can be in decoding for one pull, and one of them can outlast it.
 */
module StreamPullSpec {
  import opened Wrappers

  const MAX_WINDOW := 1000
  const DEFAULT_WINDOW := 256

  /** What JSON.stringify([requestId, streamId]) stands for. */
  datatype Key = Key(requestId: string, streamId: string)

  datatype Outcome = Granted(window: int) | Refused

  datatype Pull = Pull(key: Key, window: int, outcome: Option<Outcome>, decoding: nat)

  /** A pull response once decoding ends; `Unreadable` covers failed decoding and malformed payloads. */
  datatype Response =
    | Unreadable
    | Success(requestId: string, streamId: string, windowSize: int)
    | Failure(failedRequest: Option<string>, failedStream: Option<string>)

  /** `keys` is the transport's entry in activePulls; `pulls` are the calls that got past it. */
  datatype State = State(keys: set<Key>, pulls: seq<Pull>)

  const INITIAL := State({}, [])

  function Floor(x: real): int { x.Floor }

  /** normalizeConsumerStreamPullWindowSize; no value stands for anything that is not a finite number. */
  function NormalizeWindow(value: Option<real>, fallback: int): int {
    if value.None? || value.value <= 0.0 then fallback
    else
      var w := Floor(value.value);
      if w < 1 then 1 else if w > MAX_WINDOW then MAX_WINDOW else w
  }

  /** matchesConsumerStreamPullResponse */
  predicate Matches(r: Response, key: Key) {
    match r
    case Unreadable => false
    case Success(requestId, streamId, _) => requestId == key.requestId && streamId == key.streamId
    case Failure(requestId, streamId) =>
      (requestId.None? || requestId == Some(key.requestId)) && (streamId.None? || streamId == Some(key.streamId))
  }

  /** A decoded response ends the pull, unless it is readable and meant for another one. */
  predicate Ends(r: Response, key: Key) {
    r.Unreadable? || Matches(r, key)
  }

  function OutcomeOf(r: Response, p: Pull): Outcome {
    if r.Success? then Granted(NormalizeWindow(Some(r.windowSize as real), p.window)) else Refused
  }

  predicate Pending(s: State, i: int) {
    0 <= i < |s.pulls| && s.pulls[i].outcome.None?
  }

  /** cleanup and settleOnce: the key is given back whether or not the pull had settled before. */
  function End(s: State, i: nat, o: Outcome): State
    requires i < |s.pulls|
  {
    var p := s.pulls[i];
    State(s.keys - {p.key}, if p.outcome.Some? then s.pulls else s.pulls[i := p.(outcome := Some(o))])
  }

  datatype Event =
    | Request(key: Key, windowSize: Option<real>, aborted: bool, throws: bool)
    | Arrived(pull: nat)                       // a response event while the listener is attached
    | Decoded(pull: nat, response: Response)
    | Terminated(pull: nat)                    // timeout, abort, disconnect or error of the socket

  predicate Enabled(s: State, e: Event) {
    match e
    case Request(_, _, _, _) => true
    case Arrived(i) => Pending(s, i)
    case Decoded(i, _) => i < |s.pulls| && s.pulls[i].decoding > 0
    case Terminated(i) => Pending(s, i)
  }

  function RequestStep(s: State, key: Key, windowSize: Option<real>, fails: bool): State {
    if key in s.keys then s // refused: a pull for this request and stream is already pending
    else
      var t := State(s.keys + {key}, s.pulls + [Pull(key, NormalizeWindow(windowSize, DEFAULT_WINDOW), None, 0)]);
      if fails then End(t, |s.pulls|, Refused) else t
  }

  /** As many responses are in decoding for the pull. */
  function Counted(s: State, i: nat, decoding: nat): State
    requires i < |s.pulls|
  {
    s.(pulls := s.pulls[i := s.pulls[i].(decoding := decoding)])
  }

  function DecodedStep(s: State, i: nat, r: Response): State
    requires Enabled(s, Decoded(i, r))
  {
    var t := Counted(s, i, s.pulls[i].decoding - 1);
    if Ends(r, s.pulls[i].key) then End(t, i, OutcomeOf(r, s.pulls[i])) else t
  }

  function Step(s: State, e: Event): State
    requires Enabled(s, e)
  {
    match e
    case Request(key, windowSize, aborted, throws) => RequestStep(s, key, windowSize, aborted || throws)
    case Arrived(i) => Counted(s, i, s.pulls[i].decoding + 1)
    case Decoded(i, r) => DecodedStep(s, i, r)
    case Terminated(i) => End(s, i, Refused)
  }
}
