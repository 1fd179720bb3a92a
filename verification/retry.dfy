/** The retry loop around a command. */
module Retry {
  import opened Wrappers

  const MAX_TRANSIENT_RETRIES := 2
  const MAX_RETRY_DELAY_MS := 60000

  datatype Operation = ExecuteSql | ExecuteBatch | BulkInsertSql | CancelSql
                     | ValidateContext | DiscoverRpc | GetAgentProfile | GetClientTokenPolicy | OtherOperation

  datatype Kind = Sql | Metadata

  datatype Channel = Rest | Socket

  datatype Class = PlainError | ValidationError | TimeoutError

  /** What the loop looks at in a PlugError; anything else thrown is a Foreign fault. */
  datatype Fault =
    | Foreign
    | Plug(cls: Class, code: string, statusCode: Option<int>, retryable: bool, retryAfterSeconds: Option<real>,
           authRelated: bool, reason: Option<string>, rpcCode: Option<int>, commandDispatched: bool)

  function RetryKind(op: Operation): Option<Kind> {
    match op
    case ExecuteSql => Some(Sql)
    case ExecuteBatch => Some(Sql)
    case BulkInsertSql => Some(Sql)
    case CancelSql => Some(Sql)
    case OtherOperation => None
    case _ => Some(Metadata)
  }

  const AMBIGUOUS_CODES := {"HTTP_REQUEST_FAILED", "HTTP_RESPONSE_MISSING_STATUS", "SOCKET_DISCONNECTED",
                            "CONSUMER_IDLE_TIMEOUT", "SOCKET_APP_ERROR"}

  predicate ReplayDetected(f: Fault) {
    f.Plug? && (f.code == "RPC_-32014" || f.reason == Some("replay_detected") || f.rpcCode == Some(-32014))
  }

  predicate MethodNotFound(f: Fault) {
    f.Plug? && (f.code == "RPC_-32601" || f.reason == Some("method_not_found"))
  }

  /** A fault after which an SQL command may have reached the server. */
  predicate MayHaveRun(f: Fault, channel: Channel) {
    f.Plug? &&
    (|| f.cls.TimeoutError?
     || f.code in AMBIGUOUS_CODES
     || f.commandDispatched
     || (channel.Rest? && f.statusCode.Some? && f.statusCode.value >= 500))
  }

  /** shouldRetryPlugOperation */
  predicate ShouldRetry(op: Operation, f: Fault, attempt: nat, channel: Channel) {
    if attempt >= MAX_TRANSIENT_RETRIES || RetryKind(op).None? then false
    else if f.Plug? && f.cls.ValidationError? then false
    else if f.Plug? && f.cls.TimeoutError? then RetryKind(op) == Some(Metadata) && channel.Rest?
    else if f.Foreign? || f.authRelated then false
    else if RetryKind(op) == Some(Sql)
            && (|| f.code in AMBIGUOUS_CODES || f.commandDispatched
                || (channel.Rest? && f.statusCode.Some? && f.statusCode.value >= 500)) then false
    else if ReplayDetected(f) || MethodNotFound(f) then false
    else f.retryable
  }

  const SQL := {ExecuteSql, ExecuteBatch, BulkInsertSql, CancelSql}
  const METADATA := {ValidateContext, DiscoverRpc, GetAgentProfile, GetClientTokenPolicy}

  /**
   A fault is worth another attempt: a timeout of a metadata call over REST; otherwise what says it is
   retryable, unless it is about authorization or the method is unknown, and for SQL leaves no doubt
   that the command has not run.  A replay or a validation fault never is.
   */
  predicate WorthRetrying(op: Operation, f: Fault, channel: Channel) {
    && op in SQL + METADATA && f.Plug? && !f.cls.ValidationError? && !ReplayDetected(f)
    && if f.cls.TimeoutError? then op in METADATA && channel.Rest?
       else f.retryable && !f.authRelated && !MethodNotFound(f) && (op in SQL ==> !MayHaveRun(f, channel))
  }

  /** Those are the faults that are retried, twice. */
  lemma RetriesExactly(op: Operation, f: Fault, attempt: nat, channel: Channel)
    ensures !ReplayDetected(f) && ShouldRetry(op, f, attempt, channel) <==>
            attempt < MAX_TRANSIENT_RETRIES && WorthRetrying(op, f, channel)
  {
  }

  function Ceil(x: real): int { -((-x).Floor) }

  function Round(x: real): int { (x + 0.5).Floor }

  function Min(a: int, b: int): int { if a < b then a else b }

  function Pow2(n: nat): nat { if n == 0 then 1 else 2 * Pow2(n - 1) }

  /** The base of the exponential backoff. */
  function Backoff(attempt: nat): nat { Min(5000, 250 * Pow2(attempt)) }

  /** It starts at a quarter of a second and doubles, as far as five seconds. */
  lemma {:induction false} BackoffDoubles(attempt: nat)
    ensures Backoff(0) == 250 && Backoff(attempt + 1) == Min(5000, 2 * Backoff(attempt))
    ensures 250 <= Backoff(attempt) <= 5000
  {
    if attempt > 0 {
      BackoffDoubles(attempt - 1);
    }
  }

  /** applyRetryBackoffJitter */
  function Jittered(base: nat, random: real): int {
    Round(base as real * (0.75 + random * 0.5))
  }

  /** computeRetryDelayMs; `random` is what Math.random gives. */
  function RetryDelay(retryAfterSeconds: Option<real>, attempt: nat, random: real): int {
    if retryAfterSeconds.Some? && retryAfterSeconds.value > 0.0 then
      Min(MAX_RETRY_DELAY_MS, Ceil(retryAfterSeconds.value * 1000.0))
    else
      Min(MAX_RETRY_DELAY_MS, Jittered(Backoff(attempt), random))
  }

  /**
   A wait is what the server asks for, rounded up and cut at a minute, and without a hint within a quarter of the
   backoff.
   */
  predicate DelayOk(retryAfterSeconds: Option<real>, attempt: nat, delay: int) {
    && 0 <= delay <= MAX_RETRY_DELAY_MS
    && (retryAfterSeconds.Some? && 0.0 < retryAfterSeconds.value <= 60.0 ==>
          retryAfterSeconds.value * 1000.0 <= delay as real < retryAfterSeconds.value * 1000.0 + 1.0)
    && (retryAfterSeconds.Some? && retryAfterSeconds.value > 60.0 ==> delay == MAX_RETRY_DELAY_MS)
    && (retryAfterSeconds.None? || retryAfterSeconds.value <= 0.0 ==>
          3 * Backoff(attempt) - 2 <= 4 * delay <= 5 * Backoff(attempt) + 2)
  }

  lemma RetryDelayIsOk(retryAfterSeconds: Option<real>, attempt: nat, random: real)
    requires 0.0 <= random < 1.0
    ensures DelayOk(retryAfterSeconds, attempt, RetryDelay(retryAfterSeconds, attempt, random))
  {
    if retryAfterSeconds.Some? && retryAfterSeconds.value > 0.0 {
      CeilBounds(retryAfterSeconds.value * 1000.0);
    } else {
      BackoffDoubles(attempt);
      JitterBounds(Backoff(attempt), random);
    }
  }

  /** Without a hint the random number places the wait between three and five quarters of the base, to a millisecond. */
  predicate Placed(attempt: nat, random: real, delay: int) {
    -0.5 <= delay as real - Backoff(attempt) as real * (0.75 + random * 0.5) <= 0.5
  }

  lemma JitterPlaces(attempt: nat, random: real)
    requires 0.0 <= random < 1.0
    ensures Placed(attempt, random, RetryDelay(None, attempt, random))
  {
    BackoffDoubles(attempt);
    JitterBounds(Backoff(attempt), random);
  }

  method ComputeRetryDelay(retryAfterSeconds: Option<real>, attempt: nat, random: real) returns (delayMs: int)
    requires 0.0 <= random < 1.0
    ensures DelayOk(retryAfterSeconds, attempt, delayMs)
    ensures retryAfterSeconds.None? || retryAfterSeconds.value <= 0.0 ==> Placed(attempt, random, delayMs)
  {
    delayMs := RetryDelay(retryAfterSeconds, attempt, random);
    RetryDelayIsOk(retryAfterSeconds, attempt, random);
    JitterPlaces(attempt, random);
  }

  lemma CeilBounds(x: real)
    ensures x <= Ceil(x) as real < x + 1.0
  {
    var f := (-x).Floor;
    assert f as real <= -x < f as real + 1.0;
  }

  lemma JitterBounds(base: nat, random: real)
    requires 0.0 <= random < 1.0
    ensures 3 * base - 2 <= 4 * Jittered(base, random) <= 5 * base + 2
  {
    ScaleBounds(base as real, 0.75 + random * 0.5);
    RoundBounds(base, base as real * (0.75 + random * 0.5));
  }

  lemma ScaleBounds(b: real, factor: real)
    requires b >= 0.0 && 0.75 <= factor <= 1.25
    ensures b * 0.75 <= b * factor <= b * 1.25
  {
  }

  lemma RoundBounds(base: nat, x: real)
    requires base as real * 0.75 <= x <= base as real * 1.25
    ensures 3 * base - 2 <= 4 * Round(x) <= 5 * base + 2
  {
    var r := Round(x) as real;
    assert x - 0.5 <= r <= x + 0.5;
    assert (4 * Round(x)) as real == 4.0 * r;
  }

  // ---------- command ids ----------

  /** The ids of an attempt: the given ones at first, and new ones for every retry of a known operation. */
  function AttemptIds(op: Operation, ids: seq<string>, uuid: nat -> string, attempt: nat): seq<string> {
    if attempt == 0 || RetryKind(op).None? then ids
    else seq(|ids|, i requires i >= 0 => uuid(attempt * |ids| + i))
  }

  ghost predicate FreshUuids(ids: seq<string>, uuid: nat -> string) {
    && (forall i, j :: uuid(i) == uuid(j) ==> i == j)
    && (forall i :: uuid(i) !in ids)
  }

  predicate Disjoint(a: seq<string>, b: seq<string>) {
    forall x :: x in a ==> x !in b
  }

  lemma RetryIdAt(op: Operation, ids: seq<string>, uuid: nat -> string, b: nat, i: nat)
    requires RetryKind(op).Some? && b > 0 && i < |ids|
    ensures |AttemptIds(op, ids, uuid, b)| == |ids|
    ensures AttemptIds(op, ids, uuid, b)[i] == uuid(b * |ids| + i)
  {
  }

  lemma RetryIdsAreNew(op: Operation, ids: seq<string>, uuid: nat -> string, a: nat, b: nat)
    requires FreshUuids(ids, uuid) && RetryKind(op).Some? && a < b
    ensures Disjoint(AttemptIds(op, ids, uuid, b), AttemptIds(op, ids, uuid, a))
  {
    var later := AttemptIds(op, ids, uuid, b);
    forall x | x in later ensures x !in AttemptIds(op, ids, uuid, a) {
      var i :| 0 <= i < |later| && later[i] == x;
      RetryIdAt(op, ids, uuid, b, i);
      IdIsNew(op, ids, uuid, a, b, i);
    }
  }

  lemma RetryIdsAreDistinct(op: Operation, ids: seq<string>, uuid: nat -> string, b: nat, i: nat, j: nat)
    requires FreshUuids(ids, uuid) && RetryKind(op).Some? && b > 0 && i < j < |ids|
    ensures |AttemptIds(op, ids, uuid, b)| == |ids|
    ensures AttemptIds(op, ids, uuid, b)[i] != AttemptIds(op, ids, uuid, b)[j]
  {
    RetryIdAt(op, ids, uuid, b, i);
    RetryIdAt(op, ids, uuid, b, j);
  }

  /** The ids of a retry are as many as the command's, new, and distinct. */
  lemma RetryIdsAreFresh(op: Operation, ids: seq<string>, uuid: nat -> string, a: nat, b: nat)
    requires FreshUuids(ids, uuid) && RetryKind(op).Some? && a < b
    ensures |AttemptIds(op, ids, uuid, b)| == |ids|
    ensures Disjoint(AttemptIds(op, ids, uuid, b), AttemptIds(op, ids, uuid, a))
    ensures forall i, j :: 0 <= i < j < |ids| ==> AttemptIds(op, ids, uuid, b)[i] != AttemptIds(op, ids, uuid, b)[j]
  {
    RetryIdsAreNew(op, ids, uuid, a, b);
    forall i, j | 0 <= i < j < |ids| ensures AttemptIds(op, ids, uuid, b)[i] != AttemptIds(op, ids, uuid, b)[j] {
      RetryIdsAreDistinct(op, ids, uuid, b, i, j);
    }
  }

  lemma IdIsNew(op: Operation, ids: seq<string>, uuid: nat -> string, a: nat, b: nat, i: nat)
    requires FreshUuids(ids, uuid) && RetryKind(op).Some? && a < b && i < |ids|
    ensures uuid(b * |ids| + i) !in AttemptIds(op, ids, uuid, a)
  {
    if a > 0 {
      var earlier := AttemptIds(op, ids, uuid, a);
      forall j | 0 <= j < |earlier| ensures earlier[j] != uuid(b * |ids| + i) {
        RetryIdAt(op, ids, uuid, a, j);
        Blocks(a, b, |ids|, i, j);
      }
    }
  }

  lemma Blocks(a: nat, b: nat, n: nat, i: nat, j: nat)
    requires a < b && i < n && j < n
    ensures b * n + i != a * n + j
  {
    assert b * n >= (a + 1) * n == a * n + n;
  }

  /** No two attempts share an id, and a retry has as many ids as the command. */
  lemma AttemptsAreFresh(op: Operation, ids: seq<string>, uuid: nat -> string, sent: seq<seq<string>>)
    requires FreshUuids(ids, uuid) && (|sent| > 1 ==> RetryKind(op).Some?)
    requires forall k :: 0 <= k < |sent| ==> sent[k] == AttemptIds(op, ids, uuid, k)
    ensures forall j, k :: 0 <= j < k < |sent| ==> |sent[k]| == |ids| && Disjoint(sent[k], sent[j])
  {
    forall j, k | 0 <= j < k < |sent| ensures |sent[k]| == |ids| && Disjoint(sent[k], sent[j]) {
      RetryIdsAreFresh(op, ids, uuid, j, k);
    }
  }

  // ---------- the loop ----------

  /** How an attempt ends. */
  datatype Attempt = Success(value: int) | Failed(fault: Fault)

  datatype Outcome =
    | Done(value: int, attemptCount: nat, lastRetryDelayMs: Option<int>)
    | Thrown(fault: Fault)
    | Exhausted // the throw after the loop

  lemma {:induction false} SumOfBounded(xs: seq<int>, bound: nat)
    requires forall k :: 0 <= k < |xs| ==> xs[k] <= bound
    ensures SumOf(xs) <= |xs| * bound
  {
    if xs != [] {
      SumOfBounded(xs[..|xs| - 1], bound);
    }
  }

  /** An attempt after which another one is made, after a wait. */
  predicate Retried(op: Operation, a: Attempt, attempt: nat, channel: Channel, wait: int) {
    a.Failed? && WorthRetrying(op, a.fault, channel) && DelayOk(Hint(a.fault), attempt, wait)
  }

  /** No further attempt is made after this one. */
  predicate IsLast(op: Operation, a: Attempt, attempt: nat, channel: Channel) {
    a.Success? || attempt == MAX_TRANSIENT_RETRIES || !WorthRetrying(op, a.fault, channel)
  }

  /** What the last of n attempts comes to. */
  function Ending(a: Attempt, n: nat, slept: seq<int>): Outcome {
    match a
    case Success(v) => Done(v, n, if slept == [] then None else Some(slept[|slept| - 1]))
    case Failed(f) => Thrown(f)
  }

  /** An SQL command is never sent again after a fault that leaves open whether it has run. */
  lemma RetriedSqlHasNotRun(op: Operation, a: Attempt, attempt: nat, channel: Channel, wait: int)
    requires RetryKind(op) == Some(Sql) && Retried(op, a, attempt, channel, wait)
    ensures !MayHaveRun(a.fault, channel) && a.fault.Plug? && a.fault.retryable && !a.fault.authRelated
            && !MethodNotFound(a.fault)
  {
  }

  /** What the server said about when to try again; a fault that is no PlugError says nothing. */
  function Hint(f: Fault): Option<real> { if f.Plug? then f.retryAfterSeconds else None }

  function SumOf(xs: seq<int>): int {
    if xs == [] then 0 else SumOf(xs[..|xs| - 1]) + xs[|xs| - 1]
  }

  /** The try and catch around one attempt: the loop ends, or there is a wait before the next one. */
  method AfterAttempt(op: Operation, channel: Channel, a: Attempt, attempt: nat, random: real,
                      lastRetryDelayMs: Option<int>)
    returns (end: Option<Outcome>, delayMs: int)
    requires 0.0 <= random < 1.0
    requires attempt <= MAX_TRANSIENT_RETRIES
    ensures end.Some? <==> IsLast(op, a, attempt, channel)
    ensures end.Some? ==>
            end.value == if a.Success? then Done(a.value, attempt + 1, lastRetryDelayMs) else Thrown(a.fault)
    ensures end.None? ==> Retried(op, a, attempt, channel, delayMs)
  {
    end, delayMs := None, 0;
    match a {
      case Success(value) => end := Some(Done(value, attempt + 1, lastRetryDelayMs));
      case Failed(fault) =>
        RetriesExactly(op, fault, attempt, channel);
        if ReplayDetected(fault) || !ShouldRetry(op, fault, attempt, channel) {
          end := Some(Thrown(fault));
        } else {
          delayMs := ComputeRetryDelay(Hint(fault), attempt, random);
        }
    }
  }

  ghost predicate AllRetried(op: Operation, channel: Channel, attempts: nat -> Attempt, slept: seq<int>) {
    forall k :: 0 <= k < |slept| ==> Retried(op, attempts(k), k, channel, slept[k])
  }

  ghost predicate AllSent(op: Operation, ids: seq<string>, uuid: nat -> string, sent: seq<seq<string>>) {
    forall k :: 0 <= k < |sent| ==> sent[k] == AttemptIds(op, ids, uuid, k)
  }

  lemma RetriesAreBounded(op: Operation, channel: Channel, attempts: nat -> Attempt, slept: seq<int>)
    requires AllRetried(op, channel, attempts, slept)
    ensures SumOf(slept) <= |slept| * MAX_RETRY_DELAY_MS
  {
    SumOfBounded(slept, MAX_RETRY_DELAY_MS);
  }

  lemma OneMoreRetried(op: Operation, channel: Channel, attempts: nat -> Attempt, slept: seq<int>, wait: int)
    requires AllRetried(op, channel, attempts, slept) && Retried(op, attempts(|slept|), |slept|, channel, wait)
    ensures AllRetried(op, channel, attempts, slept + [wait]) && RetryKind(op).Some?
  {
  }

  /**
   executeBuiltCommandWithRetry, against any sequence of attempt results.  `sent` are the ids of
   the attempts made and `slept` the waits between them.
   */
  method ExecuteWithRetry(op: Operation, channel: Channel, ids: seq<string>, attempts: nat -> Attempt,
                          random: nat -> real, uuid: nat -> string)
    returns (r: Outcome, sent: seq<seq<string>>, slept: seq<int>)
    requires forall n :: 0.0 <= random(n) < 1.0
    ensures 1 <= |sent| <= 3 && |slept| == |sent| - 1
    ensures SumOf(slept) <= 120000
    // the attempts before the last one failed in a way that is worth another one, and the last one decides
    ensures AllRetried(op, channel, attempts, slept)
    ensures IsLast(op, attempts(|sent| - 1), |sent| - 1, channel)
    ensures r == Ending(attempts(|sent| - 1), |sent|, slept)
    // which ids an attempt has; see AttemptsAreFresh
    ensures sent[0] == ids && (|sent| > 1 ==> RetryKind(op).Some?)
    ensures AllSent(op, ids, uuid, sent)
  {
    var lastRetryDelayMs: Option<int> := None;
    sent, slept := [], [];
    for attempt := 0 to MAX_TRANSIENT_RETRIES + 1
      invariant attempt <= MAX_TRANSIENT_RETRIES && |sent| == |slept| == attempt
      invariant AllRetried(op, channel, attempts, slept)
      invariant AllSent(op, ids, uuid, sent)
      invariant lastRetryDelayMs == if slept == [] then None else Some(slept[|slept| - 1])
      invariant attempt > 0 ==> RetryKind(op).Some?
    {
      sent := sent + [AttemptIds(op, ids, uuid, attempt)];
      var end, delayMs := AfterAttempt(op, channel, attempts(attempt), attempt, random(attempt), lastRetryDelayMs);
      if end.Some? {
        RetriesAreBounded(op, channel, attempts, slept);
        return end.value, sent, slept;
      }
      lastRetryDelayMs := Some(delayMs);
      OneMoreRetried(op, channel, attempts, slept, delayMs);
      slept := slept + [delayMs];
    }
    assert false;
    r := Exhausted;
  }
}
