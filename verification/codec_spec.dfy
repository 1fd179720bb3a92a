/**
 The PayloadFrame codec: framing, compression choice, size and inflation guards, signing with key
 rotation.  JSON text, gzip (RFC 1952), HMAC-SHA256 (RFC 2104) and base64 are parameters; JSON
 values are opaque tokens.
 */
module CodecSpec {
  import opened Wrappers
  import opened CodecText

  type Byte = b: int | 0 <= b < 256
  type Bytes = seq<Byte>
  type Json = int

  const COMPRESSION_THRESHOLD := 4096
  const MIN_AUTO_SAVINGS := 64
  const MAX_GZIP_INPUT := 512 * 1024
  const MAX_COMPRESSED := 10 * 1024 * 1024
  const MAX_DECODED := 10 * 1024 * 1024
  const MAX_RATIO := 10

  datatype Compression = NoCompression | Gzip

  /** The part of a frame that is signed together with its payload. */
  datatype Header = Header(cmp: Compression, originalSize: int, compressedSize: int, traceId: Option<string>,
                           requestId: Option<string>)

  datatype Primitives = Primitives(
    printJson: Json -> Bytes, parseJson: Bytes -> Option<Json>,
    gzip: Bytes -> Bytes, gunzip: Bytes -> Option<Bytes>,
    hmac: (string, Bytes) -> Bytes, prefix: Header -> Bytes,
    toBase64: Bytes -> string, fromBase64: string -> Bytes, base64Length: string -> nat)

  /** The laws the codec relies on: each pair inverts, gzip output and digests are not empty, base64 has no blanks. */
  ghost predicate Lawful(p: Primitives) {
    && (forall v :: p.parseJson(p.printJson(v)) == Some(v))
    && (forall b :: p.gunzip(p.gzip(b)) == Some(b) && |p.gzip(b)| > 0)
    && (forall b :: p.fromBase64(p.toBase64(b)) == b)
    && (forall b :: b != [] ==> p.toBase64(b) != "" && Trim(p.toBase64(b)) == p.toBase64(b))
    && (forall k, m :: p.hmac(k, m) != [])
  }

  // ---------- frames on the wire ----------

  datatype Key =
    | SchemaVersion | Enc | Cmp | ContentType | OriginalSize | CompressedSize | Payload | TraceId | RequestId
      | SignatureKey
    | Alg | SigValue | KeyId | OtherKey(name: string)

  /** A JavaScript value, as far as the shape checks look at it. */
  datatype Value =
    | Undefined | Null | Str(text: string) | Int(n: int) | OtherScalar | Binary(bytes: Bytes)
    | List(items: seq<Value>) | Object(fields: map<Key, Value>)

  datatype Signature = Signature(value: string, keyId: Option<string>)

  datatype Frame = Frame(cmp: Compression, originalSize: nat, compressedSize: nat, payload: Value,
                         traceId: Option<string>, requestId: Option<string>, signature: Option<Signature>)

  datatype Error = BadShape | TooLarge | SizeMismatch | BadPayload | SignatureRequired | NoKey | KeyIdRequired
                 | KeyIdMismatch | BadSignature | Inflation | BadGzip | BadJson

  const ROOT_KEYS: set<Key> := 
    {SchemaVersion, Enc, Cmp, ContentType, OriginalSize, CompressedSize, Payload, TraceId, RequestId, SignatureKey}
  const SIGNATURE_KEYS: set<Key> := {Alg, SigValue, KeyId}

  function Field(o: map<Key, Value>, k: Key): Value { if k in o then o[k] else Undefined }

  function ReadSignature(v: Value): Result<Option<Signature>, Error> {
    match v
    case Undefined => Ok(None)
    case Object(o) =>
      if !(o.Keys <= SIGNATURE_KEYS) || Field(o, Alg) != Str("hmac-sha256") then Err(BadShape)
      else if !Field(o, SigValue).Str? || Blank(Field(o, SigValue).text) then Err(BadShape)
      else
        (match Field(o, KeyId)
         case Undefined => Ok(Some(Signature(Field(o, SigValue).text, None)))
         case Str(id) => Ok(Some(Signature(Field(o, SigValue).text, Some(id))))
         case _ => Err(BadShape))
    case _ => Err(BadShape)
  }

  /** assertValidFrameShape */
  function ReadShape(w: Value): Result<Frame, Error> {
    if !w.Object? then Err(BadShape)
    else
      var o := w.fields;
      var trace, request := Field(o, TraceId), Field(o, RequestId);
      if !(o.Keys <= ROOT_KEYS) then Err(BadShape)
      else if Field(o, SchemaVersion) != Str("1.0") || Field(o, Enc) != Str("json") then Err(BadShape)
      else if Field(o, Cmp) != Str("none") && Field(o, Cmp) != Str("gzip") then Err(BadShape)
      else if Field(o, ContentType) != Str("application/json") then Err(BadShape)
      else if !Field(o, OriginalSize).Int? || Field(o, OriginalSize).n < 0 then Err(BadShape)
      else if !Field(o, CompressedSize).Int? || Field(o, CompressedSize).n < 0 then Err(BadShape)
      else if Payload !in o then Err(BadShape)
      else if !trace.Undefined? && !trace.Str? then Err(BadShape)
      else if !request.Undefined? && !request.Null? && !request.Str? then Err(BadShape)
      else
        match ReadSignature(Field(o, SignatureKey))
        case Err(e) => Err(e)
        case Ok(signature) =>
          Ok(Frame(if Field(o, Cmp) == Str("gzip") then Gzip else NoCompression,
                   Field(o, OriginalSize).n, Field(o, CompressedSize).n, o[Payload],
                   if trace.Str? then Some(trace.text) else None,
                   if request.Str? then Some(request.text) else None, signature))
  }

  predicate IsByte(v: Value) { v.Int? && 0 <= v.n < 256 }

  predicate AllBytes(items: seq<Value>) { forall i :: 0 <= i < |items| ==> IsByte(items[i]) }

  /** payloadToBuffer */
  function ReadPayload(p: Primitives, v: Value): Result<Bytes, Error> {
    match v
    case Str(text) => if p.base64Length(text) > MAX_COMPRESSED then Err(TooLarge) else Ok(p.fromBase64(text))
    case Binary(bytes) => Ok(bytes)
    case List(items) =>
      if |items| > MAX_COMPRESSED then Err(TooLarge)
      else if !AllBytes(items) then Err(BadPayload)
      else Ok(seq(|items|, i requires 0 <= i < |items| => items[i].n as Byte))
    case _ => Err(BadPayload)
  }

  // ---------- signing ----------

  datatype KeyEntry = KeyEntry(key: string, keyId: Option<string>)

  datatype Signing = Signing(key: Option<string>, keyId: Option<string>, requireSignature: bool,
                             previousKeys: seq<KeyEntry>)

  function NonBlank(s: Option<string>): Option<string> {
    if s.Some? && !Blank(s.value) then s else None
  }

  function Trimmed(s: Option<string>): Option<string> {
    if s.Some? && !Blank(s.value) then Some(Trim(s.value)) else None
  }

  /** The usable ones among the previous keys. */
  function PreviousKeys(entries: seq<KeyEntry>): seq<KeyEntry> {
    if entries == [] then []
    else
      var e := entries[|entries| - 1];
      PreviousKeys(entries[..|entries| - 1]) + (if Blank(e.key) then [] else [KeyEntry(Trim(e.key), Trimmed(e.keyId))])
  }

  /** resolveVerificationKeys: the primary key as it is, the previous ones trimmed. */
  function VerificationKeys(s: Signing): seq<KeyEntry> {
    (if NonBlank(s.key).Some? then [KeyEntry(s.key.value, Trimmed(s.keyId))] else []) + PreviousKeys(s.previousKeys)
  }

  function HeaderOf(f: Frame): Header {
    Header(f.cmp, f.originalSize, f.compressedSize, f.traceId, f.requestId)
  }

  function Digest(p: Primitives, key: string, f: Frame, payload: Bytes): Bytes {
    p.hmac(key, p.prefix(HeaderOf(f)) + payload)
  }

  function Sign(p: Primitives, f: Frame, payload: Bytes, s: Signing): Frame {
    if NonBlank(s.key).None? then f
    else f.(signature := Some(Signature(p.toBase64(Digest(p, s.key.value, f, payload)), Trimmed(s.keyId))))
  }

  predicate Compatible(e: KeyEntry, frameKeyId: Option<string>) {
    frameKeyId.None? || e.keyId.None? || e.keyId == frameKeyId
  }

  predicate Confirms(p: Primitives, e: KeyEntry, f: Frame, payload: Bytes, provided: Bytes) {
    Digest(p, e.key, f, payload) == provided
  }

  /** verifyFrameSignature: no error, or the one it throws. */
  function Verify(p: Primitives, f: Frame, payload: Bytes, s: Signing): Option<Error> {
    if f.signature.None? then (if s.requireSignature then Some(SignatureRequired) else None)
    else
      var keys := VerificationKeys(s);
      var id := Trimmed(f.signature.value.keyId);
      var requiresId := s.keyId.Some? || exists i :: 0 <= i < |keys| && keys[i].keyId.Some?;
      if keys == [] then Some(NoKey)
      else if requiresId && id.None? then Some(KeyIdRequired)
      else if forall i :: 0 <= i < |keys| ==> !Compatible(keys[i], id) then Some(KeyIdMismatch)
      else if Blank(f.signature.value.value) then Some(BadSignature)
      else
        var provided := p.fromBase64(Trim(f.signature.value.value));
        if exists i :: 0 <= i < |keys| && Compatible(keys[i], id) && Confirms(p, keys[i], f, payload, provided)
        then None
        else Some(BadSignature)
  }

  // ---------- encoding ----------

  datatype Preference = Default | Always | Never

  datatype Options = Options(requestId: Option<string>, traceId: Option<string>, omitTraceId: bool, uuid: string,
                             compression: Preference, signing: Signing)

  function Evaluates(length: nat, pref: Preference): bool {
    if pref.Always? then length >= 1 else length >= COMPRESSION_THRESHOLD
  }

  function UsesGzip(original: nat, compressed: nat, pref: Preference): bool {
    original <= MAX_RATIO * compressed && (pref.Always? || original - compressed >= MIN_AUTO_SAVINGS)
  }

  /** preparePayloadSync */
  function Prepare(p: Primitives, original: Bytes, pref: Preference): (Compression, Bytes) {
    if Evaluates(|original|, pref) && !pref.Never? && |original| <= MAX_GZIP_INPUT then
      var z := p.gzip(original);
      if UsesGzip(|original|, |z|, pref) then (Gzip, z) else (NoCompression, original)
    else (NoCompression, original)
  }

  function Unsigned(cmp: Compression, payload: Bytes, originalSize: nat, o: Options): Frame {
    var trace := if o.traceId.Some? then o.traceId else if o.omitTraceId then None else Some(o.uuid);
    Frame(cmp, originalSize, |payload|, Binary(payload), trace, o.requestId, None)
  }

  function BuildFrame(p: Primitives, cmp: Compression, payload: Bytes, originalSize: nat, o: Options): Frame {
    Sign(p, Unsigned(cmp, payload, originalSize, o), payload, o.signing)
  }

  function TextOrUndefined(s: Option<string>): Value { if s.Some? then Str(s.value) else Undefined }

  /** The object a frame is on the wire; an absent request id is there as undefined, an absent trace id is not there. */
  function ToWire(f: Frame): Value {
    var base := map[SchemaVersion := Str("1.0"), Enc := Str("json"),
                    Cmp := Str(if f.cmp.Gzip? then "gzip" else "none"), ContentType := Str("application/json"),
                    OriginalSize := Int(f.originalSize), CompressedSize := Int(f.compressedSize),
                    Payload := f.payload, RequestId := TextOrUndefined(f.requestId)];
    var traced := if f.traceId.Some? then base[TraceId := Str(f.traceId.value)] else base;
    if f.signature.None? then Object(traced)
    else
      var sig := map[Alg := Str("hmac-sha256"), SigValue := Str(f.signature.value.value)];
      Object(traced[SignatureKey := Object(
        if f.signature.value.keyId.Some? then sig[KeyId := Str(f.signature.value.keyId.value)] else sig)])
  }

  /** encodePayloadFrame */
  function Encode(p: Primitives, v: Json, o: Options): Result<Value, Error> {
    var original := p.printJson(v);
    var (cmp, payload) := Prepare(p, original, o.compression);
    if |payload| > MAX_COMPRESSED || |original| > MAX_DECODED then Err(TooLarge)
    else Ok(ToWire(BuildFrame(p, cmp, payload, |original|, o)))
  }

  // ---------- decoding ----------

  function Min(a: int, b: int): int { if a < b then a else b }

  function Max(a: int, b: int): int { if a < b then b else a }

  /** Decompression that stops at the declared, absolute and relative limit. */
  function GunzipWithLimit(p: Primitives, bytes: Bytes, originalSize: nat): Result<Bytes, Error> {
    var limit := Max(1, Min(Min(originalSize, MAX_DECODED), MAX_RATIO * |bytes|));
    match p.gunzip(bytes)
    case None => Err(BadGzip)
    case Some(out) => if |out| > limit then Err(Inflation) else Ok(out)
  }

  datatype Decoded = Decoded(frame: Frame, payload: Bytes, bytes: Bytes, data: Json)

  /** parseFrameForDecode */
  function ParseFrame(p: Primitives, w: Value, s: Signing): Result<(Frame, Bytes), Error> {
    match ReadShape(w)
    case Err(e) => Err(e)
    case Ok(f) =>
      if f.compressedSize > MAX_COMPRESSED || f.originalSize > MAX_DECODED then Err(TooLarge)
      else
        match ReadPayload(p, f.payload)
        case Err(e) => Err(e)
        case Ok(payload) =>
          if |payload| != f.compressedSize then Err(SizeMismatch)
          else if Verify(p, f, payload, s).Some? then Err(Verify(p, f, payload, s).value)
          else if f.cmp.Gzip? && |payload| > 0 && f.originalSize > MAX_RATIO * |payload| then Err(Inflation)
          else Ok((f, payload))
  }

  /** decodePayloadFrame */
  function Decode(p: Primitives, w: Value, s: Signing): Result<Decoded, Error> {
    match ParseFrame(p, w, s)
    case Err(e) => Err(e)
    case Ok((f, payload)) =>
      match (if f.cmp.Gzip? then GunzipWithLimit(p, payload, f.originalSize) else Ok(payload))
      case Err(e) => Err(e)
      case Ok(bytes) =>
        if |bytes| != f.originalSize then Err(SizeMismatch)
        else if |bytes| > MAX_DECODED then Err(TooLarge)
        else if f.cmp.Gzip? && |payload| > 0 && |bytes| > MAX_RATIO * |payload| then Err(Inflation)
        else
          match p.parseJson(bytes)
          case None => Err(BadJson)
          case Some(v) => Ok(Decoded(f, payload, bytes, v))
  }
}
