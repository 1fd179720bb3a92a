/** What an encoded frame says on the wire, field by field, and exactly which frames are accepted. */
module CodecWire {
  import opened Wrappers
  import opened CodecText
  import opened CodecSpec
  import opened CodecProofs

  // ---------- what is written ----------

  /**
   Compression is tried from this length on, is worth it by this much, and expands by no more than the ratio allows.
   */
  predicate Compresses(original: Bytes, zipped: Bytes, pref: Preference) {
    && !pref.Never?
    && (if pref.Always? then original != [] else |original| >= 4096 && |original| - |zipped| >= 64)
    && |original| <= 524288 && |original| <= 10 * |zipped|
  }

  /** The payload a frame carries. */
  function PayloadOf(p: Primitives, v: Json, pref: Preference): Bytes {
    var original := p.printJson(v);
    if Compresses(original, p.gzip(original), pref) then p.gzip(original) else original
  }

  /** The trace id of a frame: the given one, or none if it is to be left out, or else a new one. */
  function TraceOf(o: Options): Option<string> {
    if o.traceId.Some? then o.traceId else if o.omitTraceId then None else Some(o.uuid)
  }

  function HeaderFor(p: Primitives, v: Json, o: Options): Header {
    var original := p.printJson(v);
    Header(if Compresses(original, p.gzip(original), o.compression) then Gzip else NoCompression,
           |original|, |PayloadOf(p, v, o.compression)|, TraceOf(o), o.requestId)
  }

  /** The signature is the digest of header and payload under the key as it is, with the key id trimmed. */
  ghost predicate SignedAs(p: Primitives, sig: Value, key: string, keyId: Option<string>, h: Header, payload: Bytes) {
    && sig.Object? && sig.fields.Keys == {Alg, SigValue} + (if Trimmed(keyId).Some? then {KeyId} else {})
    && sig.fields[Alg] == Str("hmac-sha256")
    && sig.fields[SigValue] == Str(p.toBase64(p.hmac(key, p.prefix(h) + payload)))
    && (Trimmed(keyId).Some? ==> sig.fields[KeyId] == Str(Trimmed(keyId).value))
  }

  lemma PreparedAs(p: Primitives, v: Json, pref: Preference)
    ensures var (cmp, payload) := Prepare(p, p.printJson(v), pref);
      && (cmp.Gzip? <==> Compresses(p.printJson(v), p.gzip(p.printJson(v)), pref)) && payload == PayloadOf(p, v, pref)
  {
  }

  lemma BuiltAs(p: Primitives, v: Json, o: Options)
    ensures var (g, payload) := Built(p, v, o);
      && HeaderOf(g) == HeaderFor(p, v, o) && payload == PayloadOf(p, v, o.compression) && g.payload == Binary(payload)
      && (g.signature.Some? <==> NonBlank(o.signing.key).Some?)
      && (g.signature.Some? ==>
            g.signature.value ==
              Signature(p.toBase64(p.hmac(o.signing.key.value, p.prefix(HeaderFor(p, v, o)) + payload)),
                        Trimmed(o.signing.keyId)))
  {
    PreparedAs(p, v, o.compression);
  }

  ghost predicate IdsOnWire(w: map<Key, Value>, o: Options) {
    && RequestId in w && w[RequestId] == (if o.requestId.Some? then Str(o.requestId.value) else Undefined)
    && (TraceId in w <==> o.traceId.Some? || !o.omitTraceId)
    && (TraceId in w ==> w[TraceId] == Str(if o.traceId.Some? then o.traceId.value else o.uuid))
  }

  ghost predicate PayloadOnWire(p: Primitives, w: map<Key, Value>, v: Json, o: Options) {
    var original := p.printJson(v);
    && {Cmp, OriginalSize, CompressedSize, Payload} <= w.Keys
    && w[Cmp] == Str(if Compresses(original, p.gzip(original), o.compression) then "gzip" else "none")
    && w[OriginalSize] == Int(|original|) && w[CompressedSize] == Int(|PayloadOf(p, v, o.compression)|)
    && w[Payload] == Binary(PayloadOf(p, v, o.compression))
  }

  ghost predicate SignatureOnWire(p: Primitives, w: map<Key, Value>, v: Json, o: Options) {
    && (SignatureKey in w <==> NonBlank(o.signing.key).Some?)
    && (SignatureKey in w ==>
          SignedAs(p, w[SignatureKey], o.signing.key.value, o.signing.keyId, HeaderFor(p, v, o),
                   PayloadOf(p, v, o.compression)))
  }

  lemma WiredAs(p: Primitives, v: Json, o: Options, g: Frame)
    requires HeaderOf(g) == HeaderFor(p, v, o) && g.payload == Binary(PayloadOf(p, v, o.compression))
    ensures IdsOnWire(ToWire(g).fields, o) && PayloadOnWire(p, ToWire(g).fields, v, o)
  {
    WireFields(g);
  }

  lemma SignedOnWire(p: Primitives, v: Json, o: Options, g: Frame)
    requires g.signature.Some? <==> NonBlank(o.signing.key).Some?
    requires var h, payload := HeaderFor(p, v, o), PayloadOf(p, v, o.compression);
             g.signature.Some? ==>
               g.signature.value == Signature(p.toBase64(p.hmac(o.signing.key.value, p.prefix(h) + payload)),
                                              Trimmed(o.signing.keyId))
    ensures SignatureOnWire(p, ToWire(g).fields, v, o)
  {
  }

  /** An encoded frame says on the wire: its ids, how its payload was made and how long it is, and its signature. */
  lemma EncodesExactly(p: Primitives, v: Json, o: Options)
    requires Encode(p, v, o).Ok?
    ensures Encode(p, v, o).value.Object?
    ensures var w := Encode(p, v, o).value.fields;
      && w.Keys <= ROOT_KEYS && {SchemaVersion, Enc, ContentType} <= w.Keys
      && w[SchemaVersion] == Str("1.0") && w[Enc] == Str("json") && w[ContentType] == Str("application/json")
      && IdsOnWire(w, o) && PayloadOnWire(p, w, v, o) && SignatureOnWire(p, w, v, o)
  {
    BuiltAs(p, v, o);
    WireFields(Built(p, v, o).0);
    WiredAs(p, v, o, Built(p, v, o).0);
    SignedOnWire(p, v, o, Built(p, v, o).0);
  }

  /** Whoever accepts the frame reads those ids, sizes and the value back. */
  lemma DecodesExactly(p: Primitives, v: Json, o: Options, s: Signing)
    requires Lawful(p) && Encode(p, v, o).Ok? && Decode(p, Encode(p, v, o).value, s).Ok?
    ensures var d := Decode(p, Encode(p, v, o).value, s).value;
      && d.frame.requestId == o.requestId && d.frame.traceId == TraceOf(o)
      && d.frame.originalSize == |p.printJson(v)| && d.frame.compressedSize == |d.payload|
      && d.payload == PayloadOf(p, v, o.compression) && d.bytes == p.printJson(v) && d.data == v
  {
    BuiltAs(p, v, o);
    DecodesUnlessUnverified(p, v, o, s);
  }

  // ---------- what is accepted ----------

  predicate TextOrNone(v: Value) { v.Undefined? || v.Str? }

  /**
   The signature field is absent, or an object with the algorithm, a value that is not blank, and at most a text key
   id.
   */
  predicate SignatureShape(v: Value) {
    || v.Undefined?
    || (v.Object? && v.fields.Keys <= {Alg, SigValue, KeyId} && Alg in v.fields && v.fields[Alg] == Str("hmac-sha256")
        && SigValue in v.fields && v.fields[SigValue].Str? && !Blank(v.fields[SigValue].text)
        && (KeyId in v.fields ==> TextOrNone(v.fields[KeyId])))
  }

  function SignatureIn(v: Value): Option<Signature>
    requires SignatureShape(v)
  {
    if v.Undefined? then None
    else Some(Signature(v.fields[SigValue].text,
                        if KeyId in v.fields && v.fields[KeyId].Str? then Some(v.fields[KeyId].text) else None))
  }

  predicate IsText(w: map<Key, Value>, k: Key, text: string) { k in w && w[k] == Str(text) }

  predicate IsSize(w: map<Key, Value>, k: Key) { k in w && w[k].Int? && w[k].n >= 0 }

  /**
   The frames that have the shape of one: known fields only, the fixed ones as they are fixed, sizes and texts as
   such.
   */
  predicate FrameShape(w: map<Key, Value>) {
    && w.Keys <= {SchemaVersion, Enc, Cmp, ContentType, OriginalSize, CompressedSize, Payload, TraceId, RequestId,
                  SignatureKey}
    && IsText(w, SchemaVersion, "1.0") && IsText(w, Enc, "json") && IsText(w, ContentType, "application/json")
    && (IsText(w, Cmp, "none") || IsText(w, Cmp, "gzip"))
    && IsSize(w, OriginalSize) && IsSize(w, CompressedSize) && Payload in w
    && (TraceId in w ==> TextOrNone(w[TraceId])) && (RequestId in w ==> w[RequestId].Null? || TextOrNone(w[RequestId]))
    && (SignatureKey in w ==> SignatureShape(w[SignatureKey]))
  }

  function TextIn(w: map<Key, Value>, k: Key): Option<string> {
    if k in w && w[k].Str? then Some(w[k].text) else None
  }

  lemma SignatureReadsExactly(v: Value)
    ensures ReadSignature(v).Ok? <==> SignatureShape(v)
    ensures SignatureShape(v) ==> ReadSignature(v).value == SignatureIn(v)
  {
  }

  /** The shape checks accept exactly those objects, and read the fields as they are. */
  lemma ShapesExactly(v: Value)
    ensures ReadShape(v).Ok? <==> v.Object? && FrameShape(v.fields)
    ensures ReadShape(v).Ok? ==>
              var f, w := ReadShape(v).value, v.fields;
              && (f.cmp.Gzip? <==> w[Cmp] == Str("gzip")) && f.originalSize == w[OriginalSize].n
              && f.compressedSize == w[CompressedSize].n && f.payload == w[Payload]
              && f.traceId == TextIn(w, TraceId) && f.requestId == TextIn(w, RequestId)
              && f.signature == if SignatureKey in w then SignatureIn(w[SignatureKey]) else None
  {
    if v.Object? {
      SignatureReadsExactly(Field(v.fields, SignatureKey));
    }
  }

  /** A payload is the same as bytes, as a list of numbers, and as base64, within the limits. */
  lemma PayloadFormsAgree(p: Primitives, b: Bytes)
    requires Lawful(p) && |b| <= MAX_COMPRESSED
    ensures ReadPayload(p, Binary(b)) == Ok(b)
    ensures ReadPayload(p, List(seq(|b|, i requires 0 <= i < |b| => Int(b[i])))) == Ok(b)
    ensures ReadPayload(p, Str(p.toBase64(b))) ==
            if p.base64Length(p.toBase64(b)) > MAX_COMPRESSED then Err(TooLarge) else Ok(b)
  {
    var items := seq(|b|, i requires 0 <= i < |b| => Int(b[i]));
    assert AllBytes(items);
    assert seq(|items|, i requires 0 <= i < |items| => items[i].n as Byte) == b;
  }

  /** The decompressed bytes of an accepted frame. */
  function Inflated(p: Primitives, f: Frame, payload: Bytes): Option<Bytes> {
    if f.cmp.Gzip? then p.gunzip(payload) else Some(payload)
  }

  /**
   A frame of the right shape whose payload can be read is decoded exactly if it verifies, has the
   sizes it declares within the limits and the ratio, and its bytes are JSON text.
   */
  lemma AcceptsExactly(p: Primitives, v: Value, s: Signing)
    requires ReadShape(v).Ok?
    ensures var f := ReadShape(v).value;
      Decode(p, v, s).Ok? <==>
        && f.compressedSize <= MAX_COMPRESSED && f.originalSize <= MAX_DECODED
        && ReadPayload(p, f.payload).Ok? && AcceptsPayload(p, f, ReadPayload(p, f.payload).value, s)
  {
  }

  predicate AcceptsPayload(p: Primitives, f: Frame, payload: Bytes, s: Signing) {
    && |payload| == f.compressedSize && Verify(p, f, payload, s).None?
    && Inflated(p, f, payload).Some? && |Inflated(p, f, payload).value| == f.originalSize
    && (f.cmp.Gzip? ==> if payload == [] then f.originalSize <= 1 else f.originalSize <= 10 * |payload|)
    && p.parseJson(Inflated(p, f, payload).value).Some?
  }

  /** What a payload field is read as, or why it is not. */
  lemma PayloadReadsExactly(p: Primitives, v: Value)
    ensures var r := ReadPayload(p, v);
      match v
      case Binary(bytes) => r == Ok(bytes)
      case Str(text) => r == if p.base64Length(text) > 10485760 then Err(TooLarge) else Ok(p.fromBase64(text))
      case List(items) =>
        && (r == Err(TooLarge) <==> |items| > 10485760)
        && (r.Ok? <==> |items| <= 10485760 && forall i :: 0 <= i < |items| ==> items[i].Int? && 0 <= items[i].n < 256)
        && (r.Ok? ==> |r.value| == |items| && forall i :: 0 <= i < |items| ==> items[i] == Int(r.value[i]))
        && (r.Err? ==> r == Err(TooLarge) || r == Err(BadPayload))
      case _ => r == Err(BadPayload)
  {
  }

  /** A frame whose payload is not even read: of the wrong shape, over the limits, or with one that is no bytes. */
  lemma RefusesUnread(p: Primitives, v: Value, s: Signing)
    ensures var r, d := ReadShape(v), Decode(p, v, s);
      && (r.Err? ==> r == Err(BadShape) && d == Err(BadShape))
      && (r.Ok? && (r.value.compressedSize > 10485760 || r.value.originalSize > 10485760) ==> d == Err(TooLarge))
      && (r.Ok? && r.value.compressedSize <= 10485760 && r.value.originalSize <= 10485760
          && ReadPayload(p, r.value.payload).Err? ==>
            d == Err(ReadPayload(p, r.value.payload).error))
  {
  }

  /** The payload is as long as declared, and verifies. */
  predicate Intact(p: Primitives, f: Frame, payload: Bytes, s: Signing) {
    |payload| == f.compressedSize && Verify(p, f, payload, s).None?
  }

  /** The size a gzip frame declares is within the ratio. */
  predicate DeclaresInRatio(f: Frame, payload: Bytes) {
    f.cmp.Gzip? && payload != [] ==> f.originalSize <= 10 * |payload|
  }

  /** Decompression stops at what is declared; an empty payload or size stands for one byte. */
  predicate StopsInTime(f: Frame, payload: Bytes, out: Bytes) {
    f.cmp.Gzip? ==> |out| <= 1 || (|out| <= f.originalSize && |out| <= 10 * |payload|)
  }

  /** Why a frame of the right shape within the limits, whose payload can be read, is refused. */
  lemma RefusesFrameFor(p: Primitives, v: Value, s: Signing)
    requires ReadShape(v).Ok? && ReadPayload(p, ReadShape(v).value.payload).Ok?
    requires ReadShape(v).value.compressedSize <= MAX_COMPRESSED && ReadShape(v).value.originalSize <= MAX_DECODED
    ensures var f, d := ReadShape(v).value, Decode(p, v, s);
      var payload := ReadPayload(p, f.payload).value;
      var out, sound := Inflated(p, f, payload), Intact(p, f, payload, s) && DeclaresInRatio(f, payload);
      && (d == Err(BadGzip) <==> sound && out.None?)
      && (d == Err(BadJson) <==>
            sound && out.Some? && StopsInTime(f, payload, out.value) && |out.value| == f.originalSize
            && p.parseJson(out.value).None?)
      && (d == Err(Inflation) <==>
            || (Intact(p, f, payload, s) && !DeclaresInRatio(f, payload))
            || (sound && out.Some? && !StopsInTime(f, payload, out.value)))
      && (d == Err(SizeMismatch) <==>
            || |payload| != f.compressedSize
            || (sound && out.Some? && StopsInTime(f, payload, out.value) && |out.value| != f.originalSize))
      && (|payload| == f.compressedSize && Verify(p, f, payload, s).Some? ==>
            d == Err(Verify(p, f, payload, s).value))
  {
  }

  // ---------- why a signature is refused ----------

  predicate HasPrimary(s: Signing) { NonBlank(s.key).Some? }

  predicate HasPrevious(s: Signing, i: int) { 0 <= i < |s.previousKeys| && !Blank(s.previousKeys[i].key) }

  ghost predicate HasKey(s: Signing) { HasPrimary(s) || exists i :: HasPrevious(s, i) }

  /** Some configured key may have signed under the id. */
  ghost predicate HasKeyFor(s: Signing, id: Option<string>) {
    || (HasPrimary(s) && Compatible(KeyEntry(s.key.value, Trimmed(s.keyId)), id))
    || exists i :: HasPrevious(s, i) && Compatible(Usable(s.previousKeys[i]), id)
  }

  lemma KeysAre(s: Signing)
    ensures VerificationKeys(s) == [] <==> !HasKey(s)
  {
    if VerificationKeys(s) != [] {
      TriedKeys(s, VerificationKeys(s)[0]);
      if VerificationKeys(s)[0] in PreviousKeys(s.previousKeys) {
        var i := TriedKeyIsPrevious(s.previousKeys, VerificationKeys(s)[0]);
        assert HasPrevious(s, i);
      }
    }
    if i :| HasPrevious(s, i) {
      PreviousKeyIsTried(s.previousKeys, i);
      TriedKeys(s, Usable(s.previousKeys[i]));
    }
  }

  lemma KeysFit(s: Signing, id: Option<string>)
    ensures (exists i :: 0 <= i < |VerificationKeys(s)| && Compatible(VerificationKeys(s)[i], id)) <==> HasKeyFor(s, id)
  {
    var keys := VerificationKeys(s);
    if i :| 0 <= i < |keys| && Compatible(keys[i], id) {
      TriedKeys(s, keys[i]);
      if keys[i] in PreviousKeys(s.previousKeys) {
        var j := TriedKeyIsPrevious(s.previousKeys, keys[i]);
        assert HasPrevious(s, j);
      }
    }
    if HasPrimary(s) && Compatible(KeyEntry(s.key.value, Trimmed(s.keyId)), id) {
      assert keys[0] == KeyEntry(s.key.value, Trimmed(s.keyId));
    }
    if j :| HasPrevious(s, j) && Compatible(Usable(s.previousKeys[j]), id) {
      PreviousKeyIsTried(s.previousKeys, j);
      TriedKeys(s, Usable(s.previousKeys[j]));
      var i :| 0 <= i < |keys| && keys[i] == Usable(s.previousKeys[j]);
    }
  }

  /** An unsigned frame is refused exactly if a signature is required; a signed one for the first of these reasons. */
  lemma RefusesSignatureFor(p: Primitives, f: Frame, payload: Bytes, s: Signing)
    ensures f.signature.None? ==>
            Verify(p, f, payload, s) == if s.requireSignature then Some(SignatureRequired) else None
    ensures f.signature.Some? ==>
              var id, e := Trimmed(f.signature.value.keyId), Verify(p, f, payload, s);
              && (e == Some(NoKey) <==> !HasKey(s))
              && (e == Some(KeyIdRequired) <==> HasKey(s) && !IdFits(s, id))
              && (e == Some(KeyIdMismatch) <==> HasKey(s) && IdFits(s, id) && !HasKeyFor(s, id))
              && (e == Some(BadSignature) || e.None? <==> HasKey(s) && IdFits(s, id) && HasKeyFor(s, id))
  {
    if f.signature.Some? {
      KeysAre(s);
      KeysFit(s, Trimmed(f.signature.value.keyId));
      SomeKeyHasId(s);
      SomeIndexHasId(VerificationKeys(s));
    }
  }
}
