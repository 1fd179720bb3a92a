/** Round trips and key rotation of the codec. */
module CodecProofs {
  import opened Wrappers
  import opened CodecText
  import opened CodecSpec

  /** A frame the encoder can build: its header texts, a binary payload, a well-formed signature. */
  ghost predicate Encodable(f: Frame) {
    && f.payload.Binary?
    && (f.signature.Some? ==> !Blank(f.signature.value.value))
  }

  lemma SignatureFieldReads(f: Frame)
    requires f.signature.Some? && !Blank(f.signature.value.value)
    ensures var o := ToWire(f).fields; SignatureKey in o && ReadSignature(o[SignatureKey]) == Ok(f.signature)
  {
  }

  lemma WireFields(f: Frame)
    ensures var o := ToWire(f).fields;
      && o.Keys <= ROOT_KEYS && Payload in o && o[Payload] == f.payload
      && Field(o, SchemaVersion) == Str("1.0") && Field(o, Enc) == Str("json")
         && Field(o, ContentType) == Str("application/json")
      && Field(o, Cmp) == Str(if f.cmp.Gzip? then "gzip" else "none")
      && Field(o, OriginalSize) == Int(f.originalSize) && Field(o, CompressedSize) == Int(f.compressedSize)
      && Field(o, TraceId) == TextOrUndefined(f.traceId) && Field(o, RequestId) == TextOrUndefined(f.requestId)
      && (f.signature.None? ==> Field(o, SignatureKey) == Undefined)
  {
  }

  /** The shape checks read back exactly the frame that was put on the wire. */
  lemma ShapeRoundTrip(f: Frame)
    requires Encodable(f)
    ensures ReadShape(ToWire(f)) == Ok(f)
  {
    WireFields(f);
    if f.signature.Some? {
      SignatureFieldReads(f);
    }
  }

  // ---------- signing ----------

  /** What a previous key is tried as. */
  function Usable(e: KeyEntry): KeyEntry { KeyEntry(Trim(e.key), Trimmed(e.keyId)) }

  lemma {:induction false} PreviousKeyIsTried(entries: seq<KeyEntry>, i: nat)
    requires i < |entries| && !Blank(entries[i].key)
    ensures Usable(entries[i]) in PreviousKeys(entries)
  {
    var n := |entries| - 1;
    if i < n {
      PreviousKeyIsTried(entries[..n], i);
    }
  }

  lemma {:induction false} TriedKeyIsPrevious(entries: seq<KeyEntry>, e: KeyEntry) returns (i: nat)
    requires e in PreviousKeys(entries)
    ensures i < |entries| && !Blank(entries[i].key) && e == Usable(entries[i])
  {
    var n := |entries| - 1;
    if e in PreviousKeys(entries[..n]) {
      i := TriedKeyIsPrevious(entries[..n], e);
    } else {
      i := n;
    }
  }

  /** The usable previous keys are exactly the trimmed non-blank ones; ids survive only if not blank. */
  lemma PreviousKeysAre(entries: seq<KeyEntry>, e: KeyEntry)
    ensures e in PreviousKeys(entries) <==>
            exists i :: 0 <= i < |entries| && !Blank(entries[i].key) && e == Usable(entries[i])
  {
    if e in PreviousKeys(entries) {
      var i := TriedKeyIsPrevious(entries, e);
    }
    if i :| 0 <= i < |entries| && !Blank(entries[i].key) && e == Usable(entries[i]) {
      PreviousKeyIsTried(entries, i);
    }
  }

  lemma TrimmedTwice(s: Option<string>)
    ensures Trimmed(Trimmed(s)) == Trimmed(s)
  {
    if s.Some? {
      TrimTwice(s.value);
    }
  }

  /** What signing options must look like for their owner's frames to pass its own checks. */
  ghost predicate VerifiesOwnFrames(s: Signing) {
    if NonBlank(s.key).None? then !s.requireSignature
    else NonBlank(s.keyId).Some? || (s.keyId.None? && forall i :: !PreviousHasId(s, i))
  }

  /** A signed frame, read back: the digest and the trimmed key id come out as they went in. */
  lemma SignatureReadsBack(p: Primitives, f: Frame, payload: Bytes, s: Signing)
    requires Lawful(p) && f.signature.None? && NonBlank(s.key).Some?
    ensures var g := Sign(p, f, payload, s);
      && g.signature.Some? && !Blank(g.signature.value.value)
      && p.fromBase64(Trim(g.signature.value.value)) == Digest(p, s.key.value, g, payload)
      && Trimmed(g.signature.value.keyId) == Trimmed(s.keyId)
      && HeaderOf(g) == HeaderOf(f)
  {
    TrimmedTwice(s.keyId);
    assert Digest(p, s.key.value, f, payload) != [];
  }

  /** The options let a frame with this key id through: without one, no key id may be configured. */
  ghost predicate IdFits(s: Signing, id: Option<string>) {
    id.Some? || (s.keyId.None? && forall i :: !PreviousHasId(s, i))
  }

  predicate PreviousHasId(s: Signing, i: int) {
    0 <= i < |s.previousKeys| && !Blank(s.previousKeys[i].key) && NonBlank(s.previousKeys[i].keyId).Some?
  }

  /** The primary key, as it is configured, fits the id and gives the digest. */
  predicate PrimaryConfirms(p: Primitives, f: Frame, payload: Bytes, s: Signing, id: Option<string>, digest: Bytes) {
    && NonBlank(s.key).Some? && Compatible(KeyEntry(s.key.value, Trimmed(s.keyId)), id)
    && Digest(p, s.key.value, f, payload) == digest
  }

  /** The previous key at i, trimmed, fits the id and gives the digest. */
  predicate PreviousConfirms(p: Primitives, f: Frame, payload: Bytes, s: Signing, id: Option<string>, digest: Bytes,
                             i: int) {
    && 0 <= i < |s.previousKeys| && !Blank(s.previousKeys[i].key)
    && Compatible(Usable(s.previousKeys[i]), id)
    && Digest(p, Trim(s.previousKeys[i].key), f, payload) == digest
  }

  ghost predicate KeyAccepts(p: Primitives, f: Frame, payload: Bytes, e: KeyEntry, id: Option<string>, digest: Bytes) {
    Compatible(e, id) && Confirms(p, e, f, payload, digest)
  }

  /** Where a configured key is found among those that are tried, and back. */
  lemma TriedKeys(s: Signing, e: KeyEntry)
    ensures e in VerificationKeys(s) <==>
            || (NonBlank(s.key).Some? && e == KeyEntry(s.key.value, Trimmed(s.keyId)))
            || e in PreviousKeys(s.previousKeys)
  {
  }

  lemma SomeKeyConfirms(p: Primitives, f: Frame, payload: Bytes, s: Signing, id: Option<string>, digest: Bytes)
    ensures (exists e :: e in VerificationKeys(s) && KeyAccepts(p, f, payload, e, id, digest)) <==>
            || PrimaryConfirms(p, f, payload, s, id, digest)
            || exists i :: PreviousConfirms(p, f, payload, s, id, digest, i)
  {
    if PrimaryConfirms(p, f, payload, s, id, digest) {
      var e := KeyEntry(s.key.value, Trimmed(s.keyId));
      TriedKeys(s, e);
      assert KeyAccepts(p, f, payload, e, id, digest);
    }
    if i :| PreviousConfirms(p, f, payload, s, id, digest, i) {
      var e := Usable(s.previousKeys[i]);
      PreviousKeyIsTried(s.previousKeys, i);
      TriedKeys(s, e);
      assert KeyAccepts(p, f, payload, e, id, digest);
    }
    if e :| e in VerificationKeys(s) && KeyAccepts(p, f, payload, e, id, digest) {
      TriedKeys(s, e);
      if e in PreviousKeys(s.previousKeys) {
        var i := TriedKeyIsPrevious(s.previousKeys, e);
        assert PreviousConfirms(p, f, payload, s, id, digest, i);
      }
    }
  }

  lemma SomeKeyHasId(s: Signing)
    ensures (s.keyId.Some? || exists e :: e in VerificationKeys(s) && e.keyId.Some?) <==>
            s.keyId.Some? || exists i :: PreviousHasId(s, i)
  {
    if i :| PreviousHasId(s, i) {
      PreviousKeyIsTried(s.previousKeys, i);
      TriedKeys(s, Usable(s.previousKeys[i]));
    }
    if e :| e in VerificationKeys(s) && e.keyId.Some? {
      TriedKeys(s, e);
      if e in PreviousKeys(s.previousKeys) {
        var i := TriedKeyIsPrevious(s.previousKeys, e);
        assert PreviousHasId(s, i);
      }
    }
  }

  lemma SomeIndexAccepts(p: Primitives, f: Frame, payload: Bytes, keys: seq<KeyEntry>, id: Option<string>,
                         digest: Bytes)
    ensures (exists i :: 0 <= i < |keys| && Compatible(keys[i], id) && Confirms(p, keys[i], f, payload, digest)) <==>
            exists e :: e in keys && KeyAccepts(p, f, payload, e, id, digest)
  {
    if e :| e in keys && KeyAccepts(p, f, payload, e, id, digest) {
      var i :| 0 <= i < |keys| && keys[i] == e;
    }
    if i :| 0 <= i < |keys| && Compatible(keys[i], id) && Confirms(p, keys[i], f, payload, digest) {
      assert keys[i] in keys && KeyAccepts(p, f, payload, keys[i], id, digest);
    }
  }

  lemma SomeIndexHasId(keys: seq<KeyEntry>)
    ensures (exists i :: 0 <= i < |keys| && keys[i].keyId.Some?) <==> exists e :: e in keys && e.keyId.Some?
  {
    if e :| e in keys && e.keyId.Some? {
      var i :| 0 <= i < |keys| && keys[i] == e;
    }
  }

  /** The verification in terms of the keys tried, whatever their order. */
  lemma VerifyTries(p: Primitives, f: Frame, payload: Bytes, s: Signing)
    requires f.signature.Some? && !Blank(f.signature.value.value)
    ensures var id := Trimmed(f.signature.value.keyId);
      var digest := p.fromBase64(Trim(f.signature.value.value));
      Verify(p, f, payload, s).None? <==>
        && (id.Some? || !(s.keyId.Some? || exists e :: e in VerificationKeys(s) && e.keyId.Some?))
        && exists e :: e in VerificationKeys(s) && KeyAccepts(p, f, payload, e, id, digest)
  {
    SomeIndexHasId(VerificationKeys(s));
    SomeIndexAccepts(p, f, payload, VerificationKeys(s), Trimmed(f.signature.value.keyId),
                     p.fromBase64(Trim(f.signature.value.value)));
  }

  /**
   Exactly which options verify a frame signed under any key: those whose configured ids fit the
   frame's, with a key that fits its id and gives the digest - the primary key as it is configured,
   or a previous one after trimming.
   */
  lemma SignedVerifiesExactly(p: Primitives, f: Frame, payload: Bytes, o: Signing, s: Signing)
    requires Lawful(p) && f.signature.None? && NonBlank(o.key).Some?
    ensures var id, digest := Trimmed(o.keyId), Digest(p, o.key.value, f, payload);
      Verify(p, Sign(p, f, payload, o), payload, s).None? <==>
        && IdFits(s, id)
        && (PrimaryConfirms(p, f, payload, s, id, digest)
            || exists i :: PreviousConfirms(p, f, payload, s, id, digest, i))
  {
    var g, id, digest := Sign(p, f, payload, o), Trimmed(o.keyId), Digest(p, o.key.value, f, payload);
    SignatureReadsBack(p, f, payload, o);
    VerifyTries(p, g, payload, s);
    SomeKeyHasId(s);
    SomeKeyConfirms(p, f, payload, s, id, digest);
    forall e ensures KeyAccepts(p, g, payload, e, id, digest) <==> KeyAccepts(p, f, payload, e, id, digest) {
    }
  }

  /** Under its owner's options a frame verifies exactly if no signature is required without a key, and the ids fit. */
  lemma VerifiesOwn(p: Primitives, f: Frame, payload: Bytes, s: Signing)
    requires Lawful(p) && f.signature.None?
    ensures Verify(p, Sign(p, f, payload, s), payload, s).None? <==> VerifiesOwnFrames(s)
  {
    if NonBlank(s.key).Some? {
      SignedVerifiesExactly(p, f, payload, s, s);
      assert PrimaryConfirms(p, f, payload, s, Trimmed(s.keyId), Digest(p, s.key.value, f, payload));
      assert IdFits(s, Trimmed(s.keyId)) <==>
             NonBlank(s.keyId).Some? || (s.keyId.None? && forall i :: !PreviousHasId(s, i));
    }
  }

  // ---------- the round trip ----------

  lemma PrepareFits(p: Primitives, original: Bytes, pref: Preference)
    requires Lawful(p)
    ensures var (cmp, payload) := Prepare(p, original, pref);
      if cmp.Gzip? then
        p.gunzip(payload) == Some(original) && 0 < |original| <= MAX_RATIO * |payload| && |original| <= MAX_GZIP_INPUT
      else payload == original
  {
  }

  /** The frame the encoder builds. */
  function Built(p: Primitives, v: Json, o: Options): (Frame, Bytes) {
    var original := p.printJson(v);
    var (cmp, payload) := Prepare(p, original, o.compression);
    (BuildFrame(p, cmp, payload, |original|, o), payload)
  }

  lemma BuiltIs(p: Primitives, v: Json, o: Options)
    requires Lawful(p) && Encode(p, v, o).Ok?
    ensures var (g, payload) := Built(p, v, o);
      && Encode(p, v, o).value == ToWire(g) && Encodable(g)
      && g.payload == Binary(payload) && |payload| == g.compressedSize <= MAX_COMPRESSED
      && g.originalSize == |p.printJson(v)| <= MAX_DECODED
      && if g.cmp.Gzip? then
           p.gunzip(payload) == Some(p.printJson(v)) && 0 < g.originalSize <= MAX_RATIO * |payload|
         else payload == p.printJson(v)
  {
    PrepareFits(p, p.printJson(v), o.compression);
    var (cmp, payload) := Prepare(p, p.printJson(v), o.compression);
    SignedIsEncodable(p, Unsigned(cmp, payload, |p.printJson(v)|, o), payload, o.signing);
  }

  lemma SignedIsEncodable(p: Primitives, f: Frame, payload: Bytes, s: Signing)
    requires Lawful(p) && f.signature.None? && f.payload.Binary?
    ensures var g := Sign(p, f, payload, s); Encodable(g) && g == f.(signature := g.signature)
  {
    if NonBlank(s.key).Some? {
      SignatureReadsBack(p, f, payload, s);
    }
  }

  lemma ParsesBack(p: Primitives, g: Frame, payload: Bytes, s: Signing)
    requires Encodable(g) && g.payload == Binary(payload) && |payload| == g.compressedSize <= MAX_COMPRESSED
    requires g.originalSize <= MAX_DECODED && (g.cmp.Gzip? ==> g.originalSize <= MAX_RATIO * |payload|)
    ensures ParseFrame(p, ToWire(g), s) ==
              if Verify(p, g, payload, s).Some? then Err(Verify(p, g, payload, s).value) else Ok((g, payload))
  {
    ShapeRoundTrip(g);
  }

  /**
   No size, ratio or output limit of the decoder ever rejects what the encoder lets out: all depends on the
   signature.
   */
  lemma DecodesUnlessUnverified(p: Primitives, v: Json, o: Options, s: Signing)
    requires Lawful(p) && Encode(p, v, o).Ok?
    ensures var (g, payload) := Built(p, v, o);
      Decode(p, Encode(p, v, o).value, s) ==
        if Verify(p, g, payload, s).Some? then Err(Verify(p, g, payload, s).value)
        else Ok(Decoded(g, payload, p.printJson(v), v))
  {
    var (g, payload) := Built(p, v, o);
    BuiltIs(p, v, o);
    ParsesBack(p, g, payload, s);
    assert p.parseJson(p.printJson(v)) == Some(v);
  }

  /**
   Decoding a frame gives back the value that was encoded, for every value, compression choice
   and signing option, exactly if the options verify their owner's own frames.
   */
  lemma RoundTrip(p: Primitives, v: Json, o: Options)
    requires Lawful(p) && Encode(p, v, o).Ok?
    ensures var d := Decode(p, Encode(p, v, o).value, o.signing);
      (d.Ok? && d.value.data == v && d.value.bytes == p.printJson(v)) <==> VerifiesOwnFrames(o.signing)
  {
    var (cmp, payload) := Prepare(p, p.printJson(v), o.compression);
    DecodesUnlessUnverified(p, v, o, o.signing);
    VerifiesOwn(p, Unsigned(cmp, payload, |p.printJson(v)|, o), payload, o.signing);
  }

  /** The encoder refuses exactly what would not fit. */
  lemma EncodeRefuses(p: Primitives, v: Json, o: Options)
    requires Lawful(p)
    ensures Encode(p, v, o).Err? <==>
            || |p.printJson(v)| > MAX_DECODED
            || |Prepare(p, p.printJson(v), o.compression).1| > MAX_COMPRESSED
    ensures o.compression.Never? ==> (Encode(p, v, o).Err? <==> |p.printJson(v)| > MAX_DECODED)
    ensures Encode(p, v, o).Err? ==> Encode(p, v, o) == Err(TooLarge)
  {
  }

  // ---------- key rotation ----------

  /**
   A frame signed under a key with an id decodes wherever that key is among the previous ones, whatever else
   changed.
   */
  lemma RotatedKeyVerifies(p: Primitives, v: Json, o: Options, s: Signing, i: nat)
    requires Lawful(p) && Encode(p, v, o).Ok?
    requires NonBlank(o.signing.key).Some? && Trim(o.signing.key.value) == o.signing.key.value
    requires NonBlank(o.signing.keyId).Some?
    requires i < |s.previousKeys|
    requires Trim(s.previousKeys[i].key) == o.signing.key.value
             && Trimmed(s.previousKeys[i].keyId) == Trimmed(o.signing.keyId)
    ensures var d := Decode(p, Encode(p, v, o).value, s); d.Ok? && d.value.data == v
  {
    var (cmp, payload) := Prepare(p, p.printJson(v), o.compression);
    var f := Unsigned(cmp, payload, |p.printJson(v)|, o);
    DecodesUnlessUnverified(p, v, o, s);
    SignedVerifiesExactly(p, f, payload, o.signing, s);
    assert PreviousConfirms(p, f, payload, s, Trimmed(o.signing.keyId), Digest(p, o.signing.key.value, f, payload), i);
  }

  /**
   Previous keys are trimmed and the signing key is not.  Under any options that have the key and
   its id among the previous ones, its old frames verify exactly if the trimmed key gives the same
   digest, or some other configured key happens to.
   */
  lemma RotationNeedsATrimmedKey(p: Primitives, f: Frame, payload: Bytes, o: Signing, s: Signing, i: nat)
    requires Lawful(p) && f.signature.None? && NonBlank(o.key).Some? && NonBlank(o.keyId).Some?
    requires i < |s.previousKeys| && s.previousKeys[i] == KeyEntry(o.key.value, o.keyId)
    ensures var id, digest := Trimmed(o.keyId), Digest(p, o.key.value, f, payload);
      Verify(p, Sign(p, f, payload, o), payload, s).None? <==>
        || Digest(p, Trim(o.key.value), f, payload) == digest
        || PrimaryConfirms(p, f, payload, s, id, digest)
        || exists j :: j != i && PreviousConfirms(p, f, payload, s, id, digest, j)
  {
    var id, digest := Trimmed(o.keyId), Digest(p, o.key.value, f, payload);
    SignedVerifiesExactly(p, f, payload, o, s);
    assert PreviousConfirms(p, f, payload, s, id, digest, i) <==> Digest(p, Trim(o.key.value), f, payload) == digest;
  }

  /** A frame with a signature is accepted only if some configured key that fits its id confirms it. */
  lemma AcceptedSignatureIsConfirmed(p: Primitives, w: Value, s: Signing)
    requires Decode(p, w, s).Ok?
    ensures var d := Decode(p, w, s).value;
      if d.frame.signature.Some? then
        exists e :: e in VerificationKeys(s) && Compatible(e, Trimmed(d.frame.signature.value.keyId))
                    && Digest(p, e.key, d.frame, d.payload) == p.fromBase64(Trim(d.frame.signature.value.value))
      else !s.requireSignature
  {
    var d := Decode(p, w, s).value;
    assert Verify(p, d.frame, d.payload, s).None?;
    if d.frame.signature.Some? {
      var id := Trimmed(d.frame.signature.value.keyId);
      var provided := p.fromBase64(Trim(d.frame.signature.value.value));
      SomeIndexAccepts(p, d.frame, d.payload, VerificationKeys(s), id, provided);
      var e :| e in VerificationKeys(s) && KeyAccepts(p, d.frame, d.payload, e, id, provided);
    }
  }

  /** Whatever is accepted was within the limits before and after decompression, and is what the header declares. */
  lemma AcceptedIsWithinLimits(p: Primitives, w: Value, s: Signing)
    requires Decode(p, w, s).Ok?
    ensures var d := Decode(p, w, s).value;
      && |d.payload| == d.frame.compressedSize <= MAX_COMPRESSED
      && |d.bytes| == d.frame.originalSize <= MAX_DECODED
      && (if d.frame.cmp.Gzip?
          then p.gunzip(d.payload) == Some(d.bytes) && (|d.payload| > 0 ==> |d.bytes| <= MAX_RATIO * |d.payload|)
          else d.bytes == d.payload)
      && p.parseJson(d.bytes) == Some(d.data)
  {
  }
}
