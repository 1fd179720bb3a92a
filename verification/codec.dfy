/** The loops of the codec. */
module Codec {
  import opened Wrappers
  import opened CodecText
  import opened CodecSpec

  /** payloadToBuffer */
  method PayloadToBuffer(p: Primitives, v: Value) returns (r: Result<Bytes, Error>)
    ensures r == ReadPayload(p, v)
  {
    match v
    case Str(text) =>
      if p.base64Length(text) > MAX_COMPRESSED {
        return Err(TooLarge);
      }
      return Ok(p.fromBase64(text));
    case Binary(bytes) => return Ok(bytes);
    case List(items) =>
      var length := |items|;
      if length > MAX_COMPRESSED {
        return Err(TooLarge);
      }
      var buffer := new Byte[length];
      for index := 0 to length
        invariant forall i :: 0 <= i < index ==> IsByte(items[i]) && buffer[i] == items[i].n
      {
        if !IsByte(items[index]) {
          return Err(BadPayload);
        }
        buffer[index] := items[index].n as Byte;
      }
      assert AllBytes(items);
      assert buffer[..] == seq(length, i requires 0 <= i < length => items[i].n as Byte);
      return Ok(buffer[..]);
    case _ => return Err(BadPayload);
  }

  /** resolveVerificationKeys */
  method ResolveVerificationKeys(s: Signing) returns (keys: seq<KeyEntry>)
    ensures keys == VerificationKeys(s)
  {
    keys := [];
    if NonBlank(s.key).Some? {
      keys := keys + [KeyEntry(s.key.value, Trimmed(s.keyId))];
    }
    ghost var primary := keys;
    var entries := s.previousKeys;
    for i := 0 to |entries|
      invariant keys == primary + PreviousKeys(entries[..i])
    {
      var key := Trim(entries[i].key);
      OneKeyMore(primary, entries, i);
      if key != "" {
        keys := keys + [KeyEntry(key, Trimmed(entries[i].keyId))];
      }
    }
    assert entries[..|entries|] == entries;
  }

  lemma OneKeyMore(primary: seq<KeyEntry>, entries: seq<KeyEntry>, i: nat)
    requires i < |entries|
    ensures primary + PreviousKeys(entries[..i + 1]) ==
            if Blank(entries[i].key) then primary + PreviousKeys(entries[..i])
            else primary + PreviousKeys(entries[..i]) + [KeyEntry(Trim(entries[i].key), Trimmed(entries[i].keyId))]
  {
    assert entries[..i + 1][..i] == entries[..i];
  }

  /** verifyFrameSignature: tries the keys that fit, and stops at the first that confirms. */
  method VerifyFrameSignature(p: Primitives, f: Frame, payload: Bytes, s: Signing) returns (e: Option<Error>)
    ensures e == Verify(p, f, payload, s)
  {
    if f.signature.None? {
      return if s.requireSignature then Some(SignatureRequired) else None;
    }
    var keys := ResolveVerificationKeys(s);
    if keys == [] {
      return Some(NoKey);
    }
    var id := Trimmed(f.signature.value.keyId);
    if (s.keyId.Some? || exists i :: 0 <= i < |keys| && keys[i].keyId.Some?) && id.None? {
      return Some(KeyIdRequired);
    }
    if forall i :: 0 <= i < |keys| ==> !Compatible(keys[i], id) {
      return Some(KeyIdMismatch);
    }
    var text := Trim(f.signature.value.value);
    if text == "" {
      return Some(BadSignature);
    }
    var provided := p.fromBase64(text);
    for i := 0 to |keys|
      invariant forall k :: 0 <= k < i && Compatible(keys[k], id) ==> !Confirms(p, keys[k], f, payload, provided)
    {
      if Compatible(keys[i], id) && Digest(p, keys[i].key, f, payload) == provided {
        assert Confirms(p, keys[i], f, payload, provided);
        return None;
      }
    }
    return Some(BadSignature);
  }

  /** decodePayloadFrame, without the cache of payloads validated before. */
  method DecodeFrame(p: Primitives, w: Value, s: Signing) returns (r: Result<Decoded, Error>)
    ensures r == Decode(p, w, s)
  {
    var shape := ReadShape(w);
    if shape.Err? {
      return Err(shape.error);
    }
    var f := shape.value;
    if f.compressedSize > MAX_COMPRESSED || f.originalSize > MAX_DECODED {
      return Err(TooLarge);
    }
    var payload := PayloadToBuffer(p, f.payload);
    if payload.Err? {
      return Err(payload.error);
    }
    if |payload.value| != f.compressedSize {
      return Err(SizeMismatch);
    }
    var refused := VerifyFrameSignature(p, f, payload.value, s);
    if refused.Some? {
      return Err(refused.value);
    }
    if f.cmp.Gzip? && |payload.value| > 0 && f.originalSize > MAX_RATIO * |payload.value| {
      return Err(Inflation);
    }
    var bytes := if f.cmp.Gzip? then GunzipWithLimit(p, payload.value, f.originalSize) else Ok(payload.value);
    if bytes.Err? {
      return Err(bytes.error);
    }
    if |bytes.value| != f.originalSize {
      return Err(SizeMismatch);
    }
    if |bytes.value| > MAX_DECODED {
      return Err(TooLarge);
    }
    if f.cmp.Gzip? && |payload.value| > 0 && |bytes.value| > MAX_RATIO * |payload.value| {
      return Err(Inflation);
    }
    var data := p.parseJson(bytes.value);
    return if data.None? then Err(BadJson) else Ok(Decoded(f, payload.value, bytes.value, data.value));
  }
}
