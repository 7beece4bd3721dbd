/** Validation and construction of clipboard payloads, and how long their encodings are. */
module Payloads {
  import opened Wire
  import opened Messages

  const MAX_PAYLOAD_BYTES := 20_000_000
  const DEFAULT_CHUNK_SIZE: int64 := 1_048_576

  /** The longest encoding of a valid payload: 69 bytes around the content. */
  const MAX_ENCODED_BYTES := 20_000_069

  datatype Error =
    | NilPayload | PayloadTooLarge | InvalidPayloadType | InvalidSHA256Length | InvalidSize
    | HashMismatch | InvalidUTF8 | InvalidImageMIME | UnexpectedMIMEType
    | ChunkSizeNotPositive | MarshalFailed | UnmarshalFailed
    | NilChunk | InvalidTransferID | InvalidChunkSequence | InvalidChunkCount | InvalidChunkTotalSize
    | ImageDecodeFailed
    | EmptyChunkData | ChunkMetadataMismatch | ConflictingChunk | ChunkSetSizeMismatch | TransferHashMismatch

  datatype Result<+T> = Ok(value: T) | Err(error: Error)

  predicate ImageMime(mime: Bytes) {
    mime == IMAGE_PNG || mime == IMAGE_JPEG
  }

  /** The first check that fails, in the program's order. */
  function ValidatePayload(env: Env, maybe: Option<ClipboardPayload>): Option<Error> {
    if maybe.None? then Some(NilPayload)
    else
      var p := maybe.value;
      if p.kind == KIND_UNSPECIFIED then Some(InvalidPayloadType)
      else if |p.data| > MAX_PAYLOAD_BYTES then Some(PayloadTooLarge)
      else if |p.sha256| != 32 then Some(InvalidSHA256Length)
      else if p.sizeBytes != |p.data| then Some(InvalidSize)
      else
        var kindError :=
          if p.kind == KIND_IMAGE then
            if ImageMime(p.mimeType) then None else Some(InvalidImageMIME)
          else if p.kind == KIND_TEXT || p.kind == KIND_URL then
            if p.mimeType != [] then Some(UnexpectedMIMEType)
            else if !env.utf8(p.data) then Some(InvalidUTF8)
            else None
          else Some(InvalidPayloadType);
        if kindError.Some? then kindError
        else if env.sha256(p.data) != p.sha256 then Some(HashMismatch)
        else None
  }

  /** What content of a kind is allowed. */
  predicate Acceptable(env: Env, kind: int, data: Bytes, mime: Bytes) {
    && |data| <= MAX_PAYLOAD_BYTES
    && ((kind == KIND_IMAGE && ImageMime(mime))
        || ((kind == KIND_TEXT || kind == KIND_URL) && mime == [] && env.utf8(data)))
  }

  /** A payload that describes its own content. */
  predicate IsValid(env: Env, p: ClipboardPayload) {
    Acceptable(env, p.kind, p.data, p.mimeType) && p.sizeBytes == |p.data| && p.sha256 == env.sha256(p.data)
  }

  lemma {:induction false} ValidateDecidesValidity(env: Env, p: ClipboardPayload)
    ensures ValidatePayload(env, Some(p)) == None <==> IsValid(env, p)
  {
  }

  /** Which check refuses a payload: the first one that fails. */
  lemma {:induction false} PayloadRefusedExactly(env: Env, p: ClipboardPayload)
    ensures var refusal := ValidatePayload(env, Some(p));
      && (refusal == Some(InvalidPayloadType) <== p.kind == KIND_UNSPECIFIED)
      && (p.kind != KIND_UNSPECIFIED ==>
            && (refusal == Some(PayloadTooLarge) <==> |p.data| > MAX_PAYLOAD_BYTES)
            && (|p.data| <= MAX_PAYLOAD_BYTES ==>
                  && (refusal == Some(InvalidSHA256Length) <==> |p.sha256| != 32)
                  && (refusal == Some(InvalidSize) <==> |p.sha256| == 32 && p.sizeBytes != |p.data|)
                  && (|p.sha256| == 32 && p.sizeBytes == |p.data| ==>
                        && (refusal == Some(InvalidPayloadType) <==> p.kind !in {KIND_TEXT, KIND_URL, KIND_IMAGE})
                        && (refusal == Some(InvalidImageMIME) <==> p.kind == KIND_IMAGE && !ImageMime(p.mimeType))
                        && (refusal == Some(UnexpectedMIMEType) <==> p.kind in {KIND_TEXT, KIND_URL} && p.mimeType != [])
                        && (refusal == Some(InvalidUTF8) <==>
                              (p.kind in {KIND_TEXT, KIND_URL} && p.mimeType == [] && !env.utf8(p.data)))
                        && (Acceptable(env, p.kind, p.data, p.mimeType) ==>
                              (refusal == Some(HashMismatch) <==> env.sha256(p.data) != p.sha256)))))
    ensures ValidatePayload(env, None) == Some(NilPayload)
  {
  }

  /** Builds a payload; `unixMs` is the caller's clock in milliseconds. */
  function NewPayload(env: Env, unixMs: int64, kind: int32, data: Bytes, mime: Bytes): Result<ClipboardPayload> {
    if kind == KIND_UNSPECIFIED then Err(InvalidPayloadType)
    else if |data| > MAX_PAYLOAD_BYTES then Err(PayloadTooLarge)
    else if kind == KIND_IMAGE && !ImageMime(mime) then Err(InvalidImageMIME)
    else if kind != KIND_IMAGE && mime != [] then Err(UnexpectedMIMEType)
    else if kind != KIND_IMAGE && !env.utf8(data) then Err(InvalidUTF8)
    else
      var p := ClipboardPayload(unixMs, kind, env.sha256(data), data, mime, |data|);
      match ValidatePayload(env, Some(p))
      case Some(e) => Err(e)
      case None => Ok(p)
  }

  /** Construction succeeds on exactly the acceptable content, and its result is a valid payload
      of that content; construction is the only way to make a valid payload. */
  lemma {:induction false} NewPayloadMakesValidPayloads(env: Env, unixMs: int64, kind: int32, data: Bytes, mime: Bytes)
    ensures NewPayload(env, unixMs, kind, data, mime).Ok? <==> Acceptable(env, kind, data, mime)
    ensures forall p: ClipboardPayload ::
              NewPayload(env, unixMs, kind, data, mime) == Ok(p)
              <==> IsValid(env, p) && p.timestamp == unixMs && p.kind == kind && p.data == data && p.mimeType == mime
  {
    forall p: ClipboardPayload
      ensures NewPayload(env, unixMs, kind, data, mime) == Ok(p)
        <==> IsValid(env, p) && p.timestamp == unixMs && p.kind == kind && p.data == data && p.mimeType == mime
    {
      ValidateDecidesValidity(env, p);
    }
  }

  /** Which check refuses content; a kind the program does not know comes out last. */
  lemma {:induction false} ContentRefusedExactly(env: Env, unixMs: int64, kind: int32, data: Bytes, mime: Bytes)
    ensures var r := NewPayload(env, unixMs, kind, data, mime);
      && (kind == KIND_UNSPECIFIED ==> r == Err(InvalidPayloadType))
      && (kind != KIND_UNSPECIFIED ==>
            && (r == Err(PayloadTooLarge) <==> |data| > MAX_PAYLOAD_BYTES)
            && (|data| <= MAX_PAYLOAD_BYTES ==>
                  && (r == Err(InvalidImageMIME) <==> kind == KIND_IMAGE && !ImageMime(mime))
                  && (r == Err(UnexpectedMIMEType) <==> kind != KIND_IMAGE && mime != [])
                  && (r == Err(InvalidUTF8) <==> kind != KIND_IMAGE && mime == [] && !env.utf8(data))
                  && (r == Err(InvalidPayloadType) <==>
                        (kind !in {KIND_TEXT, KIND_URL, KIND_IMAGE} && mime == [] && env.utf8(data)))))
  {
  }

  function Encoding(p: ClipboardPayload): Bytes {
    EncodeFields(PayloadFields(p))
  }

  lemma {:induction false} ValidPayloadMarshals(env: Env, p: ClipboardPayload)
    requires IsValid(env, p)
    ensures p.Representable() && env.utf8(p.mimeType)
    ensures MarshalPayload(env, p) == Some(Encoding(p))
    ensures UnmarshalPayload(env, Encoding(p)) == Some(p)
  {
    PayloadRoundTrip(env, p);
  }

  lemma {:induction false} ContentLength(env: Env, p: ClipboardPayload)
    requires IsValid(env, p)
    ensures |EncodeFields(ContentFields(p))| <= |p.data| + 22
  {
    var f6 := When(p.sizeBytes != 0, VarintField(6, p.sizeBytes)) + [];
    var f5 := When(p.mimeType != [], BytesField(5, p.mimeType)) + f6;
    EncodedWhen(p.data != [], BytesField(4, p.data), f5);
    EncodedWhen(p.mimeType != [], BytesField(5, p.mimeType), f6);
    EncodedWhen(p.sizeBytes != 0, VarintField(6, p.sizeBytes), []);
    BytesRecordLength(4, p.data);
    BytesRecordLength(5, p.mimeType);
    WordRecordLength(6, p.sizeBytes);
    VarintLengths(|p.data|);
    VarintLengths(|p.mimeType|);
  }

  lemma {:induction false} UntimedLength(env: Env, p: ClipboardPayload)
    requires IsValid(env, p)
    ensures 1 <= |EncodeFields(UntimedFields(p))| <= |p.data| + 58
  {
    ContentLength(env, p);
    EncodedWhen(true, VarintField(2, ToWord(p.kind)), When(true, BytesField(3, p.sha256)) + ContentFields(p));
    EncodedWhen(true, BytesField(3, p.sha256), ContentFields(p));
    WordRecordLength(2, ToWord(p.kind));
    BytesRecordLength(3, p.sha256);
    VarintLengths(ToWord(p.kind));
    VarintLengths(32);
  }

  /** A valid payload's encoding is never empty and adds at most 69 bytes to the content. */
  lemma {:induction false} EncodingLength(env: Env, p: ClipboardPayload)
    requires IsValid(env, p)
    ensures 1 <= |Encoding(p)| <= |p.data| + 69 <= MAX_ENCODED_BYTES
  {
    PayloadEncoding(p);
    UntimedLength(env, p);
    TimestampRecordLength(p.timestamp);
  }
}
