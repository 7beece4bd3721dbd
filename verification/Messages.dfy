/** The two protobuf messages of the clipboard protocol and their wire codec. Fields are
    emitted in field-number order and proto3 defaults are left out. */
module Messages {
  import opened Wire

  const IMAGE_PNG: Bytes := [0x69, 0x6d, 0x61, 0x67, 0x65, 0x2f, 0x70, 0x6e, 0x67]
  const IMAGE_JPEG: Bytes := [0x69, 0x6d, 0x61, 0x67, 0x65, 0x2f, 0x6a, 0x70, 0x65, 0x67]

  lemma {:induction false} MimesAreSpelled()
    ensures IMAGE_PNG == Ascii("image/png") && IMAGE_JPEG == Ascii("image/jpeg")
  {
  }

  type Digest = b: Bytes | |b| == 32 witness seq(32, _ => 0)

  /** A UTF-8 check; of all it answers, only the answers for the three legal MIME strings are fixed. */
  type Utf8Check = f: Bytes -> bool | f([]) && f(IMAGE_PNG) && f(IMAGE_JPEG) witness (_: Bytes) => true

  /** The library code the program calls and this model does not open. */
  datatype Env = Env(
    sha256: Bytes -> Digest,
    utf8: Utf8Check,
    isWebUrl: Bytes -> bool,
    jpegToPng: Bytes -> Option<Bytes>)

  // ---- Payload ----

  const KIND_UNSPECIFIED: int32 := 0
  const KIND_TEXT: int32 := 1
  const KIND_URL: int32 := 2
  const KIND_IMAGE: int32 := 3

  /** Protobuf enums are open: `kind` may hold any 32-bit number. */
  datatype ClipboardPayload = ClipboardPayload(
    timestamp: int64,
    kind: int32,
    sha256: Bytes,
    data: Bytes,
    mimeType: Bytes,
    sizeBytes: uint64)
  {
    /** Slice lengths fit a machine int. */
    predicate Representable() {
      |sha256| < TWO_63 && |data| < TWO_63 && |mimeType| < TWO_63
    }
  }

  const EMPTY_PAYLOAD := ClipboardPayload(0, 0, [], [], [], 0)

  function When(present: bool, f: Field): seq<Field> {
    if present then [f] else []
  }

  function ContentFields(p: ClipboardPayload): seq<Field> {
    When(p.data != [], BytesField(4, p.data)) + (
    When(p.mimeType != [], BytesField(5, p.mimeType)) + (
    When(p.sizeBytes != 0, VarintField(6, p.sizeBytes)) + []))
  }

  /** Every record but the timestamp's. */
  function UntimedFields(p: ClipboardPayload): seq<Field> {
    When(p.kind != 0, VarintField(2, ToWord(p.kind))) + (
    When(p.sha256 != [], BytesField(3, p.sha256)) +
    ContentFields(p))
  }

  function PayloadFields(p: ClipboardPayload): seq<Field> {
    When(p.timestamp != 0, VarintField(1, ToWord(p.timestamp))) + UntimedFields(p)
  }

  /** Refuses a string field that is not UTF-8. */
  function MarshalPayload(env: Env, p: ClipboardPayload): Option<Bytes> {
    if env.utf8(p.mimeType) then Some(EncodeFields(PayloadFields(p))) else None
  }

  /** One decoded record. A repeated field overwrites; an unknown one is skipped. */
  function SetPayloadField(env: Env, p: ClipboardPayload, f: Field): Option<ClipboardPayload> {
    match f
    case VarintField(1, w) => Some(p.(timestamp := FromWord(w)))
    case VarintField(2, w) => Some(p.(kind := TruncateToInt32(w)))
    case BytesField(3, d) => Some(p.(sha256 := d))
    case BytesField(4, d) => Some(p.(data := d))
    case BytesField(5, d) => if env.utf8(d) then Some(p.(mimeType := d)) else None
    case VarintField(6, w) => Some(p.(sizeBytes := w))
    case _ => Some(p)
  }

  function SetPayloadFields(env: Env, p: ClipboardPayload, fields: seq<Field>): Option<ClipboardPayload>
    decreases |fields|
  {
    if fields == [] then Some(p)
    else
      match SetPayloadField(env, p, fields[0])
      case None => None
      case Some(q) => SetPayloadFields(env, q, fields[1..])
  }

  function UnmarshalPayload(env: Env, b: Bytes): Option<ClipboardPayload> {
    match DecodeFields(b)
    case None => None
    case Some(fields) => SetPayloadFields(env, EMPTY_PAYLOAD, fields)
  }

  lemma {:induction false} SetKeepsUtf8(env: Env, p: ClipboardPayload, fields: seq<Field>)
    requires env.utf8(p.mimeType)
    ensures SetPayloadFields(env, p, fields).Some? ==> env.utf8(SetPayloadFields(env, p, fields).value.mimeType)
    decreases |fields|
  {
    if fields != [] && SetPayloadField(env, p, fields[0]).Some? {
      SetKeepsUtf8(env, SetPayloadField(env, p, fields[0]).value, fields[1..]);
    }
  }

  /** Whatever bytes arrive, what decodes could be marshalled again. */
  lemma {:induction false} DecodedMarshals(env: Env, b: Bytes)
    ensures UnmarshalPayload(env, b).Some? ==> MarshalPayload(env, UnmarshalPayload(env, b).value).Some?
  {
    if DecodeFields(b).Some? { SetKeepsUtf8(env, EMPTY_PAYLOAD, DecodeFields(b).value); }
  }

  /** Neither message knows the field. */
  predicate Unknown(f: Field) {
    f.num == 0 || f.num > 6 || f.Fixed32Field? || f.Fixed64Field?
  }

  lemma {:induction false} SetSkipsUnknown(env: Env, p: ClipboardPayload, a: seq<Field>, f: Field, b: seq<Field>)
    requires Unknown(f)
    ensures SetPayloadFields(env, p, a + [f] + b) == SetPayloadFields(env, p, a + b)
    decreases |a|
  {
    if a == [] {
      assert ([] + [f] + b)[1..] == b && [] + b == b;
    } else {
      assert (a + [f] + b)[1..] == a[1..] + [f] + b && (a + b)[1..] == a[1..] + b;
      if SetPayloadField(env, p, a[0]).Some? { SetSkipsUnknown(env, SetPayloadField(env, p, a[0]).value, a[1..], f, b); }
    }
  }

  lemma {:induction false} SetWhen(env: Env, p: ClipboardPayload, present: bool, f: Field, rest: seq<Field>)
    requires present ==> SetPayloadField(env, p, f).Some?
    ensures SetPayloadFields(env, p, When(present, f) + rest)
         == SetPayloadFields(env, if present then SetPayloadField(env, p, f).value else p, rest)
  {
    if present {
      assert ([f] + rest)[1..] == rest;
    } else {
      assert When(present, f) + rest == rest;
    }
  }

  lemma {:induction false} SetContentFields(env: Env, q: ClipboardPayload, p: ClipboardPayload)
    requires env.utf8(p.mimeType)
    requires q.data == [] && q.mimeType == [] && q.sizeBytes == 0
    ensures SetPayloadFields(env, q, ContentFields(p))
         == Some(q.(data := p.data, mimeType := p.mimeType, sizeBytes := p.sizeBytes))
  {
    var f6 := When(p.sizeBytes != 0, VarintField(6, p.sizeBytes)) + [];
    var f5 := When(p.mimeType != [], BytesField(5, p.mimeType)) + f6;
    var q4 := q.(data := p.data);
    var q5 := q4.(mimeType := p.mimeType);
    SetWhen(env, q, p.data != [], BytesField(4, p.data), f5);
    SetWhen(env, q4, p.mimeType != [], BytesField(5, p.mimeType), f6);
    SetWhen(env, q5, p.sizeBytes != 0, VarintField(6, p.sizeBytes), []);
  }

  lemma {:induction false} SetAllPayloadFields(env: Env, p: ClipboardPayload)
    requires env.utf8(p.mimeType)
    ensures SetPayloadFields(env, EMPTY_PAYLOAD, PayloadFields(p)) == Some(p)
  {
    WordRoundTrip(p.timestamp);
    WordRoundTrip(p.kind);
    var f3 := When(p.sha256 != [], BytesField(3, p.sha256)) + ContentFields(p);
    var p1 := EMPTY_PAYLOAD.(timestamp := p.timestamp);
    var p2 := p1.(kind := p.kind);
    var p3 := p2.(sha256 := p.sha256);
    SetWhen(env, EMPTY_PAYLOAD, p.timestamp != 0, VarintField(1, ToWord(p.timestamp)), UntimedFields(p));
    SetWhen(env, p1, p.kind != 0, VarintField(2, ToWord(p.kind)), f3);
    SetWhen(env, p2, p.sha256 != [], BytesField(3, p.sha256), ContentFields(p));
    SetContentFields(env, p3, p);
  }

  predicate AllInRange(fields: seq<Field>) {
    forall f :: f in fields ==> f.InRange()
  }

  lemma {:induction false} InRangeWhen(present: bool, f: Field, rest: seq<Field>)
    requires f.InRange() && AllInRange(rest)
    ensures AllInRange(When(present, f) + rest)
  {
  }

  lemma {:induction false} PayloadFieldsInRange(p: ClipboardPayload)
    requires p.Representable()
    ensures AllInRange(PayloadFields(p))
  {
    var f6 := When(p.sizeBytes != 0, VarintField(6, p.sizeBytes)) + [];
    var f5 := When(p.mimeType != [], BytesField(5, p.mimeType)) + f6;
    var f3 := When(p.sha256 != [], BytesField(3, p.sha256)) + ContentFields(p);
    InRangeWhen(p.sizeBytes != 0, VarintField(6, p.sizeBytes), []);
    InRangeWhen(p.mimeType != [], BytesField(5, p.mimeType), f6);
    InRangeWhen(p.data != [], BytesField(4, p.data), f5);
    InRangeWhen(p.sha256 != [], BytesField(3, p.sha256), ContentFields(p));
    InRangeWhen(p.kind != 0, VarintField(2, ToWord(p.kind)), f3);
    InRangeWhen(p.timestamp != 0, VarintField(1, ToWord(p.timestamp)), UntimedFields(p));
  }

  /** Whatever payload the marshaller accepts, decoding its bytes gives that payload back. */
  lemma {:induction false} PayloadRoundTrip(env: Env, p: ClipboardPayload)
    requires p.Representable()
    ensures MarshalPayload(env, p).Some? <==> env.utf8(p.mimeType)
    ensures MarshalPayload(env, p).Some? ==> UnmarshalPayload(env, MarshalPayload(env, p).value) == Some(p)
  {
    if env.utf8(p.mimeType) {
      PayloadFieldsInRange(p);
      FieldsRoundTrip(PayloadFields(p));
      SetAllPayloadFields(env, p);
    }
  }

  // ---- Chunk ----

  datatype PayloadChunk = PayloadChunk(
    transferId: Bytes,
    sequence: uint32,
    totalChunks: uint32,
    totalSize: uint64,
    data: Bytes)
  {
    predicate Representable() {
      |transferId| < TWO_63 && |data| < TWO_63
    }
  }

  const EMPTY_CHUNK := PayloadChunk([], 0, 0, 0, [])

  function BodyFields(c: PayloadChunk): seq<Field> {
    When(c.totalSize != 0, VarintField(4, c.totalSize)) + (
    When(c.data != [], BytesField(5, c.data)) + [])
  }

  function ChunkFields(c: PayloadChunk): seq<Field> {
    When(c.transferId != [], BytesField(1, c.transferId)) + (
    When(c.sequence != 0, VarintField(2, c.sequence)) + (
    When(c.totalChunks != 0, VarintField(3, c.totalChunks)) +
    BodyFields(c)))
  }

  function MarshalChunk(c: PayloadChunk): Bytes {
    EncodeFields(ChunkFields(c))
  }

  function SetChunkField(c: PayloadChunk, f: Field): PayloadChunk {
    match f
    case BytesField(1, d) => c.(transferId := d)
    case VarintField(2, w) => c.(sequence := w % TWO_32)
    case VarintField(3, w) => c.(totalChunks := w % TWO_32)
    case VarintField(4, w) => c.(totalSize := w)
    case BytesField(5, d) => c.(data := d)
    case _ => c
  }

  function SetChunkFields(c: PayloadChunk, fields: seq<Field>): PayloadChunk
    decreases |fields|
  {
    if fields == [] then c else SetChunkFields(SetChunkField(c, fields[0]), fields[1..])
  }

  function UnmarshalChunk(b: Bytes): Option<PayloadChunk> {
    match DecodeFields(b)
    case None => None
    case Some(fields) => Some(SetChunkFields(EMPTY_CHUNK, fields))
  }

  lemma {:induction false} SetChunkSkipsUnknown(c: PayloadChunk, a: seq<Field>, f: Field, b: seq<Field>)
    requires Unknown(f)
    ensures SetChunkFields(c, a + [f] + b) == SetChunkFields(c, a + b)
    decreases |a|
  {
    if a == [] {
      assert ([] + [f] + b)[1..] == b && [] + b == b;
    } else {
      assert (a + [f] + b)[1..] == a[1..] + [f] + b && (a + b)[1..] == a[1..] + b;
      SetChunkSkipsUnknown(SetChunkField(c, a[0]), a[1..], f, b);
    }
  }

  /** A 32-bit field takes the one number of its range that the word is congruent to. */
  lemma {:induction false} WordsAreTruncated(env: Env, p: ClipboardPayload, c: PayloadChunk, w: uint64)
    ensures (w - SetChunkField(c, VarintField(2, w)).sequence) % TWO_32 == 0
    ensures (w - SetChunkField(c, VarintField(3, w)).totalChunks) % TWO_32 == 0
    ensures SetPayloadField(env, p, VarintField(2, w)).Some?
    ensures (w - SetPayloadField(env, p, VarintField(2, w)).value.kind) % TWO_32 == 0
  {
    assert w == w / TWO_32 * TWO_32 + w % TWO_32;
    assert w - (w % TWO_32 - TWO_32) == (w / TWO_32 + 1) * TWO_32;
  }

  lemma {:induction false} SetChunkWhen(c: PayloadChunk, present: bool, f: Field, rest: seq<Field>)
    ensures SetChunkFields(c, When(present, f) + rest)
         == SetChunkFields(if present then SetChunkField(c, f) else c, rest)
  {
    if present {
      assert ([f] + rest)[1..] == rest;
    } else {
      assert When(present, f) + rest == rest;
    }
  }

  lemma {:induction false} SetBodyFields(d: PayloadChunk, c: PayloadChunk)
    requires d.totalSize == 0 && d.data == []
    ensures SetChunkFields(d, BodyFields(c)) == d.(totalSize := c.totalSize, data := c.data)
  {
    var f5 := When(c.data != [], BytesField(5, c.data)) + [];
    SetChunkWhen(d, c.totalSize != 0, VarintField(4, c.totalSize), f5);
    SetChunkWhen(d.(totalSize := c.totalSize), c.data != [], BytesField(5, c.data), []);
  }

  lemma {:induction false} SetAllChunkFields(c: PayloadChunk)
    ensures SetChunkFields(EMPTY_CHUNK, ChunkFields(c)) == c
  {
    hide SetChunkFields;
    hide BodyFields;
    var f3 := When(c.totalChunks != 0, VarintField(3, c.totalChunks)) + BodyFields(c);
    var f2 := When(c.sequence != 0, VarintField(2, c.sequence)) + f3;
    var c1 := PayloadChunk(c.transferId, 0, 0, 0, []);
    var c2 := PayloadChunk(c.transferId, c.sequence, 0, 0, []);
    SetChunkWhen(EMPTY_CHUNK, c.transferId != [], BytesField(1, c.transferId), f2);
    SetChunkWhen(c1, c.sequence != 0, VarintField(2, c.sequence), f3);
    SetChunkWhen(c2, c.totalChunks != 0, VarintField(3, c.totalChunks), BodyFields(c));
    SetBodyFields(PayloadChunk(c.transferId, c.sequence, c.totalChunks, 0, []), c);
  }

  lemma {:induction false} ChunkFieldsInRange(c: PayloadChunk)
    requires c.Representable()
    ensures AllInRange(ChunkFields(c))
  {
    var f5 := When(c.data != [], BytesField(5, c.data)) + [];
    var f3 := When(c.totalChunks != 0, VarintField(3, c.totalChunks)) + BodyFields(c);
    var f2 := When(c.sequence != 0, VarintField(2, c.sequence)) + f3;
    InRangeWhen(c.data != [], BytesField(5, c.data), []);
    InRangeWhen(c.totalSize != 0, VarintField(4, c.totalSize), f5);
    InRangeWhen(c.totalChunks != 0, VarintField(3, c.totalChunks), BodyFields(c));
    InRangeWhen(c.sequence != 0, VarintField(2, c.sequence), f3);
    InRangeWhen(c.transferId != [], BytesField(1, c.transferId), f2);
  }

  /** Every chunk, valid or not, survives the wire. */
  lemma {:induction false} ChunkRoundTrip(c: PayloadChunk)
    requires c.Representable()
    ensures UnmarshalChunk(MarshalChunk(c)) == Some(c)
  {
    ChunkFieldsInRange(c);
    FieldsRoundTrip(ChunkFields(c));
    SetAllChunkFields(c);
  }

  // ---- Sizes ----

  lemma {:induction false} EncodedWhen(present: bool, f: Field, rest: seq<Field>)
    ensures EncodeFields(When(present, f) + rest)
         == (if present then EncodeField(f) else []) + EncodeFields(rest)
  {
    if present {
      assert ([f] + rest)[1..] == rest;
    } else {
      assert When(present, f) + rest == rest;
    }
  }

  /** A record whose field number and wire type are the tag byte's; a zero or empty value has none. */
  function WordRecord(tag: byte, word: uint64): Bytes {
    if word == 0 then [] else [tag] + EncodeVarint(word)
  }

  function BytesRecord(tag: byte, data: Bytes): Bytes {
    if data == [] then [] else [tag] + EncodeVarint(|data|) + data
  }

  lemma {:induction false} OneByteTag(tag: nat)
    requires tag < 128
    ensures EncodeVarint(tag) == [tag]
  {
  }

  lemma {:induction false} RecordsWhen(num: nat, word: uint64, data: Bytes, rest: seq<Field>)
    requires num < 16
    ensures EncodeFields(When(word != 0, VarintField(num, word)) + rest) == WordRecord(8 * num, word) + EncodeFields(rest)
    ensures EncodeFields(When(data != [], BytesField(num, data)) + rest)
         == BytesRecord(8 * num + 2, data) + EncodeFields(rest)
  {
    OneByteTag(8 * num);
    OneByteTag(8 * num + 2);
    EncodedWhen(word != 0, VarintField(num, word), rest);
    EncodedWhen(data != [], BytesField(num, data), rest);
    hide EncodeVarint;
    hide EncodeFields;
    hide When;
  }

  lemma {:induction false} LastRecord(num: nat, word: uint64, data: Bytes)
    requires num < 16
    ensures EncodeFields(When(word != 0, VarintField(num, word)) + []) == WordRecord(8 * num, word)
    ensures EncodeFields(When(data != [], BytesField(num, data)) + []) == BytesRecord(8 * num + 2, data)
  {
    hide WordRecord;
    hide BytesRecord;
    RecordsWhen(num, word, data, []);
    assert EncodeFields([]) == [];
  }

  /** The bytes of every chunk: its fields in order, each under the tag of its number and type. */
  lemma {:induction false} ChunkOnTheWire(c: PayloadChunk)
    ensures MarshalChunk(c) ==
      BytesRecord(0x0A, c.transferId) + (WordRecord(0x10, c.sequence) + (WordRecord(0x18, c.totalChunks) +
      (WordRecord(0x20, c.totalSize) + BytesRecord(0x2A, c.data))))
  {
    hide EncodeFields;
    hide When;
    hide WordRecord;
    hide BytesRecord;
    var f5 := When(c.data != [], BytesField(5, c.data)) + [];
    var f3 := When(c.totalChunks != 0, VarintField(3, c.totalChunks)) + BodyFields(c);
    var f2 := When(c.sequence != 0, VarintField(2, c.sequence)) + f3;
    LastRecord(5, 0, c.data);
    RecordsWhen(4, c.totalSize, [], f5);
    RecordsWhen(3, c.totalChunks, [], BodyFields(c));
    RecordsWhen(2, c.sequence, [], f3);
    RecordsWhen(1, 0, c.transferId, f2);
  }

  /** The bytes of every payload the marshaller accepts. */
  lemma {:induction false} PayloadOnTheWire(env: Env, p: ClipboardPayload)
    requires env.utf8(p.mimeType)
    ensures MarshalPayload(env, p) == Some(
      WordRecord(0x08, ToWord(p.timestamp)) + (WordRecord(0x10, ToWord(p.kind)) + (BytesRecord(0x1A, p.sha256) +
      (BytesRecord(0x22, p.data) + (BytesRecord(0x2A, p.mimeType) + WordRecord(0x30, p.sizeBytes))))))
  {
    hide EncodeFields;
    hide When;
    hide WordRecord;
    hide BytesRecord;
    var f6 := When(p.sizeBytes != 0, VarintField(6, p.sizeBytes)) + [];
    var f5 := When(p.mimeType != [], BytesField(5, p.mimeType)) + f6;
    var f3 := When(p.sha256 != [], BytesField(3, p.sha256)) + ContentFields(p);
    LastRecord(6, p.sizeBytes, []);
    RecordsWhen(5, 0, p.mimeType, f6);
    RecordsWhen(4, 0, p.data, f5);
    RecordsWhen(3, 0, p.sha256, ContentFields(p));
    RecordsWhen(2, ToWord(p.kind), [], f3);
    RecordsWhen(1, ToWord(p.timestamp), [], UntimedFields(p));
  }

  function TimestampRecord(t: int64): Bytes {
    if t != 0 then EncodeField(VarintField(1, ToWord(t))) else []
  }

  /** The encoding starts with the timestamp's record; the rest does not depend on the timestamp. */
  lemma {:induction false} PayloadEncoding(p: ClipboardPayload)
    ensures EncodeFields(PayloadFields(p)) == TimestampRecord(p.timestamp) + EncodeFields(UntimedFields(p))
  {
    EncodedWhen(p.timestamp != 0, VarintField(1, ToWord(p.timestamp)), UntimedFields(p));
  }

  lemma {:induction false} TimestampRecordLength(t: int64)
    ensures |TimestampRecord(t)| <= 11
  {
    VarintLengths(8);
    VarintLengths(ToWord(t));
  }

  lemma {:induction false} WordRecordLength(num: nat, word: uint64)
    requires num < 16
    ensures |EncodeField(VarintField(num, word))| == 1 + |EncodeVarint(word)|
  {
    VarintLengths(8 * num);
  }

  lemma {:induction false} BytesRecordLength(num: nat, data: Bytes)
    requires num < 15
    ensures |EncodeField(BytesField(num, data))| == 1 + |EncodeVarint(|data|)| + |data|
  {
    VarintLengths(8 * num + 2);
  }
}
