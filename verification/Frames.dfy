/** Chunks as frames: how large they are, how many a payload makes, and what a receiver makes of any
    sequence of frames. */
module Frames {
  import opened Wire
  import opened Messages
  import opened Payloads
  import opened Chunking
  import opened Reassembly
  import opened Streams

  /** The most chunks a valid payload makes at the default chunk size. */
  const MOST_FRAMES: nat := 20

  function Marshalled(cs: Stream): (frames: seq<Bytes>)
    ensures |frames| == |cs| && forall i :: 0 <= i < |cs| ==> frames[i] == MarshalChunk(cs[i])
  {
    seq(|cs|, i requires 0 <= i < |cs| => MarshalChunk(cs[i]))
  }

  /** The frames of a valid payload, as broadcast. */
  function FramesOf(env: Env, p: ClipboardPayload): (frames: seq<Bytes>)
    requires IsValid(env, p)
    ensures |frames| == |ChunksOf(env, p, DEFAULT_CHUNK_SIZE)|
    ensures forall i :: 0 <= i < |frames| ==> frames[i] == MarshalChunk(ChunksOf(env, p, DEFAULT_CHUNK_SIZE)[i])
  {
    Marshalled(ChunksOf(env, p, DEFAULT_CHUNK_SIZE))
  }

  // ---- Sizes ----

  lemma {:induction false} BodyLength(c: PayloadChunk)
    requires |c.data| < TWO_32
    ensures |EncodeFields(BodyFields(c))| <= |c.data| + 17
  {
    EncodedWhen(c.totalSize != 0, VarintField(4, c.totalSize), When(c.data != [], BytesField(5, c.data)) + []);
    EncodedWhen(c.data != [], BytesField(5, c.data), []);
    WordRecordLength(4, c.totalSize);
    BytesRecordLength(5, c.data);
    VarintLengths(c.totalSize);
    VarintLengths(|c.data|);
  }

  /** A chunk adds little to its data. */
  lemma {:induction false} ChunkLength(c: PayloadChunk)
    requires |c.transferId| <= 32 && |c.data| < TWO_32
    ensures |MarshalChunk(c)| <= |c.data| + 63
  {
    var f3 := When(c.totalChunks != 0, VarintField(3, c.totalChunks)) + BodyFields(c);
    var f2 := When(c.sequence != 0, VarintField(2, c.sequence)) + f3;
    EncodedWhen(c.transferId != [], BytesField(1, c.transferId), f2);
    EncodedWhen(c.sequence != 0, VarintField(2, c.sequence), f3);
    EncodedWhen(c.totalChunks != 0, VarintField(3, c.totalChunks), BodyFields(c));
    BodyLength(c);
    BytesRecordLength(1, c.transferId);
    WordRecordLength(2, c.sequence);
    WordRecordLength(3, c.totalChunks);
    VarintLengths(|c.transferId|);
    VarintLengths(c.sequence);
    VarintLengths(c.totalChunks);
  }

  lemma {:induction false} AtMostTwenty(len: nat)
    requires 0 < len <= MAX_ENCODED_BYTES
    ensures 1 <= Ceil(len, DEFAULT_CHUNK_SIZE) <= MOST_FRAMES
  {
    CeilBounds(len, DEFAULT_CHUNK_SIZE);
  }

  /** Every valid payload marshals to at most 20,000,069 bytes and at most twenty frames, none of them
      larger than the default frame limit. */
  lemma {:induction false} FramesFit(env: Env, p: ClipboardPayload)
    requires IsValid(env, p)
    ensures |Encoding(p)| <= 20_000_069 && 1 <= |FramesOf(env, p)| <= MOST_FRAMES
    ensures forall i :: 0 <= i < |FramesOf(env, p)| ==> |FramesOf(env, p)[i]| <= DEFAULT_MAX_FRAME_BYTES
  {
    EncodingLength(env, p);
    AtMostTwenty(|Encoding(p)|);
    forall i | 0 <= i < |FramesOf(env, p)|
      ensures |FramesOf(env, p)[i]| <= DEFAULT_MAX_FRAME_BYTES
    {
      PieceInside(Encoding(p), DEFAULT_CHUNK_SIZE, i);
      ChunkLength(ChunksOf(env, p, DEFAULT_CHUNK_SIZE)[i]);
    }
  }

  // ---- Decoding cannot make data longer than its frame ----

  predicate Shorter(fields: seq<Field>, n: nat) {
    forall f :: f in fields && f.BytesField? ==> |f.data| <= n
  }

  lemma {:induction false} DecodedShorter(b: Bytes)
    ensures DecodeFields(b).Some? ==> Shorter(DecodeFields(b).value, |b|)
    decreases |b|
  {
    if b != [] && DecodeFields(b).Some? {
      var (field, rest) := DecodeField(b).value;
      DecodedShorter(rest);
    }
  }

  lemma {:induction false} SetShorter(c: PayloadChunk, fields: seq<Field>, n: nat)
    requires Shorter(fields, n) && |c.data| <= n
    ensures |SetChunkFields(c, fields).data| <= n
    decreases |fields|
  {
    if fields != [] { SetShorter(SetChunkField(c, fields[0]), fields[1..], n); }
  }

  lemma {:induction false} DataFitsFrame(frame: Bytes)
    ensures UnmarshalChunk(frame).Some? ==> |UnmarshalChunk(frame).value.data| <= |frame|
  {
    DecodedShorter(frame);
    if DecodeFields(frame).Some? { SetShorter(EMPTY_CHUNK, DecodeFields(frame).value, |frame|); }
  }

  // ---- A receiver of frames ----

  /** The chunks among the frames; a frame that does not decode is dropped. */
  function Decoded(frames: seq<Bytes>): Stream {
    if frames == [] then []
    else
      var front := Decoded(frames[..|frames| - 1]);
      match UnmarshalChunk(frames[|frames| - 1])
      case None => front
      case Some(c) => front + [c]
  }

  /** One frame given to the reassembler. */
  function Receive(env: Env, table: Table, frame: Bytes): (Table, AddResult) {
    match UnmarshalChunk(frame)
    case None => (table, Incomplete)
    case Some(c) => AddChunk(env, table, Some(c))
  }

  /** The payloads the frames complete, in order: what the clipboard is handed. */
  function HandedOver(env: Env, start: Table, frames: seq<Bytes>): seq<ClipboardPayload> {
    if frames == [] then []
    else
      var front := frames[..|frames| - 1];
      match Receive(env, Run(env, start, Decoded(front)), frames[|frames| - 1]).1
      case Complete(p) => HandedOver(env, start, front) + [p]
      case _ => HandedOver(env, start, front)
  }

  /** Those with this hash. */
  function Hashed(ps: seq<ClipboardPayload>, id: Bytes): seq<ClipboardPayload> {
    if ps == [] then []
    else
      var front := Hashed(ps[..|ps| - 1], id);
      if ps[|ps| - 1].sha256 == id then front + [ps[|ps| - 1]] else front
  }

  function Completed(results: seq<AddResult>): seq<ClipboardPayload> {
    if results == [] then []
    else
      var front := Completed(results[..|results| - 1]);
      match results[|results| - 1]
      case Complete(p) => front + [p]
      case _ => front
  }

  lemma {:induction false} FinishesOwnHash(env: Env, t: Transfer, id: Bytes)
    ensures Finish(env, t, id).1.Complete? ==> Finish(env, t, id).1.payload.sha256 == id
  {
    hide Joined;
    hide UnmarshalPayload;
    hide ValidatePayload;
  }

  lemma {:induction false} RecordsOwnHash(env: Env, t: Transfer, c: PayloadChunk)
    ensures RecordChunk(env, t, c).1.Complete? ==> RecordChunk(env, t, c).1.payload.sha256 == c.transferId
  {
    hide Finish;
    FinishesOwnHash(env, Store(t, c), c.transferId);
  }

  lemma {:induction false} CompletesOwnHash(env: Env, table: Table, c: PayloadChunk)
    ensures AddChunk(env, table, Some(c)).1.Complete? ==> AddChunk(env, table, Some(c)).1.payload.sha256 == c.transferId
  {
    hide RecordChunk;
    hide ValidateChunk;
    var maybe := Lookup(table, c.transferId);
    RecordsOwnHash(env, if maybe.Some? then maybe.value else Open(c), c);
  }

  lemma {:induction false} HashedMore(ps: seq<ClipboardPayload>, p: ClipboardPayload, id: Bytes)
    ensures Hashed(ps + [p], id) == if p.sha256 == id then Hashed(ps, id) + [p] else Hashed(ps, id)
  {
    assert (ps + [p])[..|ps|] == ps;
  }

  lemma {:induction false} CompletedMore(results: seq<AddResult>, r: AddResult)
    ensures Completed(results + [r]) == if r.Complete? then Completed(results) + [r.payload] else Completed(results)
  {
    assert (results + [r])[..|results|] == results;
  }

  lemma {:induction false} DecodedMore(front: seq<Bytes>, frame: Bytes)
    ensures Decoded(front + [frame])
         == if UnmarshalChunk(frame).Some? then Decoded(front) + [UnmarshalChunk(frame).value] else Decoded(front)
  {
    hide UnmarshalChunk;
    assert (front + [frame])[..|front|] == front;
  }

  lemma {:induction false} ReceivesNothing(env: Env, start: Table)
    ensures Run(env, start, Decoded([])) == start && HandedOver(env, start, []) == []
  {
  }

  lemma {:induction false} ReceivesMore(env: Env, start: Table, front: seq<Bytes>, frame: Bytes)
    ensures Receive(env, Run(env, start, Decoded(front)), frame).0 == Run(env, start, Decoded(front + [frame]))
  {
    DecodedMore(front, frame);
    if UnmarshalChunk(frame).Some? {
      assert Front(Decoded(front) + [UnmarshalChunk(frame).value]) == Decoded(front);
    }
  }

  lemma {:induction false} HandedMore(env: Env, start: Table, front: seq<Bytes>, frame: Bytes)
    ensures var r := Receive(env, Run(env, start, Decoded(front)), frame).1;
      HandedOver(env, start, front + [frame])
        == if r.Complete? then HandedOver(env, start, front) + [r.payload] else HandedOver(env, start, front)
  {
    hide Receive;
    hide Run;
    hide Decoded;
    assert (front + [frame])[..|front|] == front;
  }

  lemma {:induction false} ResultsMore(env: Env, start: Table, s: Stream, c: PayloadChunk, id: Bytes)
    ensures var r := AddChunk(env, Run(env, start, s), Some(c)).1;
      ResultsFor(env, start, s + [c], id)
        == if c.transferId == id then ResultsFor(env, start, s, id) + [r] else ResultsFor(env, start, s, id)
  {
    hide AddChunk;
    assert Front(s + [c]) == s;
  }

  lemma {:induction false} HandOne(env: Env, start: Table, front: seq<Bytes>, frame: Bytes, id: Bytes)
    requires Hashed(HandedOver(env, start, front), id) == Completed(ResultsFor(env, start, Decoded(front), id))
    ensures Hashed(HandedOver(env, start, front + [frame]), id)
         == Completed(ResultsFor(env, start, Decoded(front + [frame]), id))
  {
    hide AddChunk;
    hide UnmarshalChunk;
    hide Hashed;
    hide Completed;
    hide ResultsFor;
    hide HandedOver;
    hide Decoded;
    hide Run;
    DecodedMore(front, frame);
    HandedMore(env, start, front, frame);
    if UnmarshalChunk(frame).Some? {
      var c := UnmarshalChunk(frame).value;
      var r := AddChunk(env, Run(env, start, Decoded(front)), Some(c)).1;
      CompletesOwnHash(env, Run(env, start, Decoded(front)), c);
      ResultsMore(env, start, Decoded(front), c, id);
      CompletedMore(ResultsFor(env, start, Decoded(front), id), r);
      if r.Complete? { HashedMore(HandedOver(env, start, front), r.payload, id); }
    }
  }

  lemma {:induction false} NothingHandedOver(env: Env, start: Table, id: Bytes)
    ensures Hashed(HandedOver(env, start, []), id) == Completed(ResultsFor(env, start, Decoded([]), id))
  {
  }

  /** What is handed over with one hash is what the transfer of that id completes. */
  lemma {:induction false} HandedOverById(env: Env, start: Table, frames: seq<Bytes>, id: Bytes)
    ensures Hashed(HandedOver(env, start, frames), id) == Completed(ResultsFor(env, start, Decoded(frames), id))
    decreases |frames|
  {
    hide Hashed;
    hide Completed;
    hide ResultsFor;
    hide HandedOver;
    hide Decoded;
    if frames == [] {
      NothingHandedOver(env, start, id);
    } else {
      var front, frame := frames[..|frames| - 1], frames[|frames| - 1];
      assert frames == front + [frame];
      HandedOverById(env, start, front, id);
      HandOne(env, start, front, frame, id);
    }
  }

  /** Whatever frames arrive, of at most the default size, the byte counter of every transfer is the
      true sum of its stored lengths. */
  lemma {:induction false} CountersAreExact(env: Env, frames: seq<Bytes>, id: Bytes)
    requires forall f :: f in frames ==> |f| <= DEFAULT_MAX_FRAME_BYTES
    requires id in Run(env, map[], Decoded(frames))
    ensures var t := Run(env, map[], Decoded(frames))[id];
      InFlight(t) && t.receivedBytes == StoredBytes(t.chunks, t.totalChunks)
  {
    DecodedDataIsSmall(frames);
    ReceivedBytesExact(env, Decoded(frames), id);
  }

  lemma {:induction false} DecodedDataIsSmall(frames: seq<Bytes>)
    requires forall f :: f in frames ==> |f| <= DEFAULT_MAX_FRAME_BYTES
    ensures forall c :: c in Decoded(frames) ==> |c.data| <= DEFAULT_MAX_FRAME_BYTES
  {
    if frames != [] {
      DecodedDataIsSmall(frames[..|frames| - 1]);
      DataFitsFrame(frames[|frames| - 1]);
    }
  }
}
