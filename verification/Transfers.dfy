/** From a sender's chunks to the receiver's payload: any order, resumption after a cut, and
    the exact condition on the chunk size. */
module Transfers {
  import opened Counting
  import opened Wire
  import opened Messages
  import opened Payloads
  import opened Chunking
  import opened Reassembly
  import opened Streams

  /** The sequence numbers of a stream. */
  function Seen(own: Stream): set<int> {
    if own == [] then {} else Seen(Front(own)) + {Last(own).sequence}
  }

  /** A chunk for the same transfer as `cs`. */
  predicate SameTransfer(c: PayloadChunk, cs: Stream)
    requires cs != []
  {
    ValidateChunk(Some(c)).None? && Belongs(c, cs[0])
  }

  /** Every chunk is one of `cs`, or a different one for a sequence number already seen. */
  predicate Feeds(cs: Stream, own: Stream)
    requires cs != []
  {
    own == [] ||
    (Feeds(cs, Front(own)) &&
     (Last(own) in cs || (SameTransfer(Last(own), cs) && Last(own).sequence in Seen(Front(own)))))
  }

  /** The chunks of one transfer, numbered in order. */
  predicate ChunkList(cs: Stream, id: Bytes) {
    && 0 < |cs| < TWO_32
    && forall i :: 0 <= i < |cs| ==>
         (cs[i].sequence == i && Belongs(cs[i], cs[0]) && cs[i].transferId == id && cs[i].totalChunks == |cs|)
  }

  predicate Within(seen: set<int>, n: nat) {
    forall q :: q in seen ==> 0 <= q < n
  }

  predicate Full(seen: set<int>, n: nat) {
    forall q :: 0 <= q < n ==> q in seen
  }

  /** A transfer that holds the chunks `seen` of `cs` and nothing else. */
  predicate Holding(t: Transfer, cs: Stream, seen: set<int>)
    requires 0 < |cs| < TWO_32 && Within(seen, |cs|)
  {
    && t.totalChunks == |cs| && t.totalSize == cs[0].totalSize
    && (forall q :: q in t.chunks ==> q in seen && t.chunks[q] == cs[q].data)
    && (forall q :: q in seen ==> q in t.chunks)
    && t.receivedBytes == StoredBytes(t.chunks, |cs|) % TWO_64
  }

  /** The table entry of a transfer that has collected the chunks `seen`. */
  predicate Collected(t: Option<Transfer>, cs: Stream, seen: set<int>)
    requires 0 < |cs| < TWO_32 && Within(seen, |cs|)
  {
    if seen == {} then t == None else t.Some? && Holding(t.value, cs, seen)
  }

  // ---- One step ----

  lemma {:induction false} StoreHolding(t: Transfer, cs: Stream, id: Bytes, seen: set<int>, q: nat)
    requires ChunkList(cs, id) && Within(seen, |cs|) && q < |cs| && q !in seen
    requires Holding(t, cs, seen)
    ensures Within(seen + {q}, |cs|) && Holding(Store(t, cs[q]), cs, seen + {q})
  {
    StoringAddsLength(t.chunks, q, cs[q].data, |cs|);
    WrappedSum(StoredBytes(t.chunks, |cs|), |cs[q].data|);
  }

  lemma {:induction false} HoldingCount(t: Transfer, cs: Stream, seen: set<int>)
    requires 0 < |cs| < TWO_32 && Within(seen, |cs|) && Holding(t, cs, seen)
    ensures |t.chunks| <= |cs| && (|t.chunks| == |cs| <==> Full(seen, |cs|))
  {
    FullWhenCounted(t.chunks.Keys, |cs|);
    if Full(seen, |cs|) {
      var wide := set q: int | q in t.chunks.Keys;
      assert wide == t.chunks.Keys;
      SubsetCounts(Below(|cs|), wide);
    }
  }

  lemma {:induction false} NothingHeld(cs: Stream, id: Bytes, q: nat)
    requires ChunkList(cs, id) && q < |cs|
    ensures Holding(Open(cs[q]), cs, {})
  {
    NothingStored(|cs|);
  }

  /** A chunk for a sequence number already held changes nothing. */
  lemma {:induction false} HoldAgain(env: Env, t: Transfer, cs: Stream, id: Bytes, seen: set<int>, c: PayloadChunk)
    requires ChunkList(cs, id) && Within(seen, |cs|) && Holding(t, cs, seen)
    requires SameTransfer(c, cs) && c.sequence in seen
    ensures AddAlone(env, Some(t), c).0 == Some(t)
    ensures AddAlone(env, Some(t), c).1
         == if c.data == cs[c.sequence].data then Incomplete else Failed(ConflictingChunk)
  {
  }

  function Before(maybe: Option<Transfer>, c: PayloadChunk): Transfer {
    if maybe.Some? then maybe.value else Open(c)
  }

  /** A new chunk extends what is held; the count tells whether any other is missing. */
  lemma {:induction false} HoldOneMore(maybe: Option<Transfer>, cs: Stream, id: Bytes, seen: set<int>, q: nat)
    requires ChunkList(cs, id) && Within(seen, |cs|) && Collected(maybe, cs, seen)
    requires q < |cs| && q !in seen
    ensures Before(maybe, cs[q]).totalSize == cs[q].totalSize && Before(maybe, cs[q]).totalChunks == |cs|
    ensures q !in Before(maybe, cs[q]).chunks
    ensures var t := Store(Before(maybe, cs[q]), cs[q]);
      && Within(seen + {q}, |cs|) && Holding(t, cs, seen + {q})
      && |t.chunks| <= |cs| && (|t.chunks| == |cs| <==> Full(seen + {q}, |cs|))
  {
    NothingHeld(cs, id, q);
    StoreHolding(Before(maybe, cs[q]), cs, id, seen, q);
    HoldingCount(Store(Before(maybe, cs[q]), cs[q]), cs, seen + {q});
  }

  /** It is stored, and the completion check decides. */
  lemma {:induction false} AddOneMore(env: Env, maybe: Option<Transfer>, cs: Stream, id: Bytes, seen: set<int>, q: nat)
    requires ChunkList(cs, id) && Within(seen, |cs|) && Collected(maybe, cs, seen)
    requires q < |cs| && q !in seen
    ensures AddAlone(env, maybe, cs[q]) == CheckComplete(env, Store(Before(maybe, cs[q]), cs[q]), id)
  {
    HoldOneMore(maybe, cs, id, seen, q);
    AddAloneStores(env, maybe, cs[q]);
  }

  // ---- Any order ----

  /** `n` answers that more chunks are needed. */
  function Waits(n: nat): (r: seq<AddResult>)
    ensures |r| == n && forall i :: 0 <= i < n ==> r[i] == Incomplete
  {
    seq(n, _ => Incomplete)
  }

  /** What a chunk that does not end the transfer is answered. */
  function WaitingResult(cs: Stream, c: PayloadChunk): AddResult {
    if c.sequence < |cs| && c.data == cs[c.sequence].data then Incomplete else Failed(ConflictingChunk)
  }

  function WaitingResults(cs: Stream, own: Stream): seq<AddResult> {
    if own == [] then [] else WaitingResults(cs, Front(own)) + [WaitingResult(cs, Last(own))]
  }

  lemma {:induction false} WaitingResultAt(cs: Stream, own: Stream)
    ensures |WaitingResults(cs, own)| == |own|
    ensures forall i :: 0 <= i < |own| ==> WaitingResults(cs, own)[i] == WaitingResult(cs, own[i])
  {
    if own != [] { WaitingResultAt(cs, Front(own)); }
  }

  lemma {:induction false} CollectStep(env: Env, maybe: Option<Transfer>, cs: Stream, id: Bytes, seen: set<int>, c: PayloadChunk)
    requires ChunkList(cs, id) && Within(seen, |cs|) && Collected(maybe, cs, seen)
    requires c in cs || (SameTransfer(c, cs) && c.sequence in seen)
    requires !Full(seen + {c.sequence}, |cs|)
    ensures Within(seen + {c.sequence}, |cs|)
    ensures Collected(AddAlone(env, maybe, c).0, cs, seen + {c.sequence})
    ensures AddAlone(env, maybe, c).1 == WaitingResult(cs, c)
  {
    hide StoredBytes;
    hide Finish;
    hide AddAlone;
    hide ValidateChunk;
    if c.sequence in seen {
      assert seen + {c.sequence} == seen;
      HoldAgain(env, maybe.value, cs, id, seen, c);
    } else {
      assert c == cs[c.sequence];
      HoldOneMore(maybe, cs, id, seen, c.sequence);
      AddOneMore(env, maybe, cs, id, seen, c.sequence);
    }
  }

  /** Until the last missing sequence number arrives the transfer collects and nothing completes. */
  lemma {:induction false} Collecting(env: Env, cs: Stream, id: Bytes, own: Stream)
    requires ChunkList(cs, id) && Feeds(cs, own) && !Full(Seen(own), |cs|)
    ensures Within(Seen(own), |cs|) && Collected(RunAlone(env, None, own), cs, Seen(own))
    ensures ResultsAlone(env, None, own) == WaitingResults(cs, own)
  {
    if own != [] {
      var front, c := Front(own), Last(own);
      FullGrows(Seen(front), c.sequence, |cs|);
      Collecting(env, cs, id, front);
      CollectStep(env, RunAlone(env, None, front), cs, id, Seen(front), c);
    }
  }

  lemma {:induction false} FullGrows(seen: set<int>, q: int, n: nat)
    ensures Full(seen, n) ==> Full(seen + {q}, n)
  {
  }

  /** With all of `cs` held, the transfer ends with `p`. */
  ghost predicate Rebuilds(env: Env, cs: Stream, p: ClipboardPayload) {
    && ChunkList(cs, p.sha256)
    && forall t: Transfer, seen: set<int> {:trigger Holding(t, cs, seen)} ::
         Within(seen, |cs|) && Full(seen, |cs|) && Holding(t, cs, seen) ==>
         CheckComplete(env, t, p.sha256) == (None, Complete(p))
  }

  /** The stream `own` completes `cs` exactly with its last chunk. */
  predicate CompletesWithLast(cs: Stream, own: Stream)
    requires cs != []
  {
    own != [] && Feeds(cs, own) && !Full(Seen(Front(own)), |cs|) && Full(Seen(own), |cs|)
  }

  /** The last missing chunk. */
  lemma {:induction false} AddLastMissing(
      env: Env, maybe: Option<Transfer>, cs: Stream, p: ClipboardPayload, seen: set<int>, c: PayloadChunk)
    requires Rebuilds(env, cs, p) && Within(seen, |cs|) && Collected(maybe, cs, seen)
    requires c in cs && c.sequence !in seen && Full(seen + {c.sequence}, |cs|)
    ensures AddAlone(env, maybe, c) == (None, Complete(p))
  {
    var q := c.sequence;
    assert c == cs[q];
    HoldOneMore(maybe, cs, p.sha256, seen, q);
    AddOneMore(env, maybe, cs, p.sha256, seen, q);
  }

  lemma {:induction false} DeliverAlone(env: Env, cs: Stream, p: ClipboardPayload, own: Stream)
    requires Rebuilds(env, cs, p) && CompletesWithLast(cs, own)
    ensures RunAlone(env, None, own) == None
    ensures ResultsAlone(env, None, own) == WaitingResults(cs, Front(own)) + [Complete(p)]
  {
    var front := Front(own);
    Collecting(env, cs, p.sha256, front);
    assert Last(own).sequence in Seen(front) ==> Seen(own) == Seen(front);
    AddLastMissing(env, RunAlone(env, None, front), cs, p, Seen(front), Last(own));
  }

  /** The sender's chunks, as numbered pieces of the encoding. */
  predicate PiecesOf(cs: Stream, s: Bytes, size: nat)
    requires size > 0
  {
    |cs| == Ceil(|s|, size) &&
    forall i :: 0 <= i < |cs| ==> cs[i].data == Piece(s, size, i) && cs[i].totalSize == |s|
  }

  lemma {:induction false} ChunksAreList(env: Env, p: ClipboardPayload, size: nat)
    requires IsValid(env, p) && size > 0
    ensures ChunkList(ChunksOf(env, p, size), p.sha256)
    ensures PiecesOf(ChunksOf(env, p, size), Encoding(p), size)
    ensures forall c :: c in ChunksOf(env, p, size) ==> |c.data| <= size
  {
    hide Encoding;
    hide Piece;
    hide Ceil;
    var s := Encoding(p);
    EncodingLength(env, p);
    forall i | 0 <= i < Ceil(|s|, size)
      ensures 0 < |Piece(s, size, i)| <= size && |Piece(s, size, i)| <= |s|
    {
      PieceInside(s, size, i);
    }
  }

  lemma {:induction false} JoinedIsJoinPieces(chunks: map<uint32, Bytes>, s: Bytes, size: nat, k: nat)
    requires 0 < size && k < TWO_32
    requires forall i :: 0 <= i < k ==> i in chunks && chunks[i] == Piece(s, size, i)
    ensures Joined(chunks, k) == Some(JoinPieces(s, size, k))
  {
    if k > 0 { JoinedIsJoinPieces(chunks, s, size, k - 1); }
  }

  lemma {:induction false} FullJoins(t: Transfer, cs: Stream, seen: set<int>, s: Bytes, size: nat)
    requires 0 < size && s != [] && |s| < TWO_63 && 0 < |cs| < TWO_32 && PiecesOf(cs, s, size)
    requires Within(seen, |cs|) && Full(seen, |cs|) && Holding(t, cs, seen)
    ensures Joined(t.chunks, t.totalChunks) == Some(s) && t.receivedBytes == t.totalSize
  {
    hide Ceil;
    hide Piece;
    hide JoinPieces;
    hide Joined;
    hide StoredBytes;
    JoinedIsJoinPieces(t.chunks, s, size, |cs|);
    PiecesRejoin(s, size);
    AllStoredJoin(t.chunks, |cs|);
  }

  lemma {:induction false} FinishDelivers(env: Env, t: Transfer, p: ClipboardPayload)
    requires IsValid(env, p) && |t.chunks| == t.totalChunks
    requires Joined(t.chunks, t.totalChunks) == Some(Encoding(p)) && t.receivedBytes == t.totalSize
    ensures CheckComplete(env, t, p.sha256) == (None, Complete(p))
  {
    ValidPayloadMarshals(env, p);
    ValidateDecidesValidity(env, p);
  }

  lemma {:induction false} FullDelivers(
      env: Env, p: ClipboardPayload, cs: Stream, size: nat, t: Transfer, seen: set<int>)
    requires IsValid(env, p) && 0 < size && 0 < |cs| < TWO_32 && PiecesOf(cs, Encoding(p), size)
    requires Within(seen, |cs|) && Full(seen, |cs|) && Holding(t, cs, seen)
    ensures CheckComplete(env, t, p.sha256) == (None, Complete(p))
  {
    EncodingLength(env, p);
    HoldingCount(t, cs, seen);
    FullJoins(t, cs, seen, Encoding(p), size);
    FinishDelivers(env, t, p);
  }

  lemma {:induction false} ChunksRebuild(env: Env, p: ClipboardPayload, size: nat)
    requires IsValid(env, p) && size > 0
    ensures Rebuilds(env, ChunksOf(env, p, size), p)
  {
    var cs := ChunksOf(env, p, size);
    ChunksAreList(env, p, size);
    forall t: Transfer, seen: set<int> | Within(seen, |cs|) && Full(seen, |cs|) && Holding(t, cs, seen)
      ensures CheckComplete(env, t, p.sha256) == (None, Complete(p))
    {
      FullDelivers(env, p, cs, size, t, seen);
    }
  }

  lemma {:induction false} AllFromList(cs: Stream, own: Stream)
    requires cs != [] && forall c :: c in own ==> c in cs
    ensures Feeds(cs, own)
  {
    if own != [] { AllFromList(cs, Front(own)); }
  }

  lemma {:induction false} ListedChunksWait(cs: Stream, id: Bytes, own: Stream)
    requires ChunkList(cs, id) && forall c :: c in own ==> c in cs
    ensures WaitingResults(cs, own) == Waits(|own|)
  {
    WaitingResultAt(cs, own);
    forall i | 0 <= i < |own|
      ensures WaitingResult(cs, own[i]) == Incomplete
    {
      assert own[i] in cs;
    }
  }

  lemma {:induction false} DeliverOwn(env: Env, cs: Stream, p: ClipboardPayload, own: Stream)
    requires Rebuilds(env, cs, p) && own != [] && forall c :: c in own ==> c in cs
    requires !Full(Seen(Front(own)), |cs|) && Full(Seen(own), |cs|)
    ensures RunAlone(env, None, own) == None
    ensures ResultsAlone(env, None, own) == Waits(|own| - 1) + [Complete(p)]
  {
    AllFromList(cs, own);
    ListedChunksWait(cs, p.sha256, Front(own));
    DeliverAlone(env, cs, p, own);
  }

  /** Whatever else the shared reassembler is fed in between, and in whatever order and with
      whatever repeats the chunks arrive: every chunk but the last missing one waits without error,
      that one hands out exactly the sender's payload, and the transfer is gone from the table. */
  lemma {:induction false} DeliveryInAnyOrder(env: Env, p: ClipboardPayload, size: nat, start: Table, s: Stream)
    requires IsValid(env, p) && size > 0 && p.sha256 !in start
    requires Only(s, p.sha256) != [] && forall c :: c in Only(s, p.sha256) ==> c in ChunksOf(env, p, size)
    requires !Full(Seen(Front(Only(s, p.sha256))), |ChunksOf(env, p, size)|)
    requires Full(Seen(Only(s, p.sha256)), |ChunksOf(env, p, size)|)
    ensures p.sha256 !in Run(env, start, s)
    ensures ResultsFor(env, start, s, p.sha256)
         == Waits(|Only(s, p.sha256)| - 1) + [Complete(p)]
  {
    ChunksRebuild(env, p, size);
    StreamProjection(env, start, s, p.sha256);
    DeliverOwn(env, ChunksOf(env, p, size), p, Only(s, p.sha256));
  }

  // ---- The chunk size ----

  lemma {:induction false} SeenPrefix(cs: Stream, id: Bytes, k: nat)
    requires ChunkList(cs, id) && k <= |cs|
    ensures forall q :: q in Seen(cs[..k]) <==> 0 <= q < k
  {
    if k > 0 {
      PrefixOfFront(cs[..k], k - 1);
      assert cs[..k][..k - 1] == cs[..k - 1];
      SeenPrefix(cs, id, k - 1);
    }
  }

  /** The chunks in order complete the list with the last one. */
  lemma {:induction false} InOrderCompletes(cs: Stream, id: Bytes)
    requires ChunkList(cs, id)
    ensures !Full(Seen(Front(cs)), |cs|) && Full(Seen(cs), |cs|)
  {
    SeenPrefix(cs, id, |cs|);
    SeenPrefix(cs, id, |cs| - 1);
    assert cs[..|cs|] == cs;
    assert |cs| - 1 !in Seen(Front(cs));
  }

  /** The program's chunks, received in order by an idle reassembler, deliver the payload. */
  predicate SentAndReceived(env: Env, p: ClipboardPayload, chunkSize: int64) {
    var out := ChunkPayloadOutcome(env, Some(p), chunkSize);
    out.Chunked? && out.chunks != [] &&
    ResultsFor(env, map[], out.chunks, p.sha256) == Waits(|out.chunks| - 1) + [Complete(p)]
  }

  lemma {:induction false} InOrderDelivers(env: Env, p: ClipboardPayload, size: nat)
    requires IsValid(env, p) && size > 0
    ensures var cs := ChunksOf(env, p, size);
      ResultsFor(env, map[], cs, p.sha256) == Waits(|cs| - 1) + [Complete(p)]
  {
    var cs := ChunksOf(env, p, size);
    ChunksAreList(env, p, size);
    InOrderCompletes(cs, p.sha256);
    OnlyOwn(cs, p.sha256);
    DeliveryInAnyOrder(env, p, size, map[], cs);
  }

  /** A payload gets through exactly when it is valid, the chunk size is positive, and the sum in
      the chunk count does not overflow; otherwise nothing is sent at all. */
  lemma {:induction false} SentAndReceivedExactly(env: Env, p: ClipboardPayload, chunkSize: int64)
    ensures SentAndReceived(env, p, chunkSize) <==> IsValid(env, p) && Fits(|Encoding(p)|, chunkSize)
    ensures var out := ChunkPayloadOutcome(env, Some(p), chunkSize);
      !SentAndReceived(env, p, chunkSize) && out.Chunked? ==> out.chunks == []
  {
    ValidateDecidesValidity(env, p);
    if IsValid(env, p) && Fits(|Encoding(p)|, chunkSize) {
      InOrderDelivers(env, p, chunkSize);
    }
  }

  lemma {:induction false} OnlyOwn(s: Stream, id: Bytes)
    requires forall c :: c in s ==> c.transferId == id
    ensures Only(s, id) == s
  {
    if s != [] {
      OnlyOwn(Front(s), id);
      assert s == Front(s) + [Last(s)];
    }
  }

  /** The largest chunk size loses every payload without an error. */
  lemma {:induction false} HugeChunkSizeSendsNothing(env: Env, p: ClipboardPayload)
    requires IsValid(env, p)
    ensures ChunkPayloadOutcome(env, Some(p), TWO_63 - 1) == Chunked([])
  {
    ValidateDecidesValidity(env, p);
    EncodingLength(env, p);
    EncodingHasHash(env, p);
    var len := |Encoding(p)|;
    assert Wrap64(len + (TWO_63 - 1) - 1) == len - 2 - TWO_63;
    assert TWO_63 + 2 - len < TWO_63 - 1;
  }

  /** Every outcome of cutting a valid payload, by the chunk size: an error below one, the chunks while the
      sum fits, a panic while the wrapped sum is at least a chunk size below zero, and an empty list above. */
  lemma {:induction false} OutcomeExactly(env: Env, p: ClipboardPayload, chunkSize: int64)
    requires IsValid(env, p)
    ensures var out, len := ChunkPayloadOutcome(env, Some(p), chunkSize), |Encoding(p)|;
      && (out.Refused? <==> chunkSize <= 0) && (out.Refused? ==> out.error == ChunkSizeNotPositive)
      && ((out.Chunked? && out.chunks != []) <==> Fits(len, chunkSize))
      && (out.Panicked? <==> CountsNegative(len, chunkSize))
  {
    ValidateDecidesValidity(env, p);
    EncodingLength(env, p);
    if chunkSize > 0 {
      NegativeCountExactly(|Encoding(p)|, chunkSize);
      PieceCountExactly(|Encoding(p)|, chunkSize);
    }
  }

  /** The smallest chunk size that overflows makes every valid payload panic. */
  lemma {:induction false} FirstOverflowPanics(env: Env, p: ClipboardPayload)
    requires IsValid(env, p)
    ensures 0 < TWO_63 - |Encoding(p)| + 1 < TWO_63
    ensures ChunkPayloadOutcome(env, Some(p), TWO_63 - |Encoding(p)| + 1) == Panicked
  {
    EncodingLength(env, p);
    EncodingHasHash(env, p);
    OutcomeExactly(env, p, TWO_63 - |Encoding(p)| + 1);
  }

  /** A valid encoding holds at least the 34 bytes of the hash record. */
  lemma {:induction false} EncodingHasHash(env: Env, p: ClipboardPayload)
    requires IsValid(env, p)
    ensures |Encoding(p)| >= 34
  {
    PayloadEncoding(p);
    EncodedWhen(true, VarintField(2, ToWord(p.kind)), When(true, BytesField(3, p.sha256)) + ContentFields(p));
    EncodedWhen(true, BytesField(3, p.sha256), ContentFields(p));
    BytesRecordLength(3, p.sha256);
  }

  // ---- Resuming a cut transfer ----

  /** Two payloads of the same content, sent at times whose encodings are equally long. */
  predicate SameCopy(old': ClipboardPayload, new': ClipboardPayload) {
    && old'.(timestamp := 0) == new'.(timestamp := 0)
    && |TimestampRecord(old'.timestamp)| == |TimestampRecord(new'.timestamp)|
  }

  lemma {:induction false} SlicesOfSharedTail(a: Bytes, b: Bytes, tail: Bytes, lo: nat, hi: nat)
    requires |a| == |b| <= lo <= hi <= |a| + |tail|
    ensures (a + tail)[lo..hi] == (b + tail)[lo..hi]
  {
  }

  lemma {:induction false} SamePieces(s: Bytes, s': Bytes, size: nat, k: nat)
    requires forall i :: 0 <= i < k ==> Piece(s, size, i) == Piece(s', size, i)
    ensures JoinPieces(s, size, k) == JoinPieces(s', size, k)
  {
    if k > 0 { SamePieces(s, s', size, k - 1); }
  }

  /** Pieces past the first do not see the part where two encodings differ. */
  lemma {:induction false} PiecesPastHead(a: Bytes, b: Bytes, tail: Bytes, size: nat, i: nat)
    requires |a| == |b| <= size && 1 <= i
    ensures Piece(a + tail, size, i) == Piece(b + tail, size, i)
  {
    MulAtMost(1, i, size);
    var n := |a| + |tail|;
    if i * size <= n {
      SlicesOfSharedTail(a, b, tail, Min(i * size, n), Min(i * size + size, n));
    }
  }

  lemma {:induction false} SameCopyEncodings(env: Env, old': ClipboardPayload, new': ClipboardPayload) returns (a: Bytes, b: Bytes, tail: Bytes)
    requires IsValid(env, old') && IsValid(env, new') && SameCopy(old', new')
    ensures |a| == |b| <= 11 && Encoding(old') == a + tail && Encoding(new') == b + tail
  {
    a, b := TimestampRecord(old'.timestamp), TimestampRecord(new'.timestamp);
    tail := EncodeFields(UntimedFields(old'));
    assert UntimedFields(old') == UntimedFields(new');
    PayloadEncoding(old');
    PayloadEncoding(new');
    TimestampRecordLength(old'.timestamp);
  }

  /** Two numbered chunk lists that agree past the first chunk, and there in all but the data. */
  predicate AgreePastFirst(a: Stream, b: Stream) {
    && 0 < |a| == |b| && a[0].(data := []) == b[0].(data := [])
    && forall i :: 1 <= i < |a| ==> a[i] == b[i]
  }

  /** The chunks of two such payloads agree everywhere but in the first, and there exactly when
      the timestamps do. */
  lemma {:induction false} SameCopyChunks(env: Env, old': ClipboardPayload, new': ClipboardPayload, size: nat)
    requires IsValid(env, old') && IsValid(env, new') && SameCopy(old', new') && size >= 11
    ensures AgreePastFirst(ChunksOf(env, old', size), ChunksOf(env, new', size))
    ensures ChunksOf(env, old', size)[0].data == ChunksOf(env, new', size)[0].data <==> old' == new'
  {
    hide Encoding;
    hide JoinPieces;
    hide UnmarshalPayload;
    hide MarshalPayload;
    hide IsValid;
    var s, s' := Encoding(old'), Encoding(new');
    EncodingLength(env, old');
    EncodingLength(env, new');
    var head, head', tail := SameCopyEncodings(env, old', new');
    forall i | 1 <= i < Ceil(|s|, size)
      ensures Piece(s, size, i) == Piece(s', size, i)
    {
      PiecesPastHead(head, head', tail, size, i);
    }
    if Piece(s, size, 0) == Piece(s', size, 0) {
      SamePieces(s, s', size, Ceil(|s|, size));
      PiecesRejoin(s, size);
      PiecesRejoin(s', size);
      ValidPayloadMarshals(env, old');
      ValidPayloadMarshals(env, new');
    }
  }

  lemma {:induction false} FrontOfCut(a: Stream, b: Stream, k: nat, m: nat)
    requires k <= |a| && 0 < m <= |b|
    ensures Front(a[..k] + b[..m]) == a[..k] + b[..m - 1] && Last(a[..k] + b[..m]) == b[m - 1]
  {
  }

  lemma {:induction false} CutThenFullFeeds(a: Stream, b: Stream, id: Bytes, k: nat, m: nat)
    requires ChunkList(a, id) && ChunkList(b, id) && AgreePastFirst(a, b) && 1 <= k < |a| && m <= |b|
    ensures Feeds(a, a[..k] + b[..m])
    ensures forall q :: q in Seen(a[..k] + b[..m]) <==> 0 <= q < (if m < k then k else m)
    decreases m
  {
    if m == 0 {
      assert a[..k] + b[..m] == a[..k];
      SeenPrefix(a, id, k);
      AllFromList(a, a[..k]);
    } else {
      CutThenFullFeeds(a, b, id, k, m - 1);
      FrontOfCut(a, b, k, m);
      assert m > 1 ==> b[m - 1] == a[m - 1];
    }
  }

  lemma {:induction false} CutThenFullCompletes(a: Stream, b: Stream, id: Bytes, k: nat)
    requires ChunkList(a, id) && ChunkList(b, id) && AgreePastFirst(a, b) && 1 <= k < |a|
    ensures CompletesWithLast(a, a[..k] + b)
  {
    var own, n := a[..k] + b, |a|;
    CutThenFullFeeds(a, b, id, k, n);
    CutThenFullFeeds(a, b, id, k, n - 1);
    FrontOfCut(a, b, k, n);
    assert b[..n] == b;
    assert n - 1 !in Seen(Front(own));
  }

  function ResumeResult(a: Stream, b: Stream, k: nat, i: nat): AddResult
    requires 0 < |a| == |b|
  {
    if i == k && a[0].data != b[0].data then Failed(ConflictingChunk) else Incomplete
  }

  lemma {:induction false} ResumeWaits(a: Stream, b: Stream, id: Bytes, k: nat, i: nat)
    requires ChunkList(a, id) && ChunkList(b, id) && AgreePastFirst(a, b) && 1 <= k < |a| && i < k + |a|
    ensures WaitingResult(a, (a[..k] + b)[i]) == ResumeResult(a, b, k, i)
  {
    assert (a[..k] + b)[i] == if i < k then a[i] else b[i - k];
  }

  /** The transfer alone: the first k chunks of one list, then all of the other. */
  lemma {:induction false} ResumeAlone(env: Env, a: Stream, b: Stream, p: ClipboardPayload, k: nat)
    requires Rebuilds(env, a, p) && ChunkList(b, p.sha256) && AgreePastFirst(a, b) && 1 <= k < |a|
    ensures RunAlone(env, None, a[..k] + b) == None
    ensures |ResultsAlone(env, None, a[..k] + b)| == k + |a|
    ensures ResultsAlone(env, None, a[..k] + b)[k + |a| - 1] == Complete(p)
    ensures forall i :: 0 <= i < k + |a| - 1 ==>
              ResultsAlone(env, None, a[..k] + b)[i] == ResumeResult(a, b, k, i)
  {
    var own := a[..k] + b;
    CutThenFullCompletes(a, b, p.sha256, k);
    DeliverAlone(env, a, p, own);
    WaitingResultAt(a, Front(own));
    forall i | 0 <= i < k + |a| - 1
      ensures ResultsAlone(env, None, own)[i] == ResumeResult(a, b, k, i)
    {
      ResumeWaits(a, b, p.sha256, k, i);
    }
  }

  /** A broadcast of `old'` cut after k of its chunks, then a full broadcast of the same content:
      the receiver hands out one payload, with the last chunk, and it is the first one sent. The
      second broadcast's chunk 0 is refused as conflicting unless the timestamps agree. */
  lemma {:induction false} ResumedTransfer(
      env: Env, old': ClipboardPayload, new': ClipboardPayload, size: nat, k: nat, start: Table, s: Stream)
    requires IsValid(env, old') && IsValid(env, new') && SameCopy(old', new') && size >= 11
    requires 1 <= k < |ChunksOf(env, old', size)| && old'.sha256 !in start
    requires Only(s, old'.sha256) == ChunksOf(env, old', size)[..k] + ChunksOf(env, new', size)
    ensures old'.sha256 !in Run(env, start, s)
    ensures var results := ResultsFor(env, start, s, old'.sha256);
      var n := |ChunksOf(env, old', size)|;
      && |results| == k + n && results[k + n - 1] == Complete(old')
      && (forall i :: 0 <= i < k + n - 1 ==>
            results[i] == if i == k && old' != new' then Failed(ConflictingChunk) else Incomplete)
  {
    ChunksRebuild(env, old', size);
    ChunksAreList(env, new', size);
    SameCopyChunks(env, old', new', size);
    StreamProjection(env, start, s, old'.sha256);
    ResumeAlone(env, ChunksOf(env, old', size), ChunksOf(env, new', size), old', k);
  }
}
