/** Cutting an encoded payload into chunks, with the machine arithmetic of the chunk count. */
module Chunking {
  import opened Wire
  import opened Messages
  import opened Payloads

  function Min(a: int, b: int): int {
    if a < b then a else b
  }

  /** Division that truncates toward zero. */
  function TruncDiv(a: int, b: int): int
    requires b > 0
  {
    if a >= 0 then a / b else -((-a) / b)
  }

  /** The program's chunk count. The sum may wrap. */
  function PieceCount(len: int64, chunkSize: int64): int
    requires len > 0 && chunkSize > 0
  {
    TruncDiv(Wrap64(len + chunkSize - 1), chunkSize)
  }

  /** The sum in the chunk count does not overflow. */
  predicate Fits(len: int, chunkSize: int) {
    0 < chunkSize && len + chunkSize - 1 < TWO_63
  }

  function Ceil(len: nat, size: nat): nat
    requires size > 0
  {
    (len + size - 1) / size
  }

  lemma {:induction false} MulAtMost(a: nat, b: nat, c: nat)
    requires a <= b
    ensures a * c <= b * c
  {
  }

  lemma {:induction false} DivisionFacts(n: nat, d: nat)
    requires d > 0
    ensures n / d * d <= n < n / d * d + d
  {
  }

  lemma {:induction false} CeilBounds(len: nat, size: nat)
    requires size > 0 && len > 0
    ensures Ceil(len, size) >= 1
    ensures Ceil(len, size) * size - size < len <= Ceil(len, size) * size
    ensures Ceil(len, size) <= len
  {
    var n := Ceil(len, size);
    DivisionFacts(len + size - 1, size);
    if n > len {
      MulAtMost(1, size, len);
      MulAtMost(len + 1, n, size);
    }
  }

  lemma {:induction false} PieceCountExactly(len: int64, chunkSize: int64)
    requires len > 0 && chunkSize > 0
    ensures Fits(len, chunkSize) ==> PieceCount(len, chunkSize) == Ceil(len, chunkSize) >= 1
    ensures !Fits(len, chunkSize) ==> PieceCount(len, chunkSize) <= 0
  {
    var sum := len + chunkSize - 1;
    if Fits(len, chunkSize) {
      assert Wrap64(sum) == sum;
      CeilBounds(len, chunkSize);
    } else {
      assert Wrap64(sum) == sum - TWO_64 < 0;
    }
  }

  /** Where the wrapped sum is still at least one chunk size below zero, so that the count is negative. */
  predicate CountsNegative(len: int, chunkSize: int) {
    0 < chunkSize && len + chunkSize - 1 >= TWO_63 && 2 * chunkSize <= TWO_64 - len + 1
  }

  lemma {:induction false} QuotientBelowOne(a: nat, b: nat)
    requires b > 0
    ensures a / b >= 1 <==> a >= b
  {
    DivisionFacts(a, b);
  }

  lemma {:induction false} NegativeCountExactly(len: int64, chunkSize: int64)
    requires len > 0 && chunkSize > 0
    ensures PieceCount(len, chunkSize) < 0 <==> CountsNegative(len, chunkSize)
  {
    var sum := len + chunkSize - 1;
    if sum >= TWO_63 {
      assert Wrap64(sum) == sum - TWO_64 < 0;
      QuotientBelowOne(TWO_64 - sum, chunkSize);
    } else {
      PieceCountExactly(len, chunkSize);
    }
  }

  /** Bytes i*size up to (i+1)*size of `s`, or as many of them as there are. */
  function Piece(s: Bytes, size: nat, i: nat): Bytes {
    s[Min(i * size, |s|)..Min(i * size + size, |s|)]
  }

  lemma {:induction false} PieceInside(s: Bytes, size: nat, i: nat)
    requires 0 < size && s != [] && i < Ceil(|s|, size)
    ensures i * size < |s| && Piece(s, size, i) == s[i * size..Min(i * size + size, |s|)]
    ensures 0 < |Piece(s, size, i)| <= size && |Piece(s, size, i)| <= |s|
  {
    CeilBounds(|s|, size);
    MulAtMost(i + 1, Ceil(|s|, size), size);
  }

  function ChunkAt(id: Bytes, s: Bytes, size: nat, total: nat, i: nat): PayloadChunk
    requires i < total < TWO_32 && |s| < TWO_63
  {
    PayloadChunk(id, i, total, |s|, Piece(s, size, i))
  }

  /** Every piece of `s` as a chunk, in order. */
  function Cut(id: Bytes, s: Bytes, size: nat): (cs: seq<PayloadChunk>)
    requires s != [] && |s| <= MAX_ENCODED_BYTES && size > 0
    ensures |cs| == Ceil(|s|, size) && 1 <= |cs| <= |s|
  {
    CeilBounds(|s|, size);
    seq(Ceil(|s|, size), i requires 0 <= i < Ceil(|s|, size) => ChunkAt(id, s, size, Ceil(|s|, size), i))
  }

  /** The chunks of a valid payload. */
  function ChunksOf(env: Env, p: ClipboardPayload, size: nat): (cs: seq<PayloadChunk>)
    requires IsValid(env, p) && size > 0
    ensures |cs| == Ceil(|Encoding(p)|, size) && 1 <= |cs| <= MAX_ENCODED_BYTES
  {
    EncodingLength(env, p);
    Cut(p.sha256, Encoding(p), size)
  }

  datatype ChunkOutcome = Chunked(chunks: seq<PayloadChunk>) | Refused(error: Error) | Panicked

  function ChunkPayloadOutcome(env: Env, p: Option<ClipboardPayload>, chunkSize: int64): ChunkOutcome {
    var refusal := ValidatePayload(env, p);
    if refusal.Some? then Refused(refusal.value)
    else if chunkSize <= 0 then Refused(ChunkSizeNotPositive)
    else
      ValidateDecidesValidity(env, p.value);
      EncodingLength(env, p.value);
      if Fits(|Encoding(p.value)|, chunkSize) then Chunked(ChunksOf(env, p.value, chunkSize))
      else if PieceCount(|Encoding(p.value)|, chunkSize) == 0 then Chunked([])
      else Panicked
  }

  method CountPieces(len: int64, chunkSize: int64) returns (n: int)
    requires len > 0 && chunkSize > 0
    ensures n == PieceCount(len, chunkSize)
    ensures if Fits(len, chunkSize) then n == Ceil(len, chunkSize) >= 1 else n <= 0
  {
    PieceCountExactly(len, chunkSize);
    n := TruncDiv(Wrap64(len + chunkSize - 1), chunkSize);
  }

  method CutPiece(s: Bytes, size: int64, i: nat) returns (piece: Bytes)
    requires 0 < size && s != [] && i < Ceil(|s|, size)
    ensures piece == Piece(s, size, i)
  {
    PieceInside(s, size, i);
    var start := i * size;
    var end := Min(start + size, |s|);
    piece := s[start..end];
  }

  method CutAll(id: Bytes, serialized: Bytes, chunkSize: int64, totalChunks: nat) returns (chunks: seq<PayloadChunk>)
    requires serialized != [] && |serialized| <= MAX_ENCODED_BYTES && chunkSize > 0
    requires totalChunks == 0 || totalChunks == Ceil(|serialized|, chunkSize) <= |serialized|
    ensures chunks == if totalChunks == 0 then [] else Cut(id, serialized, chunkSize)
  {
    chunks := [];
    for i := 0 to totalChunks
      invariant |chunks| == i
      invariant forall j :: 0 <= j < i ==> chunks[j] == ChunkAt(id, serialized, chunkSize, totalChunks, j)
    {
      var data := CutPiece(serialized, chunkSize, i);
      chunks := chunks + [PayloadChunk(id, i % TWO_32, totalChunks % TWO_32, |serialized|, data)];
    }
  }

  method ChunkPayload(env: Env, p: Option<ClipboardPayload>, chunkSize: int64) returns (r: ChunkOutcome)
    ensures r == ChunkPayloadOutcome(env, p, chunkSize)
  {
    var refusal := ValidatePayload(env, p);
    if refusal.Some? {
      return Refused(refusal.value);
    }
    if chunkSize <= 0 {
      return Refused(ChunkSizeNotPositive);
    }
    ValidateDecidesValidity(env, p.value);
    ValidPayloadMarshals(env, p.value);
    EncodingLength(env, p.value);
    var marshalled := MarshalPayload(env, p.value);
    if marshalled.None? {
      return Refused(MarshalFailed);
    }
    var serialized := marshalled.value;
    var totalChunks := CountPieces(|serialized|, chunkSize);
    if totalChunks < 0 {
      return Panicked; // a slice cannot be made with a negative capacity
    }
    CeilBounds(|serialized|, chunkSize);
    var chunks := CutAll(p.value.sha256, serialized, chunkSize, totalChunks);
    return Chunked(chunks);
  }

  // ---- The pieces put back together ----

  /** The first `k` pieces in order. */
  function JoinPieces(s: Bytes, size: nat, k: nat): Bytes {
    if k == 0 then [] else JoinPieces(s, size, k - 1) + Piece(s, size, k - 1)
  }

  lemma {:induction false} JoinedPiecesArePrefix(s: Bytes, size: nat, k: nat)
    requires 0 < size
    ensures JoinPieces(s, size, k) == s[..Min(k * size, |s|)]
  {
    if k > 0 {
      JoinedPiecesArePrefix(s, size, k - 1);
      assert k * size == (k - 1) * size + size;
    }
  }

  /** Nothing is lost, repeated or reordered by cutting. */
  lemma {:induction false} PiecesRejoin(s: Bytes, size: nat)
    requires 0 < size && s != []
    ensures JoinPieces(s, size, Ceil(|s|, size)) == s
  {
    CeilBounds(|s|, size);
    JoinedPiecesArePrefix(s, size, Ceil(|s|, size));
  }
}
