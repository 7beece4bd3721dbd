/** Whole streams of chunks through one reassembler, whatever their order and mixture. */
module Streams {
  import opened Wire
  import opened Messages
  import opened Payloads
  import opened Reassembly

  type Stream = seq<PayloadChunk>

  function Front(s: Stream): Stream
    requires s != []
  {
    s[..|s| - 1]
  }

  function Last(s: Stream): PayloadChunk
    requires s != []
  {
    s[|s| - 1]
  }

  /** The table after the stream. */
  function Run(env: Env, start: Table, s: Stream): Table {
    if s == [] then start else AddChunk(env, Run(env, start, Front(s)), Some(Last(s))).0
  }

  /** What adding the i-th chunk answered. */
  function ResultAt(env: Env, start: Table, s: Stream, i: nat): AddResult
    requires i < |s|
  {
    AddChunk(env, Run(env, start, s[..i]), Some(s[i])).1
  }

  lemma {:induction false} RunKeepsTable(env: Env, start: Table, s: Stream)
    requires TableOk(start)
    ensures TableOk(Run(env, start, s))
  {
    if s != [] {
      RunKeepsTable(env, start, Front(s));
      AddChunkKeepsTable(env, Run(env, start, Front(s)), Last(s));
    }
  }

  // ---- Transfers do not interfere ----

  /** One chunk given to the one transfer it names. */
  function AddAlone(env: Env, t: Option<Transfer>, c: PayloadChunk): (Option<Transfer>, AddResult) {
    var refusal := ValidateChunk(Some(c));
    if refusal.Some? then (t, Failed(refusal.value)) else AddToTransfer(env, t, c)
  }

  /** The chunks of one transfer id, in order. */
  function Only(s: Stream, id: Bytes): Stream {
    if s == [] then []
    else if Last(s).transferId == id then Only(Front(s), id) + [Last(s)]
    else Only(Front(s), id)
  }

  function RunAlone(env: Env, t: Option<Transfer>, s: Stream): Option<Transfer> {
    if s == [] then t else AddAlone(env, RunAlone(env, t, Front(s)), Last(s)).0
  }

  function ResultsAlone(env: Env, t: Option<Transfer>, s: Stream): seq<AddResult> {
    if s == [] then []
    else ResultsAlone(env, t, Front(s)) + [AddAlone(env, RunAlone(env, t, Front(s)), Last(s)).1]
  }

  /** The shared reassembler's answers to the chunks of one id. */
  function ResultsFor(env: Env, start: Table, s: Stream, id: Bytes): seq<AddResult> {
    if s == [] then []
    else
      var before := ResultsFor(env, start, Front(s), id);
      if Last(s).transferId == id
      then before + [AddChunk(env, Run(env, start, Front(s)), Some(Last(s))).1]
      else before
  }

  lemma {:induction false} AddChunkIsAddAlone(env: Env, table: Table, c: PayloadChunk)
    ensures Lookup(AddChunk(env, table, Some(c)).0, c.transferId) == AddAlone(env, Lookup(table, c.transferId), c).0
    ensures AddChunk(env, table, Some(c)).1 == AddAlone(env, Lookup(table, c.transferId), c).1
  {
  }

  /** A valid chunk with agreeing metadata and a new sequence number is stored. */
  lemma {:induction false} AddAloneStores(env: Env, maybe: Option<Transfer>, c: PayloadChunk)
    requires ValidateChunk(Some(c)).None?
    requires maybe.Some? ==>
      maybe.value.totalChunks == c.totalChunks && maybe.value.totalSize == c.totalSize && c.sequence !in maybe.value.chunks
    ensures AddAlone(env, maybe, c)
         == CheckComplete(env, Store(if maybe.Some? then maybe.value else Open(c), c), c.transferId)
  {
  }

  /** The shared reassembler treats every transfer as its own reassembler would, fed with that
      transfer's chunks only. */
  lemma {:induction false} StreamProjection(env: Env, start: Table, s: Stream, id: Bytes)
    ensures Lookup(Run(env, start, s), id) == RunAlone(env, Lookup(start, id), Only(s, id))
    ensures ResultsFor(env, start, s, id) == ResultsAlone(env, Lookup(start, id), Only(s, id))
  {
    if s != [] {
      StreamProjection(env, start, Front(s), id);
      var table := Run(env, start, Front(s));
      var own := Only(Front(s), id);
      if Last(s).transferId == id {
        assert Front(own + [Last(s)]) == own;
        AddChunkIsAddAlone(env, table, Last(s));
      } else {
        RefusedChangesNothing(env, table, Last(s));
      }
    }
  }

  /** How transfers interleave does not matter. */
  lemma {:induction false} InterleavingIsIrrelevant(env: Env, start: Table, s: Stream, s': Stream)
    requires forall id: Bytes :: Only(s, id) == Only(s', id)
    ensures Run(env, start, s) == Run(env, start, s')
    ensures forall id: Bytes :: ResultsFor(env, start, s, id) == ResultsFor(env, start, s', id)
  {
    var a, b := Run(env, start, s), Run(env, start, s');
    forall id: Bytes
      ensures Lookup(a, id) == Lookup(b, id) && ResultsFor(env, start, s, id) == ResultsFor(env, start, s', id)
    {
      assert Only(s, id) == Only(s', id);
      StreamProjection(env, start, s, id);
      StreamProjection(env, start, s', id);
    }
    SameLookups(a, b);
  }

  lemma {:induction false} SameLookups(a: Table, b: Table)
    requires forall id: Bytes :: Lookup(a, id) == Lookup(b, id)
    ensures a == b
  {
    assert forall id :: id in a ==> Lookup(a, id).Some? && Lookup(b, id) == Lookup(a, id);
    assert forall id :: id in b ==> Lookup(b, id).Some? && Lookup(a, id) == Lookup(b, id);
  }

  // ---- First writer wins ----

  /** A chunk that passes validation and agrees with the chunk that opened its transfer. */
  predicate Belongs(c: PayloadChunk, opener: PayloadChunk) {
    && ValidateChunk(Some(c)).None?
    && c.transferId == opener.transferId
    && c.totalChunks == opener.totalChunks
    && c.totalSize == opener.totalSize
  }

  /** Chunk i is the first of its sequence number since the transfer opened at k. */
  predicate IsFirst(s: Stream, k: nat, q: uint32, i: nat) {
    && k <= i < |s|
    && Belongs(s[i], s[k]) && s[i].sequence == q
    && forall j :: k <= j < i && Belongs(s[j], s[k]) ==> s[j].sequence != q
  }

  /** When the transfer now in the table was opened. */
  function Opening(env: Env, s: Stream, id: Bytes): (k: nat)
    requires id in Run(env, map[], s)
    ensures k < |s|
  {
    if id in Run(env, map[], Front(s)) then Opening(env, Front(s), id) else |s| - 1
  }

  /** The transfer holds exactly the first chunk of every sequence number seen since chunk k. */
  ghost predicate HoldsFirsts(t: Transfer, s: Stream, k: nat) {
    && k < |s| && Belongs(s[k], s[k])
    && t.totalChunks == s[k].totalChunks && t.totalSize == s[k].totalSize
    && (forall i :: k <= i < |s| && Belongs(s[i], s[k]) ==> s[i].sequence in t.chunks)
    && (forall q :: q in t.chunks ==> exists i: nat :: IsFirst(s, k, q, i) && t.chunks[q] == s[i].data)
  }

  lemma {:induction false} OpensHolding(s: Stream, k: nat)
    requires k + 1 == |s| && Belongs(s[k], s[k])
    ensures HoldsFirsts(Store(Open(s[k]), s[k]), s, k)
  {
    assert IsFirst(s, k, s[k].sequence, k);
  }

  lemma {:induction false} FirstsOfPrefix(s: Stream, k: nat, q: uint32, i: nat)
    requires s != [] && IsFirst(Front(s), k, q, i)
    ensures IsFirst(s, k, q, i) && Front(s)[i] == s[i]
  {
  }

  /** One more chunk of the stream that does not belong, or repeats a sequence number. */
  lemma {:induction false} StillHolding(t: Transfer, s: Stream, k: nat)
    requires s != [] && HoldsFirsts(t, Front(s), k)
    requires Belongs(Last(s), s[k]) ==> Last(s).sequence in t.chunks
    ensures HoldsFirsts(t, s, k)
  {
    forall q | q in t.chunks
      ensures exists i: nat :: IsFirst(s, k, q, i) && t.chunks[q] == s[i].data
    {
      var i: nat :| IsFirst(Front(s), k, q, i) && t.chunks[q] == Front(s)[i].data;
      FirstsOfPrefix(s, k, q, i);
    }
  }

  lemma {:induction false} HoldingOneMore(t: Transfer, s: Stream, k: nat)
    requires s != [] && HoldsFirsts(t, Front(s), k)
    requires Belongs(Last(s), s[k]) && Last(s).sequence !in t.chunks
    ensures HoldsFirsts(Store(t, Last(s)), s, k)
  {
    var t' := Store(t, Last(s));
    forall q | q in t'.chunks
      ensures exists i: nat :: IsFirst(s, k, q, i) && t'.chunks[q] == s[i].data
    {
      if q == Last(s).sequence {
        assert forall j :: k <= j < |s| - 1 && Belongs(s[j], s[k]) ==> Front(s)[j].sequence in t.chunks;
        assert IsFirst(s, k, q, |s| - 1);
      } else {
        var i: nat :| IsFirst(Front(s), k, q, i) && t.chunks[q] == Front(s)[i].data;
        FirstsOfPrefix(s, k, q, i);
      }
    }
  }

  /** One more chunk of a transfer that stays in the table. */
  lemma {:induction false} HistoryStep(env: Env, t: Transfer, s: Stream, k: nat)
    requires s != [] && HoldsFirsts(t, Front(s), k) && s[k].transferId == Last(s).transferId
    requires AddAlone(env, Some(t), Last(s)).0.Some?
    ensures HoldsFirsts(AddAlone(env, Some(t), Last(s)).0.value, s, k)
  {
    var c := Last(s);
    if Belongs(c, s[k]) && c.sequence !in t.chunks {
      HoldingOneMore(t, s, k);
      StaysStored(env, t, c);
    } else {
      StillHolding(t, s, k);
    }
  }

  lemma {:induction false} StaysStored(env: Env, t: Transfer, c: PayloadChunk)
    requires ValidateChunk(Some(c)).None? && c.sequence !in t.chunks
    requires t.totalChunks == c.totalChunks && t.totalSize == c.totalSize
    ensures AddAlone(env, Some(t), c).0.Some? ==> AddAlone(env, Some(t), c).0.value == Store(t, c)
  {
  }

  /** The table's transfer `id` was opened at k, has been there since, and holds the firsts. */
  ghost predicate HistoryOf(env: Env, s: Stream, id: Bytes, k: nat) {
    && id in Run(env, map[], s)
    && k < |s| && s[k].transferId == id
    && HoldsFirsts(Run(env, map[], s)[id], s, k)
    && Unbroken(env, s, id, k, |s|)
  }

  /** The transfer entered the table with chunk k and is there after every later chunk up to `n`. */
  ghost predicate Unbroken(env: Env, s: Stream, id: Bytes, k: nat, n: nat)
    requires k < |s| && n <= |s|
  {
    id !in Run(env, map[], s[..k]) && forall j :: k < j <= n ==> id in Run(env, map[], s[..j])
  }

  lemma {:induction false} PrefixOfFront(s: Stream, j: nat)
    requires s != [] && j <= |s| - 1
    ensures Front(s)[..j] == s[..j]
  {
  }

  lemma {:induction false} UnbrokenOneMore(env: Env, s: Stream, id: Bytes, k: nat)
    requires s != [] && k < |s| - 1 && Unbroken(env, Front(s), id, k, |s| - 1)
    ensures Unbroken(env, s, id, k, |s| - 1)
    ensures id in Run(env, map[], s) ==> Unbroken(env, s, id, k, |s|)
  {
    PrefixOfFront(s, k);
    forall j | k < j <= |s| - 1
      ensures id in Run(env, map[], s[..j])
    {
      PrefixOfFront(s, j);
    }
    assert s[..|s|] == s;
  }

  lemma {:induction false} HistoryContinues(env: Env, s: Stream, id: Bytes, k: nat)
    requires s != [] && HistoryOf(env, Front(s), id, k) && id in Run(env, map[], s)
    ensures HistoryOf(env, s, id, k)
  {
    var before := Run(env, map[], Front(s));
    UnbrokenOneMore(env, s, id, k);
    if Last(s).transferId == id {
      AddChunkIsAddAlone(env, before, Last(s));
      HistoryStep(env, before[id], s, k);
    } else {
      RefusedChangesNothing(env, before, Last(s));
      assert Lookup(Run(env, map[], s), id) == Lookup(before, id);
      StillHolding(before[id], s, k);
    }
  }

  lemma {:induction false} HistoryStarts(env: Env, s: Stream, id: Bytes)
    requires s != [] && id !in Run(env, map[], Front(s)) && id in Run(env, map[], s)
    ensures HistoryOf(env, s, id, |s| - 1)
  {
    var before := Run(env, map[], Front(s));
    assert s[..|s|] == s && s[..|s| - 1] == Front(s);
    RefusedChangesNothing(env, before, Last(s));
    assert Lookup(Run(env, map[], s), id) != Lookup(before, id);
    AddChunkIsAddAlone(env, before, Last(s));
    FirstOfFresh(env, Last(s));
    OpensHolding(s, |s| - 1);
  }

  /** In every reachable state, each stored piece is the first of its sequence number since the
      transfer was opened, every sequence number seen since then is stored, and the transfer has
      been in the table without a break. */
  lemma {:induction false} FirstWriterHistory(env: Env, s: Stream, id: Bytes)
    requires id in Run(env, map[], s)
    ensures HistoryOf(env, s, id, Opening(env, s, id))
  {
    if id in Run(env, map[], Front(s)) {
      FirstWriterHistory(env, Front(s), id);
      HistoryContinues(env, s, id, Opening(env, s, id));
    } else {
      HistoryStarts(env, s, id);
    }
  }

  lemma {:induction false} FirstOfFresh(env: Env, c: PayloadChunk)
    ensures ValidateChunk(Some(c)).None? && AddAlone(env, None, c).0.Some? ==>
              AddAlone(env, None, c).0 == Some(Store(Open(c), c))
  {
  }

  // ---- What is delivered ----

  function Concat(parts: seq<Bytes>): Bytes {
    if parts == [] then [] else Concat(parts[..|parts| - 1]) + parts[|parts| - 1]
  }

  /** The pieces, by sequence number, that `Joined` concatenates. */
  lemma {:induction false} JoinedIsConcat(chunks: map<uint32, Bytes>, n: nat) returns (parts: seq<Bytes>)
    requires n < TWO_32 && Joined(chunks, n).Some?
    ensures |parts| == n && Joined(chunks, n).value == Concat(parts)
    ensures forall q :: 0 <= q < n ==> q in chunks && parts[q] == chunks[q]
  {
    if n == 0 {
      parts := [];
    } else {
      var front := JoinedIsConcat(chunks, n - 1);
      parts := front + [chunks[n - 1]];
      assert parts[..n - 1] == front;
    }
  }

  /** Chunk `c` is the last one missing from `t`; the whole has the declared size and decodes to `p`. */
  predicate Completes(env: Env, t: Transfer, c: PayloadChunk, p: ClipboardPayload) {
    && t.totalChunks == c.totalChunks && t.totalSize == c.totalSize && c.sequence !in t.chunks
    && ValidateChunk(Some(c)).None?
    && Joined(Store(t, c).chunks, c.totalChunks).Some?
    && |Joined(Store(t, c).chunks, c.totalChunks).value| % TWO_64 == c.totalSize
    && UnmarshalPayload(env, Joined(Store(t, c).chunks, c.totalChunks).value) == Some(p)
  }

  /** Only the check at the end completes anything. */
  lemma {:induction false} CompletesByFinish(env: Env, maybe: Option<Transfer>, c: PayloadChunk)
    requires AddAlone(env, maybe, c).1.Complete?
    ensures var t := if maybe.Some? then maybe.value else Open(c);
      && ValidateChunk(Some(c)).None? && t.totalChunks == c.totalChunks && t.totalSize == c.totalSize
      && c.sequence !in t.chunks && |Store(t, c).chunks| % TWO_32 == c.totalChunks
      && AddAlone(env, maybe, c) == Finish(env, Store(t, c), c.transferId)
  {
    hide Finish;
  }

  /** How a transfer with all its pieces ends. */
  lemma {:induction false} FinishExactly(env: Env, t: Transfer, id: Bytes, whole: Bytes)
    requires Joined(t.chunks, t.totalChunks) == Some(whole) && |whole| % TWO_64 == t.receivedBytes
    ensures Finish(env, t, id).0 == None && Ends(env, whole, t.totalSize, id, Finish(env, t, id).1)
  {
    hide Joined;
    hide UnmarshalPayload;
    if UnmarshalPayload(env, whole).Some? {
      var p := UnmarshalPayload(env, whole).value;
      ValidateDecidesValidity(env, p);
      NeverASizeError(env, p);
      hide ValidatePayload;
    }
  }

  lemma {:induction false} NeverASizeError(env: Env, p: ClipboardPayload)
    ensures ValidatePayload(env, Some(p)) !in {Some(ChunkSetSizeMismatch), Some(UnmarshalFailed), Some(TransferHashMismatch)}
  {
  }

  /** The right answer for these bytes: refused if they are not as many as declared, do not decode, are not
      a valid payload or hash to another id, and otherwise delivered. */
  predicate Ends(env: Env, whole: Bytes, declared: uint64, id: Bytes, r: AddResult) {
    if |whole| % TWO_64 != declared then r == Failed(ChunkSetSizeMismatch)
    else
      match UnmarshalPayload(env, whole)
      case None => r == Failed(UnmarshalFailed)
      case Some(p) =>
        if !IsValid(env, p) then ValidatePayload(env, Some(p)).Some? && r == Failed(ValidatePayload(env, Some(p)).value)
        else if p.sha256 != id then r == Failed(TransferHashMismatch)
        else r == Complete(p)
  }

  lemma {:induction false} CompletedTransfer(env: Env, maybe: Option<Transfer>, c: PayloadChunk, p: ClipboardPayload)
    requires AddAlone(env, maybe, c).1 == Complete(p) && (maybe.Some? ==> InFlight(maybe.value))
    ensures Completes(env, if maybe.Some? then maybe.value else Open(c), c, p)
    ensures IsValid(env, p) && p.sha256 == c.transferId
    ensures AddAlone(env, maybe, c).0.None?
  {
    hide AddAlone;
    hide Joined;
    hide Finish;
    hide UnmarshalPayload;
    hide IsValid;
    var t := if maybe.Some? then maybe.value else Open(c);
    CompletesByFinish(env, maybe, c);
    StoreOk(t, c);
    JoinedHasDeclaredSize(Store(t, c));
    FinishExactly(env, Store(t, c), c.transferId, Joined(Store(t, c).chunks, c.totalChunks).value);
  }

  /** Piece q of a delivery is the first chunk numbered q since the transfer opened at k. */
  ghost predicate PiecesAreFirsts(s: Stream, k: nat, parts: seq<Bytes>)
    requires k < |s|
  {
    |parts| < TWO_32 &&
    forall q :: 0 <= q < |parts| ==> exists i: nat :: IsFirst(s, k, q, i) && parts[q] == s[i].data
  }

  lemma {:induction false} DeliveredPieces(env: Env, t: Transfer, s: Stream, k: nat, p: ClipboardPayload) returns (parts: seq<Bytes>)
    requires s != [] && Completes(env, t, Last(s), p) && HoldsFirsts(Store(t, Last(s)), s, k)
    ensures |parts| == Last(s).totalChunks && PiecesAreFirsts(s, k, parts)
    ensures |Concat(parts)| % TWO_64 == Last(s).totalSize
    ensures UnmarshalPayload(env, Concat(parts)) == Some(p)
  {
    var chunks := Store(t, Last(s)).chunks;
    parts := JoinedIsConcat(chunks, Last(s).totalChunks);
    forall q | 0 <= q < |parts|
      ensures exists i: nat :: IsFirst(s, k, q, i) && parts[q] == s[i].data
    {
      assert q in chunks && parts[q] == chunks[q];
    }
  }

  /** The transfer that a chunk completes, with its history. */
  lemma {:induction false} CompletedHistory(env: Env, s: Stream, p: ClipboardPayload) returns (t: Transfer, k: nat)
    requires s != [] && AddChunk(env, Run(env, map[], Front(s)), Some(Last(s))).1 == Complete(p)
    ensures Completes(env, t, Last(s), p) && IsValid(env, p) && p.sha256 == Last(s).transferId
    ensures k < |s| && s[k].transferId == Last(s).transferId && HoldsFirsts(Store(t, Last(s)), s, k)
    ensures Unbroken(env, s, Last(s).transferId, k, |s| - 1)
    ensures Last(s).transferId !in Run(env, map[], s)
  {
    var id := Last(s).transferId;
    var before := Run(env, map[], Front(s));
    assert s[..|s| - 1] == Front(s);
    AddChunkIsAddAlone(env, before, Last(s));
    RunKeepsTable(env, map[], Front(s));
    CompletedTransfer(env, Lookup(before, id), Last(s), p);
    if id in before {
      t := before[id];
      FirstWriterHistory(env, Front(s), id);
      k := Opening(env, Front(s), id);
      UnbrokenOneMore(env, s, id, k);
      HoldingOneMore(t, s, k);
    } else {
      t, k := Open(Last(s)), |s| - 1;
      OpensHolding(s, k);
    }
  }

  /** Whatever the stream, a delivered payload is valid, hashes to its transfer id, and is the
      decoding of the in-order concatenation of the first pieces since the transfer opened, which has
      the declared size; the transfer leaves the table with it. */
  lemma {:induction false} DeliveredIntegrity(env: Env, s: Stream, p: ClipboardPayload) returns (k: nat, parts: seq<Bytes>)
    requires s != [] && ResultAt(env, map[], s, |s| - 1) == Complete(p)
    ensures k < |s| && s[k].transferId == Last(s).transferId
    ensures Unbroken(env, s, Last(s).transferId, k, |s| - 1)
    ensures Last(s).transferId !in Run(env, map[], s)
    ensures |parts| == Last(s).totalChunks && PiecesAreFirsts(s, k, parts)
    ensures |Concat(parts)| % TWO_64 == Last(s).totalSize
    ensures UnmarshalPayload(env, Concat(parts)) == Some(p)
    ensures IsValid(env, p) && env.sha256(p.data) == Last(s).transferId
  {
    assert s[..|s| - 1] == Front(s);
    var t: Transfer;
    t, k := CompletedHistory(env, s, p);
    parts := DeliveredPieces(env, t, s, k, p);
  }

  /** The pieces a last missing chunk completes, in order. */
  predicate Completing(maybe: Option<Transfer>, c: PayloadChunk, parts: seq<Bytes>) {
    && |parts| == c.totalChunks && c.sequence < |parts|
    && forall q :: 0 <= q < |parts| ==>
         if q == c.sequence then parts[q] == c.data
         else maybe.Some? && q in maybe.value.chunks && parts[q] == maybe.value.chunks[q]
  }

  /** The last missing chunk of a transfer. */
  predicate LastMissing(maybe: Option<Transfer>, c: PayloadChunk) {
    && ValidateChunk(Some(c)).None?
    && (maybe.Some? ==> InFlight(maybe.value) && maybe.value.totalChunks == c.totalChunks
                        && maybe.value.totalSize == c.totalSize && c.sequence !in maybe.value.chunks)
    && (if maybe.Some? then |maybe.value.chunks| else 0) + 1 == c.totalChunks
  }

  lemma {:induction false} LastMissingFinishes(env: Env, maybe: Option<Transfer>, c: PayloadChunk)
    requires LastMissing(maybe, c)
    ensures var t := if maybe.Some? then maybe.value else Open(c);
      && JustStored(Store(t, c)) && |Store(t, c).chunks| == c.totalChunks
      && AddAlone(env, maybe, c) == Finish(env, Store(t, c), c.transferId)
  {
    hide Finish;
    StoreOk(if maybe.Some? then maybe.value else Open(c), c);
  }

  /** The end of every transfer: with its last missing chunk it leaves the table, and the answer is the right
      one for the pieces in order. */
  lemma {:induction false} EndsExactly(env: Env, maybe: Option<Transfer>, c: PayloadChunk) returns (parts: seq<Bytes>)
    requires LastMissing(maybe, c)
    ensures Completing(maybe, c, parts) && AddAlone(env, maybe, c).0 == None
    ensures Ends(env, Concat(parts), c.totalSize, c.transferId, AddAlone(env, maybe, c).1)
  {
    var t := if maybe.Some? then maybe.value else Open(c);
    LastMissingFinishes(env, maybe, c);
    JoinedHasDeclaredSize(Store(t, c));
    hide AddAlone;
    hide Joined;
    hide Finish;
    hide Ends;
    parts := JoinedIsConcat(Store(t, c).chunks, c.totalChunks);
    FinishExactly(env, Store(t, c), c.transferId, Concat(parts));
    hide InFlight;
    hide JustStored;
    assert ValidateChunk(Some(c)).None? ==> c.sequence < c.totalChunks;
    forall q | 0 <= q < |parts| && q != c.sequence
      ensures maybe.Some? && q in maybe.value.chunks && parts[q] == maybe.value.chunks[q]
    {
      assert q in Store(t, c).chunks;
    }
  }

  // ---- Counters never wrap ----

  const DEFAULT_MAX_FRAME_BYTES := 1_048_576 + 65_536

  ghost predicate SmallPieces(table: Table) {
    forall id, q :: id in table && q in table[id].chunks ==> |table[id].chunks[q]| <= DEFAULT_MAX_FRAME_BYTES
  }

  lemma {:induction false} AddChunkKeepsPiecesSmall(env: Env, table: Table, c: PayloadChunk)
    requires SmallPieces(table) && |c.data| <= DEFAULT_MAX_FRAME_BYTES
    ensures SmallPieces(AddChunk(env, table, Some(c)).0)
  {
    var after := AddChunk(env, table, Some(c)).0;
    RefusedChangesNothing(env, table, c);
    forall id, q | id in after && q in after[id].chunks
      ensures |after[id].chunks[q]| <= DEFAULT_MAX_FRAME_BYTES
    {
      if id != c.transferId { assert Lookup(after, id) == Lookup(table, id); }
      else { AddChunkIsAddAlone(env, table, c); }
    }
  }

  lemma {:induction false} StoredBytesBound(chunks: map<uint32, Bytes>, n: nat)
    requires n <= TWO_32
    requires forall q :: q in chunks ==> |chunks[q]| <= DEFAULT_MAX_FRAME_BYTES
    ensures StoredBytes(chunks, n) <= n * DEFAULT_MAX_FRAME_BYTES
  {
    if n > 0 { StoredBytesBound(chunks, n - 1); }
  }

  lemma {:induction false} CounterExact(t: Transfer)
    requires InFlight(t) && forall q :: q in t.chunks ==> |t.chunks[q]| <= DEFAULT_MAX_FRAME_BYTES
    ensures t.receivedBytes == StoredBytes(t.chunks, t.totalChunks)
  {
    StoredBytesBound(t.chunks, t.totalChunks);
  }

  lemma {:induction false} RunKeepsPiecesSmall(env: Env, s: Stream)
    requires forall c :: c in s ==> |c.data| <= DEFAULT_MAX_FRAME_BYTES
    ensures SmallPieces(Run(env, map[], s))
  {
    if s != [] {
      RunKeepsPiecesSmall(env, Front(s));
      AddChunkKeepsPiecesSmall(env, Run(env, map[], Front(s)), Last(s));
    }
  }

  /** Under the default frame limit the received-bytes counter of every transfer is, in every
      reachable state, the true sum of the stored lengths. */
  lemma {:induction false} ReceivedBytesExact(env: Env, s: Stream, id: Bytes)
    requires forall c :: c in s ==> |c.data| <= DEFAULT_MAX_FRAME_BYTES
    requires id in Run(env, map[], s)
    ensures var t := Run(env, map[], s)[id];
      InFlight(t) && t.receivedBytes == StoredBytes(t.chunks, t.totalChunks)
  {
    var table := Run(env, map[], s);
    RunKeepsTable(env, map[], s);
    RunKeepsPiecesSmall(env, s);
    assert forall q :: q in table[id].chunks ==> |table[id].chunks[q]| <= DEFAULT_MAX_FRAME_BYTES;
    CounterExact(table[id]);
  }

  lemma {:induction false} ConcatLength(parts: seq<Bytes>)
    requires |parts| < TWO_32 && forall q :: 0 <= q < |parts| ==> |parts[q]| <= DEFAULT_MAX_FRAME_BYTES
    ensures |Concat(parts)| <= |parts| * DEFAULT_MAX_FRAME_BYTES
  {
    if parts != [] { ConcatLength(parts[..|parts| - 1]); }
  }

  /** Under the default frame limit a delivery's pieces add up to exactly the declared size. */
  lemma {:induction false} DeliveredInFull(env: Env, s: Stream, p: ClipboardPayload) returns (parts: seq<Bytes>)
    requires s != [] && ResultAt(env, map[], s, |s| - 1) == Complete(p)
    requires forall c :: c in s ==> |c.data| <= DEFAULT_MAX_FRAME_BYTES
    ensures UnmarshalPayload(env, Concat(parts)) == Some(p)
    ensures |parts| == Last(s).totalChunks && |Concat(parts)| == Last(s).totalSize
  {
    hide UnmarshalPayload;
    hide Unbroken;
    hide IsFirst;
    hide Concat;
    var k: nat;
    k, parts := DeliveredIntegrity(env, s, p);
    PiecesAreSmall(s, k, parts);
    ConcatLength(parts);
    FitsWord(|Concat(parts)|, |parts|);
  }

  lemma {:induction false} PiecesAreSmall(s: Stream, k: nat, parts: seq<Bytes>)
    requires k < |s| && PiecesAreFirsts(s, k, parts) && forall c :: c in s ==> |c.data| <= DEFAULT_MAX_FRAME_BYTES
    ensures forall q :: 0 <= q < |parts| ==> |parts[q]| <= DEFAULT_MAX_FRAME_BYTES
  {
    forall q | 0 <= q < |parts|
      ensures |parts[q]| <= DEFAULT_MAX_FRAME_BYTES
    {
      var piece := parts[q];
      var i: nat :| IsFirst(s, k, q, i) && piece == s[i].data;
      assert s[i] in s;
    }
  }

  lemma {:induction false} FitsWord(n: nat, pieces: nat)
    requires pieces < TWO_32 && n <= pieces * DEFAULT_MAX_FRAME_BYTES
    ensures n % TWO_64 == n
  {
  }
}
