/** The reassembler: in-flight transfers by id, each collecting chunk data by sequence number. */
module Reassembly {
  import opened Counting
  import opened Wire
  import opened Messages
  import opened Payloads

  datatype Transfer = Transfer(
    totalChunks: uint32,
    totalSize: uint64,
    chunks: map<uint32, Bytes>,
    receivedBytes: uint64)

  type Table = map<Bytes, Transfer>

  datatype AddResult = Incomplete | Complete(payload: ClipboardPayload) | Failed(error: Error)

  function ValidateChunk(maybe: Option<PayloadChunk>): Option<Error> {
    if maybe.None? then Some(NilChunk)
    else
      var c := maybe.value;
      if |c.transferId| != 32 then Some(InvalidTransferID)
      else if c.totalChunks == 0 then Some(InvalidChunkCount)
      else if c.sequence >= c.totalChunks then Some(InvalidChunkSequence)
      else if c.totalSize == 0 then Some(InvalidChunkTotalSize)
      else if c.data == [] then Some(EmptyChunkData)
      else if |c.data| > c.totalSize then Some(ChunkSetSizeMismatch)
      else None
  }

  /** The stored data of sequence numbers 0 to n-1 in order, or nothing if one is missing. */
  function Joined(chunks: map<uint32, Bytes>, n: nat): Option<Bytes>
    requires n < TWO_32
  {
    if n == 0 then Some([])
    else
      match Joined(chunks, n - 1)
      case None => None
      case Some(front) => if n - 1 in chunks then Some(front + chunks[n - 1]) else None
  }

  // ---- One transfer ----

  /** A transfer that has as many chunks as it needs: how it ends. */
  function Finish(env: Env, t: Transfer, id: Bytes): (Option<Transfer>, AddResult) {
    if t.receivedBytes != t.totalSize then (None, Failed(ChunkSetSizeMismatch))
    else
      match Joined(t.chunks, t.totalChunks)
      case None => (Some(t), Incomplete)
      case Some(serialized) =>
        match UnmarshalPayload(env, serialized)
        case None => (None, Failed(UnmarshalFailed))
        case Some(p) =>
          var refusal := ValidatePayload(env, Some(p));
          if refusal.Some? then (None, Failed(refusal.value))
          else if p.sha256 != id then (None, Failed(TransferHashMismatch))
          else (None, Complete(p))
  }

  function Store(t: Transfer, c: PayloadChunk): Transfer {
    t.(chunks := t.chunks[c.sequence := c.data], receivedBytes := (t.receivedBytes + |c.data|) % TWO_64)
  }

  function Open(c: PayloadChunk): Transfer {
    Transfer(c.totalChunks, c.totalSize, map[], 0)
  }

  /** The completion check after storing a chunk. */
  function CheckComplete(env: Env, t: Transfer, id: Bytes): (Option<Transfer>, AddResult) {
    if |t.chunks| % TWO_32 != t.totalChunks then (Some(t), Incomplete) else Finish(env, t, id)
  }

  /** A chunk whose metadata agrees with the transfer. */
  function RecordChunk(env: Env, t: Transfer, c: PayloadChunk): (Option<Transfer>, AddResult) {
    if c.sequence in t.chunks then
      if t.chunks[c.sequence] == c.data then (Some(t), Incomplete) else (Some(t), Failed(ConflictingChunk))
    else CheckComplete(env, Store(t, c), c.transferId)
  }

  /** What one valid chunk does to its transfer. */
  function AddToTransfer(env: Env, maybe: Option<Transfer>, c: PayloadChunk): (Option<Transfer>, AddResult) {
    var t := if maybe.Some? then maybe.value else Open(c);
    if t.totalChunks != c.totalChunks || t.totalSize != c.totalSize then (maybe, Failed(ChunkMetadataMismatch))
    else RecordChunk(env, t, c)
  }

  // ---- The table ----

  function Lookup(table: Table, id: Bytes): Option<Transfer> {
    if id in table then Some(table[id]) else None
  }

  function Put(table: Table, id: Bytes, t: Option<Transfer>): Table {
    if t.Some? then table[id := t.value] else table - {id}
  }

  function AddChunk(env: Env, table: Table, maybe: Option<PayloadChunk>): (Table, AddResult) {
    var refusal := ValidateChunk(maybe);
    if refusal.Some? then (table, Failed(refusal.value))
    else
      var c := maybe.value;
      var (t, result) := AddToTransfer(env, Lookup(table, c.transferId), c);
      (Put(table, c.transferId, t), result)
  }

  lemma {:induction false} MissingPiece(chunks: map<uint32, Bytes>, i: nat, n: nat)
    requires i < n < TWO_32 && i !in chunks
    ensures Joined(chunks, n) == None
    decreases n
  {
    if i < n - 1 { MissingPiece(chunks, i, n - 1); }
  }

  lemma {:induction false} Overwrite(table: Table, id: Bytes, t: Transfer, u: Transfer)
    ensures table[id := t][id := u] == table[id := u]
    ensures table[id := t] - {id} == table - {id}
    ensures id in table && table[id] == t ==> table[id := t] == table
  {
  }

  class Reassembler {
    var inflight: Table

    constructor ()
      ensures inflight == map[]
    {
      inflight := map[];
    }

    /** Records a chunk and hands out the payload once its transfer is complete. */
    method Add(env: Env, chunk: Option<PayloadChunk>) returns (result: AddResult)
      modifies this
      ensures inflight == AddChunk(env, old(inflight), chunk).0
      ensures result == AddChunk(env, old(inflight), chunk).1
    {
      var refusal := ValidateChunk(chunk);
      if refusal.Some? {
        return Failed(refusal.value);
      }
      var c := chunk.value;
      var key := c.transferId;
      var state := Transfer(c.totalChunks, c.totalSize, map[], 0);
      if key !in inflight {
        inflight := inflight[key := state];
      } else {
        state := inflight[key];
        if state.totalChunks != c.totalChunks || state.totalSize != c.totalSize {
          return Failed(ChunkMetadataMismatch);
        }
        Overwrite(inflight, key, state, state);
      }
      result := Record(env, key, state, c);
      Overwrite(old(inflight), key, state, state);
    }

    /** The part of `Add` that works on the transfer's state. */
    method Record(env: Env, key: Bytes, state: Transfer, c: PayloadChunk) returns (result: AddResult)
      requires key in inflight && inflight[key] == state && key == c.transferId
      modifies this
      ensures result == RecordChunk(env, state, c).1
      ensures inflight == Put(old(inflight), key, RecordChunk(env, state, c).0)
    {
      if c.sequence in state.chunks {
        Overwrite(inflight, key, state, state);
        return if state.chunks[c.sequence] == c.data then Incomplete else Failed(ConflictingChunk);
      }
      var grown := state.(chunks := state.chunks[c.sequence := c.data],
                          receivedBytes := (state.receivedBytes + |c.data|) % TWO_64);
      inflight := inflight[key := grown];
      if |grown.chunks| % TWO_32 != grown.totalChunks {
        return Incomplete;
      }
      result := Conclude(env, key, grown);
      Overwrite(old(inflight), key, grown, grown);
    }

    /** The part of `Add` that runs when the chunk count is reached. */
    method Conclude(env: Env, key: Bytes, state: Transfer) returns (result: AddResult)
      requires key in inflight && inflight[key] == state
      modifies this
      ensures result == Finish(env, state, key).1
      ensures inflight == Put(old(inflight), key, Finish(env, state, key).0)
    {
      if state.receivedBytes != state.totalSize {
        inflight := inflight - {key};
        return Failed(ChunkSetSizeMismatch);
      }
      var serialized: Bytes := [];
      for i := 0 to state.totalChunks
        invariant Joined(state.chunks, i) == Some(serialized)
        invariant inflight == old(inflight)
      {
        if i !in state.chunks {
          MissingPiece(state.chunks, i, state.totalChunks);
          Overwrite(inflight, key, state, state);
          return Incomplete;
        }
        serialized := serialized + state.chunks[i];
      }
      inflight := inflight - {key};
      var payload := UnmarshalPayload(env, serialized);
      if payload.None? {
        return Failed(UnmarshalFailed);
      }
      var refusal := ValidatePayload(env, payload);
      if refusal.Some? {
        return Failed(refusal.value);
      }
      if payload.value.sha256 != key {
        return Failed(TransferHashMismatch);
      }
      return Complete(payload.value);
    }
  }

  // ---- Invariant ----

  /** The bytes stored under sequence numbers below `n`. */
  function StoredBytes(chunks: map<uint32, Bytes>, n: nat): nat
    requires n <= TWO_32
  {
    if n == 0 then 0
    else StoredBytes(chunks, n - 1) + if n - 1 in chunks then |chunks[n - 1]| else 0
  }

  /** What every transfer in the table satisfies. */
  predicate InFlight(t: Transfer) {
    && (forall q :: q in t.chunks ==> q < t.totalChunks && 1 <= |t.chunks[q]| <= t.totalSize)
    && 1 <= |t.chunks| < t.totalChunks
    && t.receivedBytes == StoredBytes(t.chunks, t.totalChunks) % TWO_64
  }

  ghost predicate TableOk(table: Table) {
    forall id :: id in table ==> |id| == 32 && InFlight(table[id])
  }

  /** Pigeonhole: n different numbers below n are all of them. */
  lemma {:induction false} FullWhenCounted(keys: set<uint32>, n: nat)
    requires forall q :: q in keys ==> q < n
    ensures |keys| <= n
    ensures |keys| == n ==> forall i :: 0 <= i < n ==> i in keys
  {
    var all := Below(n);
    var wide := set q: int | q in keys;
    assert wide == keys;
    SubsetCounts(wide, all);
  }

  lemma {:induction false} StoringAddsLength(chunks: map<uint32, Bytes>, q: uint32, data: Bytes, n: nat)
    requires n <= TWO_32 && q !in chunks
    ensures StoredBytes(chunks[q := data], n) == StoredBytes(chunks, n) + if q < n then |data| else 0
    decreases n
  {
    if n > 0 { StoringAddsLength(chunks, q, data, n - 1); }
  }

  lemma {:induction false} AllStoredJoin(chunks: map<uint32, Bytes>, n: nat)
    requires n < TWO_32
    requires forall i :: 0 <= i < n ==> i in chunks
    ensures Joined(chunks, n).Some? && |Joined(chunks, n).value| == StoredBytes(chunks, n)
    decreases n
  {
    if n > 0 { AllStoredJoin(chunks, n - 1); }
  }

  lemma {:induction false} WrappedSum(a: nat, b: nat)
    ensures (a % TWO_64 + b) % TWO_64 == (a + b) % TWO_64
  {
  }

  /** After storing one new chunk, before the completion check: the pieces and their number. */
  lemma {:induction false} StoredPieces(t: Transfer, c: PayloadChunk)
    requires ValidateChunk(Some(c)).None?
    requires t.totalChunks == c.totalChunks && t.totalSize == c.totalSize && c.sequence !in t.chunks
    requires forall q :: q in t.chunks ==> q < t.totalChunks && 1 <= |t.chunks[q]| <= t.totalSize
    ensures forall q :: q in Store(t, c).chunks ==>
              q < t.totalChunks && 1 <= |Store(t, c).chunks[q]| <= t.totalSize
    ensures 1 <= |Store(t, c).chunks| <= t.totalChunks
  {
    var chunks := Store(t, c).chunks;
    assert c.sequence in chunks;
    FullWhenCounted(chunks.Keys, t.totalChunks);
  }

  /** And the counter. */
  lemma {:induction false} StoredCounter(t: Transfer, c: PayloadChunk)
    requires c.sequence < t.totalChunks && c.sequence !in t.chunks
    requires t.receivedBytes == StoredBytes(t.chunks, t.totalChunks) % TWO_64
    ensures Store(t, c).receivedBytes == StoredBytes(Store(t, c).chunks, t.totalChunks) % TWO_64
  {
    StoringAddsLength(t.chunks, c.sequence, c.data, t.totalChunks);
    WrappedSum(StoredBytes(t.chunks, t.totalChunks), |c.data|);
  }

  lemma {:induction false} NothingStored(n: nat)
    requires n <= TWO_32
    ensures StoredBytes(map[], n) == 0
  {
    if n > 0 { NothingStored(n - 1); }
  }

  /** The counted chunks are all there, so the missing-piece exit is never taken. */
  lemma {:induction false} CountedMeansComplete(t: Transfer)
    requires forall q :: q in t.chunks ==> q < t.totalChunks
    requires |t.chunks| == t.totalChunks
    ensures Joined(t.chunks, t.totalChunks).Some?
    ensures |Joined(t.chunks, t.totalChunks).value| == StoredBytes(t.chunks, t.totalChunks)
  {
    FullWhenCounted(t.chunks.Keys, t.totalChunks);
    AllStoredJoin(t.chunks, t.totalChunks);
  }

  /** A transfer that has just stored a chunk. */
  predicate JustStored(t: Transfer) {
    && (forall q :: q in t.chunks ==> q < t.totalChunks && 1 <= |t.chunks[q]| <= t.totalSize)
    && 1 <= |t.chunks| <= t.totalChunks
    && t.receivedBytes == StoredBytes(t.chunks, t.totalChunks) % TWO_64
  }

  lemma {:induction false} StoreOk(t: Transfer, c: PayloadChunk)
    requires ValidateChunk(Some(c)).None?
    requires t.totalChunks == c.totalChunks && t.totalSize == c.totalSize && c.sequence !in t.chunks
    requires InFlight(t) || t == Open(c)
    ensures JustStored(Store(t, c))
  {
    NothingStored(t.totalChunks);
    StoredPieces(t, c);
    StoredCounter(t, c);
  }

  /** A transfer that reaches its count always ends, and one that does not stays in order. */
  lemma {:induction false} CheckCompleteOk(env: Env, t: Transfer, id: Bytes)
    requires JustStored(t)
    ensures CheckComplete(env, t, id).0.Some? <==> |t.chunks| < t.totalChunks
    ensures CheckComplete(env, t, id).0.Some? ==> CheckComplete(env, t, id) == (Some(t), Incomplete)
  {
    if |t.chunks| == t.totalChunks { CountedMeansComplete(t); }
  }

  /** One chunk keeps a transfer's invariant, and only a transfer still in flight answers "incomplete". */
  lemma {:induction false} AddToTransferKeepsInvariant(env: Env, maybe: Option<Transfer>, c: PayloadChunk)
    requires ValidateChunk(Some(c)).None?
    requires maybe.Some? ==> InFlight(maybe.value)
    ensures AddToTransfer(env, maybe, c).0.Some? ==> InFlight(AddToTransfer(env, maybe, c).0.value)
    ensures AddToTransfer(env, maybe, c).1.Incomplete? ==> AddToTransfer(env, maybe, c).0.Some?
  {
    var t := if maybe.Some? then maybe.value else Open(c);
    if t.totalChunks == c.totalChunks && t.totalSize == c.totalSize && c.sequence !in t.chunks {
      StoreOk(t, c);
      CheckCompleteOk(env, Store(t, c), c.transferId);
    }
  }

  lemma {:induction false} AddChunkKeepsTable(env: Env, table: Table, c: PayloadChunk)
    requires TableOk(table)
    ensures TableOk(AddChunk(env, table, Some(c)).0)
  {
    if ValidateChunk(Some(c)).None? {
      AddToTransferKeepsInvariant(env, Lookup(table, c.transferId), c);
    }
  }

  /** A chunk that can be part of a transfer. */
  predicate WellFormedChunk(c: PayloadChunk) {
    |c.transferId| == 32 && c.sequence < c.totalChunks && 1 <= |c.data| <= c.totalSize
  }

  /** Validation passes exactly the well-formed chunks, and names the first thing wrong with any other. */
  lemma {:induction false} ChunkRefusedExactly(c: PayloadChunk)
    ensures var refusal := ValidateChunk(Some(c));
      && (refusal == None <==> WellFormedChunk(c))
      && (refusal == Some(InvalidTransferID) <==> |c.transferId| != 32)
      && (|c.transferId| == 32 ==>
            && (refusal == Some(InvalidChunkCount) <==> c.totalChunks == 0)
            && (refusal == Some(InvalidChunkSequence) <==> 0 < c.totalChunks <= c.sequence)
            && (c.sequence < c.totalChunks ==>
                  && (refusal == Some(InvalidChunkTotalSize) <==> c.totalSize == 0)
                  && (refusal == Some(EmptyChunkData) <==> c.totalSize > 0 && c.data == [])
                  && (refusal == Some(ChunkSetSizeMismatch) <==> 0 < c.totalSize < |c.data|)))
    ensures ValidateChunk(None) == Some(NilChunk)
  {
  }

  /** A well-formed chunk against the transfer it names: refused for other metadata, ignored or refused as
      a repetition by its data, and otherwise stored. */
  lemma {:induction false} ChunkMeetsTransfer(env: Env, t: Transfer, c: PayloadChunk)
    ensures var (after, r) := AddToTransfer(env, Some(t), c);
      if (t.totalChunks, t.totalSize) != (c.totalChunks, c.totalSize) then
        after == Some(t) && r == Failed(ChunkMetadataMismatch)
      else if c.sequence in t.chunks then
        after == Some(t) && (r == Incomplete <==> t.chunks[c.sequence] == c.data)
        && (r == Failed(ConflictingChunk) <==> t.chunks[c.sequence] != c.data)
      else
        after.Some? ==> after.value.chunks == t.chunks[c.sequence := c.data]
                        && after.value.totalChunks == t.totalChunks && after.value.totalSize == t.totalSize
  {
  }

  /** What a completion joins has the size every chunk of the transfer declared. */
  lemma {:induction false} JoinedHasDeclaredSize(t: Transfer)
    requires JustStored(t) && |t.chunks| == t.totalChunks
    ensures Joined(t.chunks, t.totalChunks).Some?
    ensures |Joined(t.chunks, t.totalChunks).value| % TWO_64 == t.receivedBytes
  {
    CountedMeansComplete(t);
  }

  predicate RefusedByState(result: AddResult) {
    result == Failed(ChunkMetadataMismatch) || result == Failed(ConflictingChunk)
  }

  lemma {:induction false} FinishNeverRefuses(env: Env, t: Transfer, id: Bytes)
    ensures !RefusedByState(Finish(env, t, id).1)
  {
  }

  lemma {:induction false} RefusedLeavesTransfer(env: Env, maybe: Option<Transfer>, c: PayloadChunk)
    requires RefusedByState(AddToTransfer(env, maybe, c).1)
    ensures maybe.Some? && AddToTransfer(env, maybe, c).0 == maybe
  {
    var t := if maybe.Some? then maybe.value else Open(c);
    FinishNeverRefuses(env, Store(t, c), c.transferId);
  }

  /** A chunk refused by validation, metadata or conflict checks changes nothing, and no chunk
      touches a transfer of another id. */
  lemma {:induction false} RefusedChangesNothing(env: Env, table: Table, c: PayloadChunk)
    ensures (ValidateChunk(Some(c)).Some? || RefusedByState(AddChunk(env, table, Some(c)).1)) ==>
              AddChunk(env, table, Some(c)).0 == table
    ensures forall id :: id != c.transferId ==> Lookup(AddChunk(env, table, Some(c)).0, id) == Lookup(table, id)
  {
    var was := Lookup(table, c.transferId);
    if ValidateChunk(Some(c)).None? && RefusedByState(AddToTransfer(env, was, c).1) {
      RefusedLeavesTransfer(env, was, c);
      Overwrite(table, c.transferId, was.value, was.value);
    }
  }
}
