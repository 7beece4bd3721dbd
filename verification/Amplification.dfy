/** A reassembler hands over no more payloads than it received first chunks: not with frames in any
    order, repeated, cut, resumed or made up. */
module Amplification {
  import opened Counting
  import opened Wire
  import opened Messages
  import opened Reassembly
  import opened Streams
  import opened Frames

  /** The transfer holds its first piece. */
  predicate Started(t: Option<Transfer>) {
    t.Some? && 0 in t.value.chunks
  }

  function One(b: bool): nat {
    if b then 1 else 0
  }

  lemma {:induction false} CompletesWithFirst(env: Env, t: Transfer, id: Bytes)
    requires t.totalChunks > 0
    ensures Finish(env, t, id).1.Complete? ==> 0 in t.chunks && Finish(env, t, id).0 == None
    ensures Finish(env, t, id).0.Some? ==> Finish(env, t, id).0 == Some(t)
  {
    if 0 !in t.chunks { MissingPiece(t.chunks, 0, t.totalChunks); }
  }

  /** One chunk given to its transfer: a completion uses up a first piece held or just received. */
  lemma {:induction false} TransferNeverAmplifies(env: Env, maybe: Option<Transfer>, c: PayloadChunk)
    ensures var (t, r) := AddAlone(env, maybe, c);
      One(r.Complete?) + One(Started(t)) <= One(Started(maybe)) + One(c.sequence == 0)
  {
    hide Finish;
    if ValidateChunk(Some(c)).None? {
      var t := if maybe.Some? then maybe.value else Open(c);
      if t.totalChunks == c.totalChunks { CompletesWithFirst(env, Store(t, c), c.transferId); }
    }
  }

  // ---- By transfer id ----

  /** The chunks numbered 0. */
  function FirstChunks(own: Stream): nat {
    if own == [] then 0 else FirstChunks(Front(own)) + One(Last(own).sequence == 0)
  }

  lemma {:induction false} StreamNeverAmplifies(env: Env, start: Option<Transfer>, own: Stream)
    ensures |Completed(ResultsAlone(env, start, own))| + One(Started(RunAlone(env, start, own)))
         <= One(Started(start)) + FirstChunks(own)
    decreases |own|
  {
    if own != [] {
      hide AddAlone;
      hide Started;
      var before := RunAlone(env, start, Front(own));
      StreamNeverAmplifies(env, start, Front(own));
      TransferNeverAmplifies(env, before, Last(own));
      CompletedMore(ResultsAlone(env, start, Front(own)), AddAlone(env, before, Last(own)).1);
    }
  }

  /** A frame that decodes to a first chunk of this transfer. */
  function FirstOf(id: Bytes): Bytes -> bool {
    (frame: Bytes) => UnmarshalChunk(frame).Some? && UnmarshalChunk(frame).value.transferId == id
                      && UnmarshalChunk(frame).value.sequence == 0
  }

  lemma {:induction false} FirstChunksOfFrames(frames: seq<Bytes>, id: Bytes)
    ensures FirstChunks(Only(Decoded(frames), id)) == CountIf(frames, FirstOf(id))
    decreases |frames|
  {
    if frames != [] {
      hide UnmarshalChunk;
      var front, f := frames[..|frames| - 1], frames[|frames| - 1];
      FirstChunksOfFrames(front, id);
      if UnmarshalChunk(f).Some? { FirstChunksMore(Decoded(front), UnmarshalChunk(f).value, id); }
    }
  }

  lemma {:induction false} FirstChunksMore(s: Stream, c: PayloadChunk, id: Bytes)
    ensures FirstChunks(Only(s + [c], id))
         == FirstChunks(Only(s, id)) + One(c.transferId == id && c.sequence == 0)
  {
    assert Front(s + [c]) == s;
    assert Front(Only(s, id) + [c]) == Only(s, id);
  }

  /** Whatever frames arrive, of one hash no more payloads are handed over than first-chunk frames of
      that id were received, and one fewer while such a chunk still waits for the rest. */
  lemma {:induction false} HandOversNeedFirstFrames(env: Env, start: Table, frames: seq<Bytes>, id: Bytes)
    ensures |Hashed(HandedOver(env, start, frames), id)| + One(Started(Lookup(Run(env, start, Decoded(frames)), id)))
         <= One(Started(Lookup(start, id))) + CountIf(frames, FirstOf(id))
  {
    hide AddAlone;
    hide Started;
    HandedOverById(env, start, frames, id);
    StreamProjection(env, start, Decoded(frames), id);
    StreamNeverAmplifies(env, Lookup(start, id), Only(Decoded(frames), id));
    FirstChunksOfFrames(frames, id);
  }

  // ---- All transfers together ----

  /** The transfers that hold their first piece. */
  function StartedIds(table: Table): set<Bytes> {
    set id | id in table && 0 in table[id].chunks
  }

  /** A frame that decodes to a first chunk, of whatever transfer. */
  predicate IsFirst(frame: Bytes) {
    UnmarshalChunk(frame).Some? && UnmarshalChunk(frame).value.sequence == 0
  }

  lemma {:induction false} OneMayDiffer(a: set<Bytes>, b: set<Bytes>, id: Bytes)
    requires a - {id} == b - {id}
    ensures |b| + One(id in a) == |a| + One(id in b)
  {
    assert |a| == |a - {id}| + One(id in a) by { if id in a { assert a == (a - {id}) + {id}; } else { assert a == a - {id}; } }
    assert |b| == |b - {id}| + One(id in b) by { if id in b { assert b == (b - {id}) + {id}; } else { assert b == b - {id}; } }
  }

  lemma {:induction false} PutStarted(table: Table, id: Bytes, t: Option<Transfer>)
    ensures |StartedIds(Put(table, id, t))| + One(Started(Lookup(table, id))) == |StartedIds(table)| + One(Started(t))
  {
    var after := Put(table, id, t);
    forall other
      ensures other in StartedIds(table) - {id} <==> other in StartedIds(after) - {id}
    {
      if other != id { assert other in after <==> other in table; }
    }
    OneMayDiffer(StartedIds(table), StartedIds(after), id);
  }

  /** One frame given to the shared reassembler. */
  lemma {:induction false} ReceiveNeverAmplifies(env: Env, table: Table, frame: Bytes)
    ensures var (after, r) := Receive(env, table, frame);
      One(r.Complete?) + |StartedIds(after)| <= |StartedIds(table)| + One(IsFirst(frame))
  {
    if UnmarshalChunk(frame).Some? {
      hide AddToTransfer;
      hide StartedIds;
      hide Started;
      hide UnmarshalChunk;
      var c := UnmarshalChunk(frame).value;
      var maybe := Lookup(table, c.transferId);
      TransferNeverAmplifies(env, maybe, c);
      PutStarted(table, c.transferId, AddAlone(env, maybe, c).0);
    }
  }
}
