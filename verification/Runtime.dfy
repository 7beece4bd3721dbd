/** The glue: clipboard events to frames, frames to clipboard writes. */
module Runtime {
  import opened Wire
  import opened Messages
  import opened Payloads
  import opened Chunking
  import opened Reassembly
  import opened Streams
  import opened Frames
  import Peers
  import M = Manager
  import C = Clipboard

  /** One message from a peer's socket, with what the world is like when it is handled: whether the
      connection is being shut down, the time, and whether the native clipboard takes a write. */
  datatype Message = Message(binary: bool, data: Bytes, cancelled: bool, now: int, writeOk: bool)

  function BinaryFrames(messages: seq<Message>): seq<Bytes> {
    if messages == [] then []
    else
      var front := BinaryFrames(messages[..|messages| - 1]);
      if messages[|messages| - 1].binary then front + [messages[|messages| - 1].data] else front
  }

  lemma {:induction false} BinaryJoins(a: seq<Message>, b: seq<Message>)
    ensures BinaryFrames(a + b) == BinaryFrames(a) + BinaryFrames(b)
    decreases |b|
  {
    if b == [] {
      assert a + b == a;
    } else {
      assert (a + b)[..|a + b| - 1] == a + b[..|b| - 1];
      BinaryJoins(a, b[..|b| - 1]);
    }
  }

  /** A message counts exactly when it is binary, wherever it arrives. */
  lemma {:induction false} OnlyBinaryCounts(before: seq<Message>, m: Message, after: seq<Message>)
    ensures BinaryFrames(before + [m] + after) ==
      if m.binary then BinaryFrames(before) + [m.data] + BinaryFrames(after) else BinaryFrames(before + after)
  {
    BinaryJoins(before + [m], after);
    BinaryJoins(before, [m]);
    BinaryJoins(before, after);
    assert BinaryFrames([m]) == if m.binary then [m.data] else [] by { assert [m][..0] == []; }
  }

  /** A failed broadcast stopped at frame `at`. */
  datatype BroadcastOutcome = AllSent | NotChunked(error: Error) | Stopped(at: nat, why: M.BroadcastResult)

  /** At the default chunk size exactly the valid payloads are cut, into frames of allowed size. */
  lemma {:induction false} ChunkedExactly(env: Env, payload: Option<ClipboardPayload>)
    ensures var outcome := ChunkPayloadOutcome(env, payload, DEFAULT_CHUNK_SIZE);
      if payload.Some? && IsValid(env, payload.value) then
        && outcome == Chunked(ChunksOf(env, payload.value, DEFAULT_CHUNK_SIZE))
        && FramesOf(env, payload.value) == Marshalled(ChunksOf(env, payload.value, DEFAULT_CHUNK_SIZE))
        && forall i :: 0 <= i < |FramesOf(env, payload.value)| ==>
             |FramesOf(env, payload.value)[i]| <= DEFAULT_MAX_FRAME_BYTES
      else outcome.Refused? && ValidatePayload(env, payload) == Some(outcome.error)
  {
    if payload.Some? {
      ValidateDecidesValidity(env, payload.value);
      if IsValid(env, payload.value) {
        EncodingLength(env, payload.value);
        FramesFit(env, payload.value);
      }
    }
  }

  /** Whether a peer's connection got the frame, as a number. */
  function Got(sent: M.BroadcastResult, id: Peers.NodeId): nat {
    if sent == M.InvalidFrame || id in sent.failed then 0 else 1
  }

  /** A connection refused the frame for a reason true of it. */
  predicate TrulyRefused(sent: M.BroadcastResult, id: Peers.NodeId, ctxDone: bool, cancelled: bool, capacity: nat, queued: nat) {
    sent != M.InvalidFrame && id in sent.failed && M.Refuses(sent.failed[id], ctxDone, cancelled, capacity, queued)
  }

  lemma {:induction false} RoomLeavesNoReason(
      sent: M.BroadcastResult, id: Peers.NodeId, ctxDone: bool, cancelled: bool, capacity: nat, queued: nat)
    ensures !ctxDone && !cancelled && queued < capacity ==> !TrulyRefused(sent, id, ctxDone, cancelled, capacity, queued)
  {
  }

  class Runtime {
    const mesh: M.Manager
    const clipboard: C.ClipboardManager
    const reassembler: Reassembler
    ghost var handedOver: seq<ClipboardPayload> // every payload given to the clipboard so far

    constructor (mesh: M.Manager, clipboard: C.ClipboardManager)
      ensures this.mesh == mesh && this.clipboard == clipboard && fresh(reassembler)
      ensures reassembler.inflight == map[] && handedOver == []
    {
      this.mesh, this.clipboard := mesh, clipboard;
      reassembler := new Reassembler();
      handedOver := [];
    }

    /** Bad frames and chunks are dropped; a completed payload is applied, whatever comes of that. */
    method HandleFrame(env: Env, m: Message)
      modifies this, reassembler, clipboard, clipboard.pending
      ensures reassembler.inflight == Receive(env, old(reassembler.inflight), m.data).0
      ensures var r := Receive(env, old(reassembler.inflight), m.data).1;
        if r.Complete? then
          var applied := C.ApplyOutcome(env, old(clipboard.pending.entries), clipboard.pending.ttl, m.cancelled,
                                        Some(r.payload), m.now, m.writeOk);
          && handedOver == old(handedOver) + [r.payload] && clipboard.pending.entries == applied.0
          && clipboard.written
             == old(clipboard.written) + (if applied.1 == C.Applied then [C.Admit(env, Some(r.payload)).value] else [])
        else
          && handedOver == old(handedOver) && clipboard.pending.entries == old(clipboard.pending.entries)
          && clipboard.written == old(clipboard.written)
    {
      var chunk := UnmarshalChunk(m.data);
      if chunk.None? {
        return;
      }
      var result := reassembler.Add(env, chunk);
      if !result.Complete? {
        return;
      }
      var applied := clipboard.ApplyRemote(env, m.cancelled, Some(result.payload), m.now, m.writeOk);
      handedOver := handedOver + [result.payload];
    }

    /** The read loop: messages that are not binary are skipped, and no frame ends it. */
    method ReadPump(env: Env, messages: seq<Message>)
      modifies this, reassembler, clipboard, clipboard.pending
      ensures reassembler.inflight == Run(env, old(reassembler.inflight), Decoded(BinaryFrames(messages)))
      ensures handedOver == old(handedOver) + HandedOver(env, old(reassembler.inflight), BinaryFrames(messages))
    {
      hide Receive;
      hide Run;
      hide HandedOver;
      hide Decoded;
      hide C.ApplyOutcome;
      hide C.Admit;
      ReceivesNothing(env, reassembler.inflight);
      ghost var start := reassembler.inflight;
      for n := 0 to |messages|
        invariant reassembler.inflight == Run(env, start, Decoded(BinaryFrames(messages[..n])))
        invariant handedOver == old(handedOver) + HandedOver(env, start, BinaryFrames(messages[..n]))
      {
        assert messages[..n + 1][..n] == messages[..n];
        if !messages[n].binary {
          continue;
        }
        ReceivesMore(env, start, BinaryFrames(messages[..n]), messages[n].data);
        HandedMore(env, start, BinaryFrames(messages[..n]), messages[n].data);
        HandleFrame(env, messages[n]);
      }
      assert messages[..|messages|] == messages;
    }

    /** Sends one payload. It stops only at a frame that is too large or that some connection refused, for a
        reason that was true of that connection then; each connection was given exactly the frames before
        that one, and that one too unless it refused it. With nothing cancelled, frames of the default size
        allowed and room for all of them, everything is sent. */
    method BroadcastPayload(env: Env, ctxDone: bool, payload: Option<ClipboardPayload>) returns (r: BroadcastOutcome)
      requires mesh.Valid() && M.TableFine(mesh.nodeId, mesh.Table())
      modifies mesh.Conns()`sendQ
      ensures r.NotChunked? <==> payload == None || !IsValid(env, payload.value)
      ensures r.NotChunked? ==> ValidatePayload(env, payload) == Some(r.error)
      ensures r.NotChunked? ==> forall conn :: conn in mesh.Conns() ==> conn.sendQ == old(conn.sendQ)
      ensures r == AllSent ==> forall conn :: conn in mesh.Conns() ==>
          conn.sendQ == old(conn.sendQ) + FramesOf(env, payload.value)
      ensures r.Stopped? ==> r.at < |FramesOf(env, payload.value)| && forall conn :: conn in mesh.Conns() ==>
          conn.sendQ == old(conn.sendQ) + FramesOf(env, payload.value)[..r.at + Got(r.why, conn.peerId)]
      ensures r.Stopped? && r.why != M.InvalidFrame ==> exists conn ::
          conn in mesh.Conns() && TrulyRefused(r.why, conn.peerId, ctxDone, conn.cancelled, conn.capacity, |old(conn.sendQ)| + r.at)
      ensures r.Stopped? && mesh.maxFrameBytes >= DEFAULT_MAX_FRAME_BYTES ==> r.why != M.InvalidFrame
      ensures !r.NotChunked? && !ctxDone && mesh.maxFrameBytes >= DEFAULT_MAX_FRAME_BYTES
              && (forall conn :: conn in mesh.Conns() ==>
                    !conn.cancelled && |old(conn.sendQ)| + |FramesOf(env, payload.value)| <= conn.capacity)
              ==> r == AllSent
    {
      hide M.TableFine;
      hide FramesOf;
      hide ChunksOf;
      hide Marshalled;
      hide ChunkPayloadOutcome;
      hide IsValid;
      hide ValidatePayload;
      hide Got;
      hide M.Manager.Valid;
      hide M.Manager.Table;
      var outcome := ChunkPayload(env, payload, DEFAULT_CHUNK_SIZE);
      ChunkedExactly(env, payload);
      if outcome.Refused? {
        return NotChunked(outcome.error);
      }
      r := SendChunks(ctxDone, outcome.chunks);
      hide TrulyRefused;
      if r.Stopped? {
        forall conn | conn in mesh.Conns()
          ensures !ctxDone && !conn.cancelled && |old(conn.sendQ)| + r.at < conn.capacity ==>
                    !TrulyRefused(r.why, conn.peerId, ctxDone, conn.cancelled, conn.capacity, |old(conn.sendQ)| + r.at)
        {
          RoomLeavesNoReason(r.why, conn.peerId, ctxDone, conn.cancelled, conn.capacity, |old(conn.sendQ)| + r.at);
        }
      }
    }

    /** Marshals and broadcasts chunk after chunk until one fails. */
    method SendChunks(ctxDone: bool, chunks: seq<PayloadChunk>) returns (r: BroadcastOutcome)
      requires mesh.Valid() && M.TableFine(mesh.nodeId, mesh.Table())
      modifies mesh.Conns()`sendQ
      ensures !r.NotChunked?
      ensures r == AllSent ==> forall conn :: conn in mesh.Conns() ==>
          conn.sendQ == old(conn.sendQ) + Marshalled(chunks)
      ensures r.Stopped? ==> r.at < |chunks| && forall conn :: conn in mesh.Conns() ==>
          conn.sendQ == old(conn.sendQ) + Marshalled(chunks)[..r.at + Got(r.why, conn.peerId)]
      ensures r.Stopped? && r.why != M.InvalidFrame ==> exists conn ::
          conn in mesh.Conns() && TrulyRefused(r.why, conn.peerId, ctxDone, conn.cancelled, conn.capacity, |old(conn.sendQ)| + r.at)
      ensures r.Stopped? && r.why == M.InvalidFrame ==> |Marshalled(chunks)[r.at]| > mesh.maxFrameBytes
    {
      hide M.TableFine;
      hide MarshalChunk;
      hide Marshalled;
      hide M.Manager.Valid;
      hide M.Manager.Table;
      hide M.Refuses;
      hide TrulyRefused;
      ghost var frames, conns := Marshalled(chunks), mesh.Conns();
      for f := 0 to |chunks|
        invariant mesh.Conns() == conns
        invariant forall conn :: conn in conns ==> conn.sendQ == old(conn.sendQ) + frames[..f]
      {
        var frame := MarshalChunk(chunks[f]);
        assert frames[..f + 1] == frames[..f] + [frame];
        var sent := SendFrame(ctxDone, frame);
        if sent != M.Broadcasted(map[]) {
          return Stopped(f, sent);
        }
      }
      assert frames[..|frames|] == frames;
      return AllSent;
    }

    /** Broadcasts one frame: each connection gets it unless it refused it or the frame is too large. */
    method SendFrame(ctxDone: bool, frame: Bytes) returns (sent: M.BroadcastResult)
      requires mesh.Valid() && M.TableFine(mesh.nodeId, mesh.Table())
      modifies mesh.Conns()`sendQ
      ensures forall conn :: conn in mesh.Conns() ==>
          conn.sendQ == if Got(sent, conn.peerId) == 1 then old(conn.sendQ) + [frame] else old(conn.sendQ)
      ensures sent == M.InvalidFrame <==> |frame| > mesh.maxFrameBytes
      ensures sent != M.InvalidFrame && sent != M.Broadcasted(map[]) ==> exists conn ::
          conn in mesh.Conns() && TrulyRefused(sent, conn.peerId, ctxDone, conn.cancelled, conn.capacity, |old(conn.sendQ)|)
    {
      hide M.Refuses;
      sent := mesh.Broadcast(ctxDone, frame);
      if sent != M.InvalidFrame && sent.failed != map[] {
        ghost var id :| id in sent.failed;
        ghost var conn :| conn in mesh.Conns() && conn.peerId == id;
        assert TrulyRefused(sent, conn.peerId, ctxDone, conn.cancelled, conn.capacity, |old(conn.sendQ)|);
      }
    }
  }
}
