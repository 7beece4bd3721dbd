/** From the frames one node broadcasts to the payload another hands to its clipboard. */
module Delivery {
  import opened Wire
  import opened Messages
  import opened Payloads
  import opened Chunking
  import opened Reassembly
  import opened Streams
  import opened Transfers
  import opened Frames

  /** A frame that is not part of this transfer: another's chunk, or nothing that decodes. */
  predicate Foreign(frame: Bytes, id: Bytes) {
    UnmarshalChunk(frame).Some? ==> UnmarshalChunk(frame).value.transferId != id
  }

  lemma {:induction false} FrameDecodes(env: Env, p: ClipboardPayload, i: nat)
    requires IsValid(env, p) && i < |FramesOf(env, p)|
    ensures var c := ChunksOf(env, p, DEFAULT_CHUNK_SIZE)[i];
      UnmarshalChunk(FramesOf(env, p)[i]) == Some(c) && c.transferId == p.sha256 && c.sequence == i
  {
    ChunksAreList(env, p, DEFAULT_CHUNK_SIZE);
    ChunkRoundTrip(ChunksOf(env, p, DEFAULT_CHUNK_SIZE)[i]);
  }

  lemma {:induction false} FramesDiffer(env: Env, p: ClipboardPayload, i: nat, j: nat)
    requires IsValid(env, p) && i < |FramesOf(env, p)| && j < |FramesOf(env, p)| && FramesOf(env, p)[i] == FramesOf(env, p)[j]
    ensures i == j
  {
    FrameDecodes(env, p, i);
    FrameDecodes(env, p, j);
  }

  // ---- Collecting the frames of one payload among others ----

  predicate OwnOrForeign(own: seq<Bytes>, frames: seq<Bytes>, id: Bytes) {
    forall f :: f in frames ==> f in own || Foreign(f, id)
  }

  /** Every frame of the list but one has arrived. */
  predicate AllBut(own: seq<Bytes>, frames: seq<Bytes>, last: nat) {
    forall q :: 0 <= q < |own| ==> (own[q] in frames <==> q != last)
  }

  /** The chunks of the transfer among the frames are the payload's, one for each of its frames there. */
  predicate Collects(own: Stream, cs: Stream, fs: seq<Bytes>, frames: seq<Bytes>)
    requires |fs| == |cs|
  {
    && (forall c :: c in own ==> c in cs)
    && (forall q :: q in Seen(own) ==> 0 <= q < |cs| && fs[q] in frames)
    && (forall q :: 0 <= q < |cs| && fs[q] in frames ==> q in Seen(own))
  }

  lemma {:induction false} OnlyMore(s: Stream, c: PayloadChunk, id: Bytes)
    ensures Only(s + [c], id) == if c.transferId == id then Only(s, id) + [c] else Only(s, id)
  {
    assert Front(s + [c]) == s;
  }

  lemma {:induction false} CollectOwn(own: Stream, cs: Stream, fs: seq<Bytes>, front: seq<Bytes>, i: nat)
    requires |fs| == |cs| && i < |cs| && Collects(own, cs, fs, front)
    requires cs[i].sequence == i && forall q :: 0 <= q < |fs| && fs[q] == fs[i] ==> q == i
    ensures Collects(own + [cs[i]], cs, fs, front + [fs[i]])
  {
    assert Front(own + [cs[i]]) == own;
  }

  lemma {:induction false} CollectForeign(own: Stream, cs: Stream, fs: seq<Bytes>, front: seq<Bytes>, f: Bytes)
    requires |fs| == |cs| && Collects(own, cs, fs, front) && f !in fs
    ensures Collects(own, cs, fs, front + [f])
  {
  }

  lemma {:induction false} Collecting(env: Env, p: ClipboardPayload, frames: seq<Bytes>)
    requires IsValid(env, p) && OwnOrForeign(FramesOf(env, p), frames, p.sha256)
    ensures Collects(Only(Decoded(frames), p.sha256), ChunksOf(env, p, DEFAULT_CHUNK_SIZE), FramesOf(env, p), frames)
    decreases |frames|
  {
    if frames == [] {
      assert Only(Decoded(frames), p.sha256) == [];
    } else {
      hide Collects;
      hide Foreign;
      hide Decoded;
      hide Only;
      hide Ceil;
      hide Encoding;
      hide ChunksOf;
      hide FramesOf;
      var front, f := frames[..|frames| - 1], frames[|frames| - 1];
      assert frames == front + [f] && f in frames;
      Collecting(env, p, front);
      CollectFrame(env, p, front, f);
    }
  }

  lemma {:induction false} CollectFrame(env: Env, p: ClipboardPayload, front: seq<Bytes>, f: Bytes)
    requires IsValid(env, p) && (f in FramesOf(env, p) || Foreign(f, p.sha256))
    requires Collects(Only(Decoded(front), p.sha256), ChunksOf(env, p, DEFAULT_CHUNK_SIZE), FramesOf(env, p), front)
    ensures Collects(Only(Decoded(front + [f]), p.sha256), ChunksOf(env, p, DEFAULT_CHUNK_SIZE), FramesOf(env, p), front + [f])
  {
    hide Decoded;
    hide Only;
    hide UnmarshalChunk;
    hide Ceil;
    hide Encoding;
    hide ChunksOf;
    hide FramesOf;
    hide IsValid;
    hide Collects;
    DecodedMore(front, f);
    if f in FramesOf(env, p) {
      var i :| 0 <= i < |FramesOf(env, p)| && FramesOf(env, p)[i] == f;
      FrameDecodes(env, p, i);
      OnlyMore(Decoded(front), ChunksOf(env, p, DEFAULT_CHUNK_SIZE)[i], p.sha256);
      forall q | 0 <= q < |FramesOf(env, p)| && FramesOf(env, p)[q] == f
        ensures q == i
      {
        FramesDiffer(env, p, q, i);
      }
      CollectOwn(Only(Decoded(front), p.sha256), ChunksOf(env, p, DEFAULT_CHUNK_SIZE), FramesOf(env, p), front, i);
    } else {
      if UnmarshalChunk(f).Some? { OnlyMore(Decoded(front), UnmarshalChunk(f).value, p.sha256); }
      CollectForeign(Only(Decoded(front), p.sha256), ChunksOf(env, p, DEFAULT_CHUNK_SIZE), FramesOf(env, p), front, f);
    }
  }

  // ---- Nothing else matters ----

  lemma {:induction false} ForeignTail(env: Env, start: Table, frames: seq<Bytes>, after: seq<Bytes>, id: Bytes)
    requires forall f :: f in after ==> Foreign(f, id)
    ensures ResultsFor(env, start, Decoded(frames + after), id) == ResultsFor(env, start, Decoded(frames), id)
    decreases |after|
  {
    hide ResultsFor;
    hide Decoded;
    if after == [] {
      assert frames + after == frames;
    } else {
      var front, f := after[..|after| - 1], after[|after| - 1];
      ForeignTail(env, start, frames, front, id);
      assert frames + after == (frames + front) + [f];
      DecodedMore(frames + front, f);
      assert Foreign(f, id);
      if UnmarshalChunk(f).Some? { ResultsMore(env, start, Decoded(frames + front), UnmarshalChunk(f).value, id); }
    }
  }

  lemma {:induction false} NoneCompleted(results: seq<AddResult>)
    requires forall i :: 0 <= i < |results| ==> !results[i].Complete?
    ensures Completed(results) == []
  {
    if results != [] { NoneCompleted(results[..|results| - 1]); }
  }

  lemma {:induction false} CompletedLast(results: seq<AddResult>, p: ClipboardPayload)
    requires results != [] && results[|results| - 1] == Complete(p)
    requires forall i :: 0 <= i < |results| - 1 ==> !results[i].Complete?
    ensures Completed(results) == [p]
  {
    NoneCompleted(results[..|results| - 1]);
  }

  /** End to end. Let every frame of a valid payload reach a node at least once, in any order, with any
      repeats, among any frames of other transfers and any that do not decode, and none of them after
      the last missing one. The node's clipboard is handed that payload exactly once, unchanged, with
      that frame, and nothing else with its hash. */
  lemma {:induction false} EndToEnd(
      env: Env, p: ClipboardPayload, start: Table, before: seq<Bytes>, last: nat, after: seq<Bytes>)
    requires IsValid(env, p) && p.sha256 !in start && last < |FramesOf(env, p)|
    requires OwnOrForeign(FramesOf(env, p), before, p.sha256) && forall f :: f in after ==> Foreign(f, p.sha256)
    requires AllBut(FramesOf(env, p), before, last)
    ensures Hashed(HandedOver(env, start, before), p.sha256) == []
    ensures Hashed(HandedOver(env, start, before + [FramesOf(env, p)[last]] + after), p.sha256) == [p]
    ensures p.sha256 !in Run(env, start, Decoded(before + [FramesOf(env, p)[last]]))
  {
    hide UnmarshalChunk;
    hide Decoded;
    hide Run;
    hide ResultsFor;
    hide HandedOver;
    hide Hashed;
    hide Completed;
    hide Only;
    hide Full;
    hide Seen;
    hide AddChunk;
    hide IsValid;
    hide OwnOrForeign;
    hide AllBut;
    hide Foreign;
    hide Ceil;
    hide Encoding;
    hide ChunksOf;
    hide FramesOf;
    var id, f := p.sha256, FramesOf(env, p)[last];
    var frames := before + [f];
    var own := LastCompletes(env, p, before, last);
    DeliveryInAnyOrder(env, p, DEFAULT_CHUNK_SIZE, start, Decoded(frames));
    HandedOverById(env, start, before, id);
    HandedOverById(env, start, frames + after, id);
    ForeignTail(env, start, frames, after, id);
    EarlierResults(env, p, start, before, last, |own|);
    CompletedLast(Waits(|own|) + [Complete(p)], p);
  }

  /** The last missing frame completes the list of the transfer's chunks. */
  lemma {:induction false} LastCompletes(env: Env, p: ClipboardPayload, before: seq<Bytes>, last: nat) returns (own: Stream)
    requires IsValid(env, p) && last < |FramesOf(env, p)|
    requires OwnOrForeign(FramesOf(env, p), before, p.sha256)
    requires AllBut(FramesOf(env, p), before, last)
    ensures var cs := ChunksOf(env, p, DEFAULT_CHUNK_SIZE);
      var all := Only(Decoded(before + [FramesOf(env, p)[last]]), p.sha256);
      && own == Only(Decoded(before), p.sha256) && all == own + [cs[last]] && Front(all) == own
      && (forall c :: c in all ==> c in cs) && !Full(Seen(own), |cs|) && Full(Seen(all), |cs|)
  {
    hide Decoded;
    hide Only;
    hide UnmarshalChunk;
    var cs, f := ChunksOf(env, p, DEFAULT_CHUNK_SIZE), FramesOf(env, p)[last];
    own := Only(Decoded(before), p.sha256);
    Collecting(env, p, before);
    FrameDecodes(env, p, last);
    DecodedMore(before, f);
    OnlyMore(Decoded(before), cs[last], p.sha256);
    assert Front(own + [cs[last]]) == own;
    assert last !in Seen(own);
  }

  lemma {:induction false} SameFront<T>(a: seq<T>, x: T, b: seq<T>, y: T)
    requires a + [x] == b + [y]
    ensures a == b
  {
    assert a == (a + [x])[..|a|] && b == (b + [y])[..|b|];
  }

  lemma {:induction false} EarlierResults(env: Env, p: ClipboardPayload, start: Table, before: seq<Bytes>, last: nat, n: nat)
    requires IsValid(env, p) && last < |FramesOf(env, p)|
    requires ResultsFor(env, start, Decoded(before + [FramesOf(env, p)[last]]), p.sha256)
          == Waits(n) + [Complete(p)]
    ensures Completed(ResultsFor(env, start, Decoded(before), p.sha256)) == []
  {
    hide Decoded;
    hide ResultsFor;
    hide UnmarshalChunk;
    hide AddChunk;
    hide Run;
    hide IsValid;
    hide Completed;
    var f := FramesOf(env, p)[last];
    var c := ChunksOf(env, p, DEFAULT_CHUNK_SIZE)[last];
    FrameDecodes(env, p, last);
    DecodedMore(before, f);
    ResultsMore(env, start, Decoded(before), c, p.sha256);
    var earlier := ResultsFor(env, start, Decoded(before), p.sha256);
    SameFront(earlier, AddChunk(env, Run(env, start, Decoded(before)), Some(c)).1, Waits(n), Complete(p));
    NoneCompleted(Waits(n));
  }

  // ---- A broadcast that was cut and repeated ----

  /** The frames of one transfer, in order. */
  function OwnFrames(frames: seq<Bytes>, id: Bytes): seq<Bytes> {
    if frames == [] then []
    else
      var front := OwnFrames(frames[..|frames| - 1], id);
      if Foreign(frames[|frames| - 1], id) then front else front + [frames[|frames| - 1]]
  }

  lemma {:induction false} OnlyOfFrames(frames: seq<Bytes>, id: Bytes)
    ensures Only(Decoded(frames), id) == Decoded(OwnFrames(frames, id))
    decreases |frames|
  {
    hide UnmarshalChunk;
    hide Decoded;
    if frames == [] {
      NothingDecoded(id);
    } else {
      var front, f := frames[..|frames| - 1], frames[|frames| - 1];
      assert frames == front + [f];
      OnlyOfFrames(front, id);
      DecodedMore(front, f);
      if UnmarshalChunk(f).Some? { OnlyMore(Decoded(front), UnmarshalChunk(f).value, id); }
      DecodedMore(OwnFrames(front, id), f);
    }
  }

  lemma {:induction false} NothingDecoded(id: Bytes)
    ensures Decoded([]) == [] && Only([], id) == []
  {
  }

  lemma {:induction false} ListDecodes(front: seq<Bytes>, fs: seq<Bytes>, cs: Stream)
    requires |fs| == |cs| && forall i :: 0 <= i < |fs| ==> UnmarshalChunk(fs[i]) == Some(cs[i])
    ensures Decoded(front + fs) == Decoded(front) + cs
    decreases |fs|
  {
    hide Decoded;
    hide UnmarshalChunk;
    if fs == [] {
      assert front + fs == front && Decoded(front) + cs == Decoded(front);
    } else {
      var k := |fs| - 1;
      ListDecodes(front, fs[..k], cs[..k]);
      assert front + fs == (front + fs[..k]) + [fs[k]];
      DecodedMore(front + fs[..k], fs[k]);
      assert Decoded(front) + cs == (Decoded(front) + cs[..k]) + [cs[k]];
    }
  }

  /** The first `k` frames of one payload and then all of another decode to their chunks. */
  lemma {:induction false} CutDecodes(env: Env, p: ClipboardPayload, q: ClipboardPayload, k: nat)
    requires IsValid(env, p) && IsValid(env, q) && k <= |FramesOf(env, p)|
    ensures Decoded(FramesOf(env, p)[..k] + FramesOf(env, q))
         == ChunksOf(env, p, DEFAULT_CHUNK_SIZE)[..k] + ChunksOf(env, q, DEFAULT_CHUNK_SIZE)
  {
    hide Decoded;
    hide UnmarshalChunk;
    hide Ceil;
    hide Encoding;
    hide ChunksOf;
    hide FramesOf;
    hide IsValid;
    var cs, fs := ChunksOf(env, p, DEFAULT_CHUNK_SIZE), FramesOf(env, p);
    var ds, gs := ChunksOf(env, q, DEFAULT_CHUNK_SIZE), FramesOf(env, q);
    forall i | 0 <= i < |fs|
      ensures UnmarshalChunk(fs[i]) == Some(cs[i])
    {
      FrameDecodes(env, p, i);
    }
    forall i | 0 <= i < |gs|
      ensures UnmarshalChunk(gs[i]) == Some(ds[i])
    {
      FrameDecodes(env, q, i);
    }
    NothingDecoded([]);
    ListDecodes([], fs[..k], cs[..k]);
    assert [] + fs[..k] == fs[..k] && [] + cs[..k] == cs[..k];
    ListDecodes(fs[..k], gs, ds);
  }

  lemma {:induction false} ResumeCompletes(
      results: seq<AddResult>, n: nat, k: nat, old': ClipboardPayload, new': ClipboardPayload)
    requires n > 0 && |results| == k + n && results[k + n - 1] == Complete(old')
    requires forall i :: 0 <= i < k + n - 1 ==>
               results[i] == if i == k && old' != new' then AddResult.Failed(ConflictingChunk) else Incomplete
    ensures Completed(results) == [old']
  {
    hide Completed;
    CompletedLast(results, old');
  }

  /** A node that was sent the first frames of a payload, and later all the frames of the same copy taken
      at another time, hands its clipboard exactly one payload: the one whose frames came first. */
  lemma {:induction false} CutAndRepeated(
      env: Env, old': ClipboardPayload, new': ClipboardPayload, k: nat, start: Table, frames: seq<Bytes>)
    requires IsValid(env, old') && IsValid(env, new') && SameCopy(old', new') && old'.sha256 !in start
    requires 1 <= k < |FramesOf(env, old')|
    requires OwnFrames(frames, old'.sha256) == FramesOf(env, old')[..k] + FramesOf(env, new')
    ensures Hashed(HandedOver(env, start, frames), old'.sha256) == [old']
    ensures old'.sha256 !in Run(env, start, Decoded(frames))
  {
    hide UnmarshalChunk;
    hide Decoded;
    hide Run;
    hide ResultsFor;
    hide HandedOver;
    hide Hashed;
    hide Completed;
    hide Only;
    hide AddChunk;
    hide IsValid;
    hide OwnFrames;
    hide Ceil;
    hide Encoding;
    hide ChunksOf;
    hide FramesOf;
    hide SameCopy;
    var id := old'.sha256;
    CutDecodes(env, old', new', k);
    OnlyOfFrames(frames, id);
    ResumedTransfer(env, old', new', DEFAULT_CHUNK_SIZE, k, start, Decoded(frames));
    HandedOverById(env, start, frames, id);
    ResumeCompletes(ResultsFor(env, start, Decoded(frames), id), |FramesOf(env, old')|, k, old', new');
  }
}
