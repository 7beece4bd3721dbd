/** Payload sizes, frame limit and queue length fit together: no size error, no full queue. */
module Capacity {
  import opened Wire
  import opened Messages
  import opened Payloads
  import opened Streams
  import opened Peers
  import opened Frames
  import B = Broadcasting
  import Prefixes

  /** The default length of a send queue. */
  const DEFAULT_SEND_QUEUE_SIZE: nat := 64

  /** These are the frames of some valid payload. */
  ghost predicate IsPayload(env: Env, frames: seq<Bytes>) {
    exists p: ClipboardPayload :: IsValid(env, p) && frames == FramesOf(env, p)
  }

  ghost predicate AllPayloads(env: Env, broadcasts: seq<seq<Bytes>>) {
    forall i :: 0 <= i < |broadcasts| ==> IsPayload(env, broadcasts[i])
  }

  lemma {:induction false} PayloadFramesFit(env: Env, frames: seq<Bytes>)
    requires IsPayload(env, frames)
    ensures 1 <= |frames| <= MOST_FRAMES
    ensures forall i :: 0 <= i < |frames| ==> |frames[i]| <= DEFAULT_MAX_FRAME_BYTES
  {
    var p: ClipboardPayload :| IsValid(env, p) && frames == FramesOf(env, p);
    FramesFit(env, p);
  }

  lemma {:induction false} AtMostSixty(k: nat, most: nat)
    requires k <= 3 && most == MOST_FRAMES
    ensures k * most <= 60 < DEFAULT_SEND_QUEUE_SIZE
  {
  }

  /** Three payloads broadcast to a connection with an empty queue of the default length: even if the
      queue never drains it is not full, so no enqueue on it can fail for want of room. */
  lemma {:induction false} ThreePayloadsFit(
      env: Env, maxFrame: int, before: seq<B.Step>, c: nat, after: seq<B.Step>, id: NodeId, ctxDone: bool)
    requires var s := B.Reached(maxFrame, before);
      && s.sender.Idle? && c < |s.conns| && B.Queued(s.conns[c]) == 0 && s.conns[c].capacity == DEFAULT_SEND_QUEUE_SIZE
    requires var s := B.Reached(maxFrame, before); var s' := B.RunFrom(maxFrame, s, after);
      |s'.begun| <= |s.begun| + 3 && AllPayloads(env, s'.begun)
    ensures var s' := B.RunFrom(maxFrame, B.Reached(maxFrame, before), after);
      && c < |s'.conns| && B.Queued(s'.conns[c]) <= 60 < s'.conns[c].capacity
      && (B.ActiveConn(s', id) == Some(c) ==> !B.Enabled(s', B.Offer(id, ctxDone, SendQueueFull)))
  {
    hide B.RunFrom;
    var s := B.Reached(maxFrame, before);
    var s' := B.RunFrom(maxFrame, s, after);
    forall i | |s.begun| <= i < |s'.begun|
      ensures |s'.begun[i]| <= MOST_FRAMES
    {
      PayloadFramesFit(env, s'.begun[i]);
    }
    Prefixes.QueuesStayShort(maxFrame, before, c, after, MOST_FRAMES);
    AtMostSixty(|s'.begun| - |s.begun|, MOST_FRAMES);
  }

  /** With at least the default frame limit no broadcast of a payload stops for a frame's size: it begins
      with its first frame, and after a frame every peer took goes on to the next one unless that was the
      last. */
  lemma {:induction false} NoFrameIsTooLarge(env: Env, maxFrame: int, steps: seq<B.Step>)
    requires maxFrame >= DEFAULT_MAX_FRAME_BYTES
    ensures var s := B.Reached(maxFrame, steps);
      && (forall frames :: IsPayload(env, frames) && s.sender.Idle? ==>
            B.Next(maxFrame, s, B.Begin(frames)).sender == B.Sending(frames, 0, s.slots.Keys, {}))
      && (AllPayloads(env, s.begun) && B.Enabled(s, B.NextFrame) && s.sender.failed == {} ==>
            (B.Next(maxFrame, s, B.NextFrame).sender.Idle? <==> s.sender.next + 1 == |s.sender.frames|))
  {
    hide B.RunFrom;
    var s := B.Reached(maxFrame, steps);
    forall frames | IsPayload(env, frames) && s.sender.Idle?
      ensures B.Next(maxFrame, s, B.Begin(frames)).sender == B.Sending(frames, 0, s.slots.Keys, {})
    {
      PayloadFramesFit(env, frames);
    }
    if AllPayloads(env, s.begun) && B.Enabled(s, B.NextFrame) && s.sender.failed == {} {
      B.RunKeepsOk(maxFrame, B.NOBODY, steps);
      assert IsPayload(env, s.begun[|s.begun| - 1]);
      PayloadFramesFit(env, s.sender.frames);
    }
  }
}
