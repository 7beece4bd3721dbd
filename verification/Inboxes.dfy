/** What the nodes of a mesh are sent and handed: nothing emitted is left out, nothing completed is lost
    before it is applied, and so delivery end to end holds between any two nodes of the mesh. */
module Inboxes {
  import opened Counting
  import opened Wire
  import opened Messages
  import opened Payloads
  import opened Streams
  import opened Frames
  import Ledger
  import opened Coalescing
  import opened Echo
  import opened Mesh
  import Delivery

  function Earlier(steps: seq<MeshStep>): seq<MeshStep>
    requires steps != []
  {
    steps[..|steps| - 1]
  }

  /** The frames that reached node `j`, in order. */
  function FramesTo(env: Env, lim: Limits, starts: seq<int>, steps: seq<MeshStep>, j: nat): seq<Bytes> {
    if steps == [] then []
    else
      var m, s := ExecMesh(env, lim, starts, Earlier(steps)), steps[|steps| - 1];
      var front := FramesTo(env, lim, starts, Earlier(steps), j);
      if s.Deliver? && Possible(env, m, s) && m.wire[s.k].to == j then front + [m.wire[s.k].frame] else front
  }

  /** The payloads node `j` has started to apply. */
  function Begun(env: Env, lim: Limits, starts: seq<int>, steps: seq<MeshStep>, j: nat): multiset<ClipboardPayload> {
    if steps == [] then multiset{}
    else
      var m, s := ExecMesh(env, lim, starts, Earlier(steps)), steps[|steps| - 1];
      var front := Begun(env, lim, starts, Earlier(steps), j);
      if s.Apply? && s.i == j && Possible(env, m, s) then front + multiset{m.hosts[j].ready[s.k]} else front
  }

  /** A host that was sent these frames and has started to apply these payloads. */
  ghost predicate Keeps(env: Env, h: Host, frames: seq<Bytes>, begun: multiset<ClipboardPayload>) {
    h.table == Run(env, map[], Decoded(frames)) && multiset(h.ready) + begun == multiset(HandedOver(env, map[], frames))
  }

  lemma {:induction false} RemovedOne<T>(s: seq<T>, k: nat)
    requires k < |s|
    ensures multiset(RemoveAt(s, k)) + multiset{s[k]} == multiset(s)
  {
    assert s == s[..k] + [s[k]] + s[k + 1..];
  }

  lemma {:induction false} ReceivedKeeps(env: Env, h: Host, frames: seq<Bytes>, frame: Bytes, begun: multiset<ClipboardPayload>)
    requires Keeps(env, h, frames, begun)
    ensures Keeps(env, Received(env, h, frame), frames + [frame], begun)
  {
    hide Receive;
    hide Run;
    hide Decoded;
    hide HandedOver;
    ReceivesMore(env, map[], frames, frame);
    HandedMore(env, map[], frames, frame);
  }

  lemma {:induction false} AppliedKeeps(
      env: Env, lim: Limits, h: Host, k: nat, frames: seq<Bytes>, begun: multiset<ClipboardPayload>)
    requires Keeps(env, h, frames, begun) && k < |h.ready|
    ensures Keeps(env, Applied(env, lim, h, k), frames, begun + multiset{h.ready[k]})
  {
    hide Do;
    hide Run;
    hide HandedOver;
    RemovedOne(h.ready, k);
  }

  lemma {:induction false} StepKeeps(
      env: Env, lim: Limits, m: State, s: MeshStep, j: nat, frames: seq<Bytes>, begun: multiset<ClipboardPayload>)
    requires Possible(env, m, s) && j < |m.hosts| && Keeps(env, m.hosts[j], frames, begun)
    ensures |DoMesh(env, lim, m, s).hosts| == |m.hosts|
    ensures Keeps(env, DoMesh(env, lim, m, s).hosts[j],
                  if s.Deliver? && m.wire[s.k].to == j then frames + [m.wire[s.k].frame] else frames,
                  if s.Apply? && s.i == j then begun + multiset{m.hosts[j].ready[s.k]} else begun)
  {
    hide Do;
    hide EmitWindow;
    hide Received;
    hide Applied;
    hide Receive;
    hide Run;
    hide HandedOver;
    if s.Deliver? && m.wire[s.k].to == j {
      ReceivedKeeps(env, m.hosts[j], frames, m.wire[s.k].frame, begun);
    } else if s.Apply? && s.i == j {
      AppliedKeeps(env, lim, m.hosts[j], s.k, frames, begun);
    }
  }

  /** On every run of a mesh each node's reassembler holds what the frames that reached it make, and each
      payload these complete waits to be applied or has begun to be: once, and nothing else does. */
  lemma {:induction false} NothingHandedOverIsLost(env: Env, lim: Limits, starts: seq<int>, steps: seq<MeshStep>, j: nat)
    requires j < |starts|
    ensures var m := ExecMesh(env, lim, starts, steps);
      && |m.hosts| == |starts|
      && Keeps(env, m.hosts[j], FramesTo(env, lim, starts, steps, j), Begun(env, lim, starts, steps, j))
  {
    if steps == [] {
      ReceivesNothing(env, map[]);
    } else {
      hide Keeps;
      hide DoMesh;
      hide Possible;
      var m, s := ExecMesh(env, lim, starts, Earlier(steps)), steps[|steps| - 1];
      NothingHandedOverIsLost(env, lim, starts, Earlier(steps), j);
      if Possible(env, m, s) {
        StepKeeps(env, lim, m, s, j, FramesTo(env, lim, starts, Earlier(steps), j), Begun(env, lim, starts, Earlier(steps), j));
      }
    }
  }

  // ---- Each node by itself ----

  /** What node `j` did in the run: its own steps, its emissions, and the payloads it began to apply. */
  function StepsOf(env: Env, lim: Limits, starts: seq<int>, steps: seq<MeshStep>, j: nat): seq<Step> {
    if steps == [] then []
    else
      var m, s := ExecMesh(env, lim, starts, Earlier(steps)), steps[|steps| - 1];
      var front := StepsOf(env, lim, starts, Earlier(steps), j);
      if (s.At? || s.Publish?) && s.i == j && Possible(env, m, s) then front + [s.step]
      else if s.Apply? && s.i == j && Possible(env, m, s) then front + [Arrive(m.hosts[j].ready[s.k])]
      else front
  }

  lemma {:induction false} ExecMore(env: Env, lim: Limits, start: int, front: seq<Step>, s: Step)
    ensures Exec(env, lim, start, front + [s]) == Do(env, lim, Exec(env, lim, start, front), s)
  {
    assert (front + [s])[..|front|] == front;
  }

  /** Every run of a mesh is, at each node, a run of that node alone. */
  lemma {:induction false} EachNodeRuns(env: Env, lim: Limits, starts: seq<int>, steps: seq<MeshStep>, j: nat)
    requires j < |starts|
    ensures var m := ExecMesh(env, lim, starts, steps);
      |m.hosts| == |starts| && m.hosts[j].node == Exec(env, lim, starts[j], StepsOf(env, lim, starts, steps, j))
  {
    if steps != [] {
      hide Do;
      hide Exec;
      hide EmitWindow;
      hide Received;
      hide Receive;
      hide Outgoing;
      hide AllReach;
      var m, s := ExecMesh(env, lim, starts, Earlier(steps)), steps[|steps| - 1];
      var front := StepsOf(env, lim, starts, Earlier(steps), j);
      EachNodeRuns(env, lim, starts, Earlier(steps), j);
      NodeMoves(env, lim, m, s, j);
      if (s.At? || s.Publish?) && s.i == j {
        ExecMore(env, lim, starts[j], front, s.step);
      } else if s.Apply? && s.i == j && Possible(env, m, s) {
        ExecMore(env, lim, starts[j], front, Arrive(m.hosts[j].ready[s.k]));
      }
    }
  }

  lemma {:induction false} NodeMoves(env: Env, lim: Limits, m: State, s: MeshStep, j: nat)
    requires j < |m.hosts|
    ensures Possible(env, m, s) ==>
      var m' := DoMesh(env, lim, m, s);
      |m'.hosts| == |m.hosts| && m'.hosts[j].node ==
        if (s.At? || s.Publish?) && s.i == j then Do(env, lim, m.hosts[j].node, s.step)
        else if s.Apply? && s.i == j then Do(env, lim, m.hosts[j].node, Arrive(m.hosts[j].ready[s.k]))
        else m.hosts[j].node
  {
    hide Do;
    hide EmitWindow;
    hide Receive;
    hide Outgoing;
    hide AllReach;
  }

  // ---- What is put on the wire ----

  lemma {:induction false} AddressedExactly(frame: Bytes, to: seq<nat>, msg: Message)
    ensures msg in Addressed(frame, to) <==> msg.frame == frame && msg.to in to
  {
    if to != [] {
      AddressedExactly(frame, to[..|to| - 1], msg);
      assert to == to[..|to| - 1] + [to[|to| - 1]];
    }
  }

  /** Some frame of the list is this one and was addressed to its receiver. */
  predicate Listed(frames: seq<Bytes>, reach: seq<seq<nat>>, msg: Message)
    requires |reach| == |frames|
  {
    exists f :: 0 <= f < |frames| && msg.frame == frames[f] && msg.to in reach[f]
  }

  lemma {:induction false} AllAddressedExactly(frames: seq<Bytes>, reach: seq<seq<nat>>, msg: Message)
    requires |reach| == |frames|
    ensures msg in AllAddressed(frames, reach) <==> Listed(frames, reach, msg)
    decreases |frames|
  {
    if frames != [] {
      var last := |frames| - 1;
      AllAddressedExactly(frames[..last], reach[..last], msg);
      AddressedExactly(frames[last], reach[last], msg);
      ListedMore(frames, reach, msg);
    }
  }

  lemma {:induction false} ListedMore(frames: seq<Bytes>, reach: seq<seq<nat>>, msg: Message)
    requires |reach| == |frames| && frames != []
    ensures var last := |frames| - 1;
      Listed(frames, reach, msg)
      <==> (Listed(frames[..last], reach[..last], msg) || (msg.frame == frames[last] && msg.to in reach[last]))
  {
    var last := |frames| - 1;
    if Listed(frames[..last], reach[..last], msg) {
      var f :| 0 <= f < last && msg.frame == frames[..last][f] && msg.to in reach[..last][f];
      assert msg.frame == frames[f] && msg.to in reach[f];
    }
    if Listed(frames, reach, msg) {
      var f :| 0 <= f < |frames| && msg.frame == frames[f] && msg.to in reach[f];
      assert f < last ==> msg.frame == frames[..last][f] && msg.to in reach[..last][f];
    }
  }

  /** Some frame of one of the payloads is this one and was to reach its receiver. */
  ghost predicate FrameOfOne(env: Env, out: seq<Emission>, reach: seq<seq<seq<nat>>>, msg: Message)
    requires |reach| == |out|
  {
    exists x, f :: 0 <= x < |out| && IsValid(env, out[x].payload) && 0 <= f < |FramesOf(env, out[x].payload)| == |reach[x]|
      && msg.frame == FramesOf(env, out[x].payload)[f] && msg.to in reach[x][f]
  }

  /** What is put on the wire after a window is exactly every frame of every payload the window emits, for
      exactly the nodes that frame reaches. */
  lemma {:induction false} PublishedExactly(
      env: Env, n: Node, s: Step, reach: seq<seq<seq<nat>>>, i: nat, count: nat, msg: Message)
    requires s.Emit? && s.n <= |n.observed| && AllReach(env, EmitWindow(env, n, s), reach, i, count)
    ensures msg in Outgoing(env, EmitWindow(env, n, s), reach) <==> FrameOfOne(env, EmitWindow(env, n, s), reach, msg)
  {
    hide FramesOf;
    hide Outgoing;
    hide EmitWindow;
    hide IsValid;
    var out := EmitWindow(env, n, s);
    EmittedAreValid(env, n, s);
    OutgoingExactly(env, out, reach, i, count, msg);
    if FrameOfOne(env, out, reach, msg) {
      var x, f :| 0 <= x < |out| && IsValid(env, out[x].payload) && 0 <= f < |FramesOf(env, out[x].payload)| == |reach[x]|
        && msg.frame == FramesOf(env, out[x].payload)[f] && msg.to in reach[x][f];
      assert Listed(Sent(env, out[x].payload), reach[x], msg);
    }
  }

  lemma {:induction false} EmittedAreValid(env: Env, n: Node, s: Step)
    requires s.Emit? && s.n <= |n.observed|
    ensures forall e :: e in EmitWindow(env, n, s) ==> IsValid(env, e.payload)
  {
    var w := Window(n.observed[..s.n], s.textMs, s.imageMs);
    BucketEmits(env, 0, w, Ledger.TextBucket);
    BucketEmits(env, 0, w, Ledger.ImageBucket);
  }

  lemma {:induction false} OutgoingExactly(
      env: Env, out: seq<Emission>, reach: seq<seq<seq<nat>>>, i: nat, count: nat, msg: Message)
    requires AllReach(env, out, reach, i, count)
    ensures msg in Outgoing(env, out, reach)
       <==> (exists x :: 0 <= x < |out| && Listed(Sent(env, out[x].payload), reach[x], msg))
    decreases |out|
  {
    hide Sent;
    hide Listed;
    hide AllAddressed;
    if out != [] {
      var last := |out| - 1;
      OutgoingMore(env, out, reach, i, count);
      OutgoingExactly(env, out[..last], reach[..last], i, count, msg);
      AllAddressedExactly(Sent(env, out[last].payload), reach[last], msg);
      forall x | 0 <= x < last
        ensures out[..last][x] == out[x] && reach[..last][x] == reach[x] && Reaches(env, out[x].payload, reach[x], i, count)
      {
      }
    }
  }

  /** What a step puts on the wire: the frames of an emission. */
  function Added(env: Env, m: State, s: MeshStep): multiset<Message> {
    if s.Publish? && Possible(env, m, s)
    then multiset(Outgoing(env, EmitWindow(env, m.hosts[s.i].node, s.step), s.reach)) else multiset{}
  }

  /** What a step takes off the wire: a frame delivered or dropped. */
  function Taken(env: Env, m: State, s: MeshStep): multiset<Message> {
    if (s.Deliver? || s.Drop?) && Possible(env, m, s) then multiset{m.wire[s.k]} else multiset{}
  }

  /** Everything emitted so far, frame by frame and receiver by receiver. */
  function Posted(env: Env, lim: Limits, starts: seq<int>, steps: seq<MeshStep>): multiset<Message> {
    if steps == [] then multiset{}
    else
      Posted(env, lim, starts, Earlier(steps))
      + Added(env, ExecMesh(env, lim, starts, Earlier(steps)), steps[|steps| - 1])
  }

  /** What has left the wire. */
  function Gone(env: Env, lim: Limits, starts: seq<int>, steps: seq<MeshStep>): multiset<Message> {
    if steps == [] then multiset{}
    else
      Gone(env, lim, starts, Earlier(steps)) + Taken(env, ExecMesh(env, lim, starts, Earlier(steps)), steps[|steps| - 1])
  }

  lemma {:induction false} StepConserves(env: Env, lim: Limits, m: State, s: MeshStep)
    requires Possible(env, m, s)
    ensures multiset(DoMesh(env, lim, m, s).wire) + Taken(env, m, s) == multiset(m.wire) + Added(env, m, s)
  {
    hide Do;
    hide EmitWindow;
    hide Outgoing;
    hide Received;
    hide Applied;
    hide Receive;
    if s.Deliver? || s.Drop? { RemovedOne(m.wire, s.k); }
  }

  lemma {:induction false} StillBalanced<T>(
      wire: multiset<T>, wire': multiset<T>, taken: multiset<T>, added: multiset<T>, gone: multiset<T>, posted: multiset<T>)
    requires wire' + taken == wire + added && wire + gone == posted
    ensures wire' + (gone + taken) == posted + added
  {
    assert wire' + (gone + taken) == (wire' + taken) + gone;
    assert posted + added == (wire + added) + gone;
  }

  /** No frame appears or disappears by itself: on every run what was emitted is under way, delivered or
      dropped. */
  lemma {:induction false} FramesAreConserved(env: Env, lim: Limits, starts: seq<int>, steps: seq<MeshStep>)
    ensures multiset(ExecMesh(env, lim, starts, steps).wire) + Gone(env, lim, starts, steps) == Posted(env, lim, starts, steps)
  {
    if steps != [] {
      hide DoMesh;
      var m, s := ExecMesh(env, lim, starts, Earlier(steps)), steps[|steps| - 1];
      FramesAreConserved(env, lim, starts, Earlier(steps));
      var m' := ExecMesh(env, lim, starts, steps);
      if Possible(env, m, s) { StepConserves(env, lim, m, s); }
      assert multiset(m'.wire) + Taken(env, m, s) == multiset(m.wire) + Added(env, m, s);
      hide *;
      StillBalanced(multiset(m.wire), multiset(m'.wire), Taken(env, m, s), Added(env, m, s),
                    Gone(env, lim, starts, Earlier(steps)), Posted(env, lim, starts, Earlier(steps)));
    }
  }

  // ---- Delivery in the mesh ----

  /** Every frame of a valid payload reaches a node at least once, in any order among any other frames that
      reach it, and none after the last missing one. Then that payload, unchanged, is the one payload with
      its hash that waits there to be applied or has begun to be. */
  lemma {:induction false} DeliveredInTheMesh(
      env: Env, lim: Limits, starts: seq<int>, steps: seq<MeshStep>, j: nat,
      p: ClipboardPayload, before: seq<Bytes>, last: nat, after: seq<Bytes>)
    requires j < |starts| && IsValid(env, p) && last < |FramesOf(env, p)|
    requires FramesTo(env, lim, starts, steps, j) == before + [FramesOf(env, p)[last]] + after
    requires Delivery.OwnOrForeign(FramesOf(env, p), before, p.sha256)
    requires Delivery.AllBut(FramesOf(env, p), before, last) && forall f :: f in after ==> Delivery.Foreign(f, p.sha256)
    ensures var m := ExecMesh(env, lim, starts, steps);
      && |m.hosts| == |starts|
      && forall q: ClipboardPayload :: q.sha256 == p.sha256 ==>
           (multiset(m.hosts[j].ready) + Begun(env, lim, starts, steps, j))[q] == if q == p then 1 else 0
  {
    hide Run;
    hide HandedOver;
    hide Decoded;
    hide Hashed;
    hide Begun;
    hide ExecMesh;
    hide FramesTo;
    hide FramesOf;
    hide IsValid;
    hide Delivery.OwnOrForeign;
    hide Delivery.AllBut;
    hide Delivery.Foreign;
    NothingHandedOverIsLost(env, lim, starts, steps, j);
    Delivery.EndToEnd(env, p, map[], before, last, after);
    var handed := HandedOver(env, map[], before + [FramesOf(env, p)[last]] + after);
    HandedOnce(handed, p, multiset(ExecMesh(env, lim, starts, steps).hosts[j].ready) + Begun(env, lim, starts, steps, j));
  }

  lemma {:induction false} HandedOnce(handed: seq<ClipboardPayload>, p: ClipboardPayload, all: multiset<ClipboardPayload>)
    requires Hashed(handed, p.sha256) == [p] && all == multiset(handed)
    ensures forall q: ClipboardPayload :: q.sha256 == p.sha256 ==> all[q] == if q == p then 1 else 0
  {
    forall q: ClipboardPayload | q.sha256 == p.sha256
      ensures all[q] == if q == p then 1 else 0
    {
      HashedCount(handed, p.sha256, q);
    }
  }

  lemma {:induction false} HashedCount(ps: seq<ClipboardPayload>, id: Bytes, q: ClipboardPayload)
    requires q.sha256 == id
    ensures multiset(ps)[q] == multiset(Hashed(ps, id))[q]
  {
    if ps != [] {
      HashedCount(ps[..|ps| - 1], id, q);
      assert ps == ps[..|ps| - 1] + [ps[|ps| - 1]];
    }
  }
}
