/** All nodes together. Frames of what is emitted travel to the other nodes, each node reassembles what
    reaches it, and what completes is applied there. A broadcast gives each other node each frame at
    most once; the network may lose and reorder frames. */
module Mesh {
  import opened Counting
  import opened Wire
  import opened Messages
  import opened Payloads
  import opened Reassembly
  import opened Frames
  import opened Amplification
  import opened Coalescing
  import opened Echo
  import opened EchoFree
  import Delivery

  datatype Message = Message(to: nat, frame: Bytes)

  /** One machine: its clipboard side, its reassembler's table, and the payloads handed to the clipboard
      that have yet to be checked and remembered there. */
  datatype Host = Host(node: Node, table: Table, ready: seq<ClipboardPayload>)

  datatype State = State(hosts: seq<Host>, wire: seq<Message>, applied: nat)

  datatype MeshStep =
    | At(i: nat, step: Step)                                    // a step of one node by itself
    | Publish(i: nat, step: Step, reach: seq<seq<seq<nat>>>)    // an emission: payload, frame, whom it reaches
    | Deliver(k: nat)                                           // a frame reaches its node's reassembler
    | Apply(i: nat, k: nat)                                     // a node starts applying a payload it was handed
    | Drop(k: nat)                                              // a frame is lost

  /** A frame reaches some of the other nodes, each at most once. */
  predicate Others(to: seq<nat>, i: nat, count: nat) {
    && (forall x :: 0 <= x < |to| ==> to[x] < count && to[x] != i)
    && (forall x, y :: 0 <= x < y < |to| ==> to[x] != to[y])
  }

  /** The frames of an emitted payload. */
  function Sent(env: Env, p: ClipboardPayload): seq<Bytes> {
    if IsValid(env, p) then FramesOf(env, p) else []
  }

  predicate Reaches(env: Env, p: ClipboardPayload, reach: seq<seq<nat>>, i: nat, count: nat) {
    |reach| == |Sent(env, p)| && forall f :: 0 <= f < |reach| ==> Others(reach[f], i, count)
  }

  predicate AllReach(env: Env, out: seq<Emission>, reach: seq<seq<seq<nat>>>, i: nat, count: nat) {
    |reach| == |out| && forall x :: 0 <= x < |out| ==> Reaches(env, out[x].payload, reach[x], i, count)
  }

  function Addressed(frame: Bytes, to: seq<nat>): seq<Message> {
    if to == [] then [] else Addressed(frame, to[..|to| - 1]) + [Message(to[|to| - 1], frame)]
  }

  /** Frame by frame; the two lists are equally long. */
  function AllAddressed(frames: seq<Bytes>, reach: seq<seq<nat>>): seq<Message> {
    if frames == [] || reach == [] then []
    else AllAddressed(frames[..|frames| - 1], reach[..|reach| - 1]) + Addressed(frames[|frames| - 1], reach[|reach| - 1])
  }

  /** Payload by payload; the two lists are equally long. */
  function Outgoing(env: Env, out: seq<Emission>, reach: seq<seq<seq<nat>>>): seq<Message> {
    if out == [] || reach == [] then []
    else
      Outgoing(env, out[..|out| - 1], reach[..|reach| - 1])
      + AllAddressed(Sent(env, out[|out| - 1].payload), reach[|reach| - 1])
  }

  predicate Possible(env: Env, m: State, s: MeshStep) {
    match s
    case At(i, step) => i < |m.hosts| && !step.Arrive? && !step.Emit?
    case Publish(i, step, reach) =>
      && i < |m.hosts| && step.Emit? && step.n <= |m.hosts[i].node.observed|
      && AllReach(env, EmitWindow(env, m.hosts[i].node, step), reach, i, |m.hosts|)
    case Deliver(k) => k < |m.wire| && m.wire[k].to < |m.hosts|
    case Apply(i, k) => i < |m.hosts| && k < |m.hosts[i].ready|
    case Drop(k) => k < |m.wire|
  }

  /** A host after a frame: a completed payload is handed to the clipboard. */
  function Received(env: Env, h: Host, frame: Bytes): Host {
    match Receive(env, h.table, frame)
    case (table, Complete(p)) => h.(table := table, ready := h.ready + [p])
    case (table, _) => h.(table := table)
  }

  function Applied(env: Env, lim: Limits, h: Host, k: nat): Host
    requires k < |h.ready|
  {
    h.(node := Do(env, lim, h.node, Arrive(h.ready[k])), ready := RemoveAt(h.ready, k))
  }

  function DoMesh(env: Env, lim: Limits, m: State, s: MeshStep): State
    requires Possible(env, m, s)
  {
    match s
    case At(i, step) => m.(hosts := m.hosts[i := m.hosts[i].(node := Do(env, lim, m.hosts[i].node, step))])
    case Publish(i, step, reach) =>
      m.(hosts := m.hosts[i := m.hosts[i].(node := Do(env, lim, m.hosts[i].node, step))],
         wire := m.wire + Outgoing(env, EmitWindow(env, m.hosts[i].node, step), reach))
    case Deliver(k) =>
      var msg := m.wire[k];
      State(m.hosts[msg.to := Received(env, m.hosts[msg.to], msg.frame)], RemoveAt(m.wire, k),
            m.applied + One(Receive(env, m.hosts[msg.to].table, msg.frame).1.Complete?))
    case Apply(i, k) => m.(hosts := m.hosts[i := Applied(env, lim, m.hosts[i], k)])
    case Drop(k) => m.(wire := RemoveAt(m.wire, k))
  }

  function Fresh(starts: seq<int>): State {
    State(seq(|starts|, i requires 0 <= i < |starts| => Host(Idle(starts[i]), map[], [])), [], 0)
  }

  /** Steps that are not possible are skipped. */
  function ExecMesh(env: Env, lim: Limits, starts: seq<int>, steps: seq<MeshStep>): State {
    if steps == [] then Fresh(starts)
    else
      var m := ExecMesh(env, lim, starts, steps[..|steps| - 1]);
      if Possible(env, m, steps[|steps| - 1]) then DoMesh(env, lim, m, steps[|steps| - 1]) else m
  }

  // ---- Totals ----

  function Total(hosts: seq<Host>, f: Host -> nat): nat {
    if hosts == [] then 0 else Total(hosts[..|hosts| - 1], f) + f(hosts[|hosts| - 1])
  }

  lemma {:induction false} TotalUpdate(hosts: seq<Host>, i: nat, h: Host, f: Host -> nat)
    requires i < |hosts|
    ensures Total(hosts[i := h], f) == Total(hosts, f) - f(hosts[i]) + f(h)
    decreases |hosts|
  {
    var last := |hosts| - 1;
    if i == last {
      assert hosts[i := h][..last] == hosts[..last];
    } else {
      assert hosts[i := h][..last] == hosts[..last][i := h];
      TotalUpdate(hosts[..last], i, h, f);
    }
  }

  lemma {:induction false} TotalAtMost(hosts: seq<Host>, f: Host -> nat, g: Host -> nat)
    requires forall h :: h in hosts ==> f(h) <= g(h)
    ensures Total(hosts, f) <= Total(hosts, g)
  {
    if hosts != [] { TotalAtMost(hosts[..|hosts| - 1], f, g); }
  }

  const EMITTED: Host -> nat := (h: Host) => |h.node.tally.emitted|
  const COPIES: Host -> nat := (h: Host) => |h.node.tally.copies|
  const ALLOWED: Host -> nat := (h: Host) => |h.node.tally.copies| + (|h.node.tally.late| + |h.node.tally.slow|)
  const STARTED: Host -> nat := (h: Host) => |StartedIds(h.table)|
  const FIRST: Message -> bool := (m: Message) => IsFirst(m.frame)

  // ---- First frames per emission ----

  lemma {:induction false} CountConcat<T>(a: seq<T>, b: seq<T>, p: T -> bool)
    ensures CountIf(a + b, p) == CountIf(a, p) + CountIf(b, p)
  {
    if b == [] {
      assert a + b == a;
    } else {
      assert (a + b)[..|a + b| - 1] == a + b[..|b| - 1];
      CountConcat(a, b[..|b| - 1], p);
    }
  }

  lemma {:induction false} AddressedFirst(frame: Bytes, to: seq<nat>)
    ensures CountIf(Addressed(frame, to), FIRST) == if IsFirst(frame) then |to| else 0
  {
    if to != [] {
      hide IsFirst;
      AddressedFirst(frame, to[..|to| - 1]);
      CountAppend(Addressed(frame, to[..|to| - 1]), Message(to[|to| - 1], frame), FIRST);
    }
  }

  /** Only the first of these frames is a first chunk. */
  predicate OnlyFirst(frames: seq<Bytes>) {
    forall f :: 1 <= f < |frames| ==> !IsFirst(frames[f])
  }

  lemma {:induction false} SentOnlyFirst(env: Env, p: ClipboardPayload)
    ensures OnlyFirst(Sent(env, p))
  {
    if IsValid(env, p) {
      forall f | 1 <= f < |FramesOf(env, p)|
        ensures !IsFirst(FramesOf(env, p)[f])
      {
        Delivery.FrameDecodes(env, p, f);
      }
    }
  }

  lemma {:induction false} PayloadFirst(frames: seq<Bytes>, reach: seq<seq<nat>>, i: nat, count: nat)
    requires |reach| == |frames| && OnlyFirst(frames) && i < count && forall f :: 0 <= f < |reach| ==> Others(reach[f], i, count)
    ensures CountIf(AllAddressed(frames, reach), FIRST) <= count - 1
    ensures frames == [] ==> CountIf(AllAddressed(frames, reach), FIRST) == 0
    decreases |frames|
  {
    hide IsFirst;
    hide CountIf;
    hide Addressed;
    if frames == [] {
      CountNone(AllAddressed(frames, reach), FIRST);
    } else {
      var last := |frames| - 1;
      PayloadFirst(frames[..last], reach[..last], i, count);
      AddressedFirst(frames[last], reach[last]);
      CountConcat(AllAddressed(frames[..last], reach[..last]), Addressed(frames[last], reach[last]), FIRST);
      assert Others(reach[last], i, count);
      DistinctBelow(reach[last], i, count);
    }
  }

  function Share(each: nat, n: nat): nat {
    each * n
  }

  lemma {:induction false} OnceMore<T>(front: seq<T>, own: seq<T>, p: T -> bool, each: nat, n: nat)
    requires CountIf(front, p) <= Share(each, n) && CountIf(own, p) <= each
    ensures CountIf(front + own, p) <= Share(each, n + 1)
  {
    CountConcat(front, own, p);
  }

  lemma {:induction false} OutgoingMore(env: Env, out: seq<Emission>, reach: seq<seq<seq<nat>>>, i: nat, count: nat)
    requires AllReach(env, out, reach, i, count) && out != []
    ensures var last := |out| - 1;
      && AllReach(env, out[..last], reach[..last], i, count) && Reaches(env, out[last].payload, reach[last], i, count)
      && Outgoing(env, out, reach)
         == Outgoing(env, out[..last], reach[..last]) + AllAddressed(Sent(env, out[last].payload), reach[last])
  {
    hide Sent;
    hide Others;
    hide AllAddressed;
    assert Reaches(env, out[|out| - 1].payload, reach[|out| - 1], i, count);
  }

  lemma {:induction false} OnePayloadFirst(env: Env, p: ClipboardPayload, reach: seq<seq<nat>>, i: nat, count: nat)
    requires Reaches(env, p, reach, i, count) && i < count
    ensures CountIf(AllAddressed(Sent(env, p), reach), FIRST) <= count - 1
  {
    hide Sent;
    SentOnlyFirst(env, p);
    PayloadFirst(Sent(env, p), reach, i, count);
  }

  /** A broadcast puts at most one first-chunk frame per other node and payload on the wire. */
  lemma {:induction false} NothingFirst(env: Env, each: nat)
    ensures CountIf(Outgoing(env, [], []), FIRST) == 0 == Share(each, 0)
  {
  }

  lemma {:induction false} OutgoingFirst(env: Env, out: seq<Emission>, reach: seq<seq<seq<nat>>>, i: nat, count: nat)
    requires AllReach(env, out, reach, i, count) && i < count
    ensures CountIf(Outgoing(env, out, reach), FIRST) <= Share(count - 1, |out|)
    decreases |out|
  {
    assert |reach| == |out|;
    hide *;
    if out == [] {
      NothingFirst(env, count - 1);
    } else {
      var last := |out| - 1;
      var front, own := Outgoing(env, out[..last], reach[..last]), AllAddressed(Sent(env, out[last].payload), reach[last]);
      OutgoingMore(env, out, reach, i, count);
      OutgoingFirst(env, out[..last], reach[..last], i, count);
      OnePayloadFirst(env, out[last].payload, reach[last], i, count);
      OnceMore(front, own, FIRST, count - 1, last);
    }
  }

  lemma {:induction false} EmissionKeysCount(out: seq<Emission>)
    ensures |EmissionKeys(out)| == |out|
  {
    if out != [] { EmissionKeysCount(out[..|out| - 1]); }
  }

  // ---- The invariant ----

  /** First-chunk frames under way, first pieces waiting for the rest, and payloads handed over are
      paid for by emissions. */
  predicate Paid(m: State, count: nat) {
    && |m.hosts| == count >= 1
    && CountIf(m.wire, FIRST) + m.applied + Total(m.hosts, STARTED) <= (count - 1) * Total(m.hosts, EMITTED)
  }

  lemma {:induction false} QuietStep(env: Env, lim: Limits, n: Node, s: Step)
    requires !s.Emit?
    ensures Do(env, lim, n, s).tally.emitted == n.tally.emitted
  {
  }

  lemma {:induction false} EmitAdds(env: Env, lim: Limits, n: Node, s: Step)
    requires s.Emit? && s.n <= |n.observed|
    ensures |Do(env, lim, n, s).tally.emitted| == |n.tally.emitted| + |EmitWindow(env, n, s)|
  {
    EmissionKeysCount(EmitWindow(env, n, s));
    assert Do(env, lim, n, s) == DoEmit(env, n, s);
  }

  /** A step of one node, on the totals. */
  lemma {:induction false} NodeTotals(env: Env, lim: Limits, hosts: seq<Host>, i: nat, s: Step)
    requires i < |hosts| && (s.Emit? ==> s.n <= |hosts[i].node.observed|)
    ensures var hosts' := hosts[i := hosts[i].(node := Do(env, lim, hosts[i].node, s))];
      && Total(hosts', STARTED) == Total(hosts, STARTED)
      && Total(hosts', EMITTED)
         == Total(hosts, EMITTED) + (if s.Emit? then |EmitWindow(env, hosts[i].node, s)| else 0)
  {
    hide Do;
    hide EmitWindow;
    var h := hosts[i].(node := Do(env, lim, hosts[i].node, s));
    TotalUpdate(hosts, i, h, STARTED);
    TotalUpdate(hosts, i, h, EMITTED);
    if s.Emit? { EmitAdds(env, lim, hosts[i].node, s); } else { QuietStep(env, lim, hosts[i].node, s); }
  }

  /** A frame received, on the totals: nothing is emitted, and no more is handed over than it brings. */
  lemma {:induction false} ReceivedTotals(env: Env, hosts: seq<Host>, i: nat, frame: Bytes)
    requires i < |hosts|
    ensures var hosts' := hosts[i := Received(env, hosts[i], frame)];
      && Total(hosts', EMITTED) == Total(hosts, EMITTED)
      && One(Receive(env, hosts[i].table, frame).1.Complete?) + Total(hosts', STARTED)
         <= Total(hosts, STARTED) + One(IsFirst(frame))
  {
    hide Receive;
    hide IsFirst;
    hide StartedIds;
    var h, h' := hosts[i], Received(env, hosts[i], frame);
    TotalUpdate(hosts, i, h', EMITTED);
    TotalUpdate(hosts, i, h', STARTED);
    ReceiveNeverAmplifies(env, h.table, frame);
  }

  lemma {:induction false} AppliedTotals(env: Env, lim: Limits, hosts: seq<Host>, i: nat, k: nat)
    requires i < |hosts| && k < |hosts[i].ready|
    ensures var hosts' := hosts[i := Applied(env, lim, hosts[i], k)];
      Total(hosts', EMITTED) == Total(hosts, EMITTED) && Total(hosts', STARTED) == Total(hosts, STARTED)
  {
    hide Do;
    var h' := Applied(env, lim, hosts[i], k);
    QuietStep(env, lim, hosts[i].node, Arrive(hosts[i].ready[k]));
    TotalUpdate(hosts, i, h', EMITTED);
    TotalUpdate(hosts, i, h', STARTED);
  }

  lemma {:induction false} StillPaid(c: nat, held: nat, total: nat, sent: nat, emitted: nat)
    requires held <= c * total && sent <= c * emitted
    ensures held + sent <= c * (total + emitted)
  {
  }

  lemma {:induction false} SentPaid(m: State, m': State, sent: seq<Message>, emitted: nat, count: nat)
    requires Paid(m, count) && |m'.hosts| == count && m'.applied == m.applied && m'.wire == m.wire + sent
    requires CountIf(sent, FIRST) <= (count - 1) * emitted
    requires Total(m'.hosts, STARTED) == Total(m.hosts, STARTED)
    requires Total(m'.hosts, EMITTED) == Total(m.hosts, EMITTED) + emitted
    ensures Paid(m', count)
  {
    hide CountIf;
    hide Total;
    CountConcat(m.wire, sent, FIRST);
    StillPaid(count - 1, CountIf(m.wire, FIRST) + m.applied + Total(m.hosts, STARTED), Total(m.hosts, EMITTED),
              CountIf(sent, FIRST), emitted);
  }

  lemma {:induction false} PublishPaid(env: Env, lim: Limits, m: State, i: nat, step: Step, reach: seq<seq<seq<nat>>>, count: nat)
    requires Paid(m, count) && Possible(env, m, Publish(i, step, reach))
    ensures Paid(DoMesh(env, lim, m, Publish(i, step, reach)), count)
  {
    hide EmitWindow;
    hide Do;
    hide Total;
    hide CountIf;
    hide Sent;
    hide Reaches;
    var out := EmitWindow(env, m.hosts[i].node, step);
    NodeTotals(env, lim, m.hosts, i, step);
    OutgoingFirst(env, out, reach, i, count);
    var m' := DoMesh(env, lim, m, Publish(i, step, reach));
    hide Outgoing;
    SentPaid(m, m', Outgoing(env, out, reach), |out|, count);
  }

  lemma {:induction false} StepPaid(env: Env, lim: Limits, m: State, s: MeshStep, count: nat)
    requires Paid(m, count) && Possible(env, m, s)
    ensures Paid(DoMesh(env, lim, m, s), count)
  {
    hide Do;
    hide Total;
    hide Receive;
    hide IsFirst;
    match s
    case At(i, step) => NodeTotals(env, lim, m.hosts, i, step);
    case Publish(i, step, reach) => PublishPaid(env, lim, m, i, step, reach, count);
    case Deliver(k) =>
      ReceivedTotals(env, m.hosts, m.wire[k].to, m.wire[k].frame);
      CountRemove(m.wire, k, FIRST);
    case Apply(i, k) => AppliedTotals(env, lim, m.hosts, i, k);
    case Drop(k) => CountRemove(m.wire, k, FIRST);
  }

  lemma {:induction false} FreshTotals(starts: seq<int>)
    ensures Total(Fresh(starts).hosts, STARTED) == 0
  {
    var hosts := Fresh(starts).hosts;
    if starts != [] {
      FreshTotals(starts[..|starts| - 1]);
      assert hosts[..|hosts| - 1] == Fresh(starts[..|starts| - 1]).hosts;
      assert StartedIds(map[]) == {};
    }
  }

  /** On every run: first-chunk frames under way, first pieces waiting, and payloads handed over to some
      clipboard, together at most N-1 for every payload emitted. */
  lemma {:induction false} RunPaid(env: Env, lim: Limits, starts: seq<int>, steps: seq<MeshStep>)
    requires starts != []
    ensures Paid(ExecMesh(env, lim, starts, steps), |starts|)
  {
    if steps == [] {
      FreshTotals(starts);
    } else {
      hide Paid;
      hide DoMesh;
      hide Possible;
      var front := steps[..|steps| - 1];
      RunPaid(env, lim, starts, front);
      var m := ExecMesh(env, lim, starts, front);
      if Possible(env, m, steps[|steps| - 1]) { StepPaid(env, lim, m, steps[|steps| - 1], |starts|); }
    }
  }

  // ---- Every node of the mesh is sound ----

  ghost predicate AllSound(env: Env, lim: Limits, hosts: seq<Host>) {
    forall h :: h in hosts ==> Sound(env, lim, h.node)
  }

  lemma {:induction false} StepAllSound(env: Env, lim: Limits, m: State, s: MeshStep)
    requires AllSound(env, lim, m.hosts) && Possible(env, m, s)
    ensures AllSound(env, lim, DoMesh(env, lim, m, s).hosts)
  {
    hide Do;
    hide Sound;
    hide EmitWindow;
    hide Receive;
    match s
    case At(i, step) => StepSound(env, lim, m.hosts[i].node, step);
    case Publish(i, step, _) => StepSound(env, lim, m.hosts[i].node, step);
    case Deliver(_) =>
    case Apply(i, k) => StepSound(env, lim, m.hosts[i].node, Arrive(m.hosts[i].ready[k]));
    case Drop(_) =>
  }

  /** Whatever the network does, every node of the mesh keeps the one-node invariant. */
  lemma {:induction false} RunAllSound(env: Env, lim: Limits, starts: seq<int>, steps: seq<MeshStep>)
    ensures AllSound(env, lim, ExecMesh(env, lim, starts, steps).hosts)
  {
    if steps == [] {
      forall i | 0 <= i < |starts|
        ensures Sound(env, lim, Idle(starts[i]))
      {
        IdleSound(env, lim, starts[i]);
      }
    } else {
      hide AllSound;
      hide DoMesh;
      hide Possible;
      var front := steps[..|steps| - 1];
      RunAllSound(env, lim, starts, front);
      var m := ExecMesh(env, lim, starts, front);
      if Possible(env, m, steps[|steps| - 1]) { StepAllSound(env, lim, m, steps[|steps| - 1]); }
    }
  }

  lemma {:induction false} AllowedCovers(env: Env, lim: Limits, h: Host)
    requires Sound(env, lim, h.node)
    ensures EMITTED(h) <= ALLOWED(h)
  {
    SoundEmissions(env, lim, h.node);
    var t := h.node.tally;
    var all := t.copies + t.late + t.slow;
    assert all == t.emitted + (all - t.emitted);
    assert |all| == |t.copies + t.late| + |t.slow| == |t.copies| + |t.late| + |t.slow|;
  }

  lemma {:induction false} TimesMonotone(c: nat, a: nat, b: nat)
    requires a <= b
    ensures c * a <= c * b
  {
  }

  /** No clipboard storm: on every run of a mesh of N nodes, the payloads ever handed to a clipboard for
      writing are at most N-1 for every user copy, late report and slow failure anywhere in the mesh. */
  lemma {:induction false} AppliedIsBounded(env: Env, lim: Limits, starts: seq<int>, steps: seq<MeshStep>)
    requires starts != []
    ensures var m := ExecMesh(env, lim, starts, steps);
      m.applied <= (|starts| - 1) * Total(m.hosts, ALLOWED)
  {
    hide ExecMesh;
    var m := ExecMesh(env, lim, starts, steps);
    RunPaid(env, lim, starts, steps);
    RunAllSound(env, lim, starts, steps);
    forall h | h in m.hosts
      ensures EMITTED(h) <= ALLOWED(h)
    {
      AllowedCovers(env, lim, h);
    }
    TotalAtMost(m.hosts, EMITTED, ALLOWED);
    TimesMonotone(|starts| - 1, Total(m.hosts, EMITTED), Total(m.hosts, ALLOWED));
  }

  /** Every node of the mesh accounts for what it emits. */
  lemma {:induction false} MeshEmissionsAreAccounted(env: Env, lim: Limits, starts: seq<int>, steps: seq<MeshStep>, i: nat)
    requires i < |ExecMesh(env, lim, starts, steps).hosts|
    ensures var t := ExecMesh(env, lim, starts, steps).hosts[i].node.tally;
      t.emitted <= t.copies + t.late + t.slow
  {
    hide ExecMesh;
    RunAllSound(env, lim, starts, steps);
    SoundEmissions(env, lim, ExecMesh(env, lim, starts, steps).hosts[i].node);
  }

  // ---- Prompt surroundings ----

  predicate PromptMeshStep(m: State, s: MeshStep, d: int) {
    s.At? && s.i < |m.hosts| ==> PromptStep(m.hosts[s.i].node, s.step, d)
  }

  /** Every node's watcher and native clipboard are as prompt as promised. */
  predicate MeshWithin(env: Env, lim: Limits, starts: seq<int>, steps: seq<MeshStep>, d: int) {
    steps == []
    || (MeshWithin(env, lim, starts, steps[..|steps| - 1], d)
        && PromptMeshStep(ExecMesh(env, lim, starts, steps[..|steps| - 1]), steps[|steps| - 1], d))
  }

  predicate AllTimely(hosts: seq<Host>, d: int) {
    forall h :: h in hosts ==> Timely(h.node) && LookedSoon(h.node, d)
  }

  lemma {:induction false} NodeStaysTimely(env: Env, lim: Limits, n: Node, s: Step, d: int)
    requires Sound(env, lim, n) && Timely(n) && LookedSoon(n, d) && PromptStep(n, s, d) && Enough(lim, d) && lim.skew >= 0
    ensures Timely(Do(env, lim, n, s)) && LookedSoon(Do(env, lim, n, s), d)
  {
    hide Do;
    PromptLooksSoon(env, lim, n, s, d);
    PromptIsTimely(env, lim, n, s, d);
  }

  lemma {:induction false} StepStaysTimely(env: Env, lim: Limits, m: State, s: MeshStep, d: int)
    requires AllSound(env, lim, m.hosts) && AllTimely(m.hosts, d) && Possible(env, m, s) && PromptMeshStep(m, s, d)
    requires Enough(lim, d) && lim.skew >= 0
    ensures AllTimely(DoMesh(env, lim, m, s).hosts, d)
  {
    hide Do;
    hide Sound;
    hide Timely;
    hide LookedSoon;
    hide EmitWindow;
    hide Receive;
    match s
    case At(i, step) => NodeStaysTimely(env, lim, m.hosts[i].node, step, d);
    case Publish(i, step, _) => NodeStaysTimely(env, lim, m.hosts[i].node, step, d);
    case Deliver(_) =>
    case Apply(i, k) => NodeStaysTimely(env, lim, m.hosts[i].node, Arrive(m.hosts[i].ready[k]), d);
    case Drop(_) =>
  }

  lemma {:induction false} RunStaysTimely(env: Env, lim: Limits, starts: seq<int>, steps: seq<MeshStep>, d: int)
    requires MeshWithin(env, lim, starts, steps, d) && Enough(lim, d) && lim.skew >= 0
    ensures AllTimely(ExecMesh(env, lim, starts, steps).hosts, d)
  {
    if steps != [] {
      hide AllTimely;
      hide AllSound;
      hide DoMesh;
      hide Possible;
      hide PromptMeshStep;
      var front := steps[..|steps| - 1];
      RunStaysTimely(env, lim, starts, front, d);
      RunAllSound(env, lim, starts, front);
      var m := ExecMesh(env, lim, starts, front);
      if Possible(env, m, steps[|steps| - 1]) { StepStaysTimely(env, lim, m, steps[|steps| - 1], d); }
    }
  }

  /** Under the exact condition for one node, no node of a mesh sends on what it received, and at most
      N-1 payloads are handed to a clipboard per copy made by a user. */
  lemma {:induction false} PromptMeshIsQuiet(env: Env, lim: Limits, starts: seq<int>, steps: seq<MeshStep>, d: int)
    requires starts != [] && MeshWithin(env, lim, starts, steps, d) && Enough(lim, d) && lim.skew >= 0
    ensures var m := ExecMesh(env, lim, starts, steps);
      && (forall h :: h in m.hosts ==> h.node.tally.emitted <= h.node.tally.copies)
      && m.applied <= (|starts| - 1) * Total(m.hosts, COPIES)
  {
    hide ExecMesh;
    var m := ExecMesh(env, lim, starts, steps);
    RunStaysTimely(env, lim, starts, steps, d);
    RunAllSound(env, lim, starts, steps);
    forall h | h in m.hosts
      ensures h.node.tally.emitted <= h.node.tally.copies
    {
      SoundEmissions(env, lim, h.node);
    }
    AppliedIsBounded(env, lim, starts, steps);
    TotalAtMost(m.hosts, ALLOWED, COPIES);
    TimesMonotone(|starts| - 1, Total(m.hosts, ALLOWED), Total(m.hosts, COPIES));
  }
}
