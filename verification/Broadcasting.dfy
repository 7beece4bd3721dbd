/** One node broadcasting the frames of one payload after another, interleaved frame by frame and peer
    by peer with everything that happens to its connections meanwhile. */
module Broadcasting {
  import opened Wire
  import opened Peers
  import opened Manager

  /** `of` numbers the broadcast; the frames from `from` up to but not including `to` were placed. */
  datatype Part = Part(of: nat, from: nat, to: nat)

  /** `log` is every frame ever placed in the send queue; the first `drained` have left it. `parts` is
      the history the log is explained by. */
  datatype Conn = Conn(owner: NodeId, capacity: nat, log: seq<Bytes>, drained: nat, cancelled: bool, parts: seq<Part>)

  /** Between broadcasts, or offering frame `next` to the peers in `todo`; the connections in `failed`
      have refused it. */
  datatype Sender = Idle | Sending(frames: seq<Bytes>, next: nat, todo: set<NodeId>, failed: set<nat>)

  /** `begun` lists the broadcasts so far, each as its frames. */
  datatype State = State(slots: map<NodeId, Option<nat>>, conns: seq<Conn>, sender: Sender, begun: seq<seq<Bytes>>)

  const NOBODY := State(map[], [], Idle, [])

  datatype Step =
    | Know(id: NodeId)
    | Attach(id: NodeId, capacity: nat)
    | Detach(id: NodeId)
    | CancelConn(c: nat)
    | Drain(c: nat)
    | Begin(frames: seq<Bytes>)
    | Offer(id: NodeId, ctxDone: bool, result: SendResult)
    | NextFrame

  // ---- Steps ----

  /** The sender at the start of a frame: a snapshot of the peers, or nothing more to do. */
  function OpenFrame(s: State, frames: seq<Bytes>, next: nat, maxFrame: int): Sender {
    if next >= |frames| || |frames[next]| > maxFrame then Idle
    else Sending(frames, next, s.slots.Keys, {})
  }

  function Queued(conn: Conn): nat {
    if conn.drained <= |conn.log| then |conn.log| - conn.drained else 0
  }

  predicate Queues(conn: Conn, ctxDone: bool, result: SendResult) {
    if result == Sent then Queued(conn) < conn.capacity
    else Refuses(result, ctxDone, conn.cancelled, conn.capacity, Queued(conn))
  }

  /** The connection a peer's slot holds. */
  function ActiveConn(s: State, id: NodeId): Option<nat> {
    if id in s.slots && s.slots[id].Some? && s.slots[id].value < |s.conns| then s.slots[id] else None
  }

  function WithPart(conn: Conn, part: Part): Conn {
    conn.(parts := conn.parts + [part])
  }

  /** The part a connection attached now starts with, when a broadcast is under way. */
  function FirstParts(s: State, id: NodeId): seq<Part> {
    match s.sender
    case Idle => []
    case Sending(_, next, todo, _) =>
      if |s.begun| == 0 then [] else
      var from := if id in todo then next else next + 1;
      [Part(|s.begun| - 1, from, from)]
  }

  function Place(conn: Conn, frame: Bytes): Conn {
    if conn.parts == [] then conn
    else
      var last := |conn.parts| - 1;
      conn.(log := conn.log + [frame], parts := conn.parts[last := conn.parts[last].(to := conn.parts[last].to + 1)])
  }

  predicate Enabled(s: State, step: Step) {
    match step
    case Know(id) => id !in s.slots
    case Attach(id, _) => id in s.slots
    case Detach(id) => id in s.slots
    case CancelConn(c) => c < |s.conns|
    case Drain(c) => c < |s.conns| && s.conns[c].drained < |s.conns[c].log|
    case Begin(_) => s.sender.Idle?
    case Offer(id, ctxDone, result) =>
      && s.sender.Sending? && id in s.sender.todo && s.sender.next < |s.sender.frames|
      && (ActiveConn(s, id).Some? ==> Queues(s.conns[ActiveConn(s, id).value], ctxDone, result))
    case NextFrame => s.sender.Sending? && s.sender.todo == {}
  }

  function Do(maxFrame: int, s: State, step: Step): State
    requires Enabled(s, step)
  {
    match step
    case Know(id) => s.(slots := s.slots[id := None])
    case Attach(id, capacity) =>
      s.(slots := s.slots[id := Some(|s.conns|)], conns := s.conns + [Conn(id, capacity, [], 0, false, FirstParts(s, id))])
    case Detach(id) => s.(slots := s.slots[id := None])
    case CancelConn(c) => s.(conns := s.conns[c := s.conns[c].(cancelled := true)])
    case Drain(c) => s.(conns := s.conns[c := s.conns[c].(drained := s.conns[c].drained + 1)])
    case Begin(frames) =>
      s.(sender := OpenFrame(s, frames, 0, maxFrame), begun := s.begun + [frames],
         conns := seq(|s.conns|, c requires 0 <= c < |s.conns| => WithPart(s.conns[c], Part(|s.begun|, 0, 0))))
    case Offer(id, ctxDone, result) =>
      var sender := s.sender.(todo := s.sender.todo - {id});
      if ActiveConn(s, id).None? then s.(sender := sender)
      else if result == Sent then
        var c := ActiveConn(s, id).value;
        s.(sender := sender, conns := s.conns[c := Place(s.conns[c], s.sender.frames[s.sender.next])])
      else s.(sender := sender.(failed := s.sender.failed + {ActiveConn(s, id).value}))
    case NextFrame =>
      s.(sender := if s.sender.failed != {} then Idle else OpenFrame(s, s.sender.frames, s.sender.next + 1, maxFrame))
  }

  function Next(maxFrame: int, s: State, step: Step): State {
    if Enabled(s, step) then Do(maxFrame, s, step) else s
  }

  function RunFrom(maxFrame: int, s: State, steps: seq<Step>): State
    decreases |steps|
  {
    if steps == [] then s else RunFrom(maxFrame, Next(maxFrame, s, steps[0]), steps[1..])
  }

  function Reached(maxFrame: int, steps: seq<Step>): State {
    RunFrom(maxFrame, NOBODY, steps)
  }

  // ---- What a log consists of ----

  predicate PartOk(begun: seq<seq<Bytes>>, p: Part) {
    p.of < |begun| && p.from <= p.to <= |begun[p.of]|
  }

  predicate PartsOk(begun: seq<seq<Bytes>>, parts: seq<Part>) {
    forall i :: 0 <= i < |parts| ==> PartOk(begun, parts[i])
  }

  /** The frames of the parts, one after the other. */
  function Laid(begun: seq<seq<Bytes>>, parts: seq<Part>): seq<Bytes>
    requires PartsOk(begun, parts)
  {
    if parts == [] then []
    else
      var p := parts[|parts| - 1];
      Laid(begun, parts[..|parts| - 1]) + begun[p.of][p.from..p.to]
  }

  /** Successive broadcasts, all but possibly the first taken from their first frame on. */
  predicate Successive(parts: seq<Part>) {
    forall i :: 0 <= i < |parts| ==> parts[i].of == parts[0].of + i && (i > 0 ==> parts[i].from == 0)
  }

  /** The parts, laid out, are the log. */
  predicate History(begun: seq<seq<Bytes>>, parts: seq<Part>, log: seq<Bytes>) {
    PartsOk(begun, parts) && Successive(parts) && Laid(begun, parts) == log
  }

  /** The parts reach up to the latest broadcast. */
  predicate Reaches(begun: seq<seq<Bytes>>, parts: seq<Part>) {
    parts != [] ==> parts[|parts| - 1].of == |begun| - 1
  }

  /** What is queued is a tail of the log and fits the queue. */
  predicate QueueOk(conn: Conn) {
    conn.drained <= |conn.log| <= conn.drained + conn.capacity
  }

  predicate Explained(begun: seq<seq<Bytes>>, conn: Conn) {
    QueueOk(conn) && Reaches(begun, conn.parts) && History(begun, conn.parts, conn.log)
  }

  lemma {:induction false} LaidLast(begun: seq<seq<Bytes>>, parts: seq<Part>, p: Part)
    requires PartsOk(begun, parts) && PartOk(begun, p)
    ensures PartsOk(begun, parts + [p])
    ensures Laid(begun, parts + [p]) == Laid(begun, parts) + begun[p.of][p.from..p.to]
  {
    assert (parts + [p])[..|parts|] == parts;
  }

  lemma {:induction false} LaidOnMore(begun: seq<seq<Bytes>>, more: seq<seq<Bytes>>, parts: seq<Part>)
    requires PartsOk(begun, parts)
    ensures PartsOk(begun + more, parts) && Laid(begun + more, parts) == Laid(begun, parts)
  {
    if parts != [] {
      var front, p := parts[..|parts| - 1], parts[|parts| - 1];
      assert PartOk(begun, p) && (begun + more)[p.of] == begun[p.of];
      LaidOnMore(begun, more, front);
      assert parts == front + [p];
      LaidLast(begun, front, p);
      LaidLast(begun + more, front, p);
    }
  }

  lemma {:induction false} BeginHistory(begun: seq<seq<Bytes>>, frames: seq<Bytes>, parts: seq<Part>, log: seq<Bytes>)
    requires History(begun, parts, log) && Reaches(begun, parts)
    ensures History(begun + [frames], parts + [Part(|begun|, 0, 0)], log)
    ensures Reaches(begun + [frames], parts + [Part(|begun|, 0, 0)])
  {
    hide Laid;
    LaidOnMore(begun, [frames], parts);
    LaidLast(begun + [frames], parts, Part(|begun|, 0, 0));
  }

  lemma {:induction false} PlaceHistory(begun: seq<seq<Bytes>>, parts: seq<Part>, p: Part, log: seq<Bytes>)
    requires History(begun, parts + [p], log) && p.of < |begun| && p.to < |begun[p.of]|
    ensures History(begun, parts + [p.(to := p.to + 1)], log + [begun[p.of][p.to]])
  {
    hide Laid;
    var q := p.(to := p.to + 1);
    assert forall i :: 0 <= i < |parts| ==> (parts + [p])[i] == parts[i] == (parts + [q])[i];
    assert PartOk(begun, (parts + [p])[|parts|]);
    LaidLast(begun, parts, p);
    LaidLast(begun, parts, q);
    assert begun[p.of][p.from..p.to + 1] == begun[p.of][p.from..p.to] + [begun[p.of][p.to]];
  }

  lemma {:induction false} PlaceExplains(begun: seq<seq<Bytes>>, conn: Conn)
    requires Explained(begun, conn) && conn.parts != [] && Queued(conn) < conn.capacity
    requires var p := conn.parts[|conn.parts| - 1]; p.of < |begun| && p.to < |begun[p.of]|
    ensures var p := conn.parts[|conn.parts| - 1]; Explained(begun, Place(conn, begun[p.of][p.to]))
  {
    hide History;
    var front, p := conn.parts[..|conn.parts| - 1], conn.parts[|conn.parts| - 1];
    assert conn.parts == front + [p];
    assert Place(conn, begun[p.of][p.to]).parts == front + [p.(to := p.to + 1)];
    PlaceHistory(begun, front, p, conn.log);
  }

  // ---- Where each connection stands in the broadcast under way ----

  predicate InSlot(s: State, c: nat)
    requires c < |s.conns|
  {
    s.conns[c].owner in s.slots && s.slots[s.conns[c].owner] == Some(c)
  }

  /** A connection in its slot has every frame it could get so far: those before `next`, and `next`
      itself once offered, exactly unless it has refused it. */
  predicate UpToDate(s: State, c: nat)
    requires c < |s.conns|
  {
    s.sender.Sending? && InSlot(s, c) ==>
      var conn := s.conns[c];
      && conn.parts != []
      && var p := conn.parts[|conn.parts| - 1];
      && (conn.owner in s.sender.todo ==> p.to == s.sender.next)
      && (conn.owner !in s.sender.todo ==> p.to == if c in s.sender.failed then s.sender.next else s.sender.next + 1)
  }

  predicate SlotsOk(s: State) {
    forall id :: id in s.slots && s.slots[id].Some? ==>
      s.slots[id].value < |s.conns| && s.conns[s.slots[id].value].owner == id
  }

  predicate SenderOk(s: State) {
    s.sender.Sending? ==>
      && s.begun != [] && s.begun[|s.begun| - 1] == s.sender.frames && s.sender.next < |s.sender.frames|
      && s.sender.todo <= s.slots.Keys && (forall c :: c in s.sender.failed ==> c < |s.conns| && s.conns[c].owner !in s.sender.todo)
  }

  predicate ConnsOk(s: State) {
    forall c :: 0 <= c < |s.conns| ==> Explained(s.begun, s.conns[c]) && UpToDate(s, c)
  }

  predicate Ok(s: State) {
    SlotsOk(s) && SenderOk(s) && ConnsOk(s)
  }

  lemma {:induction false} ConnOk(s: State, c: nat)
    requires ConnsOk(s) && c < |s.conns|
    ensures Explained(s.begun, s.conns[c]) && UpToDate(s, c)
  {
  }

  lemma {:induction false} SlotStepKeepsOk(maxFrame: int, s: State, step: Step)
    requires Ok(s) && Enabled(s, step) && (step.Know? || step.Detach?)
    ensures Ok(Do(maxFrame, s, step))
  {
    hide History;
    var s' := Do(maxFrame, s, step);
    forall c | 0 <= c < |s'.conns|
      ensures Explained(s'.begun, s'.conns[c]) && UpToDate(s', c)
    {
      ConnOk(s, c);
    }
  }

  lemma {:induction false} ConnStepKeepsOk(maxFrame: int, s: State, step: Step)
    requires Ok(s) && Enabled(s, step) && (step.CancelConn? || step.Drain?)
    ensures Ok(Do(maxFrame, s, step))
  {
    hide History;
    var s' := Do(maxFrame, s, step);
    forall c | 0 <= c < |s'.conns|
      ensures Explained(s'.begun, s'.conns[c]) && UpToDate(s', c)
    {
      ConnOk(s, c);
      assert s'.conns[c].parts == s.conns[c].parts && s'.conns[c].owner == s.conns[c].owner;
    }
  }

  lemma {:induction false} FreshIsExplained(s: State, id: NodeId)
    requires SenderOk(s)
    ensures History(s.begun, FirstParts(s, id), []) && Reaches(s.begun, FirstParts(s, id))
  {
    if s.sender.Sending? {
      var p := FirstParts(s, id)[0];
      assert PartOk(s.begun, p);
      LaidLast(s.begun, [], p);
      assert [] + [p] == FirstParts(s, id);
    }
  }

  lemma {:induction false} AttachKeepsOk(maxFrame: int, s: State, id: NodeId, capacity: nat)
    requires Ok(s) && Enabled(s, Attach(id, capacity))
    ensures Ok(Do(maxFrame, s, Attach(id, capacity)))
  {
    hide History;
    var s' := Do(maxFrame, s, Attach(id, capacity));
    forall c | 0 <= c < |s'.conns|
      ensures Explained(s'.begun, s'.conns[c]) && UpToDate(s', c)
    {
      if c < |s.conns| { ConnOk(s, c); } else { FreshIsExplained(s, id); }
    }
  }

  lemma {:induction false} BeginKeepsOk(maxFrame: int, s: State, frames: seq<Bytes>)
    requires Ok(s) && Enabled(s, Begin(frames))
    ensures Ok(Do(maxFrame, s, Begin(frames)))
  {
    hide History;
    var s' := Do(maxFrame, s, Begin(frames));
    forall c | 0 <= c < |s'.conns|
      ensures Explained(s'.begun, s'.conns[c]) && UpToDate(s', c)
    {
      ConnOk(s, c);
      BeginHistory(s.begun, frames, s.conns[c].parts, s.conns[c].log);
    }
  }

  lemma {:induction false} OfferKeepsOk(maxFrame: int, s: State, id: NodeId, ctxDone: bool, result: SendResult)
    requires Ok(s) && Enabled(s, Offer(id, ctxDone, result))
    ensures Ok(Do(maxFrame, s, Offer(id, ctxDone, result)))
  {
    hide History;
    var s' := Do(maxFrame, s, Offer(id, ctxDone, result));
    var active := ActiveConn(s, id);
    forall c | 0 <= c < |s'.conns|
      ensures Explained(s'.begun, s'.conns[c]) && UpToDate(s', c)
    {
      ConnOk(s, c);
      if active == Some(c) && result == Sent { PlaceExplains(s.begun, s.conns[c]); }
    }
  }

  lemma {:induction false} NextFrameKeepsOk(maxFrame: int, s: State)
    requires Ok(s) && Enabled(s, NextFrame)
    ensures Ok(Do(maxFrame, s, NextFrame))
  {
    hide History;
    var s' := Do(maxFrame, s, NextFrame);
    forall c | 0 <= c < |s'.conns|
      ensures Explained(s'.begun, s'.conns[c]) && UpToDate(s', c)
    {
      ConnOk(s, c);
    }
  }

  lemma {:induction false} NextKeepsOk(maxFrame: int, s: State, step: Step)
    requires Ok(s)
    ensures Ok(Next(maxFrame, s, step))
  {
    hide Do;
    hide Ok;
    if Enabled(s, step) {
      match step
      case Attach(id, capacity) => AttachKeepsOk(maxFrame, s, id, capacity);
      case Begin(frames) => BeginKeepsOk(maxFrame, s, frames);
      case Offer(id, ctxDone, result) => OfferKeepsOk(maxFrame, s, id, ctxDone, result);
      case NextFrame => NextFrameKeepsOk(maxFrame, s);
      case Know(_) => SlotStepKeepsOk(maxFrame, s, step);
      case Detach(_) => SlotStepKeepsOk(maxFrame, s, step);
      case _ => ConnStepKeepsOk(maxFrame, s, step);
    }
  }

  lemma {:induction false} RunKeepsOk(maxFrame: int, s: State, steps: seq<Step>)
    requires Ok(s)
    ensures Ok(RunFrom(maxFrame, s, steps))
    decreases |steps|
  {
    hide Next;
    hide Ok;
    if steps != [] {
      NextKeepsOk(maxFrame, s, steps[0]);
      RunKeepsOk(maxFrame, Next(maxFrame, s, steps[0]), steps[1..]);
    }
  }
}
