/** A broadcast gives each peer each frame at most once, also when the peer's connection is replaced
    while the broadcast is under way. */
module OncePerPeer {
  import opened Wire
  import opened Peers
  import opened Broadcasting

  /** A slot holds the peer's newest connection. */
  predicate NewestHolds(s: State) {
    forall id, d :: id in s.slots && s.slots[id].Some? && s.slots[id].value < d < |s.conns| ==> s.conns[d].owner != id
  }

  function LastPart(conn: Conn): Part
    requires conn.parts != []
  {
    conn.parts[|conn.parts| - 1]
  }

  /** No connection, in its slot or not, was given more than its peer has been offered. */
  predicate NotAhead(s: State) {
    s.sender.Sending? ==> forall c :: 0 <= c < |s.conns| && s.conns[c].parts != [] ==>
      LastPart(s.conns[c]).to <= s.sender.next + if s.conns[c].owner in s.sender.todo then 0 else 1
  }

  /** Of one broadcast, an older connection's part ends before a newer one's begins. */
  predicate Apart(a: seq<Part>, b: seq<Part>) {
    forall i, j :: 0 <= i < |a| && 0 <= j < |b| && a[i].of == b[j].of ==> a[i].to <= b[j].from
  }

  predicate AllApart(s: State) {
    forall c, d :: 0 <= c < d < |s.conns| && s.conns[c].owner == s.conns[d].owner ==> Apart(s.conns[c].parts, s.conns[d].parts)
  }

  predicate Once(s: State) {
    Ok(s) && NewestHolds(s) && NotAhead(s) && AllApart(s)
  }

  lemma {:induction false} StepKeepsNewest(maxFrame: int, s: State, step: Step)
    requires SlotsOk(s) && NewestHolds(s) && Enabled(s, step)
    ensures NewestHolds(Do(maxFrame, s, step))
  {
  }

  lemma {:induction false} OtherStepsNotAhead(maxFrame: int, s: State, step: Step)
    requires Ok(s) && NotAhead(s) && Enabled(s, step) && !step.Offer?
    ensures NotAhead(Do(maxFrame, s, step))
  {
    hide Explained;
  }

  lemma {:induction false} OfferNotAhead(maxFrame: int, s: State, id: NodeId, ctxDone: bool, result: SendResult)
    requires Ok(s) && NotAhead(s) && Enabled(s, Offer(id, ctxDone, result))
    ensures NotAhead(Do(maxFrame, s, Offer(id, ctxDone, result)))
  {
    var active := ActiveConn(s, id);
    if active.Some? { ConnOk(s, active.value); }
  }

  lemma {:induction false} ApartOnBegin(a: seq<Part>, b: seq<Part>, of: nat)
    requires Apart(a, b) && (forall p :: p in a ==> p.of < of) && (forall p :: p in b ==> p.of < of)
    ensures Apart(a + [Part(of, 0, 0)], b + [Part(of, 0, 0)])
  {
  }

  lemma {:induction false} PartsBefore(begun: seq<seq<Bytes>>, conn: Conn)
    requires Explained(begun, conn)
    ensures forall p :: p in conn.parts ==> p.of < |begun|
  {
  }

  lemma {:induction false} BeginKeepsApart(maxFrame: int, s: State, frames: seq<Bytes>)
    requires Once(s) && Enabled(s, Begin(frames))
    ensures AllApart(Do(maxFrame, s, Begin(frames)))
  {
    var s' := Do(maxFrame, s, Begin(frames));
    forall c, d | 0 <= c < d < |s'.conns| && s'.conns[c].owner == s'.conns[d].owner
      ensures Apart(s'.conns[c].parts, s'.conns[d].parts)
    {
      ConnOk(s, c);
      ConnOk(s, d);
      PartsBefore(s.begun, s.conns[c]);
      PartsBefore(s.begun, s.conns[d]);
      ApartOnBegin(s.conns[c].parts, s.conns[d].parts, |s.begun|);
    }
  }

  /** A new connection's first part begins where its peer's older ones have ended. */
  lemma {:induction false} AttachKeepsApart(maxFrame: int, s: State, id: NodeId, capacity: nat)
    requires Once(s) && Enabled(s, Attach(id, capacity))
    ensures AllApart(Do(maxFrame, s, Attach(id, capacity)))
  {
    var s' := Do(maxFrame, s, Attach(id, capacity));
    forall c | 0 <= c < |s.conns| && s.conns[c].owner == id
      ensures Apart(s.conns[c].parts, FirstParts(s, id))
    {
      ConnOk(s, c);
      LastIsLatest(s.begun, s.conns[c]);
    }
  }

  /** Only the last part belongs to the latest broadcast. */
  lemma {:induction false} LastIsLatest(begun: seq<seq<Bytes>>, conn: Conn)
    requires Explained(begun, conn)
    ensures forall i :: 0 <= i < |conn.parts| && conn.parts[i].of == |begun| - 1 ==> i == |conn.parts| - 1
  {
    if conn.parts != [] { assert conn.parts[|conn.parts| - 1].of == conn.parts[0].of + |conn.parts| - 1; }
  }

  /** Only a peer's newest connection grows, and no part ever moves its beginning. */
  lemma {:induction false} OfferKeepsApart(maxFrame: int, s: State, id: NodeId, ctxDone: bool, result: SendResult)
    requires Once(s) && Enabled(s, Offer(id, ctxDone, result))
    ensures AllApart(Do(maxFrame, s, Offer(id, ctxDone, result)))
  {
    var s' := Do(maxFrame, s, Offer(id, ctxDone, result));
    var active := ActiveConn(s, id);
    if active.Some? && result == Sent {
      forall c, d | 0 <= c < d < |s'.conns| && s'.conns[c].owner == s'.conns[d].owner
        ensures Apart(s'.conns[c].parts, s'.conns[d].parts)
      {
        assert c != active.value;
        assert Apart(s.conns[c].parts, s.conns[d].parts);
        if d == active.value { PlaceKeepsBeginnings(s.conns[c].parts, s.conns[d], s.sender.frames[s.sender.next]); }
      }
    }
  }

  lemma {:induction false} PlaceKeepsBeginnings(a: seq<Part>, conn: Conn, frame: Bytes)
    requires Apart(a, conn.parts)
    ensures Apart(a, Place(conn, frame).parts)
  {
    var placed := Place(conn, frame);
    assert forall j :: 0 <= j < |conn.parts| ==>
        placed.parts[j].of == conn.parts[j].of && placed.parts[j].from == conn.parts[j].from;
  }

  lemma {:induction false} NextKeepsOnce(maxFrame: int, s: State, step: Step)
    requires Once(s)
    ensures Once(Next(maxFrame, s, step))
  {
    NextKeepsOk(maxFrame, s, step);
    if Enabled(s, step) {
      hide Ok;
      hide NewestHolds;
      hide NotAhead;
      assert SlotsOk(s) by { OkMeansSlotsOk(s); }
      StepKeepsNewest(maxFrame, s, step);
      match step
      case Begin(frames) =>
        OtherStepsNotAhead(maxFrame, s, step);
        BeginKeepsApart(maxFrame, s, frames);
      case Attach(id, capacity) =>
        OtherStepsNotAhead(maxFrame, s, step);
        AttachKeepsApart(maxFrame, s, id, capacity);
      case Offer(id, ctxDone, result) =>
        OfferNotAhead(maxFrame, s, id, ctxDone, result);
        OfferKeepsApart(maxFrame, s, id, ctxDone, result);
      case _ =>
        OtherStepsNotAhead(maxFrame, s, step);
        QuietKeepsApart(maxFrame, s, step);
    }
  }

  lemma {:induction false} OkMeansSlotsOk(s: State)
    requires Ok(s)
    ensures SlotsOk(s)
  {
  }

  lemma {:induction false} QuietKeepsApart(maxFrame: int, s: State, step: Step)
    requires AllApart(s) && Enabled(s, step) && !step.Begin? && !step.Attach? && !step.Offer?
    ensures AllApart(Do(maxFrame, s, step))
  {
    var s' := Do(maxFrame, s, step);
    assert |s'.conns| == |s.conns|;
    assert forall c :: 0 <= c < |s.conns| ==> s'.conns[c].owner == s.conns[c].owner && s'.conns[c].parts == s.conns[c].parts;
  }

  lemma {:induction false} RunKeepsOnce(maxFrame: int, s: State, steps: seq<Step>)
    requires Once(s)
    ensures Once(RunFrom(maxFrame, s, steps))
    decreases |steps|
  {
    hide Next;
    hide Once;
    if steps != [] {
      NextKeepsOnce(maxFrame, s, steps[0]);
      RunKeepsOnce(maxFrame, Next(maxFrame, s, steps[0]), steps[1..]);
    }
  }

  predicate Covers(p: Part, of: nat, f: nat) {
    p.of == of && p.from <= f < p.to
  }

  /** On every run, of all the connections a peer ever had, at most one was given frame `f` of a
      broadcast, and that one once. */
  lemma {:induction false} EachPeerOnce(maxFrame: int, steps: seq<Step>, c: nat, d: nat, i: nat, j: nat, of: nat, f: nat)
    requires var s := Reached(maxFrame, steps);
      && c < |s.conns| && d < |s.conns| && s.conns[c].owner == s.conns[d].owner
      && i < |s.conns[c].parts| && j < |s.conns[d].parts|
      && Covers(s.conns[c].parts[i], of, f) && Covers(s.conns[d].parts[j], of, f)
    ensures c == d && i == j
  {
    var s := Reached(maxFrame, steps);
    RunKeepsOnce(maxFrame, NOBODY, steps);
    ConnOk(s, c);
  }
}
