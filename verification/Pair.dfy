/** Two nodes and every socket between them: offers at both ends in any order, refusals, supersessions,
    breaks, and the closes they lead to. `Low` is the node with the smaller id. */
module Pair {
  import opened Wire
  import opened Peers

  datatype Ids = Ids(low: NodeId, high: NodeId)

  datatype Side = Low | High

  datatype Fate = Pending | Started | Refused | Abandoned

  /** One end of a socket. An abandoned end is one whose dialer dropped it before offering it. */
  datatype End = End(fate: Fate, superseded: bool, reported: bool, closed: bool)
  {
    predicate Removed() {
      fate == Refused || fate == Abandoned || superseded
    }

    /** This end is to be closed and has not been yet. */
    predicate CloseDue() {
      (fate == Refused || superseded || reported) && !closed
    }
  }

  datatype Socket = Socket(dialer: Side, low: End, high: End, broken: bool)
  {
    function At(side: Side): End {
      if side == Low then low else high
    }

    function With(side: Side, end: End): Socket {
      if side == Low then this.(low := end) else this.(high := end)
    }

    /** What can bring a socket down in the first place. */
    predicate HasCause() {
      broken || low.Removed() || high.Removed()
    }

    /** Each end notices a broken socket and a close by either end. */
    predicate Down() {
      broken || low.closed || high.closed
    }
  }

  datatype State = State(sockets: seq<Socket>, lowSlot: Option<nat>, highSlot: Option<nat>)
  {
    function SlotAt(side: Side): Option<nat> {
      if side == Low then lowSlot else highSlot
    }

    function WithSlot(side: Side, slot: Option<nat>): State {
      if side == Low then this.(lowSlot := slot) else this.(highSlot := slot)
    }
  }

  const NO_SOCKETS := State([], None, None)
  const FRESH_END := End(Pending, false, false, false)

  datatype Step =
    | Connect(dialer: Side)
    | Offer(k: nat, side: Side)
    | Abandon(k: nat)
    | Break(k: nat)
    | Report(k: nat, side: Side)
    | Close(k: nat, side: Side)

  function IdOf(ids: Ids, side: Side): NodeId {
    if side == Low then ids.low else ids.high
  }

  function Other(side: Side): Side {
    if side == Low then High else Low
  }

  function DirectionOf(ids: Ids, side: Side, dialer: Side): Direction {
    DirectionAt(IdOf(ids, side), IdOf(ids, dialer))
  }

  function SetEnd(s: State, k: nat, side: Side, end: End): State
    requires k < |s.sockets|
  {
    s.(sockets := s.sockets[k := s.sockets[k].With(side, end)])
  }

  /** The slot decision at one node, as that node alone sees it. */
  function DecisionAt(ids: Ids, s: State, k: nat, side: Side): Decision
    requires k < |s.sockets|
  {
    var slot := s.SlotAt(side);
    var current := if slot.Some? && slot.value < |s.sockets|
                   then Some(DirectionOf(ids, side, s.sockets[slot.value].dialer)) else None;
    Decide(current, DirectionOf(ids, side, s.sockets[k].dialer), PreferredDirection(IdOf(ids, side), IdOf(ids, Other(side))))
  }

  /** Empties the slot, marking the end that held it. */
  function ClearFor(s: State, side: Side): State {
    var slot := s.SlotAt(side);
    if slot.Some? && slot.value < |s.sockets|
    then SetEnd(s, slot.value, side, s.sockets[slot.value].At(side).(superseded := true)).WithSlot(side, None)
    else s
  }

  function Refuse(s: State, k: nat, side: Side): State
    requires k < |s.sockets|
  {
    SetEnd(s, k, side, s.sockets[k].At(side).(fate := Refused))
  }

  function Take(s: State, k: nat, side: Side): State
    requires k < |s.sockets|
  {
    SetEnd(s, k, side, s.sockets[k].At(side).(fate := Started)).WithSlot(side, Some(k))
  }

  function Offered(ids: Ids, s: State, k: nat, side: Side): State
    requires k < |s.sockets|
  {
    match DecisionAt(ids, s, k, side)
    case Reject => Refuse(s, k, side)
    case _ => Take(ClearFor(s, side), k, side)
  }

  predicate Enabled(s: State, step: Step) {
    match step
    case Connect(_) => true
    case Offer(k, side) => k < |s.sockets| && s.sockets[k].At(side).fate == Pending
    case Abandon(k) => k < |s.sockets| && s.sockets[k].At(s.sockets[k].dialer).fate == Pending
    case Break(k) => k < |s.sockets|
    case Report(k, side) => k < |s.sockets| && s.sockets[k].At(side).fate == Started && s.sockets[k].Down()
    case Close(k, side) => k < |s.sockets| && s.sockets[k].At(side).CloseDue()
  }

  function Do(ids: Ids, s: State, step: Step): State
    requires Enabled(s, step)
  {
    match step
    case Connect(dialer) => s.(sockets := s.sockets + [Socket(dialer, FRESH_END, FRESH_END, false)])
    case Offer(k, side) => Offered(ids, s, k, side)
    case Abandon(k) =>
      var side := s.sockets[k].dialer;
      SetEnd(s, k, side, s.sockets[k].At(side).(fate := Abandoned, closed := true))
    case Break(k) => s.(sockets := s.sockets[k := s.sockets[k].(broken := true)])
    case Report(k, side) =>
      var told := SetEnd(s, k, side, s.sockets[k].At(side).(reported := true));
      if s.SlotAt(side) == Some(k) then told.WithSlot(side, None) else told
    case Close(k, side) => SetEnd(s, k, side, s.sockets[k].At(side).(closed := true))
  }

  function Next(ids: Ids, s: State, step: Step): State {
    if Enabled(s, step) then Do(ids, s, step) else s
  }

  function RunFrom(ids: Ids, s: State, steps: seq<Step>): State
    decreases |steps|
  {
    if steps == [] then s else RunFrom(ids, Next(ids, s, steps[0]), steps[1..])
  }

  function Reached(ids: Ids, steps: seq<Step>): State {
    RunFrom(ids, NO_SOCKETS, steps)
  }

  // ---- What every state satisfies ----

  /** One end, given whether it holds its node's slot, whether its socket is down, and with a cause. */
  predicate EndFine(end: End, holds: bool, down: bool, caused: bool) {
    && (holds ==> end.fate == Started && !end.superseded && !end.reported && !end.closed)
    && (end.fate == Started && !holds ==> end.superseded || end.reported)
    && (end.fate == Pending ==> end == FRESH_END)
    && (end.fate == Abandoned ==> end.closed)
    && (end.reported ==> down)
    && (end.closed ==> end.Removed() || end.reported)
    && (end.reported || end.closed ==> caused)
  }

  predicate EndOk(s: State, k: nat, side: Side)
    requires k < |s.sockets|
  {
    var socket := s.sockets[k];
    && EndFine(socket.At(side), s.SlotAt(side) == Some(k), socket.Down(), socket.HasCause())
    && (socket.At(side).fate == Abandoned ==> socket.dialer == side)
  }

  predicate SlotOk(s: State, side: Side) {
    s.SlotAt(side).Some? ==> s.SlotAt(side).value < |s.sockets|
  }

  predicate Ok(s: State) {
    && SlotOk(s, Low) && SlotOk(s, High)
    && forall k :: 0 <= k < |s.sockets| ==> EndOk(s, k, Low) && EndOk(s, k, High)
  }

  /** Only socket `k` and whether it holds a slot may differ. */
  predicate SameBut(s: State, s': State, k: nat) {
    && k < |s.sockets| == |s'.sockets|
    && (forall j :: 0 <= j < |s.sockets| && j != k ==> s'.sockets[j] == s.sockets[j])
    && (forall side :: s'.SlotAt(side) == s.SlotAt(side)
                       || (s'.SlotAt(side) == None && s.SlotAt(side) == Some(k))
                       || (s'.SlotAt(side) == Some(k) && s.SlotAt(side) == None))
  }

  lemma {:induction false} SameButKeepsOk(s: State, s': State, k: nat)
    requires Ok(s) && SameBut(s, s', k) && EndOk(s', k, Low) && EndOk(s', k, High)
    ensures Ok(s')
  {
    forall side
      ensures SlotOk(s', side)
    {
      assert SlotOk(s, Low) && SlotOk(s, High);
      if side == Low { assert SlotOk(s, side); }
    }
    forall j | 0 <= j < |s'.sockets|
      ensures EndOk(s', j, Low) && EndOk(s', j, High)
    {
      if j != k {
        assert EndOk(s, j, Low) && EndOk(s, j, High);
        assert s'.SlotAt(Low) == Some(j) <==> s.SlotAt(Low) == Some(j);
        assert s'.SlotAt(High) == Some(j) <==> s.SlotAt(High) == Some(j);
      }
    }
  }

  lemma {:induction false} ClearKeepsOk(s: State, side: Side)
    requires Ok(s)
    ensures Ok(ClearFor(s, side)) && ClearFor(s, side).SlotAt(side).None?
  {
    if s.SlotAt(side).Some? {
      var k := s.SlotAt(side).value;
      assert SlotOk(s, side);
      assert EndOk(s, k, Low) && EndOk(s, k, High);
      SameButKeepsOk(s, ClearFor(s, side), k);
    }
  }

  lemma {:induction false} TakeKeepsOk(s: State, k: nat, side: Side)
    requires Ok(s) && Enabled(s, Offer(k, side)) && s.SlotAt(side).None?
    ensures Ok(Take(s, k, side))
  {
    assert EndOk(s, k, Low) && EndOk(s, k, High);
    SameButKeepsOk(s, Take(s, k, side), k);
  }

  lemma {:induction false} RefuseKeepsOk(s: State, k: nat, side: Side)
    requires Ok(s) && Enabled(s, Offer(k, side))
    ensures Ok(Refuse(s, k, side))
  {
    assert EndOk(s, k, Low) && EndOk(s, k, High);
    SameButKeepsOk(s, Refuse(s, k, side), k);
  }

  lemma {:induction false} OfferKeepsOk(ids: Ids, s: State, k: nat, side: Side)
    requires Ok(s) && Enabled(s, Offer(k, side))
    ensures Ok(Offered(ids, s, k, side))
  {
    if DecisionAt(ids, s, k, side) == Reject {
      RefuseKeepsOk(s, k, side);
    } else {
      assert EndOk(s, k, Low) && EndOk(s, k, High);
      ClearKeepsOk(s, side);
      assert Enabled(ClearFor(s, side), Offer(k, side));
      TakeKeepsOk(ClearFor(s, side), k, side);
    }
  }

  lemma {:induction false} ReportKeepsOk(ids: Ids, s: State, k: nat, side: Side)
    requires Ok(s) && Enabled(s, Report(k, side))
    ensures Ok(Do(ids, s, Report(k, side)))
  {
    assert EndOk(s, k, Low) && EndOk(s, k, High);
    SameButKeepsOk(s, Do(ids, s, Report(k, side)), k);
  }

  lemma {:induction false} CloseKeepsOk(ids: Ids, s: State, k: nat, side: Side)
    requires Ok(s) && Enabled(s, Close(k, side))
    ensures Ok(Do(ids, s, Close(k, side)))
  {
    assert EndOk(s, k, Low) && EndOk(s, k, High);
    SameButKeepsOk(s, Do(ids, s, Close(k, side)), k);
  }

  lemma {:induction false} AbandonKeepsOk(ids: Ids, s: State, k: nat)
    requires Ok(s) && Enabled(s, Abandon(k))
    ensures Ok(Do(ids, s, Abandon(k)))
  {
    assert EndOk(s, k, Low) && EndOk(s, k, High);
    SameButKeepsOk(s, Do(ids, s, Abandon(k)), k);
  }

  lemma {:induction false} BreakKeepsOk(ids: Ids, s: State, k: nat)
    requires Ok(s) && Enabled(s, Break(k))
    ensures Ok(Do(ids, s, Break(k)))
  {
    assert EndOk(s, k, Low) && EndOk(s, k, High);
    SameButKeepsOk(s, Do(ids, s, Break(k)), k);
  }

  lemma {:induction false} ConnectKeepsOk(ids: Ids, s: State, dialer: Side)
    requires Ok(s)
    ensures Ok(Do(ids, s, Connect(dialer)))
  {
    var s' := Do(ids, s, Connect(dialer));
    forall j | 0 <= j < |s'.sockets|
      ensures EndOk(s', j, Low) && EndOk(s', j, High)
    {
      if j < |s.sockets| { assert EndOk(s, j, Low) && EndOk(s, j, High); }
    }
  }

  lemma {:induction false} NextKeepsOk(ids: Ids, s: State, step: Step)
    requires Ok(s)
    ensures Ok(Next(ids, s, step)) && |s.sockets| <= |Next(ids, s, step).sockets|
  {
    hide EndFine;
    if Enabled(s, step) {
      match step
      case Connect(dialer) => ConnectKeepsOk(ids, s, dialer);
      case Offer(k, side) => OfferKeepsOk(ids, s, k, side);
      case Abandon(k) => AbandonKeepsOk(ids, s, k);
      case Break(k) => BreakKeepsOk(ids, s, k);
      case Report(k, side) => ReportKeepsOk(ids, s, k, side);
      case Close(k, side) => CloseKeepsOk(ids, s, k, side);
    }
  }

  lemma {:induction false} RunKeepsOk(ids: Ids, s: State, steps: seq<Step>)
    requires Ok(s)
    ensures Ok(RunFrom(ids, s, steps)) && |s.sockets| <= |RunFrom(ids, s, steps).sockets|
    decreases |steps|
  {
    hide Next;
    hide Ok;
    if steps != [] {
      NextKeepsOk(ids, s, steps[0]);
      RunKeepsOk(ids, Next(ids, s, steps[0]), steps[1..]);
    }
  }

  // ---- Agreement once everything has settled ----

  predicate Settled(socket: Socket, side: Side) {
    var end := socket.At(side);
    end.fate != Pending && !end.CloseDue() && (end.fate == Started && socket.Down() ==> end.reported)
  }

  /** All offers made, all ends noticed, all closes done. */
  predicate Quiescent(s: State) {
    forall k :: 0 <= k < |s.sockets| ==> Settled(s.sockets[k], Low) && Settled(s.sockets[k], High)
  }

  /** In a settled state a live socket holds the slot at both ends. */
  lemma {:induction false} LiveHoldsBothSlots(s: State, k: nat)
    requires Ok(s) && Quiescent(s) && k < |s.sockets| && !s.sockets[k].Down()
    ensures s.lowSlot == Some(k) && s.highSlot == Some(k)
  {
    assert EndOk(s, k, Low) && EndOk(s, k, High);
    assert Settled(s.sockets[k], Low) && Settled(s.sockets[k], High);
  }

  /** In a settled state a socket in either slot is live. */
  lemma {:induction false} HeldIsLive(s: State, k: nat, side: Side)
    requires Ok(s) && Quiescent(s) && s.SlotAt(side) == Some(k)
    ensures k < |s.sockets| && !s.sockets[k].Down()
  {
    assert EndOk(s, k, Low) && EndOk(s, k, High);
    assert Settled(s.sockets[k], Low) && Settled(s.sockets[k], High);
  }

  /** In a settled state a socket that is not live is closed at both ends. */
  lemma {:induction false} DeadIsClosed(s: State, k: nat)
    requires Ok(s) && Quiescent(s) && k < |s.sockets| && s.sockets[k].Down()
    ensures s.sockets[k].low.closed && s.sockets[k].high.closed
  {
    assert EndOk(s, k, Low) && EndOk(s, k, High);
    assert Settled(s.sockets[k], Low) && Settled(s.sockets[k], High);
  }

  /** After any run that has settled, whatever sockets were opened from either side: the two slots
      agree, the socket in them is the only live one, and every other is closed at both ends. */
  lemma {:induction false} SettledEndsAgree(ids: Ids, steps: seq<Step>, k: nat)
    requires Quiescent(Reached(ids, steps)) && k < |Reached(ids, steps).sockets|
    ensures var s := Reached(ids, steps);
      && s.lowSlot == s.highSlot
      && (!s.sockets[k].Down() <==> s.lowSlot == Some(k))
      && (s.sockets[k].Down() ==> s.sockets[k].low.closed && s.sockets[k].high.closed)
  {
    var s := Reached(ids, steps);
    RunKeepsOk(ids, NO_SOCKETS, steps);
    forall side | s.SlotAt(side).Some?
      ensures s.lowSlot == s.SlotAt(side) == s.highSlot
    {
      HeldIsLive(s, s.SlotAt(side).value, side);
      LiveHoldsBothSlots(s, s.SlotAt(side).value);
    }
    assert s.lowSlot.Some? ==> s.SlotAt(Low).Some?;
    assert s.highSlot.Some? ==> s.SlotAt(High).Some?;
    if s.sockets[k].Down() {
      DeadIsClosed(s, k);
      if s.lowSlot == Some(k) { HeldIsLive(s, k, Low); }
    } else {
      LiveHoldsBothSlots(s, k);
    }
  }

  // ---- Settling takes boundedly many steps ----

  function EndWork(end: End): nat {
    (if end.fate == Pending then 1 else 0) + (if end.reported then 0 else 1) + (if end.closed then 0 else 1)
  }

  function Work(sockets: seq<Socket>): nat {
    if sockets == [] then 0 else EndWork(sockets[0].low) + EndWork(sockets[0].high) + Work(sockets[1..])
  }

  lemma {:induction false} WorkOfUpdate(sockets: seq<Socket>, k: nat, socket: Socket)
    requires k < |sockets|
    ensures Work(sockets[k := socket])
         == Work(sockets) - EndWork(sockets[k].low) - EndWork(sockets[k].high) + EndWork(socket.low) + EndWork(socket.high)
  {
    if k == 0 {
      assert sockets[k := socket][1..] == sockets[1..];
    } else {
      assert sockets[k := socket][1..] == sockets[1..][k - 1 := socket];
      WorkOfUpdate(sockets[1..], k - 1, socket);
    }
  }

  lemma {:induction false} WorkIsBounded(sockets: seq<Socket>)
    ensures Work(sockets) <= 6 * |sockets|
  {
    if sockets != [] { WorkIsBounded(sockets[1..]); }
  }

  /** The step an unsettled end still has to take. */
  function Due(s: State, k: nat, side: Side): Step
    requires k < |s.sockets|
  {
    var end := s.sockets[k].At(side);
    if end.fate == Pending then Offer(k, side) else if end.CloseDue() then Close(k, side) else Report(k, side)
  }

  lemma {:induction false} ClearingIsNoWork(s: State, side: Side)
    requires SlotOk(s, side)
    ensures Work(ClearFor(s, side).sockets) == Work(s.sockets) && |ClearFor(s, side).sockets| == |s.sockets|
  {
    var slot := s.SlotAt(side);
    if slot.Some? {
      WorkOfUpdate(s.sockets, slot.value, s.sockets[slot.value].With(side, s.sockets[slot.value].At(side).(superseded := true)));
      assert ClearFor(s, side).sockets
          == s.sockets[slot.value := s.sockets[slot.value].With(side, s.sockets[slot.value].At(side).(superseded := true))];
    }
  }

  lemma {:induction false} DecidingWorks(s: State, k: nat, side: Side, fate: Fate)
    requires k < |s.sockets| && s.sockets[k].At(side).fate == Pending && fate != Pending
    ensures Work(SetEnd(s, k, side, s.sockets[k].At(side).(fate := fate)).sockets) < Work(s.sockets)
  {
    WorkOfUpdate(s.sockets, k, s.sockets[k].With(side, s.sockets[k].At(side).(fate := fate)));
  }

  lemma {:induction false} OfferWorks(ids: Ids, s: State, k: nat, side: Side)
    requires Ok(s) && Enabled(s, Offer(k, side))
    ensures Work(Offered(ids, s, k, side).sockets) < Work(s.sockets)
    ensures |Offered(ids, s, k, side).sockets| == |s.sockets|
  {
    hide Work;
    assert EndOk(s, k, Low) && EndOk(s, k, High);
    if DecisionAt(ids, s, k, side) == Reject {
      DecidingWorks(s, k, side, Refused);
    } else {
      ClearingIsNoWork(s, side);
      DecidingWorks(ClearFor(s, side), k, side, Started);
    }
  }

  /** A step that gets on with what is already decided: an offer, a close, or an end's first report. */
  predicate Progress(s: State, step: Step) {
    Enabled(s, step) && (step.Offer? || step.Close? || (step.Report? && !s.sockets[step.k].At(step.side).reported))
  }

  lemma {:induction false} ProgressWorks(ids: Ids, s: State, step: Step)
    requires Ok(s) && Progress(s, step)
    ensures Work(Do(ids, s, step).sockets) < Work(s.sockets) && |Do(ids, s, step).sockets| == |s.sockets|
  {
    var end := s.sockets[step.k].At(step.side);
    match step
    case Offer(k, side) => OfferWorks(ids, s, k, side);
    case Close(k, side) => WorkOfUpdate(s.sockets, k, s.sockets[k].With(side, end.(closed := true)));
    case Report(k, side) => WorkOfUpdate(s.sockets, k, s.sockets[k].With(side, end.(reported := true)));
  }

  predicate AllProgress(ids: Ids, s: State, steps: seq<Step>)
    decreases |steps|
  {
    steps == [] || (Progress(s, steps[0]) && AllProgress(ids, Next(ids, s, steps[0]), steps[1..]))
  }

  lemma {:induction false} ProgressIsBounded(ids: Ids, s: State, steps: seq<Step>)
    requires Ok(s) && AllProgress(ids, s, steps)
    ensures |steps| + Work(RunFrom(ids, s, steps).sockets) <= Work(s.sockets)
    decreases |steps|
  {
    if steps != [] {
      hide Do;
      hide Ok;
      hide Work;
      ProgressWorks(ids, s, steps[0]);
      NextKeepsOk(ids, s, steps[0]);
      ProgressIsBounded(ids, Next(ids, s, steps[0]), steps[1..]);
    }
  }

  /** An unsettled end has a step to take. */
  lemma {:induction false} DueIsProgress(s: State, k: nat, side: Side)
    requires k < |s.sockets| && !Settled(s.sockets[k], side)
    ensures Progress(s, Due(s, k, side))
  {
  }

  lemma {:induction false} SettledMeansNoProgress(s: State, step: Step)
    requires Ok(s) && Quiescent(s)
    ensures !Progress(s, step)
  {
    if Enabled(s, step) && (step.Offer? || step.Close? || step.Report?) {
      assert Settled(s.sockets[step.k], Low) && Settled(s.sockets[step.k], High);
    }
  }

  /** Settling, whatever the schedule: once no more sockets open or break, every run of offers, closes and
      first reports ends within six steps per socket, and where none is left to take all has settled. */
  lemma {:induction false} Settles(ids: Ids, s: State, steps: seq<Step>)
    requires Ok(s) && AllProgress(ids, s, steps)
    ensures |steps| <= 6 * |s.sockets|
    ensures Quiescent(RunFrom(ids, s, steps)) <==> forall step :: !Progress(RunFrom(ids, s, steps), step)
  {
    var s' := RunFrom(ids, s, steps);
    ProgressIsBounded(ids, s, steps);
    WorkIsBounded(s.sockets);
    RunKeepsOk(ids, s, steps);
    if Quiescent(s') {
      forall step
        ensures !Progress(s', step)
      {
        SettledMeansNoProgress(s', step);
      }
    } else {
      var k :| 0 <= k < |s'.sockets| && !(Settled(s'.sockets[k], Low) && Settled(s'.sockets[k], High));
      DueIsProgress(s', k, if Settled(s'.sockets[k], Low) then High else Low);
    }
  }
}
