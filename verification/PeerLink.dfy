/** One peer at one node, over every interleaving of service announcements, pruning, inbound
    connections, the dial loop, the two pumps of every connection, and the gap between releasing
    the peer's lock and the follow-up that was decided under it. Each critical section is one step. */
module PeerLink {
  import opened Wire
  import opened Peers
  import opened Backoff

  datatype Config = Config(self: NodeId, peer: NodeId, minimum: int64, maximum: int64, staleAfter: int)

  /** Where a dial loop is. */
  datatype Phase =
    | Waiting     // for a token
    | Attempting  // about to prepare a dial
    | Dialing
    | Returned    // the dial succeeded; the backoff is about to be reset
    | Sleeping    // between attempts; a token wakes it too
    | Stopped

  datatype Pump = Running | Reported | Done

  /** A connection offered to the slot. A refused one is never started. */
  datatype Conn = Conn(dir: Direction, started: bool, reader: Pump, writer: Pump, closeDue: nat, closed: bool)
  {
    /** Closed, or with someone who is about to close it. */
    predicate Leaving() {
      closed || closeDue > 0 || reader == Reported || writer == Reported
    }
  }

  datatype Link = Link(
    view: PeerView<nat>,
    conns: seq<Conn>,
    loops: seq<Phase>,
    toEnsure: nat,   // announcements between the peer's lock and ensureDialLoop
    toSpawn: nat,    // callers told to start the dial loop
    toTrigger: nat,  // callers between a lock and triggerReconnect
    cancelled: bool,
    bumps: nat)      // successful prepareDial calls since the last reset

  const FRESH := Link(NewPeer(), [], [], 0, 0, 0, false, 0)

  datatype Step =
    | Announced(a: Announcement, now: int)
    | Ensure
    | Spawn
    | Fire
    | PruneAt(now: int)
    | InboundArrives(name: Bytes)
    | LoopWakes(i: nat)
    | LoopTimer(i: nat)
    | LoopPrepares(i: nat)
    | DialFails(i: nat)
    | DialSucceeds(i: nat, name: Bytes)
    | LoopResets(i: nat)
    | LoopStops(i: nat)
    | PumpReports(c: nat, isReader: bool)
    | PumpCloses(c: nat, isReader: bool)
    | RequestedClose(c: nat)
    | ShutdownCloses
    | Cancel

  // ---- Steps ----

  function RequestClose(conns: seq<Conn>, c: nat): seq<Conn> {
    if c < |conns| then conns[c := conns[c].(closeDue := conns[c].closeDue + 1)] else conns
  }

  /** A new connection is offered to the slot under the peer's lock. */
  function Offer(cfg: Config, s: Link, dir: Direction, name: Bytes): Link {
    var decision := DecideFor(cfg.self, cfg.peer, s.view, dir);
    var older := if decision == Supersede && s.view.slot.Some? then RequestClose(s.conns, s.view.slot.value.conn) else s.conns;
    var refused := decision == Reject;
    s.(view := Attached(cfg.self, cfg.peer, s.view, |s.conns|, dir, name),
       conns := older + [Conn(dir, !refused, Running, Running, if refused then 1 else 0, false)],
       bumps := if refused then s.bumps else 0)
  }

  function PumpOf(conn: Conn, isReader: bool): Pump {
    if isReader then conn.reader else conn.writer
  }

  function SetPump(conn: Conn, isReader: bool, p: Pump): Conn {
    if isReader then conn.(reader := p) else conn.(writer := p)
  }

  /** A pump that ends first reports, which clears the slot only if this connection holds it. */
  function Report(cfg: Config, s: Link, c: nat, isReader: bool): Link
    requires c < |s.conns|
  {
    s.(view := Detached(s.view, c),
       conns := s.conns[c := SetPump(s.conns[c], isReader, Reported)],
       toTrigger := s.toTrigger + if AsksReconnect(cfg.self, cfg.peer, s.view, c) then 1 else 0)
  }

  predicate LoopIs(s: Link, i: nat, phase: Phase) {
    i < |s.loops| && s.loops[i] == phase
  }

  function SetLoop(s: Link, i: nat, phase: Phase): Link
    requires i < |s.loops|
  {
    s.(loops := s.loops[i := phase])
  }

  predicate Enabled(cfg: Config, s: Link, step: Step) {
    match step
    case Announced(a, _) => UsableAnnouncement(a)
    case Ensure => s.toEnsure > 0
    case Spawn => s.toSpawn > 0
    case Fire => s.toTrigger > 0
    case PruneAt(_) => true
    case InboundArrives(_) => true
    case LoopWakes(i) => s.view.token && (LoopIs(s, i, Waiting) || LoopIs(s, i, Sleeping))
    case LoopTimer(i) => LoopIs(s, i, Sleeping)
    case LoopPrepares(i) => LoopIs(s, i, Attempting)
    case DialFails(i) => LoopIs(s, i, Dialing)
    case DialSucceeds(i, _) => LoopIs(s, i, Dialing)
    case LoopResets(i) => LoopIs(s, i, Returned)
    case LoopStops(i) => s.cancelled && (LoopIs(s, i, Waiting) || LoopIs(s, i, Sleeping))
    case PumpReports(c, isReader) => c < |s.conns| && s.conns[c].started && PumpOf(s.conns[c], isReader) == Running
    case PumpCloses(c, isReader) => c < |s.conns| && PumpOf(s.conns[c], isReader) == Reported
    case RequestedClose(c) => c < |s.conns| && s.conns[c].closeDue > 0
    case ShutdownCloses => s.cancelled && s.view.slot.Some?
    case Cancel => true
  }

  function Do(cfg: Config, s: Link, step: Step): Link
    requires Enabled(cfg, s, step)
  {
    match step
    case Announced(a, now) =>
      s.(view := Discovered(s.view, a, now),
         toEnsure := s.toEnsure + if ShouldDial(cfg.self, cfg.peer) then 1 else 0)
    case Ensure =>
      if s.view.dialLoopStarted then s.(toEnsure := s.toEnsure - 1, toTrigger := s.toTrigger + 1)
      else s.(toEnsure := s.toEnsure - 1, toSpawn := s.toSpawn + 1, view := s.view.(dialLoopStarted := true))
    case Spawn => s.(toSpawn := s.toSpawn - 1, loops := s.loops + [Waiting], toTrigger := s.toTrigger + 1)
    case Fire => s.(toTrigger := s.toTrigger - 1, view := s.view.(token := true))
    case PruneAt(now) => s.(view := Pruned(s.view, now, cfg.staleAfter))
    case InboundArrives(name) => Offer(cfg, s, Inbound, name)
    case LoopWakes(i) => SetLoop(s.(view := s.view.(token := false)), i, Attempting)
    case LoopTimer(i) => SetLoop(s, i, Attempting)
    case LoopPrepares(i) =>
      if MayDial(cfg.self, cfg.peer, s.view) then
        SetLoop(s.(view := Prepared(cfg.self, cfg.peer, s.view, cfg.minimum, cfg.maximum), bumps := s.bumps + 1), i, Dialing)
      else SetLoop(s, i, Waiting)
    case DialFails(i) => SetLoop(s, i, Sleeping)
    case DialSucceeds(i, name) => Offer(cfg, SetLoop(s, i, Returned), Outbound, name)
    case LoopResets(i) => SetLoop(s.(view := s.view.(backoff := 0), bumps := 0), i, Waiting)
    case LoopStops(i) => SetLoop(s, i, Stopped)
    case PumpReports(c, isReader) => Report(cfg, s, c, isReader)
    case PumpCloses(c, isReader) =>
      s.(conns := s.conns[c := SetPump(s.conns[c], isReader, Done).(closed := true)])
    case RequestedClose(c) =>
      s.(conns := s.conns[c := s.conns[c].(closeDue := s.conns[c].closeDue - 1, closed := true)])
    case ShutdownCloses => s.(conns := RequestClose(s.conns, s.view.slot.value.conn))
    case Cancel => s.(cancelled := true)
  }

  /** Steps that are not enabled are skipped. */
  function Next(cfg: Config, s: Link, step: Step): Link {
    if Enabled(cfg, s, step) then Do(cfg, s, step) else s
  }

  function RunFrom(cfg: Config, s: Link, steps: seq<Step>): Link
    decreases |steps|
  {
    if steps == [] then s else RunFrom(cfg, Next(cfg, s, steps[0]), steps[1..])
  }

  /** The state after any run of a peer that starts unknown. */
  function Reached(cfg: Config, steps: seq<Step>): Link {
    RunFrom(cfg, FRESH, steps)
  }

  // ---- Invariants ----

  predicate Holds(s: Link, c: nat) {
    s.view.slot.Some? && s.view.slot.value.conn == c
  }

  /** The slot's connection was started and neither of its pumps has reported; everything else ever
      offered is on its way out; `connected` says whether the slot is taken. */
  predicate SlotOk(s: Link) {
    && (s.view.connected <==> s.view.slot.Some?)
    && (s.view.slot.Some? ==>
          var c := s.view.slot.value.conn;
          && c < |s.conns| && s.conns[c].started && s.conns[c].dir == s.view.slot.value.dir
          && s.conns[c].reader == Running && s.conns[c].writer == Running)
    && (forall c :: 0 <= c < |s.conns| && !Holds(s, c) ==> s.conns[c].Leaving())
  }

  /** At most one dial loop, started exactly when the flag says so. */
  predicate LoopsOk(s: Link) {
    && |s.loops| + s.toSpawn == (if s.view.dialLoopStarted then 1 else 0)
    && (forall i :: 0 <= i < |s.loops| && s.loops[i] == Stopped ==> s.cancelled)
  }

  /** The dial loop is in its attempt loop, on the way to another attempt or its outcome. */
  predicate Inside(s: Link) {
    exists i :: 0 <= i < |s.loops| && (s.loops[i] == Attempting || s.loops[i] == Dialing || s.loops[i] == Sleeping)
  }

  /** A token is buffered, someone is about to buffer one or start the loop, or the loop is at it. */
  predicate Awake(s: Link) {
    s.view.token || s.toTrigger > 0 || s.toEnsure > 0 || s.toSpawn > 0 || Inside(s)
  }

  /** This node should be dialling the peer. */
  predicate WantsDial(cfg: Config, s: Link) {
    !s.cancelled && ShouldDial(cfg.self, cfg.peer) && s.view.discovered && s.view.slot.None?
  }

  /** No reconnect is lost: whenever this node should be dialling, a token is buffered, someone is
      about to buffer one, or the dial loop is at it. */
  predicate NothingLost(cfg: Config, s: Link) {
    WantsDial(cfg, s) ==> Awake(s)
  }

  /** A discovered peer of a dialling node has its loop, or someone is about to start it. */
  predicate LoopWillExist(cfg: Config, s: Link) {
    s.view.discovered && ShouldDial(cfg.self, cfg.peer) && !s.view.dialLoopStarted ==> s.toEnsure > 0
  }

  predicate DiscoveredIffUsable(s: Link) {
    s.view.discovered <==> Usable(s.view)
  }

  predicate BackoffCounts(cfg: Config, s: Link) {
    s.view.backoff == After(s.bumps, cfg.minimum, cfg.maximum)
  }

  predicate Inv(cfg: Config, s: Link) {
    && SlotOk(s) && LoopsOk(s) && NothingLost(cfg, s) && LoopWillExist(cfg, s) && DiscoveredIffUsable(s)
    && BackoffCounts(cfg, s)
  }

  // ---- The slot ----

  predicate SameSlot(s: Link, s': Link) {
    s'.conns == s.conns && s'.view.slot == s.view.slot && s'.view.connected == s.view.connected
  }

  /** No connection that was on its way out comes back, and one that still holds the slot keeps running. */
  predicate OneConnMoves(s: Link, s': Link, c: nat) {
    && c < |s.conns| && |s'.conns| == |s.conns| && s'.view == s.view
    && var conn := s'.conns[c];
    && s'.conns == s.conns[c := conn] && (s.conns[c].Leaving() ==> conn.Leaving())
    && conn.started == s.conns[c].started && conn.dir == s.conns[c].dir
    && (Holds(s, c) ==> conn.reader == Running && conn.writer == Running)
  }

  lemma {:induction false} MovingKeepsSlot(s: Link, s': Link, c: nat)
    requires SlotOk(s) && OneConnMoves(s, s', c)
    ensures SlotOk(s')
  {
  }

  lemma {:induction false} OfferKeepsSlot(cfg: Config, s: Link, dir: Direction, name: Bytes)
    requires SlotOk(s)
    ensures SlotOk(Offer(cfg, s, dir, name))
  {
    var s' := Offer(cfg, s, dir, name);
    forall c | 0 <= c < |s'.conns| && !Holds(s', c)
      ensures s'.conns[c].Leaving()
    {
      if c < |s.conns| && !Holds(s, c) { assert s.conns[c].Leaving(); }
    }
  }

  lemma {:induction false} ReportKeepsSlot(cfg: Config, s: Link, c: nat, isReader: bool)
    requires SlotOk(s) && c < |s.conns|
    ensures SlotOk(Report(cfg, s, c, isReader))
  {
  }

  predicate LeavesSlot(step: Step) {
    !step.InboundArrives? && !step.DialSucceeds? && !step.PumpReports? && !step.PumpCloses?
    && !step.RequestedClose? && !step.ShutdownCloses?
  }

  lemma {:induction false} OtherStepsLeaveSlot(cfg: Config, s: Link, step: Step)
    requires Enabled(cfg, s, step) && LeavesSlot(step)
    ensures SameSlot(s, Do(cfg, s, step))
  {
  }

  lemma {:induction false} PumpClosesMoves(cfg: Config, s: Link, c: nat, isReader: bool)
    requires SlotOk(s) && Enabled(cfg, s, PumpCloses(c, isReader))
    ensures OneConnMoves(s, Do(cfg, s, PumpCloses(c, isReader)), c)
  {
    assert !Holds(s, c);
    assert SetPump(s.conns[c], isReader, Done).(closed := true).Leaving();
  }

  lemma {:induction false} RequestedCloseMoves(cfg: Config, s: Link, c: nat)
    requires SlotOk(s) && Enabled(cfg, s, RequestedClose(c))
    ensures OneConnMoves(s, Do(cfg, s, RequestedClose(c)), c)
  {
    assert s.conns[c].(closeDue := s.conns[c].closeDue - 1, closed := true).Leaving();
  }

  lemma {:induction false} ShutdownMoves(cfg: Config, s: Link)
    requires SlotOk(s) && Enabled(cfg, s, ShutdownCloses)
    ensures OneConnMoves(s, Do(cfg, s, ShutdownCloses), s.view.slot.value.conn)
  {
    var c := s.view.slot.value.conn;
    assert s.conns[c].(closeDue := s.conns[c].closeDue + 1).Leaving();
  }

  lemma {:induction false} StepKeepsSlot(cfg: Config, s: Link, step: Step)
    requires SlotOk(s) && Enabled(cfg, s, step)
    ensures SlotOk(Do(cfg, s, step))
  {
    var s' := Do(cfg, s, step);
    if LeavesSlot(step) {
      OtherStepsLeaveSlot(cfg, s, step);
    } else if step.InboundArrives? {
      OfferKeepsSlot(cfg, s, Inbound, step.name);
    } else if step.DialSucceeds? {
      OfferKeepsSlot(cfg, SetLoop(s, step.i, Returned), Outbound, step.name);
    } else if step.PumpReports? {
      ReportKeepsSlot(cfg, s, step.c, step.isReader);
    } else if step.PumpCloses? {
      PumpClosesMoves(cfg, s, step.c, step.isReader);
      MovingKeepsSlot(s, s', step.c);
    } else if step.RequestedClose? {
      RequestedCloseMoves(cfg, s, step.c);
      MovingKeepsSlot(s, s', step.c);
    } else {
      ShutdownMoves(cfg, s);
      MovingKeepsSlot(s, s', s.view.slot.value.conn);
    }
  }

  // ---- The dial loop ----

  predicate MovesLoop(step: Step) {
    step.LoopWakes? || step.LoopTimer? || step.LoopPrepares? || step.DialFails? || step.DialSucceeds?
    || step.LoopResets? || step.LoopStops?
  }

  /** Neither the flag nor the number of loops changes, and a loop stops only after cancellation. */
  predicate SameLoops(s: Link, s': Link) {
    && s'.view.dialLoopStarted == s.view.dialLoopStarted && s'.toSpawn == s.toSpawn && |s'.loops| == |s.loops|
    && (s.cancelled ==> s'.cancelled)
    && forall i :: 0 <= i < |s.loops| ==> s'.loops[i] == s.loops[i] || s'.loops[i] != Stopped || s'.cancelled
  }

  lemma {:induction false} LoopStepsKeepLoops(cfg: Config, s: Link, step: Step)
    requires Enabled(cfg, s, step) && MovesLoop(step)
    ensures SameLoops(s, Do(cfg, s, step))
  {
  }

  lemma {:induction false} QuietStepsKeepLoops(cfg: Config, s: Link, step: Step)
    requires Enabled(cfg, s, step) && !MovesLoop(step) && step != Ensure && step != Spawn
    ensures SameLoops(s, Do(cfg, s, step)) && Do(cfg, s, step).loops == s.loops
  {
  }

  lemma {:induction false} StepKeepsLoops(cfg: Config, s: Link, step: Step)
    requires LoopsOk(s) && Enabled(cfg, s, step)
    ensures LoopsOk(Do(cfg, s, step))
  {
    if step != Ensure && step != Spawn {
      if MovesLoop(step) { LoopStepsKeepLoops(cfg, s, step); } else { QuietStepsKeepLoops(cfg, s, step); }
    }
  }

  // ---- Discovery ----

  predicate SameRecord(s: Link, s': Link) {
    && s'.view.discovered == s.view.discovered && s'.view.lastSeen == s.view.lastSeen && s'.view.port == s.view.port && s'.view.addresses == s.view.addresses
    && s'.view.wsPath == s.view.wsPath && s'.view.proto == s.view.proto
    && s'.view.dialLoopStarted == s.view.dialLoopStarted && s'.toEnsure == s.toEnsure
  }

  lemma {:induction false} LoopStepsKeepRecord(cfg: Config, s: Link, step: Step)
    requires Enabled(cfg, s, step) && MovesLoop(step)
    ensures SameRecord(s, Do(cfg, s, step))
  {
  }

  lemma {:induction false} QuietStepsKeepRecord(cfg: Config, s: Link, step: Step)
    requires Enabled(cfg, s, step) && !MovesLoop(step) && !step.Announced? && !step.PruneAt? && step != Ensure
    ensures SameRecord(s, Do(cfg, s, step))
  {
  }

  lemma {:induction false} StepKeepsDiscovery(cfg: Config, s: Link, step: Step)
    requires Enabled(cfg, s, step) && DiscoveredIffUsable(s) && LoopWillExist(cfg, s)
    ensures DiscoveredIffUsable(Do(cfg, s, step)) && LoopWillExist(cfg, Do(cfg, s, step))
  {
    if MovesLoop(step) {
      LoopStepsKeepRecord(cfg, s, step);
    } else if !step.Announced? && !step.PruneAt? && step != Ensure {
      QuietStepsKeepRecord(cfg, s, step);
    }
  }

  // ---- The backoff ----

  lemma {:induction false} OtherStepsKeepBackoff(cfg: Config, s: Link, step: Step)
    requires Enabled(cfg, s, step)
    requires !step.LoopPrepares? && !step.LoopResets? && !step.InboundArrives? && !step.DialSucceeds?
    ensures Do(cfg, s, step).view.backoff == s.view.backoff && Do(cfg, s, step).bumps == s.bumps
  {
  }

  lemma {:induction false} StepKeepsBackoff(cfg: Config, s: Link, step: Step)
    requires Enabled(cfg, s, step) && BackoffCounts(cfg, s)
    ensures BackoffCounts(cfg, Do(cfg, s, step))
  {
    if !step.LoopPrepares? && !step.LoopResets? && !step.InboundArrives? && !step.DialSucceeds? {
      OtherStepsKeepBackoff(cfg, s, step);
    }
  }

  // ---- No reconnect is lost ----

  /** Moving one loop between phases of its attempt loop keeps it inside. */
  lemma {:induction false} StaysInside(s: Link, s': Link, i: nat, phase: Phase)
    requires i < |s.loops| && s'.loops == s.loops[i := phase]
    requires phase == Attempting || phase == Dialing || phase == Sleeping
    ensures Inside(s')
  {
    assert s'.loops[i] == phase;
  }

  lemma {:induction false} LoopStepsStayAwake(cfg: Config, s: Link, step: Step)
    requires Enabled(cfg, s, step) && (step.LoopWakes? || step.LoopTimer? || step.DialFails?)
    ensures Awake(Do(cfg, s, step))
  {
    match step
    case LoopWakes(i) => StaysInside(s, Do(cfg, s, step), i, Attempting);
    case LoopTimer(i) => StaysInside(s, Do(cfg, s, step), i, Attempting);
    case DialFails(i) => StaysInside(s, Do(cfg, s, step), i, Sleeping);
  }

  /** Preparing either dials or happens when no dial is wanted. */
  lemma {:induction false} PreparingStaysAwake(cfg: Config, s: Link, i: nat)
    requires Enabled(cfg, s, LoopPrepares(i)) && DiscoveredIffUsable(s) && WantsDial(cfg, Do(cfg, s, LoopPrepares(i)))
    ensures Awake(Do(cfg, s, LoopPrepares(i)))
  {
    assert MayDial(cfg.self, cfg.peer, s.view);
    StaysInside(s, Do(cfg, s, LoopPrepares(i)), i, Dialing);
  }

  /** A dial that succeeds leaves the slot taken. */
  lemma {:induction false} SuccessNeedsNoDial(cfg: Config, s: Link, i: nat, name: Bytes)
    requires Enabled(cfg, s, DialSucceeds(i, name))
    ensures !WantsDial(cfg, Do(cfg, s, DialSucceeds(i, name)))
  {
  }

  /** A loop that resets or stops was not inside its attempt loop, or the node is cancelled. */
  lemma {:induction false} ResetStaysAwake(cfg: Config, s: Link, i: nat)
    requires Enabled(cfg, s, LoopResets(i)) && Awake(s)
    ensures Awake(Do(cfg, s, LoopResets(i)))
  {
    var s' := Do(cfg, s, LoopResets(i));
    if Inside(s) {
      var j :| 0 <= j < |s.loops| && (s.loops[j] == Attempting || s.loops[j] == Dialing || s.loops[j] == Sleeping);
      assert s'.loops[j] == s.loops[j];
    }
  }

  lemma {:induction false} QuietStepsStayAwake(cfg: Config, s: Link, step: Step)
    requires Enabled(cfg, s, step) && !MovesLoop(step) && Awake(s)
    ensures Awake(Do(cfg, s, step))
  {
    var s' := Do(cfg, s, step);
    assert s.loops <= s'.loops;
    if Inside(s) {
      var j :| 0 <= j < |s.loops| && (s.loops[j] == Attempting || s.loops[j] == Dialing || s.loops[j] == Sleeping);
      assert s'.loops[j] == s.loops[j];
    }
  }

  /** A quiet step that makes a dial wanted leaves a follow-up pending. */
  lemma {:induction false} NewWishesArePending(cfg: Config, s: Link, step: Step)
    requires Enabled(cfg, s, step) && !MovesLoop(step) && WantsDial(cfg, Do(cfg, s, step)) && !WantsDial(cfg, s)
    ensures Awake(Do(cfg, s, step))
  {
  }

  lemma {:induction false} ResetWishes(cfg: Config, s: Link, i: nat)
    requires Enabled(cfg, s, LoopResets(i))
    ensures WantsDial(cfg, Do(cfg, s, LoopResets(i))) ==> WantsDial(cfg, s)
  {
  }

  lemma {:induction false} StepLosesNothing(cfg: Config, s: Link, step: Step)
    requires Enabled(cfg, s, step) && NothingLost(cfg, s) && DiscoveredIffUsable(s)
    ensures NothingLost(cfg, Do(cfg, s, step))
  {
    var s' := Do(cfg, s, step);
    if WantsDial(cfg, s') {
      if step.LoopPrepares? {
        PreparingStaysAwake(cfg, s, step.i);
      } else if step.LoopResets? {
        ResetWishes(cfg, s, step.i);
        ResetStaysAwake(cfg, s, step.i);
      } else if step.DialSucceeds? {
        SuccessNeedsNoDial(cfg, s, step.i, step.name);
      } else if MovesLoop(step) && !step.LoopStops? {
        LoopStepsStayAwake(cfg, s, step);
      } else if !MovesLoop(step) {
        if WantsDial(cfg, s) { QuietStepsStayAwake(cfg, s, step); } else { NewWishesArePending(cfg, s, step); }
      }
    }
  }
}
