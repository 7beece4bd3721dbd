/** What holds in every state a peer's link can reach, whatever the interleaving. */
module PeerRuns {
  import opened Wire
  import opened Peers
  import opened Backoff
  import opened PeerLink

  lemma {:induction false} FreshIsFine(cfg: Config)
    ensures Inv(cfg, FRESH)
  {
  }

  lemma {:induction false} NextKeepsInv(cfg: Config, s: Link, step: Step)
    requires Inv(cfg, s)
    ensures Inv(cfg, Next(cfg, s, step))
  {
    hide Do;
    if Enabled(cfg, s, step) {
      StepKeepsSlot(cfg, s, step);
      StepKeepsLoops(cfg, s, step);
      StepKeepsDiscovery(cfg, s, step);
      StepKeepsBackoff(cfg, s, step);
      StepLosesNothing(cfg, s, step);
    }
  }

  lemma {:induction false} RunKeepsInv(cfg: Config, s: Link, steps: seq<Step>)
    requires Inv(cfg, s)
    ensures Inv(cfg, RunFrom(cfg, s, steps))
    decreases |steps|
  {
    hide Next;
    hide Inv;
    if steps != [] {
      NextKeepsInv(cfg, s, steps[0]);
      RunKeepsInv(cfg, Next(cfg, s, steps[0]), steps[1..]);
    }
  }

  lemma {:induction false} ReachedIsFine(cfg: Config, steps: seq<Step>)
    ensures Inv(cfg, Reached(cfg, steps))
  {
    FreshIsFine(cfg);
    RunKeepsInv(cfg, FRESH, steps);
  }

  /** No lost reconnect: after any run, if this node should dial the peer, then a token is buffered,
      a trigger is pending behind a released lock, or the dial loop is at it or about to start. */
  lemma {:induction false} NoLostReconnect(cfg: Config, steps: seq<Step>)
    ensures WantsDial(cfg, Reached(cfg, steps)) ==> Awake(Reached(cfg, steps))
  {
    ReachedIsFine(cfg, steps);
  }

  /** `connected` reports the slot; a started connection outside the slot is closing or closed. */
  lemma {:induction false} SlotInvariant(cfg: Config, steps: seq<Step>, c: nat)
    ensures var s := Reached(cfg, steps);
      && (s.view.connected <==> s.view.slot.Some?)
      && (c < |s.conns| && !Holds(s, c) ==> s.conns[c].Leaving())
      && (Holds(s, c) ==> c < |s.conns| && s.conns[c].started && s.conns[c].reader == Running
                          && s.conns[c].writer == Running)
  {
    ReachedIsFine(cfg, steps);
  }

  /** The step that closes a connection on its way out. */
  function ClosingStep(s: Link, c: nat): Step
    requires c < |s.conns|
  {
    if s.conns[c].closeDue > 0 then RequestedClose(c) else PumpCloses(c, s.conns[c].reader == Reported)
  }

  /** Whatever connection was ever offered and does not hold the slot is closed, or one step of the node away
      from it; when the node shuts down, two steps close the one in the slot as well. */
  lemma {:induction false} OnlyTheSlotStaysOpen(cfg: Config, steps: seq<Step>, c: nat)
    requires c < |Reached(cfg, steps).conns|
    ensures var s := Reached(cfg, steps);
      !Holds(s, c) && !s.conns[c].closed ==>
        Enabled(cfg, s, ClosingStep(s, c)) && Next(cfg, s, ClosingStep(s, c)).conns[c].closed
    ensures var s := Reached(cfg, steps);
      Holds(s, c) && s.cancelled ==>
        Enabled(cfg, s, ShutdownCloses)
        && var s' := Next(cfg, s, ShutdownCloses);
          c < |s'.conns| && Enabled(cfg, s', ClosingStep(s', c)) && Next(cfg, s', ClosingStep(s', c)).conns[c].closed
  {
    hide RunFrom;
    ReachedIsFine(cfg, steps);
    hide Prepared;
    hide Attached;
  }

  /** Each peer gets at most one dial loop. */
  lemma {:induction false} OneDialLoop(cfg: Config, steps: seq<Step>)
    ensures |Reached(cfg, steps).loops| <= 1
  {
    ReachedIsFine(cfg, steps);
  }

  /** A discovered peer always has a usable record, so the second guard of a dial never refuses what
      the first let through. */
  lemma {:induction false} SecondGuardNeverRefuses(cfg: Config, steps: seq<Step>)
    ensures var v := Reached(cfg, steps).view;
      (v.discovered <==> Usable(v)) && (FirstGuard(cfg.self, cfg.peer, v) <==> MayDial(cfg.self, cfg.peer, v))
  {
    ReachedIsFine(cfg, steps);
  }

  /** On every run the backoff is the minimum doubled once per dial prepared since the last reset
      after the first, capped at the maximum. */
  lemma {:induction false} BackoffOnEveryRun(cfg: Config, steps: seq<Step>)
    requires Configured(cfg.minimum, cfg.maximum) && DoublingFits(cfg.maximum)
    ensures var s := Reached(cfg, steps); s.view.backoff == ClosedForm(s.bumps, cfg.minimum, cfg.maximum)
  {
    ReachedIsFine(cfg, steps);
    AfterIsClosedForm(Reached(cfg, steps).bumps, cfg.minimum, cfg.maximum);
  }

  // ---- Who stays discovered ----

  /** Every prune happens within the time allowed after `heard`, and no announcement is older. */
  predicate InTime(cfg: Config, steps: seq<Step>, heard: int) {
    forall k :: 0 <= k < |steps| ==>
      && (steps[k].PruneAt? ==> steps[k].now - heard <= cfg.staleAfter)
      && (steps[k].Announced? ==> steps[k].now >= heard)
  }

  predicate HeardSince(s: Link, heard: int) {
    s.view.discovered && s.view.lastSeen.Some? && s.view.lastSeen.value >= heard
  }

  lemma {:induction false} NextStaysHeard(cfg: Config, s: Link, step: Step, heard: int)
    requires HeardSince(s, heard)
    requires step.PruneAt? ==> step.now - heard <= cfg.staleAfter
    requires step.Announced? ==> step.now >= heard
    ensures HeardSince(Next(cfg, s, step), heard)
  {
    if Enabled(cfg, s, step) {
      if MovesLoop(step) {
        LoopStepsKeepRecord(cfg, s, step);
      } else if !step.Announced? && !step.PruneAt? && step != Ensure {
        QuietStepsKeepRecord(cfg, s, step);
      }
    }
  }

  /** A peer heard of at `heard` stays discovered through every run that prunes only in time; the first
      prune after that forgets it. */
  lemma {:induction false} HeardPeersStay(cfg: Config, s: Link, steps: seq<Step>, heard: int)
    requires HeardSince(s, heard) && InTime(cfg, steps, heard)
    ensures HeardSince(RunFrom(cfg, s, steps), heard)
    ensures forall now :: now - RunFrom(cfg, s, steps).view.lastSeen.value > cfg.staleAfter ==>
              !Next(cfg, RunFrom(cfg, s, steps), PruneAt(now)).view.discovered
    decreases |steps|
  {
    if steps == [] {
    } else {
      hide Next;
      hide HeardSince;
      NextStaysHeard(cfg, s, steps[0], heard);
      HeardPeersStay(cfg, Next(cfg, s, steps[0]), steps[1..], heard);
    }
  }

  // ---- Who can empty or take over the slot ----

  lemma {:induction false} StaleReportKeepsSuccessor(cfg: Config, s: Link, c: nat, isReader: bool)
    requires Enabled(cfg, s, PumpReports(c, isReader)) && !Holds(s, c)
    ensures Do(cfg, s, PumpReports(c, isReader)).view == s.view
    ensures Do(cfg, s, PumpReports(c, isReader)).toTrigger == s.toTrigger
  {
  }

  predicate HoldsPreferred(cfg: Config, s: Link, c: nat) {
    Holds(s, c) && s.view.slot.value.dir == PreferredDirection(cfg.self, cfg.peer)
  }

  lemma {:induction false} StepKeepsPreferred(cfg: Config, s: Link, step: Step, c: nat)
    requires HoldsPreferred(cfg, s, c) && !(step.PumpReports? && step.c == c)
    ensures HoldsPreferred(cfg, Next(cfg, s, step), c)
  {
    if Enabled(cfg, s, step) && LeavesSlot(step) { OtherStepsLeaveSlot(cfg, s, step); }
  }

  predicate ReportsNever(steps: seq<Step>, c: nat) {
    forall k :: 0 <= k < |steps| && steps[k].PumpReports? ==> steps[k].c != c
  }

  /** A preferred-direction connection keeps the slot through any run in which it does not itself end:
      nothing else rejects, supersedes or clears it. */
  lemma {:induction false} PreferredLeavesOnlyByItself(cfg: Config, s: Link, steps: seq<Step>, c: nat)
    requires HoldsPreferred(cfg, s, c) && ReportsNever(steps, c)
    ensures HoldsPreferred(cfg, RunFrom(cfg, s, steps), c)
    decreases |steps|
  {
    hide Next;
    hide HoldsPreferred;
    if steps != [] {
      StepKeepsPreferred(cfg, s, steps[0], c);
      PreferredLeavesOnlyByItself(cfg, Next(cfg, s, steps[0]), steps[1..], c);
    }
  }

  lemma {:induction false} StepBringsNothingBack(cfg: Config, s: Link, step: Step, c: nat)
    requires c < |s.conns| && !Holds(s, c)
    ensures c < |Next(cfg, s, step).conns| && !Holds(Next(cfg, s, step), c)
  {
    if Enabled(cfg, s, step) && LeavesSlot(step) { OtherStepsLeaveSlot(cfg, s, step); }
  }

  /** A connection that lost the slot, or never got it, never holds it again. */
  lemma {:induction false} OutOfTheSlotForGood(cfg: Config, s: Link, steps: seq<Step>, c: nat)
    requires c < |s.conns| && !Holds(s, c)
    ensures c < |RunFrom(cfg, s, steps).conns| && !Holds(RunFrom(cfg, s, steps), c)
    decreases |steps|
  {
    hide Next;
    hide Holds;
    if steps != [] {
      StepBringsNothingBack(cfg, s, steps[0], c);
      OutOfTheSlotForGood(cfg, Next(cfg, s, steps[0]), steps[1..], c);
    }
  }

  // ---- No reconnect from nowhere ----

  /** Nothing of a dial exists: no loop, no flag, no token and nobody about to make one. */
  predicate NothingOfADial(s: Link) {
    && s.loops == [] && !s.view.dialLoopStarted && !s.view.token
    && s.toEnsure == 0 && s.toSpawn == 0 && s.toTrigger == 0
  }

  lemma {:induction false} NextStaysPassive(cfg: Config, s: Link, step: Step)
    requires !ShouldDial(cfg.self, cfg.peer) && NothingOfADial(s)
    ensures NothingOfADial(Next(cfg, s, step))
  {
  }

  lemma {:induction false} RunStaysPassive(cfg: Config, s: Link, steps: seq<Step>)
    requires !ShouldDial(cfg.self, cfg.peer) && NothingOfADial(s)
    ensures NothingOfADial(RunFrom(cfg, s, steps))
    decreases |steps|
  {
    hide Next;
    hide NothingOfADial;
    if steps != [] {
      NextStaysPassive(cfg, s, steps[0]);
      RunStaysPassive(cfg, Next(cfg, s, steps[0]), steps[1..]);
    }
  }

  /** The node with the larger id never starts a dial loop, never buffers a token and never asks for a
      reconnect, whatever is announced and whatever connections end. */
  lemma {:induction false} OnlyTheSmallerIdDials(cfg: Config, steps: seq<Step>)
    requires !ShouldDial(cfg.self, cfg.peer)
    ensures NothingOfADial(Reached(cfg, steps))
  {
    RunStaysPassive(cfg, FRESH, steps);
  }

  /** The steps that have a reason to trigger: an announcement to a started loop, a loop just spawned, and
      the end of the connection in the slot of a discovered peer this node dials. */
  predicate Raises(cfg: Config, s: Link, step: Step) {
    Enabled(cfg, s, step) &&
    match step
    case Ensure => s.view.dialLoopStarted
    case Spawn => true
    case PumpReports(c, _) => Holds(s, c) && s.view.discovered && ShouldDial(cfg.self, cfg.peer)
    case _ => false
  }

  function Ones(b: bool): nat {
    if b then 1 else 0
  }

  function Raised(cfg: Config, s: Link, steps: seq<Step>): nat
    decreases |steps|
  {
    if steps == [] then 0 else Ones(Raises(cfg, s, steps[0])) + Raised(cfg, Next(cfg, s, steps[0]), steps[1..])
  }

  function Fired(cfg: Config, s: Link, steps: seq<Step>): nat
    decreases |steps|
  {
    if steps == [] then 0
    else Ones(steps[0] == Fire && Enabled(cfg, s, Fire)) + Fired(cfg, Next(cfg, s, steps[0]), steps[1..])
  }

  function Woken(cfg: Config, s: Link, steps: seq<Step>): nat
    decreases |steps|
  {
    if steps == [] then 0
    else Ones(steps[0].LoopWakes? && Enabled(cfg, s, steps[0])) + Woken(cfg, Next(cfg, s, steps[0]), steps[1..])
  }

  lemma {:induction false} NextTriggers(cfg: Config, s: Link, step: Step)
    ensures var s' := Next(cfg, s, step);
      && s'.toTrigger + Ones(step == Fire && Enabled(cfg, s, Fire)) == s.toTrigger + Ones(Raises(cfg, s, step))
      && Ones(step.LoopWakes? && Enabled(cfg, s, step)) + Ones(s'.view.token)
         <= Ones(s.view.token) + Ones(step == Fire && Enabled(cfg, s, Fire))
  {
  }

  lemma {:induction false} RunTriggers(cfg: Config, s: Link, steps: seq<Step>)
    ensures var s' := RunFrom(cfg, s, steps);
      && s'.toTrigger + Fired(cfg, s, steps) == s.toTrigger + Raised(cfg, s, steps)
      && Woken(cfg, s, steps) + Ones(s'.view.token) <= Ones(s.view.token) + Fired(cfg, s, steps)
    decreases |steps|
  {
    if steps != [] {
      hide Next;
      hide Raises;
      hide Enabled;
      NextTriggers(cfg, s, steps[0]);
      RunTriggers(cfg, Next(cfg, s, steps[0]), steps[1..]);
    }
  }

  /** On every run each trigger has one reason, and each waking of a loop by its channel uses up one
      trigger: a token is taken at most once. */
  lemma {:induction false} WakesHaveReasons(cfg: Config, steps: seq<Step>)
    ensures Woken(cfg, FRESH, steps) <= Fired(cfg, FRESH, steps) <= Raised(cfg, FRESH, steps)
    ensures Reached(cfg, steps).toTrigger == Raised(cfg, FRESH, steps) - Fired(cfg, FRESH, steps)
  {
    RunTriggers(cfg, FRESH, steps);
  }

  // ---- A node never refuses its own dial ----

  /** While a dial is under way, this node is the one to dial and no connection it dialled holds the slot. */
  predicate DialsAlone(cfg: Config, s: Link) {
    (exists i :: 0 <= i < |s.loops| && s.loops[i] == Dialing) ==>
      ShouldDial(cfg.self, cfg.peer) && (s.view.slot.Some? ==> s.view.slot.value.dir == Inbound)
  }

  /** A step brings no outbound connection into the slot unless it ends the only dial. */
  lemma {:induction false} QuietStepsDialAlone(cfg: Config, s: Link, step: Step)
    requires Enabled(cfg, s, step) && !MovesLoop(step)
    ensures var s' := Do(cfg, s, step);
      s'.view.slot.Some? && s'.view.slot.value.dir == Outbound ==> s.view.slot.Some? && s.view.slot.value.dir == Outbound
    ensures Do(cfg, s, step).loops == s.loops || Do(cfg, s, step).loops == s.loops + [Waiting]
  {
  }

  lemma {:induction false} LoopStepsDialAlone(cfg: Config, s: Link, step: Step)
    requires Enabled(cfg, s, step) && MovesLoop(step) && |s.loops| <= 1 && DialsAlone(cfg, s)
    ensures DialsAlone(cfg, Do(cfg, s, step))
  {
  }

  lemma {:induction false} NextDialsAlone(cfg: Config, s: Link, step: Step)
    requires LoopsOk(s) && DialsAlone(cfg, s)
    ensures DialsAlone(cfg, Next(cfg, s, step))
  {
    hide Do;
    if Enabled(cfg, s, step) {
      if MovesLoop(step) {
        LoopStepsDialAlone(cfg, s, step);
      } else {
        QuietStepsDialAlone(cfg, s, step);
      }
    }
  }

  lemma {:induction false} RunDialsAlone(cfg: Config, s: Link, steps: seq<Step>)
    requires Inv(cfg, s) && DialsAlone(cfg, s)
    ensures DialsAlone(cfg, RunFrom(cfg, s, steps))
    decreases |steps|
  {
    hide Next;
    hide DialsAlone;
    if steps != [] {
      NextKeepsInv(cfg, s, steps[0]);
      NextDialsAlone(cfg, s, steps[0]);
      RunDialsAlone(cfg, Next(cfg, s, steps[0]), steps[1..]);
    }
  }

  /** A dial that succeeds always gets the slot at the node that made it: by then nothing this node
      dialled is in it, and anything else gives way. */
  lemma {:induction false} OwnDialIsTaken(cfg: Config, steps: seq<Step>, i: nat, name: Bytes)
    requires Enabled(cfg, Reached(cfg, steps), DialSucceeds(i, name))
    ensures DecideFor(cfg.self, cfg.peer, Reached(cfg, steps).view, Outbound) != Reject
    ensures Holds(Next(cfg, Reached(cfg, steps), DialSucceeds(i, name)), |Reached(cfg, steps).conns|)
  {
    FreshIsFine(cfg);
    RunDialsAlone(cfg, FRESH, steps);
    assert Reached(cfg, steps).loops[i] == Dialing;
  }

  // ---- A wanted dial is a few of the program's own steps away ----

  /** Steps the node takes by itself: no announcement, no network event, no prune. */
  predicate Own(step: Step) {
    step.Ensure? || step.Spawn? || step.Fire? || step.LoopWakes? || step.LoopTimer? || step.LoopPrepares? || step.LoopResets?
  }

  predicate AllOwn(steps: seq<Step>) {
    forall k :: 0 <= k < |steps| ==> Own(steps[k])
  }

  predicate Waking(cfg: Config, s: Link) {
    Inv(cfg, s) && WantsDial(cfg, s)
  }

  /** How many own steps the dial is away. */
  function Distance(s: Link): nat {
    if s.loops == [] then (if s.toSpawn > 0 then 4 else 5)
    else if s.loops[0] == Dialing then 0
    else if s.loops[0] == Attempting then 1
    else if s.loops[0] == Sleeping then 2
    else if s.loops[0] == Returned then (if s.view.token then 3 else if s.toTrigger > 0 then 4 else 5)
    else if s.view.token then 2
    else if s.toTrigger > 0 then 3
    else 4
  }

  /** The step that brings the dial closer. */
  function NextOwn(s: Link): Step {
    if s.loops == [] then (if s.toSpawn > 0 then Spawn else Ensure)
    else if s.loops[0] == Attempting then LoopPrepares(0)
    else if s.loops[0] == Sleeping then LoopTimer(0)
    else if s.loops[0] == Returned then LoopResets(0)
    else if s.view.token then LoopWakes(0)
    else if s.toTrigger > 0 then Fire
    else Ensure
  }

  lemma {:induction false} NextOwnIsEnabled(cfg: Config, s: Link)
    requires Waking(cfg, s) && Distance(s) > 0
    ensures Own(NextOwn(s)) && Enabled(cfg, s, NextOwn(s))
  {
    if s.loops == [] {
      assert !Inside(s);
    } else {
      assert |s.loops| == 1 && s.toSpawn == 0;
      assert Inside(s) ==> s.loops[0] == Attempting || s.loops[0] == Dialing || s.loops[0] == Sleeping;
    }
  }

  lemma {:induction false} OwnStepsKeepTheWish(cfg: Config, s: Link, step: Step)
    requires WantsDial(cfg, s) && Own(step) && Enabled(cfg, s, step)
    ensures WantsDial(cfg, Do(cfg, s, step))
  {
  }

  lemma {:induction false} NextOwnGetsCloser(cfg: Config, s: Link)
    requires Waking(cfg, s) && Distance(s) > 0 && Enabled(cfg, s, NextOwn(s))
    ensures Distance(Do(cfg, s, NextOwn(s))) < Distance(s)
  {
    if s.loops != [] {
      assert |s.loops| == 1;
    }
  }

  /** From every state in which this node should dial, at most five of its own steps lead into a
      dial; a state that should dial but slept forever would contradict this. */
  lemma {:induction false} DialIsNear(cfg: Config, s: Link) returns (steps: seq<Step>)
    requires Waking(cfg, s)
    ensures AllOwn(steps) && |steps| <= Distance(s) <= 5
    ensures LoopIs(RunFrom(cfg, s, steps), 0, Dialing)
    decreases Distance(s)
  {
    if Distance(s) == 0 {
      steps := [];
    } else {
      var step := NextOwn(s);
      NextOwnIsEnabled(cfg, s);
      NextOwnGetsCloser(cfg, s);
      OwnStepsKeepTheWish(cfg, s, step);
      NextKeepsInv(cfg, s, step);
      var rest := DialIsNear(cfg, Do(cfg, s, step));
      steps := [step] + rest;
      assert steps[1..] == rest;
    }
  }

  lemma {:induction false} WantedDialIsNear(cfg: Config, steps: seq<Step>) returns (own: seq<Step>)
    requires WantsDial(cfg, Reached(cfg, steps))
    ensures AllOwn(own) && |own| <= 5 && LoopIs(RunFrom(cfg, Reached(cfg, steps), own), 0, Dialing)
  {
    ReachedIsFine(cfg, steps);
    own := DialIsNear(cfg, Reached(cfg, steps));
  }

  // ---- And no schedule of them goes on for ever ----

  function PhaseWork(phase: Phase): nat {
    match phase
    case Attempting => 1
    case Returned => 1
    case Sleeping => 2
    case _ => 0
  }

  /** A bound on the own steps still to come. */
  function OwnWork(s: Link): nat {
    5 * s.toEnsure + 4 * s.toSpawn + 3 * s.toTrigger + (if s.view.token then 2 else 0)
    + if s.loops == [] then 0 else PhaseWork(s.loops[0])
  }

  /** A run of possible own steps. */
  predicate OwnRun(cfg: Config, s: Link, steps: seq<Step>)
    decreases |steps|
  {
    steps == [] || (Own(steps[0]) && Enabled(cfg, s, steps[0]) && OwnRun(cfg, Next(cfg, s, steps[0]), steps[1..]))
  }

  lemma {:induction false} OwnStepWorks(cfg: Config, s: Link, step: Step)
    requires LoopsOk(s) && Own(step) && Enabled(cfg, s, step)
    ensures OwnWork(Do(cfg, s, step)) < OwnWork(s)
  {
  }

  lemma {:induction false} OwnRunWorks(cfg: Config, s: Link, steps: seq<Step>)
    requires Inv(cfg, s) && OwnRun(cfg, s, steps)
    ensures Inv(cfg, RunFrom(cfg, s, steps)) && |steps| + OwnWork(RunFrom(cfg, s, steps)) <= OwnWork(s)
    decreases |steps|
  {
    hide Do;
    hide OwnWork;
    if steps != [] {
      OwnStepWorks(cfg, s, steps[0]);
      NextKeepsInv(cfg, s, steps[0]);
      OwnRunWorks(cfg, Next(cfg, s, steps[0]), steps[1..]);
    }
  }

  /** However the node's own steps are scheduled, they come to an end, and where none is left to take the
      dial that is wanted is under way: no schedule spins, and none sleeps through a wanted dial. */
  lemma {:induction false} OwnStepsSettle(cfg: Config, steps: seq<Step>, own: seq<Step>)
    requires OwnRun(cfg, Reached(cfg, steps), own)
    ensures |own| <= OwnWork(Reached(cfg, steps))
    ensures var s := RunFrom(cfg, Reached(cfg, steps), own);
      (forall step :: Own(step) ==> !Enabled(cfg, s, step)) && WantsDial(cfg, s) ==> LoopIs(s, 0, Dialing)
  {
    ReachedIsFine(cfg, steps);
    OwnRunWorks(cfg, Reached(cfg, steps), own);
    var s := RunFrom(cfg, Reached(cfg, steps), own);
    if WantsDial(cfg, s) && Distance(s) > 0 {
      NextOwnIsEnabled(cfg, s);
    }
  }
}
