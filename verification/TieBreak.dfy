/** Why the two nodes never destroy each other's connections: the tie-break over all runs of a pair. */
module TieBreak {
  import opened Wire
  import opened Peers
  import opened Pair

  predicate Ordered(ids: Ids) {
    ShouldDial(ids.low, ids.high)
  }

  /** Two different nodes by the order of their ids. */
  function PairOf(a: NodeId, b: NodeId): (ids: Ids)
    requires a != b
    ensures Ordered(ids)
  {
    OneDials(a, b);
    if ShouldDial(a, b) then Ids(a, b) else Ids(b, a)
  }

  predicate LowDialled(s: State, k: nat) {
    k < |s.sockets| && s.sockets[k].dialer == Low
  }

  /** Both nodes prefer exactly the sockets the smaller id dialled, though each compares only its own
      directions. */
  lemma {:induction false} Verdict(ids: Ids, s: State, k: nat, side: Side)
    requires Ordered(ids) && k < |s.sockets| && SlotOk(s, side)
    ensures var slot := s.SlotAt(side);
      DecisionAt(ids, s, k, side) ==
        if slot.None? then Decision.TakeFree
        else if s.sockets[slot.value].dialer == s.sockets[k].dialer then Reject
        else if s.sockets[k].dialer == Low then Decision.Supersede
        else Reject
  {
    OneDials(ids.low, ids.high);
    OneDials(ids.low, ids.low);
  }

  /** Neither refused nor superseded. */
  predicate Kept(end: End) {
    end.fate != Refused && !end.superseded
  }

  /** Socket `k` is the only one the smaller id dialled. */
  predicate OnlyLow(s: State, k: nat) {
    LowDialled(s, k) && forall j :: 0 <= j < |s.sockets| && j != k ==> s.sockets[j].dialer == High
  }

  /** Steps neither lose sockets nor change who dialled them. */
  lemma {:induction false} NextKeepsDialers(ids: Ids, s: State, step: Step, k: nat)
    requires k < |s.sockets|
    ensures k < |Next(ids, s, step).sockets| && Next(ids, s, step).sockets[k].dialer == s.sockets[k].dialer
  {
    if Enabled(s, step) && step.Offer? { OfferKeepsDialers(ids, s, step.k, step.side, k); }
  }

  lemma {:induction false} OfferKeepsDialers(ids: Ids, s: State, j: nat, side: Side, k: nat)
    requires j < |s.sockets| && k < |s.sockets|
    ensures k < |Offered(ids, s, j, side).sockets| && Offered(ids, s, j, side).sockets[k].dialer == s.sockets[k].dialer
  {
    hide DecisionAt;
  }

  /** Only an offer to the same slot can remove a socket, and only by a decision against it. */
  predicate DecidedAgainst(ids: Ids, s: State, step: Step, k: nat, side: Side) {
    && step.Offer? && step.side == side && step.k < |s.sockets|
    && ((step.k == k && DecisionAt(ids, s, k, side) == Reject)
        || (s.SlotAt(side) == Some(k) && DecisionAt(ids, s, step.k, side) == Decision.Supersede))
  }

  lemma {:induction false} OfferKeepsEnd(ids: Ids, s: State, j: nat, at: Side, k: nat, side: Side)
    requires Ok(s) && Enabled(s, Offer(j, at)) && k < |s.sockets|
    requires Kept(s.sockets[k].At(side)) && !DecidedAgainst(ids, s, Offer(j, at), k, side)
    ensures Kept(Offered(ids, s, j, at).sockets[k].At(side))
  {
    assert SlotOk(s, Low) && SlotOk(s, High);
  }

  lemma {:induction false} OthersKeepEnd(ids: Ids, s: State, step: Step, k: nat, side: Side)
    requires Enabled(s, step) && !step.Offer? && k < |s.sockets| && Kept(s.sockets[k].At(side))
    ensures Kept(Do(ids, s, step).sockets[k].At(side))
  {
  }

  lemma {:induction false} NextKeepsEnd(ids: Ids, s: State, step: Step, k: nat, side: Side)
    requires Ok(s) && k < |s.sockets|
    requires Kept(s.sockets[k].At(side)) && !(Enabled(s, step) && DecidedAgainst(ids, s, step, k, side))
    ensures Kept(Next(ids, s, step).sockets[k].At(side))
  {
    if Enabled(s, step) {
      if step.Offer? { OfferKeepsEnd(ids, s, step.k, step.side, k, side); } else { OthersKeepEnd(ids, s, step, k, side); }
    }
  }

  // ---- A single preferred socket ----

  predicate OnlyLowKept(s: State) {
    forall k :: 0 <= k < |s.sockets| && OnlyLow(s, k) ==> Kept(s.sockets[k].low) && Kept(s.sockets[k].high)
  }

  lemma {:induction false} NeverDecidedAgainst(ids: Ids, s: State, step: Step, k: nat, side: Side)
    requires Ordered(ids) && Ok(s) && OnlyLow(s, k) && Enabled(s, step)
    ensures !DecidedAgainst(ids, s, step, k, side)
  {
    if step.Offer? && step.side == side {
      assert SlotOk(s, side) by { assert SlotOk(s, Low) && SlotOk(s, High); }
      Verdict(ids, s, step.k, side);
      assert EndOk(s, k, Low) && EndOk(s, k, High);
    }
  }

  lemma {:induction false} NextKeepsOnlyLow(ids: Ids, s: State, step: Step)
    requires Ordered(ids) && Ok(s) && OnlyLowKept(s)
    ensures OnlyLowKept(Next(ids, s, step))
  {
    hide Enabled;
    hide Do;
    hide DecidedAgainst;
    hide Ok;
    var s' := Next(ids, s, step);
    forall k: nat | OnlyLow(s', k)
      ensures Kept(s'.sockets[k].low) && Kept(s'.sockets[k].high)
    {
      if k < |s.sockets| {
        forall j | 0 <= j < |s.sockets| && j != k
          ensures s.sockets[j].dialer == High
        {
          NextKeepsDialers(ids, s, step, j);
        }
        NextKeepsDialers(ids, s, step, k);
        if Enabled(s, step) {
          NeverDecidedAgainst(ids, s, step, k, Low);
          NeverDecidedAgainst(ids, s, step, k, High);
        }
        NextKeepsEnd(ids, s, step, k, Low);
        NextKeepsEnd(ids, s, step, k, High);
      } else {
        NewSocketsAreFresh(ids, s, step, k);
      }
    }
  }

  lemma {:induction false} NewSocketsAreFresh(ids: Ids, s: State, step: Step, k: nat)
    requires |s.sockets| <= k < |Next(ids, s, step).sockets|
    ensures k == |s.sockets| && step.Connect?
    ensures Next(ids, s, step).sockets[k] == Socket(step.dialer, FRESH_END, FRESH_END, false)
  {
  }

  lemma {:induction false} RunKeepsOnlyLow(ids: Ids, s: State, steps: seq<Step>)
    requires Ordered(ids) && Ok(s) && OnlyLowKept(s)
    ensures Ok(RunFrom(ids, s, steps)) && OnlyLowKept(RunFrom(ids, s, steps))
    decreases |steps|
  {
    hide Next;
    hide Ok;
    hide OnlyLowKept;
    if steps != [] {
      NextKeepsOk(ids, s, steps[0]);
      NextKeepsOnlyLow(ids, s, steps[0]);
      RunKeepsOnlyLow(ids, Next(ids, s, steps[0]), steps[1..]);
    }
  }

  lemma {:induction false} OrderedPreferredSurvives(ids: Ids, steps: seq<Step>, k: nat, side: Side)
    requires Ordered(ids) && OnlyLow(Reached(ids, steps), k)
    ensures Survives(Reached(ids, steps), k, side)
  {
    RunKeepsOnlyLow(ids, NO_SOCKETS, steps);
    var s := Reached(ids, steps);
    assert EndOk(s, k, Low) && EndOk(s, k, High);
    assert Kept(s.sockets[k].low) && Kept(s.sockets[k].high);
  }

  /** Never refused or superseded; in the slot from its start to its own end; and unless the network
      broke it or its dialer dropped it, live and in the slot wherever it has been offered. */
  predicate Survives(s: State, k: nat, side: Side)
    requires k < |s.sockets|
  {
    var socket := s.sockets[k];
    && Kept(socket.At(side))
    && (socket.At(side).fate == Started ==> s.SlotAt(side) == Some(k) || socket.At(side).reported)
    && (!socket.broken && socket.low.fate != Abandoned ==>
          !socket.Down() && (socket.At(side).fate != Pending ==> s.SlotAt(side) == Some(k)))
  }

  /** Tie-break without mutual destruction. For any two different ids and after any run, in which both
      ends were offered in any order amid any number of sockets dialled by the larger id, the one socket
      dialled by the smaller id survives at both ends. */
  lemma {:induction false} PreferredSurvives(a: NodeId, b: NodeId, steps: seq<Step>, k: nat, side: Side)
    requires a != b && OnlyLow(Reached(PairOf(a, b), steps), k)
    ensures Survives(Reached(PairOf(a, b), steps), k, side)
  {
    OrderedPreferredSurvives(PairOf(a, b), steps, k, side);
  }

  // ---- Any number of preferred sockets, dialled one at a time ----

  /** The dial loop's condition: no earlier dial is still being offered here or holds the slot. */
  predicate LowIsFree(s: State) {
    forall p :: 0 <= p < |s.sockets| && s.sockets[p].dialer == Low ==>
      s.sockets[p].low.fate != Pending && s.lowSlot != Some(p)
  }

  /** The smaller id dials only when free, as its single dial loop does. */
  predicate Disciplined(ids: Ids, s: State, steps: seq<Step>)
    decreases |steps|
  {
    steps == []
    || ((steps[0] == Connect(Low) ==> LowIsFree(s)) && Disciplined(ids, Next(ids, s, steps[0]), steps[1..]))
  }

  predicate Gone(socket: Socket) {
    socket.low.fate == Abandoned || socket.low.reported
  }

  /** At its dialer every preferred socket is kept, and all but the last are gone. */
  predicate OneAtATime(s: State) {
    && (forall q :: 0 <= q < |s.sockets| && s.sockets[q].dialer == Low ==> Kept(s.sockets[q].low))
    && (forall p, q :: 0 <= p < q < |s.sockets| && s.sockets[p].dialer == Low && s.sockets[q].dialer == Low ==>
          Gone(s.sockets[p]))
  }

  lemma {:induction false} SetEndKeepsGone(s: State, k: nat, side: Side, end: End, p: nat)
    requires k < |s.sockets| && p < |s.sockets| && Gone(s.sockets[p])
    requires p == k && side == Low ==> end.fate == Abandoned || end.reported
    ensures Gone(SetEnd(s, k, side, end).sockets[p])
  {
  }

  lemma {:induction false} OfferedEndIsFresh(s: State, k: nat, side: Side, p: nat)
    requires Ok(s) && Enabled(s, Offer(k, side)) && p < |s.sockets| && Gone(s.sockets[p])
    ensures !(p == k && side == Low) && s.lowSlot != Some(p)
  {
    assert EndOk(s, p, Low);
  }

  lemma {:induction false} OfferKeepsGone(ids: Ids, s: State, k: nat, side: Side, p: nat)
    requires Ok(s) && Enabled(s, Offer(k, side)) && p < |s.sockets| && Gone(s.sockets[p])
    ensures p < |Offered(ids, s, k, side).sockets| && Gone(Offered(ids, s, k, side).sockets[p])
  {
    hide DecisionAt;
    hide EndFine;
    OfferedEndIsFresh(s, k, side, p);
    assert SlotOk(s, Low) && SlotOk(s, High);
    var cleared := ClearFor(s, side);
    var slot := s.SlotAt(side);
    if slot.Some? { SetEndKeepsGone(s, slot.value, side, s.sockets[slot.value].At(side).(superseded := true), p); }
    SetEndKeepsGone(cleared, k, side, cleared.sockets[k].At(side).(fate := Started), p);
    SetEndKeepsGone(s, k, side, s.sockets[k].At(side).(fate := Refused), p);
  }

  lemma {:induction false} GoneIsForGood(ids: Ids, s: State, step: Step, p: nat)
    requires Ok(s) && p < |s.sockets| && Gone(s.sockets[p])
    ensures p < |Next(ids, s, step).sockets| && Gone(Next(ids, s, step).sockets[p])
  {
    assert EndOk(s, p, Low);
    if Enabled(s, step) && step.Offer? { OfferKeepsGone(ids, s, step.k, step.side, p); }
  }

  /** At the dialer, no decision goes against a preferred socket. */
  lemma {:induction false} LowNeverDecidesAgainst(ids: Ids, s: State, step: Step, k: nat)
    requires Ordered(ids) && Ok(s) && OneAtATime(s) && LowDialled(s, k) && Enabled(s, step)
    ensures !DecidedAgainst(ids, s, step, k, Low)
  {
    if step.Offer? && step.side == Low {
      assert SlotOk(s, Low);
      Verdict(ids, s, step.k, Low);
      assert EndOk(s, k, Low) && EndOk(s, step.k, Low);
      if s.lowSlot.Some? {
        var h := s.lowSlot.value;
        assert EndOk(s, h, Low);
        assert !Gone(s.sockets[h]) && !Gone(s.sockets[step.k]);
      }
    }
  }

  lemma {:induction false} ConnectLeavesAllGone(s: State, p: nat)
    requires Ok(s) && OneAtATime(s) && LowIsFree(s) && LowDialled(s, p)
    ensures Gone(s.sockets[p])
  {
    assert EndOk(s, p, Low);
    assert Kept(s.sockets[p].low);
  }

  lemma {:induction false} NextKeepsKept(ids: Ids, s: State, step: Step, q: nat)
    requires Ordered(ids) && Ok(s) && OneAtATime(s)
    requires LowDialled(Next(ids, s, step), q)
    ensures Kept(Next(ids, s, step).sockets[q].low)
  {
    hide Ok;
    hide Do;
    hide Enabled;
    hide DecidedAgainst;
    if q < |s.sockets| {
      NextKeepsDialers(ids, s, step, q);
      if Enabled(s, step) { LowNeverDecidesAgainst(ids, s, step, q); }
      NextKeepsEnd(ids, s, step, q, Low);
    } else {
      NewSocketsAreFresh(ids, s, step, q);
    }
  }

  lemma {:induction false} NextKeepsGone(ids: Ids, s: State, step: Step, p: nat, q: nat)
    requires Ok(s) && OneAtATime(s) && (step == Connect(Low) ==> LowIsFree(s))
    requires p < q && LowDialled(Next(ids, s, step), p) && LowDialled(Next(ids, s, step), q)
    ensures Gone(Next(ids, s, step).sockets[p])
  {
    hide Ok;
    hide Do;
    hide Enabled;
    if q >= |s.sockets| { NewSocketsAreFresh(ids, s, step, q); } else { NextKeepsDialers(ids, s, step, q); }
    NextKeepsDialers(ids, s, step, p);
    if q >= |s.sockets| { ConnectLeavesAllGone(s, p); }
    GoneIsForGood(ids, s, step, p);
  }

  lemma {:induction false} NextKeepsOneAtATime(ids: Ids, s: State, step: Step)
    requires Ordered(ids) && Ok(s) && OneAtATime(s) && (step == Connect(Low) ==> LowIsFree(s))
    ensures OneAtATime(Next(ids, s, step))
  {
    hide Ok;
    hide Next;
    var s' := Next(ids, s, step);
    forall q | 0 <= q < |s'.sockets| && s'.sockets[q].dialer == Low
      ensures Kept(s'.sockets[q].low)
    {
      NextKeepsKept(ids, s, step, q);
    }
    forall p, q | 0 <= p < q < |s'.sockets| && s'.sockets[p].dialer == Low && s'.sockets[q].dialer == Low
      ensures Gone(s'.sockets[p])
    {
      NextKeepsGone(ids, s, step, p, q);
    }
  }

  lemma {:induction false} RunKeepsOneAtATime(ids: Ids, s: State, steps: seq<Step>)
    requires Ordered(ids) && Ok(s) && OneAtATime(s) && Disciplined(ids, s, steps)
    ensures Ok(RunFrom(ids, s, steps)) && OneAtATime(RunFrom(ids, s, steps))
    decreases |steps|
  {
    hide Next;
    hide Ok;
    hide OneAtATime;
    if steps != [] {
      NextKeepsOk(ids, s, steps[0]);
      NextKeepsOneAtATime(ids, s, steps[0]);
      RunKeepsOneAtATime(ids, Next(ids, s, steps[0]), steps[1..]);
    }
  }

  /** Two preferred sockets are never live together. */
  lemma {:induction false} DisciplinedLeavesOneLive(ids: Ids, steps: seq<Step>, p: nat, q: nat)
    requires Ordered(ids) && Disciplined(ids, NO_SOCKETS, steps)
    requires p < q && LowDialled(Reached(ids, steps), p) && LowDialled(Reached(ids, steps), q)
    ensures Reached(ids, steps).sockets[p].Down()
  {
    RunKeepsOneAtATime(ids, NO_SOCKETS, steps);
    assert EndOk(Reached(ids, steps), p, Low);
  }

  /** However often the smaller id redials, a preferred socket is refused only while a preferred socket
      holds the slot and one of the two is already down: no live pair of preferred sockets competes. */
  lemma {:induction false} DisciplinedRefusals(ids: Ids, steps: seq<Step>, k: nat, side: Side)
    requires Ordered(ids) && Disciplined(ids, NO_SOCKETS, steps) && LowDialled(Reached(ids, steps), k)
    requires Enabled(Reached(ids, steps), Offer(k, side)) && DecisionAt(ids, Reached(ids, steps), k, side) == Reject
    ensures var s := Reached(ids, steps);
      && s.SlotAt(side).Some? && LowDialled(s, s.SlotAt(side).value)
      && (s.sockets[k].Down() || s.sockets[s.SlotAt(side).value].Down())
  {
    var s := Reached(ids, steps);
    RunKeepsOneAtATime(ids, NO_SOCKETS, steps);
    assert SlotOk(s, side) by { assert SlotOk(s, Low) && SlotOk(s, High); }
    Verdict(ids, s, k, side);
    var h := s.SlotAt(side).value;
    assert EndOk(s, h, side) && EndOk(s, k, side) by {
      assert EndOk(s, h, Low) && EndOk(s, h, High) && EndOk(s, k, Low) && EndOk(s, k, High);
    }
    if h < k { DisciplinedLeavesOneLive(ids, steps, h, k); } else { DisciplinedLeavesOneLive(ids, steps, k, h); }
  }

  lemma {:induction false} DisciplinedOwnDials(ids: Ids, steps: seq<Step>, k: nat)
    requires Ordered(ids) && Disciplined(ids, NO_SOCKETS, steps) && LowDialled(Reached(ids, steps), k)
    requires Enabled(Reached(ids, steps), Offer(k, Low))
    ensures DecisionAt(ids, Reached(ids, steps), k, Low) != Reject
  {
    RunKeepsOneAtATime(ids, NO_SOCKETS, steps);
    LowNeverDecidesAgainst(ids, Reached(ids, steps), Offer(k, Low), k);
  }

  lemma {:induction false} RunFirst(ids: Ids, s: State, step: Step, rest: seq<Step>)
    ensures RunFrom(ids, s, [step] + rest) == RunFrom(ids, Next(ids, s, step), rest)
  {
    assert ([step] + rest)[1..] == rest;
  }

  const REFUSED_END := FRESH_END.(fate := Refused)
  const STARTED_END := FRESH_END.(fate := Started)
  const NEW_SOCKET := Socket(Low, FRESH_END, FRESH_END, false)
  const FIRST_AT_LOW := State([NEW_SOCKET.(low := STARTED_END), NEW_SOCKET], Some(0), None)
  const SECOND_AT_HIGH := State([NEW_SOCKET.(low := STARTED_END), NEW_SOCKET.(high := STARTED_END)], Some(0), Some(1))
  const COLLIDED := State([Socket(Low, STARTED_END, REFUSED_END, false), Socket(Low, REFUSED_END, STARTED_END, false)],
                          Some(0), Some(1))

  lemma {:induction false} BothConnect(ids: Ids)
    ensures Next(ids, Next(ids, NO_SOCKETS, Connect(Low)), Connect(Low)) == State([NEW_SOCKET, NEW_SOCKET], None, None)
  {
  }

  lemma {:induction false} BothAreTaken(ids: Ids)
    ensures Next(ids, State([NEW_SOCKET, NEW_SOCKET], None, None), Offer(0, Low)) == FIRST_AT_LOW
    ensures Next(ids, FIRST_AT_LOW, Offer(1, High)) == SECOND_AT_HIGH
  {
  }

  lemma {:induction false} BothAreRefused(ids: Ids)
    requires Ordered(ids)
    ensures Next(ids, Next(ids, SECOND_AT_HIGH, Offer(1, Low)), Offer(0, High)) == COLLIDED
  {
    Verdict(ids, SECOND_AT_HIGH, 1, Low);
    Verdict(ids, Refuse(SECOND_AT_HIGH, 1, Low), 0, High);
  }

  /** Without that discipline two preferred sockets can refuse each other, one at each end. */
  lemma {:induction false} UndisciplinedDialsCanCollide(ids: Ids)
    requires Ordered(ids)
    ensures var steps := [Connect(Low)] + ([Connect(Low)] + ([Offer(0, Low)] + ([Offer(1, High)]
                         + ([Offer(1, Low)] + ([Offer(0, High)] + [])))));
      var s := Reached(ids, steps);
      s.sockets[..] == COLLIDED.sockets && s.sockets[0].high.fate == Refused && s.sockets[1].low.fate == Refused
  {
    hide Next;
    BothConnect(ids);
    BothAreTaken(ids);
    BothAreRefused(ids);
    var s1 := Next(ids, NO_SOCKETS, Connect(Low));
    var s5 := Next(ids, SECOND_AT_HIGH, Offer(1, Low));
    var r5 := [Offer(0, High)] + [];
    var r4 := [Offer(1, Low)] + r5;
    var r3 := [Offer(1, High)] + r4;
    var r2 := [Offer(0, Low)] + r3;
    var r1 := [Connect(Low)] + r2;
    RunFirst(ids, NO_SOCKETS, Connect(Low), r1);
    RunFirst(ids, s1, Connect(Low), r2);
    RunFirst(ids, State([NEW_SOCKET, NEW_SOCKET], None, None), Offer(0, Low), r3);
    RunFirst(ids, FIRST_AT_LOW, Offer(1, High), r4);
    RunFirst(ids, SECOND_AT_HIGH, Offer(1, Low), r5);
    RunFirst(ids, s5, Offer(0, High), []);
  }
}
