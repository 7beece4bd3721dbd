/** The pair of nodes with the smaller id's dial loop in it: the loop prepares a dial only over an empty
    slot, tries one address after another, and offers what it dialled before it goes on. Every run of
    this machine is a run of the pair in which the smaller id dials one socket at a time. */
module DialLoop {
  import opened Wire
  import opened Peers
  import opened Pair
  import opened TieBreak

  datatype Phase =
    | Resting            // waiting, or sleeping between attempts
    | Trying             // the dial is prepared; no address has answered yet
    | Offering(k: nat)   // socket k is open and about to be offered or dropped

  datatype DialState = DialState(pair: State, phase: Phase)

  const AT_REST := DialState(NO_SOCKETS, Resting)

  datatype DialStep =
    | Prepare            // both guards of a dial pass
    | GiveUp             // no address is left
    | Move(step: Step)   // a step of the pair

  predicate OffersOwn(s: State, step: Step) {
    step.Offer? && step.side == Low && LowDialled(s, step.k)
  }

  predicate DropsOwn(s: State, step: Step) {
    step.Abandon? && LowDialled(s, step.k)
  }

  predicate CanTake(ds: DialState, step: DialStep) {
    match step
    case Prepare => ds.phase == Resting && ds.pair.lowSlot == None
    case GiveUp => ds.phase == Trying
    case Move(move) =>
      && Enabled(ds.pair, move)
      && (move == Connect(Low) ==> ds.phase == Trying)
      && (OffersOwn(ds.pair, move) || DropsOwn(ds.pair, move) ==> ds.phase == Offering(move.k))
  }

  function Take(ids: Ids, ds: DialState, step: DialStep): DialState
    requires CanTake(ds, step)
  {
    match step
    case Prepare => ds.(phase := Trying)
    case GiveUp => ds.(phase := Resting)
    case Move(move) =>
      var phase := if move == Connect(Low) then Offering(|ds.pair.sockets|)
                   else if OffersOwn(ds.pair, move) then Resting
                   else if DropsOwn(ds.pair, move) then Trying
                   else ds.phase;
      DialState(Do(ids, ds.pair, move), phase)
  }

  function TakeNext(ids: Ids, ds: DialState, step: DialStep): DialState {
    if CanTake(ds, step) then Take(ids, ds, step) else ds
  }

  function DialFrom(ids: Ids, ds: DialState, steps: seq<DialStep>): DialState
    decreases |steps|
  {
    if steps == [] then ds else DialFrom(ids, TakeNext(ids, ds, steps[0]), steps[1..])
  }

  function Dialled(ids: Ids, steps: seq<DialStep>): DialState {
    DialFrom(ids, AT_REST, steps)
  }

  // ---- The loop's socket is the only one in the making ----

  /** Of the sockets the smaller id dialled only the one the loop is offering is not offered yet, and
      while the loop is busy none of them holds its slot. */
  predicate LoopOk(ds: DialState) {
    && (forall p :: 0 <= p < |ds.pair.sockets| && ds.pair.sockets[p].dialer == Low && ds.pair.sockets[p].low.fate == Pending ==>
          ds.phase == Offering(p))
    && (ds.phase != Resting ==>
          forall p :: 0 <= p < |ds.pair.sockets| && ds.pair.sockets[p].dialer == Low ==> ds.pair.lowSlot != Some(p))
  }

  lemma {:induction false} OfferEffect(ids: Ids, s: State, k: nat, side: Side, p: nat)
    requires SlotOk(s, side) && k < |s.sockets| && p < |s.sockets|
    ensures var s' := Offered(ids, s, k, side);
      && |s'.sockets| == |s.sockets| && s'.sockets[p].dialer == s.sockets[p].dialer
      && (s'.sockets[p].low.fate == Pending ==> s.sockets[p].low.fate == Pending && !(p == k && side == Low))
      && (s'.lowSlot == s.lowSlot || (side == Low && s'.lowSlot == Some(k)))
  {
    hide DecisionAt;
  }

  lemma {:induction false} OfferKeepsLoop(ids: Ids, ds: DialState, k: nat, side: Side)
    requires LoopOk(ds) && Ok(ds.pair) && CanTake(ds, Move(Offer(k, side)))
    ensures LoopOk(Take(ids, ds, Move(Offer(k, side))))
  {
    hide Offered;
    assert SlotOk(ds.pair, Low) && SlotOk(ds.pair, High);
    OfferEffect(ids, ds.pair, k, side, k);
    var ds' := Take(ids, ds, Move(Offer(k, side)));
    forall p | 0 <= p < |ds.pair.sockets|
      ensures ds'.pair.sockets[p].dialer == Low && ds'.pair.sockets[p].low.fate == Pending ==> ds'.phase == Offering(p)
      ensures ds'.phase != Resting && ds'.pair.sockets[p].dialer == Low ==> ds'.pair.lowSlot != Some(p)
    {
      OfferEffect(ids, ds.pair, k, side, p);
    }
  }

  lemma {:induction false} OtherMoveKeepsLoop(ids: Ids, ds: DialState, move: Step)
    requires LoopOk(ds) && Ok(ds.pair) && CanTake(ds, Move(move)) && !move.Offer?
    ensures LoopOk(Take(ids, ds, Move(move)))
  {
    assert SlotOk(ds.pair, Low) && SlotOk(ds.pair, High);
  }

  lemma {:induction false} TakeKeepsLoop(ids: Ids, ds: DialState, step: DialStep)
    requires LoopOk(ds) && Ok(ds.pair) && CanTake(ds, step)
    ensures LoopOk(Take(ids, ds, step))
  {
    if step.Move? {
      if step.step.Offer? {
        OfferKeepsLoop(ids, ds, step.step.k, step.step.side);
      } else {
        OtherMoveKeepsLoop(ids, ds, step.step);
      }
    }
  }

  lemma {:induction false} ConnectsWhenFree(ds: DialState)
    requires LoopOk(ds) && CanTake(ds, Move(Connect(Low)))
    ensures LowIsFree(ds.pair)
  {
  }

  // ---- Every run is a disciplined run of the pair ----

  lemma {:induction false} RunIsDisciplined(ids: Ids, ds: DialState, steps: seq<DialStep>) returns (moves: seq<Step>)
    requires LoopOk(ds) && Ok(ds.pair)
    ensures Disciplined(ids, ds.pair, moves) && RunFrom(ids, ds.pair, moves) == DialFrom(ids, ds, steps).pair
    decreases |steps|
  {
    if steps == [] {
      moves := [];
    } else {
      hide LoopOk;
      hide Ok;
      hide Do;
      hide LowIsFree;
      var next := TakeNext(ids, ds, steps[0]);
      if !CanTake(ds, steps[0]) {
        moves := RunIsDisciplined(ids, ds, steps[1..]);
      } else {
        TakeKeepsLoop(ids, ds, steps[0]);
        if steps[0].Move? {
          var move := steps[0].step;
          NextKeepsOk(ids, ds.pair, move);
          if move == Connect(Low) { ConnectsWhenFree(ds); }
          var rest := RunIsDisciplined(ids, next, steps[1..]);
          moves := [move] + rest;
          assert moves[1..] == rest;
        } else {
          moves := RunIsDisciplined(ids, next, steps[1..]);
        }
      }
    }
  }

  /** However often the smaller id redials: of two sockets it dialled, the earlier is down. */
  lemma {:induction false} OneLivePreferred(a: NodeId, b: NodeId, steps: seq<DialStep>, p: nat, q: nat)
    requires a != b
    requires var s := Dialled(PairOf(a, b), steps).pair; p < q && LowDialled(s, p) && LowDialled(s, q)
    ensures Dialled(PairOf(a, b), steps).pair.sockets[p].Down()
  {
    var moves := RunIsDisciplined(PairOf(a, b), AT_REST, steps);
    DisciplinedLeavesOneLive(PairOf(a, b), moves, p, q);
  }

  /** A socket the smaller id dialled is refused only while another it dialled holds the slot, and one of
      the two is already down: no two live preferred sockets ever compete. */
  lemma {:induction false} RefusedOnlyAmongTheDead(a: NodeId, b: NodeId, steps: seq<DialStep>, k: nat, side: Side)
    requires a != b && LowDialled(Dialled(PairOf(a, b), steps).pair, k)
    requires Enabled(Dialled(PairOf(a, b), steps).pair, Offer(k, side))
    requires DecisionAt(PairOf(a, b), Dialled(PairOf(a, b), steps).pair, k, side) == Reject
    ensures var s := Dialled(PairOf(a, b), steps).pair;
      && s.SlotAt(side).Some? && LowDialled(s, s.SlotAt(side).value)
      && (s.sockets[k].Down() || s.sockets[s.SlotAt(side).value].Down())
  {
    var moves := RunIsDisciplined(PairOf(a, b), AT_REST, steps);
    DisciplinedRefusals(PairOf(a, b), moves, k, side);
  }

  /** The dialling node itself refuses none of its sockets. */
  lemma {:induction false} OwnDialsAreTaken(a: NodeId, b: NodeId, steps: seq<DialStep>, k: nat)
    requires a != b && CanTake(Dialled(PairOf(a, b), steps), Move(Offer(k, Low)))
    requires LowDialled(Dialled(PairOf(a, b), steps).pair, k)
    ensures DecisionAt(PairOf(a, b), Dialled(PairOf(a, b), steps).pair, k, Low) != Reject
  {
    var s := Dialled(PairOf(a, b), steps).pair;
    var moves := RunIsDisciplined(PairOf(a, b), AT_REST, steps);
    DisciplinedOwnDials(PairOf(a, b), moves, k);
  }
}
