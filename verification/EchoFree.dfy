/** When a node never sends on what it received: the exact bound on how promptly the watcher and the
    native clipboard must act, and a run that sends an echo on whenever the bound is not met. */
module EchoFree {
  import opened Wire
  import opened Messages
  import opened Payloads
  import opened Ledger
  import opened Coalescing
  import opened Clipboard
  import opened Echo

  // ---- What the node's surroundings promise ----

  /** The watcher reads the clock for a remote change, and a failed remote write returns, less than `d`
      after the clock reading of that write. */
  predicate PromptStep(n: Node, s: Step, d: int) {
    && (s.Look? && CanLook(n, s.i) && n.reports[s.i].origin.ByRemote? ==> n.clock < n.reports[s.i].origin.readAt + d)
    && (s.WriteFails? && CanReturn(n, s.i) ==> n.clock < n.inFlight[s.i].readAt + d)
  }

  predicate Within(env: Env, lim: Limits, start: int, steps: seq<Step>, d: int) {
    steps == []
    || (Within(env, lim, start, steps[..|steps| - 1], d)
        && PromptStep(Exec(env, lim, start, steps[..|steps| - 1]), steps[|steps| - 1], d))
  }

  /** The ledger's time leaves room for the delay and for one late reading on either side. */
  predicate Enough(lim: Limits, d: int) {
    d <= 0 || d + 2 * lim.skew <= lim.ttl
  }

  // ---- Enough time means no echo ----

  predicate LookedSoon(n: Node, d: int) {
    forall r :: r in n.reports && r.looked.Some? && r.origin.ByRemote? ==> r.looked.value < r.origin.readAt + d
  }

  lemma {:induction false} PromptLooksSoon(env: Env, lim: Limits, n: Node, s: Step, d: int)
    requires LookedSoon(n, d) && PromptStep(n, s, d)
    ensures LookedSoon(Do(env, lim, n, s), d)
  {
    hide EmitWindow;
    hide Remembered;
    hide Consumed;
    hide Forgotten;
    hide Admit;
  }

  lemma {:induction false} PromptIsTimely(env: Env, lim: Limits, n: Node, s: Step, d: int)
    requires Remembering(env, lim, n) && LookedSoon(n, d) && PromptStep(n, s, d) && Enough(lim, d) && lim.skew >= 0
    ensures Do(env, lim, n, s).tally.late == n.tally.late && Do(env, lim, n, s).tally.slow == n.tally.slow
  {
    hide EmitWindow;
    hide Remembered;
    hide Consumed;
    hide Forgotten;
    hide Admit;
    if s.Watched? && CanAsk(lim, n, s.i) { assert n.reports[s.i] in n.reports; }
    if s.WriteFails? && CanReturn(n, s.i) { assert n.inFlight[s.i] in n.inFlight; }
  }

  predicate Timely(n: Node) {
    n.tally.late == multiset{} && n.tally.slow == multiset{}
  }

  lemma {:induction false} PromptRunIsTimely(env: Env, lim: Limits, start: int, steps: seq<Step>, d: int)
    requires Within(env, lim, start, steps, d) && Enough(lim, d) && lim.skew >= 0
    ensures Timely(Exec(env, lim, start, steps)) && LookedSoon(Exec(env, lim, start, steps), d)
  {
    if steps != [] {
      hide Do;
      hide PromptStep;
      hide Remembering;
      var front := steps[..|steps| - 1];
      PromptRunIsTimely(env, lim, start, front, d);
      RunSound(env, lim, start, front);
      PromptLooksSoon(env, lim, Exec(env, lim, start, front), steps[|steps| - 1], d);
      PromptIsTimely(env, lim, Exec(env, lim, start, front), steps[|steps| - 1], d);
    }
  }

  /** Nothing received is ever sent on: for every content the node emits at most as many payloads as its
      user made copies, failed writes, racing user copies and late clock readings included. */
  lemma {:induction false} EchoFreedom(env: Env, lim: Limits, start: int, steps: seq<Step>, d: int)
    requires Within(env, lim, start, steps, d) && Enough(lim, d) && lim.skew >= 0
    ensures Exec(env, lim, start, steps).tally.emitted <= Exec(env, lim, start, steps).tally.copies
  {
    PromptRunIsTimely(env, lim, start, steps, d);
    EmissionsAreAccounted(env, lim, start, steps);
  }

  // ---- Runs, step by step ----

  /** A run, its last node, and that it was prompt. */
  ghost predicate Runs(env: Env, lim: Limits, steps: seq<Step>, d: int, n: Node) {
    Exec(env, lim, 0, steps) == n && Within(env, lim, 0, steps, d)
  }

  lemma {:induction false} RunStarts(env: Env, lim: Limits, d: int)
    ensures Runs(env, lim, [], d, Idle(0))
  {
  }

  lemma {:induction false} RunsOn(env: Env, lim: Limits, steps: seq<Step>, d: int, n: Node, s: Step)
    requires Runs(env, lim, steps, d, n) && PromptStep(n, s, d)
    ensures Runs(env, lim, steps + [s], d, Do(env, lim, n, s))
  {
    assert (steps + [s])[..|steps|] == steps;
  }

  /** A valid text payload. */
  predicate Text(env: Env, p: ClipboardPayload) {
    IsValid(env, p) && p.kind == KIND_TEXT
  }

  lemma {:induction false} ArriveText(env: Env, lim: Limits, n: Node, p: ClipboardPayload)
    requires Text(env, p)
    ensures Do(env, lim, n, Arrive(p)) == n.(inFlight := n.inFlight + [Write(TextBucket, p.data, n.clock, false)])
    ensures KeyOf(env, TextBucket, p.data) == PayloadKey(p)
  {
    ValidateDecidesValidity(env, p);
  }

  function TextReport(p: ClipboardPayload, readAt: int, looked: Option<int>): Report {
    Report(TextBucket, p.data, ByRemote(readAt), looked)
  }

  /** A remote report of the text of `p` that the ledger no longer knows is passed on. */
  lemma {:induction false} WatchUnknown(env: Env, lim: Limits, n: Node, p: ClipboardPayload, readAt: int, looked: int)
    requires Text(env, p) && n.reports == [TextReport(p, readAt, Some(looked))] && n.clock <= looked + lim.skew
    requires PayloadKey(p) in n.entries ==> n.entries[PayloadKey(p)].expiresAt <= looked
    ensures var key, n' := PayloadKey(p), Do(env, lim, n, Watched(0));
      && n'.observed == n.observed + [Event(TextBucket, p.data)]
      && n'.tally == n.tally.(passed := n.tally.passed + multiset{key},
                              late := n.tally.late + (if readAt + lim.Life() <= n.clock then multiset{key} else multiset{}))
  {
  }

  /** A node whose only observed change is the text of `p` emits it. */
  lemma {:induction false} EmitsTheText(env: Env, lim: Limits, n: Node, p: ClipboardPayload)
    requires Text(env, p) && n.observed == [Event(TextBucket, p.data)]
    ensures Do(env, lim, n, Emit(1, 0, 0)).tally == n.tally.(emitted := n.tally.emitted + multiset{PayloadKey(p)})
  {
    var e := Event(TextBucket, p.data);
    var w := Window([e], 0, 0);
    assert n.observed[..1] == [e];
    assert LastIndex([e], TextBucket) == Some(0);
    assert LastIndex([e], ImageBucket) == None;
    BuildDescribes(env, w, e);
    var built := Build(env, w, e).value;
    var out := WindowEmissions(env, 0, w);
    assert out == [Emission(0, built)];
    DescribedKey(env, w, built, e);
    assert EmissionKeys(out) == multiset{PayloadKey(p)};
  }

  lemma {:induction false} EmitsTheFirst(env: Env, lim: Limits, n: Node, first: Event, second: Event)
    requires n.observed == [first, second]
    ensures var n' := Do(env, lim, n, Emit(1, 0, 0));
      n'.observed == [second] && n'.tally.copies == n.tally.copies
  {
    hide EmitWindow;
  }

  // ---- An echo that escapes ----

  function BothRecord(p: ClipboardPayload, a: int): seq<Step> {
    [] + [Arrive(p)] + [Tick(a)] + [Arrive(p)] + [Record(1)] + [Record(0)] + [WriteDone(1)]
  }

  function Looks(p: ClipboardPayload, a: int, b: int, u: int): seq<Step> {
    BothRecord(p, a) + [Tick(u)] + [Look(0)] + [Tick(u + b)] + [Copy(ImageBucket, [])] + [Look(1)] + [Watched(1)]
  }

  /** Two writes of one text whose readings, 0 and `a`, reach the ledger in the other order; the second's
      report, read at `u`, reaches the ledger `b` later, after a user's copy of an image. */
  function EscapingRun(p: ClipboardPayload, a: int, b: int, u: int): seq<Step> {
    Looks(p, a, b, u) + [Watched(0)] + [Emit(1, 0, 0)] + [Emit(1, 0, 0)]
  }

  /** After both remembered: the entry's expiry is that of the older reading. */
  predicate BothRemembered(n: Node, lim: Limits, p: ClipboardPayload, a: int) {
    && n.clock == a && n.observed == [] && n.tally == NO_TALLY
    && n.reports == [TextReport(p, a, None)]
    && n.entries.Keys == {PayloadKey(p)} && n.entries[PayloadKey(p)].expiresAt == lim.ttl
  }

  lemma {:induction false} RemembersTwice(env: Env, lim: Limits, p: ClipboardPayload, a: nat, n: Node)
    requires Text(env, p) && a <= lim.skew && lim.ttl >= 0
    requires n.clock == a && n.observed == [] && n.tally == NO_TALLY && n.reports == [] && n.entries == map[]
    requires n.inFlight == [Write(TextBucket, p.data, 0, false), Write(TextBucket, p.data, a, false)]
    ensures var n1 := Do(env, lim, n, Record(1)); var n2 := Do(env, lim, n1, Record(0));
      BothRemembered(Do(env, lim, n2, WriteDone(1)), lim, p, a)
  {
    ArriveText(env, lim, n, p);
    var n1 := Do(env, lim, n, Record(1));
    assert n1.entries.Keys == {PayloadKey(p)};
    var n2 := Do(env, lim, n1, Record(0));
    assert n2.entries.Keys == {PayloadKey(p)};
    assert n2.inFlight == [Write(TextBucket, p.data, 0, true), Write(TextBucket, p.data, a, true)];
  }

  lemma {:induction false} RemembersRuns(env: Env, lim: Limits, p: ClipboardPayload, a: nat, d: int) returns (n: Node)
    requires Text(env, p) && a <= lim.skew && lim.ttl >= 0
    ensures Runs(env, lim, BothRecord(p, a), d, n) && BothRemembered(n, lim, p, a)
  {
    var n0 := Idle(0);
    RunStarts(env, lim, d);
    ArriveText(env, lim, n0, p);
    RunsOn(env, lim, [], d, n0, Arrive(p));
    var n1 := Do(env, lim, n0, Arrive(p));
    RunsOn(env, lim, [] + [Arrive(p)], d, n1, Tick(a));
    var n2 := Do(env, lim, n1, Tick(a));
    ArriveText(env, lim, n2, p);
    RunsOn(env, lim, [] + [Arrive(p)] + [Tick(a)], d, n2, Arrive(p));
    var n3 := Do(env, lim, n2, Arrive(p));
    RemembersTwice(env, lim, p, a, n3);
    RunsOn(env, lim, [] + [Arrive(p)] + [Tick(a)] + [Arrive(p)], d, n3, Record(1));
    var n4 := Do(env, lim, n3, Record(1));
    RunsOn(env, lim, [] + [Arrive(p)] + [Tick(a)] + [Arrive(p)] + [Record(1)], d, n4, Record(0));
    var n5 := Do(env, lim, n4, Record(0));
    RunsOn(env, lim, [] + [Arrive(p)] + [Tick(a)] + [Arrive(p)] + [Record(1)] + [Record(0)], d, n5, WriteDone(1));
    n := Do(env, lim, n5, WriteDone(1));
  }

  /** Any ledger operation with a reading past the expiry drops the entry; here it is a user's copy. */
  predicate Dropped(env: Env, n: Node, p: ClipboardPayload, a: int, b: int, u: int) {
    && n.clock == u + b && n.observed == [Event(ImageBucket, [])] && PayloadKey(p) !in n.entries
    && n.reports == [TextReport(p, a, Some(u))] && n.tally.copies == multiset{KeyOf(env, ImageBucket, [])}
  }

  lemma {:induction false} CopyDrops(env: Env, lim: Limits, p: ClipboardPayload, a: int, b: nat, u: int, n: Node)
    requires Text(env, p) && lim.ttl <= u + b && lim.skew >= 0
    requires n.clock == u + b && n.observed == [] && n.tally == NO_TALLY && n.reports == [TextReport(p, a, Some(u))]
    requires n.entries.Keys == {PayloadKey(p)} && n.entries[PayloadKey(p)].expiresAt == lim.ttl
    ensures var n1 := Do(env, lim, n, Copy(ImageBucket, [])); var n2 := Do(env, lim, n1, Look(1));
      Dropped(env, Do(env, lim, n2, Watched(1)), p, a, b, u)
  {
    var image := KeyOf(env, ImageBucket, []);
    assert image != PayloadKey(p);
    var n1 := Do(env, lim, n, Copy(ImageBucket, []));
    var n2 := Do(env, lim, n1, Look(1));
    assert n2.reports == [TextReport(p, a, Some(u)), Report(ImageBucket, [], ByUser, Some(u + b))];
    assert Consumed(n2.entries, image, u + b) == (map[], false);
  }

  lemma {:induction false} LooksRuns(env: Env, lim: Limits, p: ClipboardPayload, a: nat, b: nat, u: int, d: int) returns (n: Node)
    requires Text(env, p) && a <= lim.skew && b <= lim.skew && lim.ttl >= 0
    requires a <= u < a + d && lim.ttl <= u + b
    ensures Runs(env, lim, Looks(p, a, b, u), d, n) && Dropped(env, n, p, a, b, u)
  {
    hide Exec;
    hide Within;
    var s0 := BothRecord(p, a);
    var n0 := RemembersRuns(env, lim, p, a, d);
    RunsOn(env, lim, s0, d, n0, Tick(u));
    var n1 := Do(env, lim, n0, Tick(u));
    RunsOn(env, lim, s0 + [Tick(u)], d, n1, Look(0));
    var n2 := Do(env, lim, n1, Look(0));
    RunsOn(env, lim, s0 + [Tick(u)] + [Look(0)], d, n2, Tick(u + b));
    var n3 := Do(env, lim, n2, Tick(u + b));
    assert n3.reports == [TextReport(p, a, Some(u))];
    CopyDrops(env, lim, p, a, b, u, n3);
    RunsOn(env, lim, s0 + [Tick(u)] + [Look(0)] + [Tick(u + b)], d, n3, Copy(ImageBucket, []));
    var n4 := Do(env, lim, n3, Copy(ImageBucket, []));
    assert n4.reports[1].origin == ByUser;
    RunsOn(env, lim, s0 + [Tick(u)] + [Look(0)] + [Tick(u + b)] + [Copy(ImageBucket, [])], d, n4, Look(1));
    var n5 := Do(env, lim, n4, Look(1));
    RunsOn(env, lim, s0 + [Tick(u)] + [Look(0)] + [Tick(u + b)] + [Copy(ImageBucket, [])] + [Look(1)], d, n5, Watched(1));
    n := Do(env, lim, n5, Watched(1));
  }

  /** The content of `p` was emitted, and its user never copied it. */
  predicate Escaped(n: Node, p: ClipboardPayload) {
    n.tally.emitted[PayloadKey(p)] >= 1 && n.tally.copies[PayloadKey(p)] == 0
  }

  lemma {:induction false} DroppedEscapes(env: Env, lim: Limits, p: ClipboardPayload, a: int, b: nat, u: int, n: Node)
    requires Text(env, p) && b <= lim.skew && Dropped(env, n, p, a, b, u)
    ensures var n1 := Do(env, lim, n, Watched(0)); var n2 := Do(env, lim, n1, Emit(1, 0, 0));
      Escaped(Do(env, lim, n2, Emit(1, 0, 0)), p)
  {
    hide Do;
    WatchUnknown(env, lim, n, p, a, u);
    var n1 := Do(env, lim, n, Watched(0));
    EmitsTheFirst(env, lim, n1, Event(ImageBucket, []), Event(TextBucket, p.data));
    EmitsTheText(env, lim, Do(env, lim, n1, Emit(1, 0, 0)), p);
  }

  /** The escaping run is possible, prompt for every `d` above `u - a`, and sends the echo on. */
  lemma {:induction false} RunEscapes(env: Env, lim: Limits, p: ClipboardPayload, a: nat, b: nat, u: int, d: int)
    requires Text(env, p) && a <= lim.skew && b <= lim.skew && lim.ttl >= 0
    requires a <= u < a + d && lim.ttl <= u + b
    ensures Within(env, lim, 0, EscapingRun(p, a, b, u), d) && Escaped(Exec(env, lim, 0, EscapingRun(p, a, b, u)), p)
  {
    hide Exec;
    hide Within;
    hide Do;
    var s0 := Looks(p, a, b, u);
    var n0 := LooksRuns(env, lim, p, a, b, u, d);
    DroppedEscapes(env, lim, p, a, b, u, n0);
    RunsOn(env, lim, s0, d, n0, Watched(0));
    var n1 := Do(env, lim, n0, Watched(0));
    RunsOn(env, lim, s0 + [Watched(0)], d, n1, Emit(1, 0, 0));
    RunsOn(env, lim, s0 + [Watched(0)] + [Emit(1, 0, 0)], d, Do(env, lim, n1, Emit(1, 0, 0)), Emit(1, 0, 0));
  }

  // ---- The ways it happens ----

  /** A report read when the ledger's time is just over: sent on, with every reading used at once. */
  lemma {:induction false} LateReportEscapes(env: Env, lim: Limits, p: ClipboardPayload)
    requires Text(env, p) && lim.ttl >= 0 && lim.skew >= 0
    ensures var steps := EscapingRun(p, 0, 0, lim.ttl);
      Within(env, lim, 0, steps, lim.ttl + 1) && Escaped(Exec(env, lim, 0, steps), p)
  {
    RunEscapes(env, lim, p, 0, 0, lim.ttl, lim.ttl + 1);
  }

  /** A remembering with an older reading reaches the ledger last and pulls the expiry back: a report
      within the ledger's time of its own write is sent on. */
  lemma {:induction false} StaleRememberEscapes(env: Env, lim: Limits, p: ClipboardPayload)
    requires Text(env, p) && 1 <= lim.skew <= lim.ttl
    ensures var steps := EscapingRun(p, lim.skew, 0, lim.ttl);
      Within(env, lim, 0, steps, lim.ttl) && Escaped(Exec(env, lim, 0, steps), p)
  {
    RunEscapes(env, lim, p, lim.skew, 0, lim.ttl, lim.ttl);
  }

  /** A report read in time reaches the ledger after another operation, read later, has dropped the
      entry: sent on as well. */
  lemma {:induction false} OvertakenReportEscapes(env: Env, lim: Limits, p: ClipboardPayload)
    requires Text(env, p) && 1 <= lim.skew && 1 <= lim.ttl
    ensures var steps := EscapingRun(p, 0, 1, lim.ttl - 1);
      Within(env, lim, 0, steps, lim.ttl) && Escaped(Exec(env, lim, 0, steps), p)
  {
    RunEscapes(env, lim, p, 0, 1, lim.ttl - 1, lim.ttl);
  }

  /** A node is echo-free exactly when the ledger's time covers the promised delay and twice the lag of
      a clock reading (or nothing remote is ever reported): then no run emits more of any content than
      its user copied, and otherwise some run does. */
  lemma {:induction false} EchoFreeExactly(env: Env, lim: Limits, d: int, p: ClipboardPayload)
    requires Text(env, p) && lim.ttl >= 0 && lim.skew >= 0
    ensures (forall start, steps :: Within(env, lim, start, steps, d) ==>
               Exec(env, lim, start, steps).tally.emitted <= Exec(env, lim, start, steps).tally.copies)
            <==> Enough(lim, d)
  {
    if Enough(lim, d) {
      forall start, steps | Within(env, lim, start, steps, d)
        ensures Exec(env, lim, start, steps).tally.emitted <= Exec(env, lim, start, steps).tally.copies
      {
        EchoFreedom(env, lim, start, steps, d);
      }
    } else {
      var u := if lim.ttl - lim.skew < lim.skew then lim.skew else lim.ttl - lim.skew;
      RunEscapes(env, lim, p, lim.skew, lim.skew, u, d);
      var t := Exec(env, lim, 0, EscapingRun(p, lim.skew, lim.skew, u)).tally;
      assert !(t.emitted <= t.copies) by {
        assert t.emitted[PayloadKey(p)] > t.copies[PayloadKey(p)];
      }
    }
  }

  // ---- A failure that is slow ----

  function SlowRun(p: ClipboardPayload, due: int): seq<Step> {
    [] + [Arrive(p)] + [Record(0)] + [Tick(due)] + [Arrive(p)] + [Record(1)] + [WriteDone(1)] + [WriteFails(0)]
    + [Look(0)] + [Watched(0)] + [Emit(1, 0, 0)]
  }

  /** The later write has just been remembered anew. */
  predicate RememberedAnew(n: Node, lim: Limits, p: ClipboardPayload) {
    && n.clock == lim.ttl && n.reports == [] && n.observed == [] && n.tally == NO_TALLY
    && n.inFlight == [Write(TextBucket, p.data, 0, true), Write(TextBucket, p.data, lim.ttl, true)]
    && n.entries == map[PayloadKey(p) := Entry(1, lim.ttl + lim.ttl)]
  }

  lemma {:induction false} SlowRunStart(env: Env, lim: Limits, p: ClipboardPayload, d: int) returns (n: Node)
    requires Text(env, p) && lim.ttl > 0 && lim.skew >= 0
    ensures RememberedAnew(n, lim, p)
    ensures Runs(env, lim, [] + [Arrive(p)] + [Record(0)] + [Tick(lim.ttl)] + [Arrive(p)] + [Record(1)], d, n)
  {
    hide Exec;
    hide Within;
    var n0 := Idle(0);
    RunStarts(env, lim, d);
    ArriveText(env, lim, n0, p);
    RunsOn(env, lim, [], d, n0, Arrive(p));
    var n1 := Do(env, lim, n0, Arrive(p));
    RunsOn(env, lim, [] + [Arrive(p)], d, n1, Record(0));
    var n2 := Do(env, lim, n1, Record(0));
    assert n2.entries == map[PayloadKey(p) := Entry(1, lim.ttl)];
    RunsOn(env, lim, [] + [Arrive(p)] + [Record(0)], d, n2, Tick(lim.ttl));
    var n3 := Do(env, lim, n2, Tick(lim.ttl));
    ArriveText(env, lim, n3, p);
    RunsOn(env, lim, [] + [Arrive(p)] + [Record(0)] + [Tick(lim.ttl)], d, n3, Arrive(p));
    var n4 := Do(env, lim, n3, Arrive(p));
    RunsOn(env, lim, [] + [Arrive(p)] + [Record(0)] + [Tick(lim.ttl)] + [Arrive(p)], d, n4, Record(1));
    n := Do(env, lim, n4, Record(1));
    assert Pruned(n4.entries, lim.ttl) == map[];
  }

  lemma {:induction false} SlowFailureForgets(env: Env, lim: Limits, n: Node, p: ClipboardPayload)
    requires Text(env, p) && RememberedAnew(n, lim, p) && lim.skew >= 0
    ensures var n1 := Do(env, lim, Do(env, lim, n, WriteDone(1)), WriteFails(0)); var n2 := Do(env, lim, n1, Look(0));
      && n2.clock == lim.ttl && n2.entries == map[] && n2.observed == []
      && n2.reports == [TextReport(p, lim.ttl, Some(lim.ttl))] && n2.tally == NO_TALLY.(slow := multiset{PayloadKey(p)})
  {
    ArriveText(env, lim, n, p);
    var n1 := Do(env, lim, n, WriteDone(1));
    assert n1.inFlight == [Write(TextBucket, p.data, 0, true)];
  }

  /** A write that fails only when its own remembering has run out takes back a later write's: that
      one's echo, read and asked about at the very time of its remembering, is sent on. */
  lemma {:induction false} SlowFailureEscapes(env: Env, lim: Limits, p: ClipboardPayload)
    requires Text(env, p) && 0 <= lim.skew < lim.ttl
    ensures var n := Exec(env, lim, 0, SlowRun(p, lim.ttl));
      && Within(env, lim, 0, SlowRun(p, lim.ttl), lim.ttl + 1)
      && n.tally.copies == multiset{} && n.tally.late == multiset{} && n.tally.emitted == multiset{PayloadKey(p)}
  {
    hide Exec;
    hide Within;
    var d := lim.ttl + 1;
    var s0 := [] + [Arrive(p)] + [Record(0)] + [Tick(lim.ttl)] + [Arrive(p)] + [Record(1)];
    var n0 := SlowRunStart(env, lim, p, d);
    SlowFailureForgets(env, lim, n0, p);
    RunsOn(env, lim, s0, d, n0, WriteDone(1));
    var n1 := Do(env, lim, n0, WriteDone(1));
    RunsOn(env, lim, s0 + [WriteDone(1)], d, n1, WriteFails(0));
    var n2 := Do(env, lim, n1, WriteFails(0));
    RunsOn(env, lim, s0 + [WriteDone(1)] + [WriteFails(0)], d, n2, Look(0));
    var n3 := Do(env, lim, n2, Look(0));
    WatchUnknown(env, lim, n3, p, lim.ttl, lim.ttl);
    RunsOn(env, lim, s0 + [WriteDone(1)] + [WriteFails(0)] + [Look(0)], d, n3, Watched(0));
    var n4 := Do(env, lim, n3, Watched(0));
    EmitsTheText(env, lim, n4, p);
    RunsOn(env, lim, s0 + [WriteDone(1)] + [WriteFails(0)] + [Look(0)] + [Watched(0)], d, n4, Emit(1, 0, 0));
  }
}
