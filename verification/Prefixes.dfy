/** What the peers of a broadcasting node are sent over whole runs. */
module Prefixes {
  import opened Wire
  import opened Peers
  import opened Broadcasting

  /** `log` is a prefix of each of these broadcasts in turn, one after the other. */
  ghost predicate PrefixesOf(log: seq<Bytes>, bs: seq<seq<Bytes>>)
    decreases |bs|
  {
    if bs == [] then log == []
    else
      var b := bs[|bs| - 1];
      exists m :: 0 <= m <= |b| && m <= |log| && log[|log| - m..] == b[..m] && PrefixesOf(log[..|log| - m], bs[..|bs| - 1])
  }

  predicate FromTheStart(parts: seq<Part>) {
    forall i :: 0 <= i < |parts| ==> parts[i].from == 0
  }

  lemma {:induction false} MorePrefixes(log: seq<Bytes>, bs: seq<seq<Bytes>>, b: seq<Bytes>, m: nat)
    requires PrefixesOf(log, bs) && m <= |b|
    ensures PrefixesOf(log + b[..m], bs + [b])
  {
    var more := log + b[..m];
    assert (bs + [b])[|bs|] == b && (bs + [b])[..|bs|] == bs;
    assert more[|more| - m..] == b[..m] && more[..|more| - m] == log;
  }

  lemma {:induction false} NoPrefixes(begun: seq<seq<Bytes>>)
    ensures PartsOk(begun, []) && PrefixesOf(Laid(begun, []), [])
  {
  }

  /** The last of some parts that begin at the first frames of successive broadcasts. */
  lemma {:induction false} LastOfParts(begun: seq<seq<Bytes>>, front: seq<Part>, p: Part, first: nat, end: nat)
    requires PartsOk(begun, front + [p]) && Successive(front + [p]) && FromTheStart(front + [p])
    requires first <= end <= |begun| && |front| + 1 == end - first && (front + [p])[0].of == first
    ensures PartsOk(begun, front) && Successive(front) && FromTheStart(front) && PartOk(begun, p)
    ensures p.from == 0 && p.of == end - 1 && (front != [] ==> front[0].of == first)
    ensures begun[first..end] == begun[first..end - 1] + [begun[p.of]]
  {
    var parts := front + [p];
    assert forall i :: 0 <= i < |front| ==> parts[i] == front[i];
    assert PartOk(begun, parts[|front|]) && parts[|front|].of == parts[0].of + |front|;
  }

  lemma {:induction false} LaidIsPrefixes(begun: seq<seq<Bytes>>, parts: seq<Part>, first: nat, end: nat)
    requires PartsOk(begun, parts) && Successive(parts) && FromTheStart(parts)
    requires first <= end <= |begun| && |parts| == end - first && (parts != [] ==> parts[0].of == first)
    ensures PrefixesOf(Laid(begun, parts), begun[first..end])
    decreases |parts|
  {
    hide PrefixesOf;
    hide Laid;
    if parts == [] {
      NoPrefixes(begun);
      assert begun[first..end] == [];
    } else {
      hide Successive;
      hide FromTheStart;
      var front, p := parts[..|parts| - 1], parts[|parts| - 1];
      assert parts == front + [p];
      LastOfParts(begun, front, p, first, end);
      LaidIsPrefixes(begun, front, first, end - 1);
      LaidLast(begun, front, p);
      MorePrefixes(Laid(begun, front), begun[first..end - 1], begun[p.of], p.to);
    }
  }

  /** The history of connection `c`, attached when `since` broadcasts had begun and none was under way. */
  predicate AttachedIdle(s: State, c: nat, since: nat) {
    && c < |s.conns| && since <= |s.begun|
    && |s.conns[c].parts| == |s.begun| - since && FromTheStart(s.conns[c].parts)
    && (s.conns[c].parts != [] ==> s.conns[c].parts[0].of == since)
  }

  lemma {:induction false} PlacingStays(conn: Conn, frame: Bytes)
    ensures |Place(conn, frame).parts| == |conn.parts|
    ensures FromTheStart(conn.parts) ==> FromTheStart(Place(conn, frame).parts)
    ensures conn.parts != [] ==> Place(conn, frame).parts[0].of == conn.parts[0].of
  {
  }

  lemma {:induction false} NextStaysAttachedIdle(maxFrame: int, s: State, step: Step, c: nat, since: nat)
    requires AttachedIdle(s, c, since)
    ensures AttachedIdle(Next(maxFrame, s, step), c, since)
  {
    if Enabled(s, step) && step.Offer? && ActiveConn(s, step.id) == Some(c) {
      PlacingStays(s.conns[c], s.sender.frames[s.sender.next]);
    }
  }

  lemma {:induction false} RunStaysAttachedIdle(maxFrame: int, s: State, steps: seq<Step>, c: nat, since: nat)
    requires AttachedIdle(s, c, since)
    ensures AttachedIdle(RunFrom(maxFrame, s, steps), c, since)
    decreases |steps|
  {
    hide Next;
    hide AttachedIdle;
    if steps != [] {
      NextStaysAttachedIdle(maxFrame, s, steps[0], c, since);
      RunStaysAttachedIdle(maxFrame, Next(maxFrame, s, steps[0]), steps[1..], c, since);
    }
  }

  /** A connection attached between two broadcasts is sent, whatever happens to it and to all others in
      any later run, exactly a prefix of each following broadcast in turn. */
  lemma {:induction false} QueuesHoldPrefixes(maxFrame: int, before: seq<Step>, id: NodeId, capacity: nat, after: seq<Step>)
    requires var s := Reached(maxFrame, before); s.sender.Idle? && id in s.slots
    ensures var s := Reached(maxFrame, before);
      var s' := RunFrom(maxFrame, Next(maxFrame, s, Attach(id, capacity)), after);
      && |s.conns| < |s'.conns| && |s.begun| <= |s'.begun|
      && PrefixesOf(s'.conns[|s.conns|].log, s'.begun[|s.begun|..])
  {
    var s := Reached(maxFrame, before);
    var s1 := Next(maxFrame, s, Attach(id, capacity));
    var s' := RunFrom(maxFrame, s1, after);
    var c := |s.conns|;
    RunKeepsOk(maxFrame, NOBODY, before);
    NextKeepsOk(maxFrame, s, Attach(id, capacity));
    RunKeepsOk(maxFrame, s1, after);
    RunStaysAttachedIdle(maxFrame, s1, after, c, |s.begun|);
    ConnOk(s', c);
    assert s'.begun[|s.begun|..] == s'.begun[|s.begun|..|s'.begun|];
    LaidIsPrefixes(s'.begun, s'.conns[c].parts, |s.begun|, |s'.begun|);
  }

  /** A connection attached in the middle of a broadcast: the same, after a stretch of that one. */
  lemma {:induction false} LogsAreStretches(maxFrame: int, steps: seq<Step>, c: nat)
    requires c < |Reached(maxFrame, steps).conns|
    ensures var s := Reached(maxFrame, steps);
      && PartsOk(s.begun, s.conns[c].parts) && Successive(s.conns[c].parts)
      && s.conns[c].log == Laid(s.begun, s.conns[c].parts)
      && s.conns[c].drained <= |s.conns[c].log| <= s.conns[c].drained + s.conns[c].capacity
  {
    RunKeepsOk(maxFrame, NOBODY, steps);
    ConnOk(Reached(maxFrame, steps), c);
  }

  // ---- How a broadcast ends ----

  /** The frames of the broadcast under way that this connection was given. */
  function Given(s: State, c: nat): seq<Bytes>
    requires c < |s.conns| && s.conns[c].parts != [] && s.begun != []
    requires PartOk(s.begun, s.conns[c].parts[|s.conns[c].parts| - 1])
  {
    var p := s.conns[c].parts[|s.conns[c].parts| - 1];
    s.begun[p.of][p.from..p.to]
  }

  lemma {:induction false} GivenEndsLog(s: State, c: nat)
    requires c < |s.conns| && s.conns[c].parts != [] && s.begun != [] && Explained(s.begun, s.conns[c])
    ensures PartsOk(s.begun, s.conns[c].parts) && PartOk(s.begun, s.conns[c].parts[|s.conns[c].parts| - 1])
    ensures var log := s.conns[c].log; |Given(s, c)| <= |log| && log[|log| - |Given(s, c)|..] == Given(s, c)
  {
    hide Laid;
    var last := |s.conns[c].parts| - 1;
    assert PartOk(s.begun, s.conns[c].parts[last]);
    assert s.conns[c].parts == s.conns[c].parts[..last] + [s.conns[c].parts[last]];
    LaidLast(s.begun, s.conns[c].parts[..last], s.conns[c].parts[last]);
  }

  /** What a connection in its slot was given of the broadcast under way, once all peers were offered the frame. */
  lemma {:induction false} GivenSoFar(s: State, c: nat)
    requires SenderOk(s) && s.sender.Sending? && s.sender.todo == {} && c < |s.conns| && InSlot(s, c) && UpToDate(s, c)
    requires Reaches(s.begun, s.conns[c].parts)
    requires s.conns[c].parts != [] ==> s.conns[c].parts[|s.conns[c].parts| - 1].from == 0
    requires s.conns[c].parts != [] ==> PartOk(s.begun, s.conns[c].parts[|s.conns[c].parts| - 1])
    ensures var f := s.sender.next;
      && s.conns[c].parts != [] && s.begun != []
      && Given(s, c) == s.sender.frames[..if c in s.sender.failed then f else f + 1]
  {
  }

  lemma {:induction false} EndsWhere(maxFrame: int, s: State)
    requires Enabled(s, NextFrame) && Next(maxFrame, s, NextFrame).sender.Idle? && s.sender.failed == {}
    ensures var next := s.sender.next + 1; next >= |s.sender.frames| || |s.sender.frames[next]| > maxFrame
  {
  }

  /** When a broadcast ends with frame `f`, every connection that has been in its slot since it began
      was given exactly the frames before `f`, and `f` exactly unless it refused it; without a failure, all the frames, or all
      up to one too large to send. */
  lemma {:induction false} EveryoneIsCutAlike(maxFrame: int, steps: seq<Step>, c: nat)
    requires var s := Reached(maxFrame, steps);
      && Enabled(s, NextFrame) && Next(maxFrame, s, NextFrame).sender.Idle?
      && c < |s.conns| && InSlot(s, c) && (s.conns[c].parts != [] ==> s.conns[c].parts[|s.conns[c].parts| - 1].from == 0)
    ensures var s := Reached(maxFrame, steps); var f := s.sender.next; var frames := s.sender.frames;
      && f < |frames| && s.conns[c].parts != [] && PartsOk(s.begun, s.conns[c].parts) && s.begun != []
      && |Given(s, c)| <= |s.conns[c].log| && s.conns[c].log[|s.conns[c].log| - |Given(s, c)|..] == Given(s, c)
      && Given(s, c) == frames[..if c in s.sender.failed then f else f + 1]
      && (s.sender.failed == {} ==> f + 1 == |frames| || |frames[f + 1]| > maxFrame)
  {
    hide RunFrom;
    hide History;
    hide UpToDate;
    hide Given;
    var s := Reached(maxFrame, steps);
    RunKeepsOk(maxFrame, NOBODY, steps);
    ConnOk(s, c);
    if s.conns[c].parts != [] { GivenEndsLog(s, c); }
    if s.sender.failed == {} { EndsWhere(maxFrame, s); }
    hide Next;
    hide Do;
    GivenSoFar(s, c);
    GivenEndsLog(s, c);
  }

  // ---- What a queue is never given ----

  /** The frame on offer and everything ever queued is within the limit. */
  predicate Slim(maxFrame: int, s: State) {
    && (s.sender.Sending? ==> s.sender.next < |s.sender.frames| && |s.sender.frames[s.sender.next]| <= maxFrame)
    && (forall c, i :: 0 <= c < |s.conns| && 0 <= i < |s.conns[c].log| ==> |s.conns[c].log[i]| <= maxFrame)
  }

  lemma {:induction false} NextKeepsSlim(maxFrame: int, s: State, step: Step)
    requires Slim(maxFrame, s)
    ensures Slim(maxFrame, Next(maxFrame, s, step))
  {
  }

  lemma {:induction false} RunKeepsSlim(maxFrame: int, s: State, steps: seq<Step>)
    requires Slim(maxFrame, s)
    ensures Slim(maxFrame, RunFrom(maxFrame, s, steps))
    decreases |steps|
  {
    hide Next;
    hide Slim;
    if steps != [] {
      NextKeepsSlim(maxFrame, s, steps[0]);
      RunKeepsSlim(maxFrame, Next(maxFrame, s, steps[0]), steps[1..]);
    }
  }

  /** No frame over the limit is ever placed in any queue. */
  lemma {:induction false} NothingOversized(maxFrame: int, steps: seq<Step>, c: nat, frame: Bytes)
    requires var s := Reached(maxFrame, steps); c < |s.conns| && frame in s.conns[c].log
    ensures |frame| <= maxFrame
  {
    RunKeepsSlim(maxFrame, NOBODY, steps);
  }

  // ---- How full a queue can get ----

  /** Connection `c` had these parts and this log between broadcasts, when `begun` was shorter. */
  predicate GrownFrom(s: State, c: nat, parts: seq<Part>, begun: nat) {
    && c < |s.conns| && begun <= |s.begun| && |s.conns[c].parts| - |parts| == |s.begun| - begun
    && parts <= s.conns[c].parts && (s.sender.Sending? ==> |s.begun| > begun)
  }

  lemma {:induction false} NextGrows(maxFrame: int, s: State, step: Step, c: nat, parts: seq<Part>, begun: nat)
    requires GrownFrom(s, c, parts, begun)
    ensures GrownFrom(Next(maxFrame, s, step), c, parts, begun)
    ensures c < |Next(maxFrame, s, step).conns| && Next(maxFrame, s, step).conns[c].drained >= s.conns[c].drained
    ensures Next(maxFrame, s, step).conns[c].capacity == s.conns[c].capacity
    ensures s.begun <= Next(maxFrame, s, step).begun
  {
  }

  lemma {:induction false} RunGrows(maxFrame: int, s: State, steps: seq<Step>, c: nat, parts: seq<Part>, begun: nat)
    requires GrownFrom(s, c, parts, begun)
    ensures var s' := RunFrom(maxFrame, s, steps);
      && GrownFrom(s', c, parts, begun) && s'.conns[c].drained >= s.conns[c].drained
      && s'.conns[c].capacity == s.conns[c].capacity && s.begun <= s'.begun
    decreases |steps|
  {
    hide Next;
    if steps != [] {
      NextGrows(maxFrame, s, steps[0], c, parts, begun);
      RunGrows(maxFrame, Next(maxFrame, s, steps[0]), steps[1..], c, parts, begun);
    }
  }

  lemma {:induction false} OneMore(k: int, most: int)
    ensures k * most == (k - 1) * most + most
  {
  }

  lemma {:induction false} LaidLength(begun: seq<seq<Bytes>>, parts: seq<Part>, n: nat, most: nat)
    requires PartsOk(begun, parts) && n <= |parts|
    requires forall i :: n <= i < |parts| ==> |begun[parts[i].of]| <= most
    ensures |Laid(begun, parts)| <= |Laid(begun, parts[..n])| + (|parts| - n) * most
    decreases |parts|
  {
    hide Laid;
    if n == |parts| {
      assert parts[..n] == parts;
    } else {
      var front, p := parts[..|parts| - 1], parts[|parts| - 1];
      assert front[..n] == parts[..n] && parts == front + [p] && PartOk(begun, p);
      LaidLength(begun, front, n, most);
      LaidLast(begun, front, p);
      OneMore(|parts| - n, most);
    }
  }

  /** Frames queued on a connection after `k` broadcasts of at most `most` frames each, begun while its
      queue was empty: never more than `k * most`, even if nothing drains. */
  lemma {:induction false} QueuesStayShort(maxFrame: int, before: seq<Step>, c: nat, after: seq<Step>, most: nat)
    requires var s := Reached(maxFrame, before);
      s.sender.Idle? && c < |s.conns| && Queued(s.conns[c]) == 0
    requires var s := Reached(maxFrame, before); var s' := RunFrom(maxFrame, s, after);
      forall i :: |s.begun| <= i < |s'.begun| ==> |s'.begun[i]| <= most
    ensures var s := Reached(maxFrame, before); var s' := RunFrom(maxFrame, s, after);
      && c < |s'.conns| && |s.begun| <= |s'.begun| && s'.conns[c].capacity == s.conns[c].capacity
      && Queued(s'.conns[c]) <= (|s'.begun| - |s.begun|) * most
  {
    hide Explained;
    hide Queued;
    var s := Reached(maxFrame, before);
    var s' := RunFrom(maxFrame, s, after);
    RunKeepsOk(maxFrame, NOBODY, before);
    RunKeepsOk(maxFrame, s, after);
    ConnOk(s, c);
    RunGrows(maxFrame, s, after, c, s.conns[c].parts, |s.begun|);
    ConnOk(s', c);
    hide RunFrom;
    GrowthIsBounded(s, s', c, most);
  }

  lemma {:induction false} GrowthIsBounded(s: State, s': State, c: nat, most: nat)
    requires c < |s.conns| && Explained(s.begun, s.conns[c]) && Queued(s.conns[c]) == 0
    requires GrownFrom(s', c, s.conns[c].parts, |s.begun|) && Explained(s'.begun, s'.conns[c])
    requires s.begun <= s'.begun && s'.conns[c].drained >= s.conns[c].drained
    requires forall i :: |s.begun| <= i < |s'.begun| ==> |s'.begun[i]| <= most
    ensures Queued(s'.conns[c]) <= (|s'.begun| - |s.begun|) * most
  {
    hide Laid;
    LaidGrows(s.begun, s'.begun, s.conns[c].parts, s'.conns[c].parts);
    NewPartsAreNew(s, s', c);
    LaidLength(s'.begun, s'.conns[c].parts, |s.conns[c].parts|, most);
  }

  lemma {:induction false} LaidGrows(begun: seq<seq<Bytes>>, begun': seq<seq<Bytes>>, parts: seq<Part>, parts': seq<Part>)
    requires PartsOk(begun, parts) && begun <= begun' && PartsOk(begun', parts') && parts <= parts'
    ensures Laid(begun', parts'[..|parts|]) == Laid(begun, parts)
  {
    assert begun' == begun + begun'[|begun|..];
    assert parts'[..|parts|] == parts;
    LaidOnMore(begun, begun'[|begun|..], parts);
  }

  lemma {:induction false} NewPartsAreNew(s: State, s': State, c: nat)
    requires c < |s.conns| && c < |s'.conns| && Explained(s.begun, s.conns[c]) && Explained(s'.begun, s'.conns[c])
    requires GrownFrom(s', c, s.conns[c].parts, |s.begun|)
    ensures forall i :: |s.conns[c].parts| <= i < |s'.conns[c].parts| ==> |s.begun| <= s'.conns[c].parts[i].of < |s'.begun|
  {
    var parts' := s'.conns[c].parts;
    if parts' != [] {
      assert parts'[|parts'| - 1].of == parts'[0].of + |parts'| - 1;
    }
  }
}
