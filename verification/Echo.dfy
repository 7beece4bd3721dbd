/** One node's clipboard over every interleaving of user copies, remote writes in progress,
    native reports, coalescing and clock ticks: how much of what it emits is not the user's.

    Each critical section of the ledger is one step and each reading of the clock is another: a
    reading may reach the ledger late, after others taken later. A remote write is a reading, the
    remembering, the native write, and on failure the forgetting; a native report is a reading and
    the question to the ledger. Any number may be in progress, native reports may arrive in any
    order or get lost, but no change is reported twice. */
module Echo {
  import opened Counting
  import opened Wire
  import opened Messages
  import opened Payloads
  import opened Ledger
  import opened Coalescing
  import opened Clipboard

  /** The ledger's time, and how far a clock reading may lag behind the clock when it is used. */
  datatype Limits = Limits(ttl: int, skew: int)
  {
    /** How long after its reading a remembering certainly lasts: a later remembering of the same
        content may have read the clock `skew` earlier than this one. */
    function Life(): int {
      ttl - skew
    }
  }

  datatype Origin = ByUser | ByRemote(readAt: int)

  /** A remote write whose clock reading was taken and that has not returned yet. */
  datatype Write = Write(bucket: Bucket, data: Bytes, readAt: int, remembered: bool)

  /** A clipboard change to be reported; `looked` is the clock reading of the watcher that took it. */
  datatype Report = Report(bucket: Bucket, data: Bytes, origin: Origin, looked: Option<int>)

  /** What has happened so far, by content key. */
  datatype Tally = Tally(
    copies: multiset<Key>,   // changes made by the user
    userSeen: multiset<Key>, // of these, reported
    late: multiset<Key>,     // remote changes whose report reached the ledger after their life
    slow: multiset<Key>,     // remote writes that failed after their life
    passed: multiset<Key>,   // reports not suppressed
    emitted: multiset<Key>)  // payloads emitted to the network

  datatype Node = Node(
    clock: int,
    entries: Entries,
    inFlight: seq<Write>,
    reports: seq<Report>,
    observed: seq<Event>,
    tally: Tally)

  const NO_TALLY := Tally(multiset{}, multiset{}, multiset{}, multiset{}, multiset{}, multiset{})

  function Idle(now: int): Node {
    Node(now, map[], [], [], [], NO_TALLY)
  }

  datatype Step =
    | Tick(to: int)
    | Copy(bucket: Bucket, data: Bytes)
    | Arrive(payload: ClipboardPayload)
    | Record(i: nat)
    | WriteDone(i: nat)
    | WriteFails(i: nat)
    | Look(i: nat)
    | Watched(i: nat)
    | Lost(i: nat)
    | Emit(n: nat, textMs: int64, imageMs: int64)

  function EventKey(env: Env, e: Event): Key {
    KeyOf(env, e.bucket, e.data)
  }

  function EventKeys(env: Env, events: seq<Event>): multiset<Key> {
    if events == [] then multiset{}
    else EventKeys(env, events[..|events| - 1]) + multiset{EventKey(env, events[|events| - 1])}
  }

  /** The key under which a receiver or the user's count files an emitted payload. */
  function PayloadKey(p: ClipboardPayload): Key {
    Key(if p.kind == KIND_IMAGE then ImageBucket else TextBucket, p.sha256)
  }

  function EmissionKeys(out: seq<Emission>): multiset<Key> {
    if out == [] then multiset{}
    else EmissionKeys(out[..|out| - 1]) + multiset{PayloadKey(out[|out| - 1].payload)}
  }

  function EmitWindow(env: Env, n: Node, s: Step): seq<Emission>
    requires s.Emit? && s.n <= |n.observed|
  {
    WindowEmissions(env, 0, Window(n.observed[..s.n], s.textMs, s.imageMs))
  }

  // ---- Steps ----

  function DoCopy(env: Env, n: Node, b: Bucket, data: Bytes): Node {
    n.(reports := n.reports + [Report(b, data, ByUser, None)],
       tally := n.tally.(copies := n.tally.copies + multiset{KeyOf(env, b, data)}))
  }

  /** A remote payload passes the checks and the clock is read. */
  function DoArrive(env: Env, n: Node, p: ClipboardPayload): Node {
    match Admit(env, Some(p))
    case Err(_) => n
    case Ok(w) => n.(inFlight := n.inFlight + [Write(w.bucket, w.data, n.clock, false)])
  }

  predicate CanRemember(lim: Limits, n: Node, i: nat) {
    i < |n.inFlight| && !n.inFlight[i].remembered && n.clock <= n.inFlight[i].readAt + lim.skew
  }

  function DoRemember(env: Env, lim: Limits, n: Node, i: nat): Node
    requires i < |n.inFlight|
  {
    var w := n.inFlight[i];
    n.(entries := Remembered(n.entries, KeyOf(env, w.bucket, w.data), w.readAt, lim.ttl),
       inFlight := n.inFlight[i := w.(remembered := true)])
  }

  predicate CanReturn(n: Node, i: nat) {
    i < |n.inFlight| && n.inFlight[i].remembered
  }

  function DoWriteDone(n: Node, i: nat): Node
    requires i < |n.inFlight|
  {
    var w := n.inFlight[i];
    n.(inFlight := RemoveAt(n.inFlight, i),
       reports := n.reports + [Report(w.bucket, w.data, ByRemote(w.readAt), None)])
  }

  function DoWriteFails(env: Env, lim: Limits, n: Node, i: nat): Node
    requires i < |n.inFlight|
  {
    var w := n.inFlight[i];
    var key := KeyOf(env, w.bucket, w.data);
    n.(inFlight := RemoveAt(n.inFlight, i),
       entries := Forgotten(n.entries, key),
       tally := if n.clock < w.readAt + lim.Life() then n.tally
                else n.tally.(slow := n.tally.slow + multiset{key}))
  }

  predicate CanLook(n: Node, i: nat) {
    i < |n.reports| && n.reports[i].looked.None?
  }

  function DoLook(n: Node, i: nat): Node
    requires i < |n.reports|
  {
    n.(reports := n.reports[i := n.reports[i].(looked := Some(n.clock))])
  }

  predicate CanAsk(lim: Limits, n: Node, i: nat) {
    i < |n.reports| && n.reports[i].looked.Some? && n.clock <= n.reports[i].looked.value + lim.skew
  }

  function TallyReport(t: Tally, r: Report, key: Key, now: int, lim: Limits, hit: bool): Tally {
    t.(userSeen := t.userSeen + (if r.origin == ByUser then multiset{key} else multiset{}),
       late := t.late + (if r.origin.ByRemote? && r.origin.readAt + lim.Life() <= now then multiset{key} else multiset{}),
       passed := t.passed + (if hit then multiset{} else multiset{key}))
  }

  function DoWatched(env: Env, lim: Limits, n: Node, i: nat): Node
    requires i < |n.reports| && n.reports[i].looked.Some?
  {
    var r := n.reports[i];
    var key := KeyOf(env, r.bucket, r.data);
    var (entries, hit) := Consumed(n.entries, key, r.looked.value);
    n.(reports := RemoveAt(n.reports, i),
       entries := entries,
       observed := if hit then n.observed else n.observed + [Event(r.bucket, r.data)],
       tally := TallyReport(n.tally, r, key, n.clock, lim, hit))
  }

  function DoEmit(env: Env, n: Node, s: Step): Node
    requires s.Emit? && s.n <= |n.observed|
  {
    n.(observed := n.observed[s.n..],
       tally := n.tally.(emitted := n.tally.emitted + EmissionKeys(EmitWindow(env, n, s))))
  }

  /** A step that is not possible leaves the node as it is. */
  function Do(env: Env, lim: Limits, n: Node, s: Step): Node {
    match s
    case Tick(to) => if to >= n.clock then n.(clock := to) else n
    case Copy(b, data) => DoCopy(env, n, b, data)
    case Arrive(p) => DoArrive(env, n, p)
    case Record(i) => if CanRemember(lim, n, i) then DoRemember(env, lim, n, i) else n
    case WriteDone(i) => if CanReturn(n, i) then DoWriteDone(n, i) else n
    case WriteFails(i) => if CanReturn(n, i) then DoWriteFails(env, lim, n, i) else n
    case Look(i) => if CanLook(n, i) then DoLook(n, i) else n
    case Watched(i) => if CanAsk(lim, n, i) then DoWatched(env, lim, n, i) else n
    case Lost(i) => if i < |n.reports| then n.(reports := RemoveAt(n.reports, i)) else n
    case Emit(k, _, _) => if k <= |n.observed| then DoEmit(env, n, s) else n
  }

  function Exec(env: Env, lim: Limits, start: int, steps: seq<Step>): Node {
    if steps == [] then Idle(start)
    else Do(env, lim, Exec(env, lim, start, steps[..|steps| - 1]), steps[|steps| - 1])
  }

  // ---- The invariant ----

  /** A remembered write of `key` in progress within its life. */
  function LiveWrite(env: Env, lim: Limits, key: Key, now: int): Write -> bool {
    (w: Write) => w.remembered && KeyOf(env, w.bucket, w.data) == key && now < w.readAt + lim.Life()
  }

  /** A remote change of `key` yet to be reported within its life. */
  function LiveReport(env: Env, lim: Limits, key: Key, now: int): Report -> bool {
    (r: Report) => r.origin.ByRemote? && KeyOf(env, r.bucket, r.data) == key && now < r.origin.readAt + lim.Life()
  }

  /** Every reading is in the past, and every entry outlives the life of all that rely on it. */
  predicate Remembering(env: Env, lim: Limits, n: Node) {
    && CountsPositive(n.entries)
    && (forall w :: w in n.inFlight ==> w.readAt <= n.clock)
    && (forall r :: r in n.reports && r.origin.ByRemote? ==> r.origin.readAt <= n.clock)
    && (forall r :: r in n.reports && r.looked.Some? ==> r.looked.value <= n.clock)
    && (forall r :: r in n.reports && r.looked.Some? && r.origin.ByRemote? ==> r.origin.readAt <= r.looked.value)
    && (forall w :: w in n.inFlight && w.remembered && KeyOf(env, w.bucket, w.data) in n.entries ==>
          w.readAt + lim.Life() <= n.entries[KeyOf(env, w.bucket, w.data)].expiresAt)
    && (forall r :: r in n.reports && r.origin.ByRemote? && KeyOf(env, r.bucket, r.data) in n.entries ==>
          r.origin.readAt + lim.Life() <= n.entries[KeyOf(env, r.bucket, r.data)].expiresAt)
  }

  /** The user changes of `key` reported, and the two ways a life can be overrun. */
  function Allowance(t: Tally, key: Key): nat {
    t.userSeen[key] + t.late[key] + t.slow[key]
  }

  /** Every pass is paid for, and every remote change still due to be reported is covered. */
  predicate Covered(env: Env, lim: Limits, n: Node, key: Key) {
    && n.tally.passed[key] <= Allowance(n.tally, key)
    && n.tally.passed[key]
       + CountIf(n.reports, LiveReport(env, lim, key, n.clock))
       + CountIf(n.inFlight, LiveWrite(env, lim, key, n.clock))
       <= CountOf(n.entries, key) + Allowance(n.tally, key)
  }

  function UserReport(env: Env, key: Key): Report -> bool {
    (r: Report) => r.origin == ByUser && KeyOf(env, r.bucket, r.data) == key
  }

  /** Reported user changes were made. */
  predicate FromUser(env: Env, n: Node, key: Key) {
    n.tally.userSeen[key] + CountIf(n.reports, UserReport(env, key)) <= n.tally.copies[key]
  }

  /** Emissions come from passed reports. */
  predicate FromPassed(env: Env, n: Node, key: Key) {
    WithinPassed(env, n.observed, n.tally, key)
  }

  predicate WithinPassed(env: Env, observed: seq<Event>, t: Tally, key: Key) {
    t.emitted[key] + EventKeys(env, observed)[key] <= t.passed[key]
  }

  // ---- Every step keeps it ----

  /** An entry that a reading in the past finds expired covers nothing any more. */
  lemma {:induction false} ExpiredCoversNothing(env: Env, lim: Limits, n: Node, key: Key)
    requires Remembering(env, lim, n) && key in n.entries && n.entries[key].expiresAt <= n.clock
    ensures CountIf(n.reports, LiveReport(env, lim, key, n.clock)) == 0
    ensures CountIf(n.inFlight, LiveWrite(env, lim, key, n.clock)) == 0
  {
    CountNone(n.reports, LiveReport(env, lim, key, n.clock));
    CountNone(n.inFlight, LiveWrite(env, lim, key, n.clock));
  }

  lemma {:induction false} TickCovers(env: Env, lim: Limits, n: Node, to: int, key: Key)
    requires Covered(env, lim, n, key) && to >= n.clock
    ensures Covered(env, lim, n.(clock := to), key)
  {
    CountWeaker(n.reports, LiveReport(env, lim, key, to), LiveReport(env, lim, key, n.clock));
    CountWeaker(n.inFlight, LiveWrite(env, lim, key, to), LiveWrite(env, lim, key, n.clock));
  }

  lemma {:induction false} CopyCovers(env: Env, lim: Limits, n: Node, b: Bucket, data: Bytes, key: Key)
    requires Covered(env, lim, n, key)
    ensures Covered(env, lim, DoCopy(env, n, b, data), key)
  {
    CountAppend(n.reports, Report(b, data, ByUser, None), LiveReport(env, lim, key, n.clock));
  }

  lemma {:induction false} ArriveCovers(env: Env, lim: Limits, n: Node, p: ClipboardPayload, key: Key)
    requires Covered(env, lim, n, key)
    ensures Covered(env, lim, DoArrive(env, n, p), key)
  {
    if Admit(env, Some(p)).Ok? {
      var w := Admit(env, Some(p)).value;
      CountAppend(n.inFlight, Write(w.bucket, w.data, n.clock, false), LiveWrite(env, lim, key, n.clock));
    }
  }

  lemma {:induction false} RememberCovers(env: Env, lim: Limits, n: Node, i: nat, key: Key)
    requires Remembering(env, lim, n) && Covered(env, lim, n, key) && CanRemember(lim, n, i)
    ensures Covered(env, lim, DoRemember(env, lim, n, i), key)
  {
    var w := n.inFlight[i];
    CountUpdate(n.inFlight, i, w.(remembered := true), LiveWrite(env, lim, key, n.clock));
    if key in n.entries && n.entries[key].expiresAt <= w.readAt { ExpiredCoversNothing(env, lim, n, key); }
  }

  lemma {:induction false} WriteDoneCovers(env: Env, lim: Limits, n: Node, i: nat, key: Key)
    requires Covered(env, lim, n, key) && CanReturn(n, i)
    ensures Covered(env, lim, DoWriteDone(n, i), key)
  {
    var w := n.inFlight[i];
    CountRemove(n.inFlight, i, LiveWrite(env, lim, key, n.clock));
    CountAppend(n.reports, Report(w.bucket, w.data, ByRemote(w.readAt), None), LiveReport(env, lim, key, n.clock));
  }

  lemma {:induction false} WriteFailsCovers(env: Env, lim: Limits, n: Node, i: nat, key: Key)
    requires Remembering(env, lim, n) && Covered(env, lim, n, key) && CanReturn(n, i)
    ensures Covered(env, lim, DoWriteFails(env, lim, n, i), key)
  {
    CountRemove(n.inFlight, i, LiveWrite(env, lim, key, n.clock));
  }

  lemma {:induction false} LookCovers(env: Env, lim: Limits, n: Node, i: nat, key: Key)
    requires Covered(env, lim, n, key) && i < |n.reports|
    ensures Covered(env, lim, DoLook(n, i), key)
  {
    CountUpdate(n.reports, i, n.reports[i].(looked := Some(n.clock)), LiveReport(env, lim, key, n.clock));
  }

  /** What a question to the ledger leaves of each count. */
  lemma {:induction false} ConsumedCount(entries: Entries, asked: Key, at: int, key: Key)
    requires CountsPositive(entries)
    ensures var (after, hit) := Consumed(entries, asked, at);
      var found := key in entries && entries[key].expiresAt > at;
      && (asked == key ==> hit == found)
      && CountOf(after, key) == if !found then 0 else CountOf(entries, key) - (if asked == key then 1 else 0)
  {
  }

  lemma {:induction false} WatchedCovers(env: Env, lim: Limits, n: Node, i: nat, key: Key)
    requires Remembering(env, lim, n) && Covered(env, lim, n, key) && CanAsk(lim, n, i)
    ensures Covered(env, lim, DoWatched(env, lim, n, i), key)
  {
    hide Consumed;
    var r := n.reports[i];
    assert r in n.reports;
    CountRemove(n.reports, i, LiveReport(env, lim, key, n.clock));
    ConsumedCount(n.entries, KeyOf(env, r.bucket, r.data), r.looked.value, key);
    if key in n.entries && n.entries[key].expiresAt <= n.clock { ExpiredCoversNothing(env, lim, n, key); }
    hide Remembering;
    hide KeyOf;
  }

  lemma {:induction false} LostCovers(env: Env, lim: Limits, n: Node, i: nat, key: Key)
    requires Covered(env, lim, n, key) && i < |n.reports|
    ensures Covered(env, lim, n.(reports := RemoveAt(n.reports, i)), key)
  {
    CountRemove(n.reports, i, LiveReport(env, lim, key, n.clock));
  }

  lemma {:induction false} StepCovers(env: Env, lim: Limits, n: Node, s: Step, key: Key)
    requires Remembering(env, lim, n) && Covered(env, lim, n, key)
    ensures Covered(env, lim, Do(env, lim, n, s), key)
  {
    hide Covered;
    hide Remembering;
    match s
    case Tick(to) => if to >= n.clock { TickCovers(env, lim, n, to, key); }
    case Copy(b, data) => CopyCovers(env, lim, n, b, data, key);
    case Arrive(p) => ArriveCovers(env, lim, n, p, key);
    case Record(i) => if CanRemember(lim, n, i) { RememberCovers(env, lim, n, i, key); }
    case WriteDone(i) => if CanReturn(n, i) { WriteDoneCovers(env, lim, n, i, key); }
    case WriteFails(i) => if CanReturn(n, i) { WriteFailsCovers(env, lim, n, i, key); }
    case Look(i) => if CanLook(n, i) { LookCovers(env, lim, n, i, key); }
    case Watched(i) => if CanAsk(lim, n, i) { WatchedCovers(env, lim, n, i, key); }
    case Lost(i) => if i < |n.reports| { LostCovers(env, lim, n, i, key); }
    case Emit(k, _, _) => if k <= |n.observed| { EmitCovers(env, lim, n, s, key); }
  }

  lemma {:induction false} EmitCovers(env: Env, lim: Limits, n: Node, s: Step, key: Key)
    requires Covered(env, lim, n, key) && s.Emit? && s.n <= |n.observed|
    ensures Covered(env, lim, DoEmit(env, n, s), key)
  {
    hide EmitWindow;
  }

  lemma {:induction false} RememberRemembers(env: Env, lim: Limits, n: Node, i: nat)
    requires Remembering(env, lim, n) && CanRemember(lim, n, i)
    ensures Remembering(env, lim, DoRemember(env, lim, n, i))
  {
    var n' := DoRemember(env, lim, n, i);
    assert forall w :: w in n'.inFlight ==> w in n.inFlight || w == n.inFlight[i].(remembered := true);
    assert n.inFlight[i] in n.inFlight;
  }

  lemma {:induction false} LedgerShrinks(entries: Entries, key: Key, now: int)
    requires CountsPositive(entries)
    ensures forall k :: k in Consumed(entries, key, now).0 ==>
              k in entries && Consumed(entries, key, now).0[k].expiresAt == entries[k].expiresAt
    ensures forall k :: k in Forgotten(entries, key) ==>
              k in entries && Forgotten(entries, key)[k].expiresAt == entries[k].expiresAt
    ensures CountsPositive(Consumed(entries, key, now).0) && CountsPositive(Forgotten(entries, key))
  {
  }

  lemma {:induction false} WriteDoneRemembers(env: Env, lim: Limits, n: Node, i: nat)
    requires Remembering(env, lim, n) && CanReturn(n, i)
    ensures Remembering(env, lim, DoWriteDone(n, i))
  {
    assert n.inFlight[i] in n.inFlight;
  }

  lemma {:induction false} WriteFailsRemembers(env: Env, lim: Limits, n: Node, i: nat)
    requires Remembering(env, lim, n) && CanReturn(n, i)
    ensures Remembering(env, lim, DoWriteFails(env, lim, n, i))
  {
    LedgerShrinks(n.entries, KeyOf(env, n.inFlight[i].bucket, n.inFlight[i].data), n.clock);
  }

  lemma {:induction false} LookRemembers(env: Env, lim: Limits, n: Node, i: nat)
    requires Remembering(env, lim, n) && i < |n.reports|
    ensures Remembering(env, lim, DoLook(n, i))
  {
    var n' := DoLook(n, i);
    assert forall r :: r in n'.reports ==> r in n.reports || r == n.reports[i].(looked := Some(n.clock));
    assert n.reports[i] in n.reports;
  }

  lemma {:induction false} WatchedRemembers(env: Env, lim: Limits, n: Node, i: nat)
    requires Remembering(env, lim, n) && CanAsk(lim, n, i)
    ensures Remembering(env, lim, DoWatched(env, lim, n, i))
  {
    LedgerShrinks(n.entries, KeyOf(env, n.reports[i].bucket, n.reports[i].data), n.reports[i].looked.value);
  }

  lemma {:induction false} QuietRemembers(env: Env, lim: Limits, n: Node, s: Step)
    requires Remembering(env, lim, n) && (s.Tick? || s.Copy? || s.Arrive? || s.Lost? || s.Emit?)
    ensures Remembering(env, lim, Do(env, lim, n, s))
  {
    hide EmitWindow;
  }

  lemma {:induction false} StepRemembers(env: Env, lim: Limits, n: Node, s: Step)
    requires Remembering(env, lim, n)
    ensures Remembering(env, lim, Do(env, lim, n, s))
  {
    hide Remembering;
    match s
    case Record(i) => if CanRemember(lim, n, i) { RememberRemembers(env, lim, n, i); }
    case WriteDone(i) => if CanReturn(n, i) { WriteDoneRemembers(env, lim, n, i); }
    case WriteFails(i) => if CanReturn(n, i) { WriteFailsRemembers(env, lim, n, i); }
    case Look(i) => if CanLook(n, i) { LookRemembers(env, lim, n, i); }
    case Watched(i) => if CanAsk(lim, n, i) { WatchedRemembers(env, lim, n, i); }
    case _ => QuietRemembers(env, lim, n, s);
  }

  // ---- Emissions come from passed reports ----

  lemma {:induction false} EventKeysConcat(env: Env, a: seq<Event>, b: seq<Event>)
    ensures EventKeys(env, a + b) == EventKeys(env, a) + EventKeys(env, b)
  {
    if b == [] {
      assert a + b == a;
    } else {
      assert (a + b)[..|a + b| - 1] == a + b[..|b| - 1];
      EventKeysConcat(env, a, b[..|b| - 1]);
    }
  }

  lemma {:induction false} EventKeysCount(env: Env, events: seq<Event>, i: nat)
    requires i < |events|
    ensures EventKeys(env, events)[EventKey(env, events[i])] >= 1
  {
    if i < |events| - 1 { EventKeysCount(env, events[..|events| - 1], i); }
  }

  lemma {:induction false} DescribedKey(env: Env, w: Window, p: ClipboardPayload, e: Event)
    requires Describes(env, w, p, e)
    ensures PayloadKey(p) == EventKey(env, e)
  {
  }

  lemma {:induction false} BucketEmissionKeys(env: Env, w: Window, b: Bucket, key: Key)
    ensures EmissionKeys(BucketEmissions(env, 0, w, b))[key]
         <= if key.bucket == b && EventKeys(env, w.events)[key] >= 1 then 1 else 0
  {
    BucketEmits(env, 0, w, b);
    var out := BucketEmissions(env, 0, w, b);
    if out != [] {
      assert out[0] in out && out == [out[0]];
      DescribedKey(env, w, out[0].payload, w.events[out[0].index]);
      EventKeysCount(env, w.events, out[0].index);
    }
  }

  lemma {:induction false} EmissionKeysConcat(a: seq<Emission>, b: seq<Emission>)
    ensures EmissionKeys(a + b) == EmissionKeys(a) + EmissionKeys(b)
  {
    if b == [] {
      assert a + b == a;
    } else {
      assert (a + b)[..|a + b| - 1] == a + b[..|b| - 1];
      EmissionKeysConcat(a, b[..|b| - 1]);
    }
  }

  /** A window emits no content more often than it was observed. */
  lemma {:induction false} WindowEmissionKeys(env: Env, w: Window, key: Key)
    ensures EmissionKeys(WindowEmissions(env, 0, w))[key] <= EventKeys(env, w.events)[key]
  {
    BucketEmissionKeys(env, w, TextBucket, key);
    BucketEmissionKeys(env, w, ImageBucket, key);
    EmissionKeysConcat(BucketEmissions(env, 0, w, TextBucket), BucketEmissions(env, 0, w, ImageBucket));
  }

  lemma {:induction false} WindowTakesItsKeys(env: Env, observed: seq<Event>, k: nat, textMs: int64, imageMs: int64, key: Key)
    requires k <= |observed|
    ensures EmissionKeys(WindowEmissions(env, 0, Window(observed[..k], textMs, imageMs)))[key]
          + EventKeys(env, observed[k..])[key] <= EventKeys(env, observed)[key]
  {
    WindowEmissionKeys(env, Window(observed[..k], textMs, imageMs), key);
    EventKeysConcat(env, observed[..k], observed[k..]);
    assert observed[..k] + observed[k..] == observed;
  }

  lemma {:induction false} EmitFromPassed(env: Env, n: Node, s: Step, key: Key)
    requires FromPassed(env, n, key) && s.Emit? && s.n <= |n.observed|
    ensures FromPassed(env, DoEmit(env, n, s), key)
  {
    WindowTakesItsKeys(env, n.observed, s.n, s.textMs, s.imageMs, key);
  }

  lemma {:induction false} WatchedFromPassed(env: Env, lim: Limits, n: Node, i: nat, key: Key)
    requires FromPassed(env, n, key) && CanAsk(lim, n, i)
    ensures FromPassed(env, DoWatched(env, lim, n, i), key)
  {
    var e := Event(n.reports[i].bucket, n.reports[i].data);
    EventKeysConcat(env, n.observed, [e]);
    assert EventKeys(env, [e]) == multiset{EventKey(env, e)};
  }

  lemma {:induction false} OtherFromPassed(env: Env, lim: Limits, n: Node, s: Step)
    requires s.Emit? ==> s.n > |n.observed|
    requires s.Watched? ==> !CanAsk(lim, n, s.i)
    ensures var n' := Do(env, lim, n, s);
      n'.observed == n.observed && n'.tally.emitted == n.tally.emitted && n'.tally.passed == n.tally.passed
  {
  }

  lemma {:induction false} StepFromPassed(env: Env, lim: Limits, n: Node, s: Step, key: Key)
    requires FromPassed(env, n, key)
    ensures FromPassed(env, Do(env, lim, n, s), key)
  {
    hide EmitWindow;
    if s.Emit? && s.n <= |n.observed| {
      EmitFromPassed(env, n, s, key);
    } else if s.Watched? && CanAsk(lim, n, s.i) {
      WatchedFromPassed(env, lim, n, s.i, key);
    } else {
      OtherFromPassed(env, lim, n, s);
    }
  }

  lemma {:induction false} WatchedFromUser(env: Env, lim: Limits, n: Node, i: nat, key: Key)
    requires FromUser(env, n, key) && CanAsk(lim, n, i)
    ensures FromUser(env, DoWatched(env, lim, n, i), key)
  {
    CountRemove(n.reports, i, UserReport(env, key));
  }

  lemma {:induction false} OtherFromUser(env: Env, lim: Limits, n: Node, s: Step)
    requires !s.Copy? && !s.WriteDone? && !s.Watched? && !s.Lost? && !s.Look?
    ensures var n' := Do(env, lim, n, s);
      n'.reports == n.reports && n'.tally.userSeen == n.tally.userSeen && n'.tally.copies == n.tally.copies
  {
    hide EmitWindow;
  }

  lemma {:induction false} StepFromUser(env: Env, lim: Limits, n: Node, s: Step, key: Key)
    requires FromUser(env, n, key)
    ensures FromUser(env, Do(env, lim, n, s), key)
  {
    var p := UserReport(env, key);
    match s
    case Copy(b, data) => CountAppend(n.reports, Report(b, data, ByUser, None), p);
    case WriteDone(i) =>
      if CanReturn(n, i) {
        var w := n.inFlight[i];
        CountAppend(n.reports, Report(w.bucket, w.data, ByRemote(w.readAt), None), p);
      }
    case Look(i) => if CanLook(n, i) { CountUpdate(n.reports, i, n.reports[i].(looked := Some(n.clock)), p); }
    case Watched(i) => if CanAsk(lim, n, i) { WatchedFromUser(env, lim, n, i, key); }
    case Lost(i) => if i < |n.reports| { CountRemove(n.reports, i, p); }
    case _ => OtherFromUser(env, lim, n, s);
  }

  // ---- Whole runs ----

  /** What every reachable node satisfies. */
  ghost predicate Sound(env: Env, lim: Limits, n: Node) {
    && Remembering(env, lim, n)
    && forall key: Key :: Covered(env, lim, n, key) && FromUser(env, n, key) && FromPassed(env, n, key)
  }

  lemma {:induction false} IdleSound(env: Env, lim: Limits, start: int)
    ensures Sound(env, lim, Idle(start))
  {
  }

  lemma {:induction false} StepSound(env: Env, lim: Limits, n: Node, s: Step)
    requires Sound(env, lim, n)
    ensures Sound(env, lim, Do(env, lim, n, s))
  {
    StepRemembers(env, lim, n, s);
    forall key: Key
      ensures var n' := Do(env, lim, n, s);
        Covered(env, lim, n', key) && FromUser(env, n', key) && FromPassed(env, n', key)
    {
      StepCovers(env, lim, n, s, key);
      StepFromUser(env, lim, n, s, key);
      StepFromPassed(env, lim, n, s, key);
    }
  }

  lemma {:induction false} RunSound(env: Env, lim: Limits, start: int, steps: seq<Step>)
    ensures Sound(env, lim, Exec(env, lim, start, steps))
  {
    if steps == [] {
      IdleSound(env, lim, start);
    } else {
      RunSound(env, lim, start, steps[..|steps| - 1]);
      StepSound(env, lim, Exec(env, lim, start, steps[..|steps| - 1]), steps[|steps| - 1]);
    }
  }

  lemma {:induction false} SoundEmissions(env: Env, lim: Limits, n: Node)
    requires Sound(env, lim, n)
    ensures n.tally.emitted <= n.tally.copies + n.tally.late + n.tally.slow
  {
    forall key: Key
      ensures n.tally.emitted[key] <= (n.tally.copies + n.tally.late + n.tally.slow)[key]
    {
      assert Covered(env, lim, n, key) && FromUser(env, n, key) && FromPassed(env, n, key);
    }
  }

  /** On every run, for every content: what the node emits is at most what its user copied, plus
      one for every remote change reported and every remote write failed after its life. */
  lemma {:induction false} EmissionsAreAccounted(env: Env, lim: Limits, start: int, steps: seq<Step>)
    ensures var t := Exec(env, lim, start, steps).tally;
      t.emitted <= t.copies + t.late + t.slow
  {
    RunSound(env, lim, start, steps);
    SoundEmissions(env, lim, Exec(env, lim, start, steps));
  }
}
