/** The anti-echo ledger: how many clipboard writes of each content the watcher should ignore,
    with lazy expiry. Times are integers on one clock. */
module Ledger {
  import opened Wire

  datatype Bucket = TextBucket | ImageBucket

  datatype Key = Key(bucket: Bucket, hash: Bytes)

  datatype Entry = Entry(count: int, expiresAt: int)

  type Entries = map<Key, Entry>

  function Pruned(entries: Entries, now: int): Entries {
    map key | key in entries && entries[key].expiresAt > now :: entries[key]
  }

  function Remembered(entries: Entries, key: Key, now: int, ttl: int): Entries {
    var live := Pruned(entries, now);
    live[key := Entry((if key in live then live[key].count else 0) + 1, now + ttl)]
  }

  function TakeOne(entries: Entries, key: Key): Entries
    requires key in entries
  {
    var left := entries[key].count - 1;
    if left <= 0 then entries - {key} else entries[key := entries[key].(count := left)]
  }

  /** The ledger after a watcher asked about `key`, and the answer "ignore this one". */
  function Consumed(entries: Entries, key: Key, now: int): (Entries, bool) {
    var live := Pruned(entries, now);
    if key in live then (TakeOne(live, key), true) else (live, false)
  }

  /** Taking a remembered write back does not look at the clock. */
  function Forgotten(entries: Entries, key: Key): Entries {
    if key in entries then TakeOne(entries, key) else entries
  }

  class PendingLedger {
    const ttl: int
    var entries: Entries

    constructor (ttl: int)
      ensures this.ttl == ttl && entries == map[]
    {
      this.ttl := ttl;
      entries := map[];
    }

    method Prune(now: int)
      modifies this
      ensures entries == Pruned(old(entries), now)
    {
      var pending := entries.Keys;
      while pending != {}
        invariant pending <= entries.Keys <= old(entries).Keys
        invariant forall key :: key in entries ==> entries[key] == old(entries)[key]
        invariant forall key :: key in entries && key !in pending ==> entries[key].expiresAt > now
        invariant forall key :: key in old(entries) && key !in entries ==> old(entries)[key].expiresAt <= now
        decreases pending
      {
        var key :| key in pending;
        pending := pending - {key};
        if entries[key].expiresAt <= now {
          entries := entries - {key};
        }
      }
    }

    method Remember(key: Key, now: int)
      modifies this
      ensures entries == Remembered(old(entries), key, now, ttl)
    {
      Prune(now);
      var count := if key in entries then entries[key].count else 0;
      entries := entries[key := Entry(count + 1, now + ttl)];
    }

    method Consume(key: Key, now: int) returns (hit: bool)
      modifies this
      ensures (entries, hit) == Consumed(old(entries), key, now)
    {
      Prune(now);
      if key !in entries {
        return false;
      }
      var entry := entries[key].(count := entries[key].count - 1);
      if entry.count <= 0 {
        entries := entries - {key};
        return true;
      }
      entries := entries[key := entry];
      return true;
    }

    method Forget(key: Key)
      modifies this
      ensures entries == Forgotten(old(entries), key)
    {
      if key !in entries {
        return;
      }
      var entry := entries[key].(count := entries[key].count - 1);
      if entry.count <= 0 {
        entries := entries - {key};
        return;
      }
      entries := entries[key := entry];
    }
  }

  /** A failed write takes its own remembering back: the counts are as before, but an older entry
      for the same content may now live longer. */
  lemma {:induction false} RememberThenForget(entries: Entries, key: Key, now: int, ttl: int)
    requires forall k :: k in entries ==> entries[k].count >= 1
    ensures var live, after := Pruned(entries, now), Forgotten(Remembered(entries, key, now, ttl), key);
      && after.Keys == live.Keys
      && (forall k :: k in live ==> after[k].count == live[k].count)
      && (after == live <==> key !in live || live[key].expiresAt == now + ttl)
  {
    var live, after := Pruned(entries, now), Forgotten(Remembered(entries, key, now, ttl), key);
    if key in live && live[key].expiresAt != now + ttl {
      assert after[key] != live[key];
    }
  }

  // ---- Runs ----

  datatype Op =
    | Remember(key: Key, at: int)
    | Consume(key: Key, at: int)
    | Forget(key: Key, at: int)

  function Step(entries: Entries, op: Op, ttl: int): Entries {
    match op
    case Remember(key, at) => Remembered(entries, key, at, ttl)
    case Consume(key, at) => Consumed(entries, key, at).0
    case Forget(key, _) => Forgotten(entries, key)
  }

  function Front(ops: seq<Op>): seq<Op>
    requires ops != []
  {
    ops[..|ops| - 1]
  }

  function Last(ops: seq<Op>): Op
    requires ops != []
  {
    ops[|ops| - 1]
  }

  function Run(ops: seq<Op>, ttl: int): Entries {
    if ops == [] then map[] else Step(Run(Front(ops), ttl), Last(ops), ttl)
  }

  predicate ClockNeverRunsBack(ops: seq<Op>) {
    forall i, j :: 0 <= i <= j < |ops| ==> ops[i].at <= ops[j].at
  }

  predicate NotBefore(ops: seq<Op>, t: int) {
    forall i :: 0 <= i < |ops| ==> ops[i].at <= t
  }

  // ---- The eager ledger ----

  function LatestRemember(ops: seq<Op>, key: Key): Option<int> {
    if ops == [] then None
    else if Last(ops).Remember? && Last(ops).key == key then Some(Last(ops).at)
    else LatestRemember(Front(ops), key)
  }

  /** Writes of `key` outstanding at time t when a key dies the moment its latest remembering is
      `ttl` old. */
  function Alive(ops: seq<Op>, ttl: int, key: Key, t: int): nat
    decreases |ops|, 1
  {
    var latest := LatestRemember(ops, key);
    if latest.Some? && t < latest.value + ttl then Balance(ops, ttl, key) else 0
  }

  /** The count the key had right after the last operation on it. */
  function Balance(ops: seq<Op>, ttl: int, key: Key): nat
    decreases |ops|, 0
  {
    if ops == [] then 0
    else if Last(ops).key != key then Balance(Front(ops), ttl, key)
    else
      var before := Alive(Front(ops), ttl, key, Last(ops).at);
      if Last(ops).Remember? then before + 1 else if before > 0 then before - 1 else 0
  }

  /** The count the lazy ledger would find at time t. */
  function LiveCount(entries: Entries, key: Key, t: int): int {
    if key in entries && entries[key].expiresAt > t then entries[key].count else 0
  }

  predicate CountsPositive(entries: Entries) {
    forall key :: key in entries ==> entries[key].count >= 1
  }

  lemma {:induction false} CountsStayPositive(entries: Entries, op: Op, ttl: int)
    requires CountsPositive(entries)
    ensures CountsPositive(Step(entries, op, ttl))
  {
  }

  /** One operation, seen through the live counts. */
  lemma {:induction false} LiveStep(entries: Entries, op: Op, ttl: int, key: Key, t: int)
    requires CountsPositive(entries) && op.at <= t
    ensures var before, after := LiveCount(entries, key, op.at), LiveCount(Step(entries, op, ttl), key, t);
      && (op.key != key ==> after == LiveCount(entries, key, t))
      && (op.key == key && op.Remember? ==> after == if t < op.at + ttl then before + 1 else 0)
      && (op.key == key && !op.Remember? ==> after == if LiveCount(entries, key, t) > 0 then before - 1 else 0)
  {
  }

  lemma {:induction false} ExpiryStep(entries: Entries, op: Op, ttl: int, key: Key)
    requires key in Step(entries, op, ttl)
    ensures if op.Remember? && op.key == key then Step(entries, op, ttl)[key].expiresAt == op.at + ttl
            else key in entries && Step(entries, op, ttl)[key].expiresAt == entries[key].expiresAt
  {
  }

  /** Every entry expires `ttl` after the key's latest remembering. */
  lemma {:induction false} ExpiryIsLatest(ops: seq<Op>, ttl: int, key: Key)
    requires key in Run(ops, ttl)
    ensures LatestRemember(ops, key).Some? && Run(ops, ttl)[key].expiresAt == LatestRemember(ops, key).value + ttl
  {
    ExpiryStep(Run(Front(ops), ttl), Last(ops), ttl, key);
    if !(Last(ops).Remember? && Last(ops).key == key) {
      ExpiryIsLatest(Front(ops), ttl, key);
    }
  }

  /** For every run with a clock that never runs back, the lazily expired ledger holds at every
      later time exactly the counts of the eager one, and never a count below one. */
  lemma {:induction false} LazyRefinesEager(ops: seq<Op>, ttl: int, key: Key, t: int)
    requires ClockNeverRunsBack(ops) && NotBefore(ops, t)
    ensures CountsPositive(Run(ops, ttl))
    ensures LiveCount(Run(ops, ttl), key, t) == Alive(ops, ttl, key, t)
  {
    if ops != [] {
      var front, op := Front(ops), Last(ops);
      assert NotBefore(front, op.at) && NotBefore(front, t);
      LazyRefinesEager(front, ttl, key, op.at);
      LazyRefinesEager(front, ttl, key, t);
      CountsStayPositive(Run(front, ttl), op, ttl);
      LiveStep(Run(front, ttl), op, ttl, key, t);
      if key in Run(front, ttl) { ExpiryIsLatest(front, ttl, key); }
    }
  }

  /** A watcher's question is answered as the eager ledger would answer it. */
  lemma {:induction false} ConsumeAnswersEagerly(ops: seq<Op>, ttl: int, key: Key, now: int)
    requires ClockNeverRunsBack(ops) && NotBefore(ops, now)
    ensures Consumed(Run(ops, ttl), key, now).1 <==> Alive(ops, ttl, key, now) > 0
  {
    LazyRefinesEager(ops, ttl, key, now);
  }

  // ---- Conservation ----

  function CountOf(entries: Entries, key: Key): int {
    if key in entries then entries[key].count else 0
  }

  function Remembers(ops: seq<Op>, key: Key): nat {
    if ops == [] then 0
    else Remembers(Front(ops), key) + (if Last(ops).Remember? && Last(ops).key == key then 1 else 0)
  }

  /** Questions about `key` answered "ignore". */
  function Suppressed(ops: seq<Op>, ttl: int, key: Key): nat {
    if ops == [] then 0
    else
      var hit := Last(ops).Consume? && Last(ops).key == key && Consumed(Run(Front(ops), ttl), key, Last(ops).at).1;
      Suppressed(Front(ops), ttl, key) + (if hit then 1 else 0)
  }

  function EffectiveForgets(ops: seq<Op>, ttl: int, key: Key): nat {
    if ops == [] then 0
    else
      var taken := Last(ops).Forget? && Last(ops).key == key && key in Run(Front(ops), ttl);
      EffectiveForgets(Front(ops), ttl, key) + (if taken then 1 else 0)
  }

  /** Remembered writes of `key` that pruning dropped. */
  function Expired(ops: seq<Op>, ttl: int, key: Key): int {
    if ops == [] then 0
    else
      var before := Run(Front(ops), ttl);
      var dropped := CountOf(before, key) - CountOf(Pruned(before, Last(ops).at), key);
      Expired(Front(ops), ttl, key) + (if Last(ops).Forget? then 0 else dropped)
  }

  lemma {:induction false} RunCountsPositive(ops: seq<Op>, ttl: int)
    ensures CountsPositive(Run(ops, ttl))
  {
    if ops != [] {
      RunCountsPositive(Front(ops), ttl);
      CountsStayPositive(Run(Front(ops), ttl), Last(ops), ttl);
    }
  }

  /** On every run every remembered write is suppressed, taken back, expired or still there. */
  lemma {:induction false} RemembersAreConserved(ops: seq<Op>, ttl: int, key: Key)
    ensures Remembers(ops, key)
         == Suppressed(ops, ttl, key) + EffectiveForgets(ops, ttl, key) + Expired(ops, ttl, key)
          + CountOf(Run(ops, ttl), key)
    ensures Expired(ops, ttl, key) >= 0
  {
    if ops != [] {
      RemembersAreConserved(Front(ops), ttl, key);
      RunCountsPositive(Front(ops), ttl);
    }
  }
}
