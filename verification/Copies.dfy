/** What becomes of every copy the user makes: the clipboard swallows none without a reason. */
module Copies {
  import opened Counting
  import opened Wire
  import opened Messages
  import opened Ledger
  import opened Coalescing
  import opened Clipboard
  import opened Echo

  function Before(steps: seq<Step>): seq<Step>
    requires steps != []
  {
    steps[..|steps| - 1]
  }

  /** The remote writes of `key` remembered during the run. */
  function Recorded(env: Env, lim: Limits, start: int, steps: seq<Step>, key: Key): nat {
    if steps == [] then 0
    else
      var n, s := Exec(env, lim, start, Before(steps)), steps[|steps| - 1];
      Recorded(env, lim, start, Before(steps), key)
      + if s.Record? && CanRemember(lim, n, s.i) && KeyOf(env, n.inFlight[s.i].bucket, n.inFlight[s.i].data) == key then 1 else 0
  }

  /** The user changes of `key` whose report got lost. */
  function LostCopies(env: Env, lim: Limits, start: int, steps: seq<Step>, key: Key): nat {
    if steps == [] then 0
    else
      var n, s := Exec(env, lim, start, Before(steps)), steps[|steps| - 1];
      LostCopies(env, lim, start, Before(steps), key)
      + if s.Lost? && s.i < |n.reports| && UserReport(env, key)(n.reports[s.i]) then 1 else 0
  }

  /** The changes of `key` that came to their window's end, to be coalesced and emitted. */
  function Windowed(env: Env, lim: Limits, start: int, steps: seq<Step>, key: Key): nat {
    if steps == [] then 0
    else
      var n, s := Exec(env, lim, start, Before(steps)), steps[|steps| - 1];
      Windowed(env, lim, start, Before(steps), key)
      + if s.Emit? && s.n <= |n.observed| then EventKeys(env, n.observed[..s.n])[key] else 0
  }

  // ---- One step at a time ----

  /** The ledger holds and has suppressed no more of `key` than was remembered. */
  predicate Paid(n: Node, key: Key, recorded: nat) {
    CountsPositive(n.entries) && n.tally.userSeen[key] + CountOf(n.entries, key) <= n.tally.passed[key] + recorded
  }

  lemma {:induction false} StepPays(env: Env, lim: Limits, n: Node, s: Step, key: Key, recorded: nat)
    requires Paid(n, key, recorded)
    ensures var more :=
        if s.Record? && CanRemember(lim, n, s.i) && KeyOf(env, n.inFlight[s.i].bucket, n.inFlight[s.i].data) == key then 1 else 0;
      Paid(Do(env, lim, n, s), key, recorded + more)
  {
    hide EmitWindow;
    if s.Watched? && CanAsk(lim, n, s.i) {
      hide Consumed;
      var r := n.reports[s.i];
      ConsumedCount(n.entries, KeyOf(env, r.bucket, r.data), r.looked.value, key);
      LedgerShrinks(n.entries, KeyOf(env, r.bucket, r.data), r.looked.value);
    }
  }

  /** Copies are reported, lost, or about to be reported. */
  predicate Reported(env: Env, n: Node, key: Key, lost: nat) {
    n.tally.copies[key] == n.tally.userSeen[key] + CountIf(n.reports, UserReport(env, key)) + lost
  }

  lemma {:induction false} ReportsChange(env: Env, lim: Limits, n: Node, s: Step, key: Key, lost: nat)
    requires Reported(env, n, key, lost) && (s.Copy? || s.WriteDone? || s.Look?)
    ensures Reported(env, Do(env, lim, n, s), key, lost)
  {
    var p := UserReport(env, key);
    match s
    case Copy(b, data) => CountAppend(n.reports, Report(b, data, ByUser, None), p);
    case WriteDone(i) =>
      if CanReturn(n, i) {
        var w := n.inFlight[i];
        CountAppend(n.reports, Report(w.bucket, w.data, ByRemote(w.readAt), None), p);
      }
    case Look(i) => if CanLook(n, i) { CountUpdate(n.reports, i, n.reports[i].(looked := Some(n.clock)), p); }
  }

  lemma {:induction false} WatchedReports(env: Env, lim: Limits, n: Node, i: nat, key: Key, lost: nat)
    requires Reported(env, n, key, lost) && CanAsk(lim, n, i)
    ensures Reported(env, DoWatched(env, lim, n, i), key, lost)
  {
    hide Consumed;
    CountRemove(n.reports, i, UserReport(env, key));
  }

  lemma {:induction false} LostReports(env: Env, n: Node, i: nat, key: Key, lost: nat)
    requires Reported(env, n, key, lost) && i < |n.reports|
    ensures Reported(env, n.(reports := RemoveAt(n.reports, i)), key, lost + if UserReport(env, key)(n.reports[i]) then 1 else 0)
  {
    CountRemove(n.reports, i, UserReport(env, key));
  }

  lemma {:induction false} StepReports(env: Env, lim: Limits, n: Node, s: Step, key: Key, lost: nat)
    requires Reported(env, n, key, lost)
    ensures var more := if s.Lost? && s.i < |n.reports| && UserReport(env, key)(n.reports[s.i]) then 1 else 0;
      Reported(env, Do(env, lim, n, s), key, lost + more)
  {
    hide UserReport;
    hide DoWatched;
    if s.Watched? {
      if CanAsk(lim, n, s.i) { WatchedReports(env, lim, n, s.i, key, lost); }
    } else if s.Lost? {
      if s.i < |n.reports| { LostReports(env, n, s.i, key, lost); }
    } else if s.Copy? || s.WriteDone? || s.Look? {
      ReportsChange(env, lim, n, s, key, lost);
    } else {
      hide Do;
      OtherFromUser(env, lim, n, s);
    }
  }

  /** Passed reports have come to a window's end or wait for it. */
  predicate Collected(env: Env, n: Node, key: Key, windowed: nat) {
    n.tally.passed[key] == EventKeys(env, n.observed)[key] + windowed
  }

  lemma {:induction false} KeysSplit(env: Env, events: seq<Event>, k: nat, key: Key)
    requires k <= |events|
    ensures EventKeys(env, events)[key] == EventKeys(env, events[..k])[key] + EventKeys(env, events[k..])[key]
  {
    EventKeysConcat(env, events[..k], events[k..]);
    assert events[..k] + events[k..] == events;
  }

  lemma {:induction false} WindowCollects(env: Env, n: Node, s: Step, key: Key, windowed: nat)
    requires Collected(env, n, key, windowed) && s.Emit? && s.n <= |n.observed|
    ensures Collected(env, DoEmit(env, n, s), key, windowed + EventKeys(env, n.observed[..s.n])[key])
  {
    hide EmitWindow;
    hide EmissionKeys;
    hide EventKeys;
    KeysSplit(env, n.observed, s.n, key);
  }

  lemma {:induction false} WatchedCollects(env: Env, lim: Limits, n: Node, i: nat, key: Key, windowed: nat)
    requires Collected(env, n, key, windowed) && CanAsk(lim, n, i)
    ensures Collected(env, DoWatched(env, lim, n, i), key, windowed)
  {
    hide Consumed;
    var e := Event(n.reports[i].bucket, n.reports[i].data);
    EventKeysConcat(env, n.observed, [e]);
    assert EventKeys(env, [e]) == multiset{EventKey(env, e)};
    hide EventKeys;
  }

  lemma {:induction false} StepCollects(env: Env, lim: Limits, n: Node, s: Step, key: Key, windowed: nat)
    requires Collected(env, n, key, windowed)
    ensures var more := if s.Emit? && s.n <= |n.observed| then EventKeys(env, n.observed[..s.n])[key] else 0;
      Collected(env, Do(env, lim, n, s), key, windowed + more)
  {
    hide EmitWindow;
    hide EventKeys;
    hide DoEmit;
    hide DoWatched;
    if s.Emit? && s.n <= |n.observed| {
      WindowCollects(env, n, s, key, windowed);
    } else if s.Watched? && CanAsk(lim, n, s.i) {
      WatchedCollects(env, lim, n, s.i, key, windowed);
    } else {
      hide Do;
      OtherFromPassed(env, lim, n, s);
    }
  }

  // ---- Whole runs ----

  lemma {:induction false} RunKeepsCopies(env: Env, lim: Limits, start: int, steps: seq<Step>, key: Key)
    ensures var n := Exec(env, lim, start, steps);
      && Paid(n, key, Recorded(env, lim, start, steps, key))
      && Reported(env, n, key, LostCopies(env, lim, start, steps, key))
      && Collected(env, n, key, Windowed(env, lim, start, steps, key))
  {
    hide Do;
    hide Paid;
    hide Reported;
    hide Collected;
    if steps == [] {
      IdleKeepsCopies(env, start, key);
    } else {
      var before, s := Before(steps), steps[|steps| - 1];
      var n := Exec(env, lim, start, before);
      RunKeepsCopies(env, lim, start, before, key);
      StepPays(env, lim, n, s, key, Recorded(env, lim, start, before, key));
      StepReports(env, lim, n, s, key, LostCopies(env, lim, start, before, key));
      StepCollects(env, lim, n, s, key, Windowed(env, lim, start, before, key));
    }
  }

  lemma {:induction false} IdleKeepsCopies(env: Env, start: int, key: Key)
    ensures Paid(Idle(start), key, 0) && Reported(env, Idle(start), key, 0) && Collected(env, Idle(start), key, 0)
  {
  }

  /** No copy is swallowed: on every run and for every content, each change the user made is waiting for
      its report, lost by the native clipboard, waiting for its window's end, come to it, or offset by a
      remote write of the same content that was remembered. Without such a write every reported copy gets
      to a window's end. */
  lemma {:induction false} NoCopyIsSwallowed(env: Env, lim: Limits, start: int, steps: seq<Step>, key: Key)
    ensures var n := Exec(env, lim, start, steps);
      var got := Windowed(env, lim, start, steps, key) + EventKeys(env, n.observed)[key];
      && n.tally.copies[key]
         <= CountIf(n.reports, UserReport(env, key)) + LostCopies(env, lim, start, steps, key)
            + got + Recorded(env, lim, start, steps, key)
      && n.tally.userSeen[key] <= got + Recorded(env, lim, start, steps, key)
  {
    RunKeepsCopies(env, lim, start, steps, key);
  }
}
