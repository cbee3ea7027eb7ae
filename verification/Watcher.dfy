/** The IMAP fast-path watcher (fastpath.py, `FastPathWatcher`): what forces a synchronization, how long
    it can take, and how reconnection backs off.

    Times are ticks of the monotonic clock.  A run that never ends is met here as its finite beginnings:
    `fuel` bounds how far one is followed. */
module Watcher {
  import opened Base

  datatype SyncResult = Synced | Busy | SyncFailed

  /** One IDLE window: when its loop pass began, when IDLE was armed if it was, what was then attempted, the
      last reconcile time from then on, whether a burst of responses was collected, and, if the window was
      completed, whether that brought a relevant event and when the pass ended. */
  datatype Pass = Pass(top: int, armed: Option<int>, attempt: Option<SyncResult>, reconciled: int, burst: bool, completed: bool, relevant: bool, end: int)

  /** How an IDLE session ends; `Unfinished` is where following it stops. */
  datatype End = Stopped | Transport | Rejected | Unfinished

  /** How connecting may go, and how a whole run ends. */
  datatype Opening = Opened | OpenFailed | IdleUnsupported | Refused

  datatype Finish = StopRequested | Polling | PermanentError | Followed

  /** The reconcile interval, the longest a completed loop pass takes, and the longest arming takes. */
  datatype Limits = Limits(interval: int, bound: nat, arming: nat)

  // --- The law of one session ---

  /** What must be attempted after pass `last`: everything at the start of a session; afterwards whatever
      follows an attempt that did not succeed, a relevant event, or an expired interval. */
  ghost predicate Forced(last: Option<Pass>, interval: int) {
    || last.None? || last.value.relevant
    || last.value.attempt == Some(Busy) || last.value.attempt == Some(SyncFailed)
    || last.value.end - last.value.reconciled >= interval
  }

  /** Passes follow each other without a gap, reconcile times are those of the last attempt, only the
      last pass may be incomplete, and once armed a pass attempts a synchronization exactly if forced. */
  ghost predicate Follows(last: Option<Pass>, pass: Pass, limits: Limits) {
    && (last.Some? ==> last.value.completed && pass.top == last.value.end)
    && (last.Some? && pass.attempt.None? ==> pass.reconciled == last.value.reconciled)
    && (pass.armed.Some? ==> pass.top <= pass.armed.value <= pass.top + limits.arming)
    && (pass.attempt.Some? ==> pass.armed.Some? && pass.armed.value <= pass.reconciled)
    && (pass.armed.Some? ==> (pass.attempt.Some? <==> Forced(last, limits.interval)))
    && (pass.completed ==> pass.top <= pass.end <= pass.top + limits.bound && pass.reconciled <= pass.end)
    && (pass.completed ==> pass.burst) && (pass.burst ==> pass.armed.Some?)
  }

  ghost function Before(passes: seq<Pass>, k: nat): Option<Pass>
    requires k <= |passes|
  {
    if k == 0 then None else Some(passes[k - 1])
  }

  ghost predicate Lawful(passes: seq<Pass>, limits: Limits) {
    forall k {:trigger Before(passes, k)} :: 0 <= k < |passes| ==> Follows(Before(passes, k), passes[k], limits)
  }

  lemma {:induction false} LawfulGrows(passes: seq<Pass>, limits: Limits, pass: Pass)
    requires Lawful(passes, limits) && Follows(Before(passes, |passes|), pass, limits)
    ensures Lawful(passes + [pass], limits) && Before(passes + [pass], |passes| + 1) == Some(pass)
  {
    var more := passes + [pass];
    forall k | 0 <= k < |more| ensures Follows(Before(more, k), more[k], limits) {
      assert Before(more, k) == Before(passes, k);
    }
  }

  lemma {:induction false} ReconciledSince(passes: seq<Pass>, limits: Limits, i: nat, j: nat)
    requires Lawful(passes, limits) && i <= j < |passes|
    requires forall k :: i < k <= j ==> passes[k].attempt.None?
    ensures passes[j].reconciled == passes[i].reconciled
    decreases j
  {
    if i < j {
      ReconciledSince(passes, limits, i, j - 1);
      assert Follows(Before(passes, j), passes[j], limits);
    }
  }

  /** In one session the next attempt begins less than the interval, one loop pass and one arming after
      the last one ended. */
  lemma {:induction false} AttemptsAreClose(passes: seq<Pass>, limits: Limits, i: nat, j: nat)
    requires Lawful(passes, limits) && limits.interval > 0 && i < j < |passes|
    requires passes[i].attempt.Some? && passes[j].attempt.Some? && forall k :: i < k < j ==> passes[k].attempt.None?
    ensures passes[j].armed.Some? && passes[j].armed.value - passes[i].reconciled < limits.interval + limits.bound + limits.arming
  {
    assert Follows(Before(passes, j), passes[j], limits);
    if j - 1 > i {
      NoLongSilence(passes, limits, i, j - 1);
    } else {
      assert Follows(Before(passes, i), passes[i], limits);
    }
  }

  /** Nor can a session go on for longer than that without an attempt. */
  lemma {:induction false} NoLongSilence(passes: seq<Pass>, limits: Limits, i: nat, j: nat)
    requires Lawful(passes, limits) && limits.interval > 0 && i < j < |passes|
    requires passes[i].attempt.Some? && forall k :: i < k <= j ==> passes[k].attempt.None?
    requires passes[j].completed
    ensures passes[j].end - passes[i].reconciled < limits.interval + limits.bound
  {
    ReconciledSince(passes, limits, i, j - 1);
    assert Follows(Before(passes, j), passes[j], limits);
  }

  /** A relevant event, a busy lock or a failed synchronization is answered in the next window, and a
      window after a quiet success waits for the interval. */
  lemma {:induction false} NextWindowAnswers(passes: seq<Pass>, limits: Limits, k: nat)
    requires Lawful(passes, limits) && k + 1 < |passes| && passes[k + 1].armed.Some?
    ensures passes[k].relevant || passes[k].attempt in {Some(Busy), Some(SyncFailed)} ==> passes[k + 1].attempt.Some?
    ensures passes[0].attempt.Some?
    ensures passes[k].attempt == Some(Synced) && !passes[k].relevant && passes[k].end - passes[k].reconciled < limits.interval ==> passes[k + 1].attempt.None?
  {
    assert Follows(Before(passes, k + 1), passes[k + 1], limits);
    assert Follows(Before(passes, 0), passes[0], limits) && Follows(Before(passes, 1), passes[1], limits);
  }

  /** Acquisition is degraded exactly if the last attempt that was not turned away failed. */
  ghost function Degraded(results: seq<SyncResult>): bool {
    results != [] &&
    match results[|results| - 1]
    case SyncFailed => true
    case Synced => false
    case Busy => Degraded(results[..|results| - 1])
  }

  // --- The law of a whole run ---

  ghost predicate AllLawful(past: seq<seq<Pass>>, limits: Limits) {
    forall a :: 0 <= a < |past| ==> Lawful(past[a], limits)
  }

  ghost predicate IsWindow(past: seq<seq<Pass>>, a: int, k: int) {
    0 <= a < |past| && 0 <= k < |past[a]|
  }

  ghost predicate Earlier(a: int, k: int, b: int, l: int) {
    a < b || (a == b && k < l)
  }

  /** The window calls for a synchronization: it brought a relevant event, its attempt was turned away or
      failed, or it broke off, which may have swallowed an event. */
  ghost predicate CallsForSync(pass: Pass) {
    pass.relevant || pass.attempt in {Some(Busy), Some(SyncFailed)} || !pass.completed
  }

  /** Window `l` of session `b` is the first after window `k` of session `a` whose IDLE was armed. */
  ghost predicate NextArmed(past: seq<seq<Pass>>, a: nat, k: nat, b: nat, l: nat) {
    && IsWindow(past, a, k) && IsWindow(past, b, l) && Earlier(a, k, b, l) && past[b][l].armed.Some?
    && forall c, j :: IsWindow(past, c, j) && Earlier(a, k, c, j) && Earlier(c, j, b, l) ==> past[c][j].armed.None?
  }

  /** Over a whole run, whatever calls for a synchronization is answered by one in the next window whose
      IDLE is armed, even if that window breaks off later: in the same session if this window was
      completed and the next one is armed, and otherwise first thing after reconnecting. */
  lemma {:induction false} CallsAreAnswered(past: seq<seq<Pass>>, limits: Limits, a: nat, k: nat, b: nat, l: nat)
    requires AllLawful(past, limits) && NextArmed(past, a, k, b, l) && CallsForSync(past[a][k])
    ensures past[b][l].attempt.Some?
    ensures if past[a][k].completed && k + 1 < |past[a]| && past[a][k + 1].armed.Some? then a == b && l == k + 1 else a < b && l == 0
  {
    var session := past[b];
    assert Follows(Before(session, l), session[l], limits);
    if l > 0 && (a < b || k + 1 < l) {
      assert Follows(Before(session, l - 1), session[l - 1], limits);
      assert IsWindow(past, b, l - 1) && Earlier(a, k, b, l - 1) && Earlier(b, l - 1, b, l);
    }
    if a < b && k + 1 < |past[a]| {
      assert IsWindow(past, a, k + 1) && Earlier(a, k, a, k + 1) && Earlier(a, k + 1, b, l);
    }
  }

  const BACKOFF: seq<nat> := [1, 2, 5, 10, 30, 60]

  function Delay(failures: nat): nat
    requires failures > 0
  {
    BACKOFF[if failures - 1 < |BACKOFF| - 1 then failures - 1 else |BACKOFF| - 1]
  }

  /** Sessions that ended in a transport failure, in order: whether each collected a burst first. */
  ghost function Streak(sessions: seq<bool>): (k: nat)
    ensures sessions != [] ==> k > 0
  {
    if sessions == [] then 0
    else if sessions[|sessions| - 1] then 1
    else Streak(sessions[..|sessions| - 1]) + 1
  }

  /** Failure streaks that a collected burst has ended. */
  ghost function Ended(sessions: seq<bool>): nat {
    if sessions == [] then 0
    else Ended(sessions[..|sessions| - 1]) + if sessions[|sessions| - 1] && Streak(sessions[..|sessions| - 1]) > 0 then 1 else 0
  }

  /** The streak is the number of failures since the last burst: no session in it but the first collected
      one, and the first did, or was the first of all. */
  lemma {:induction false} StreakIs(sessions: seq<bool>)
    ensures Streak(sessions) <= |sessions|
    ensures forall n :: |sessions| - Streak(sessions) < n < |sessions| ==> !sessions[n]
    ensures Streak(sessions) < |sessions| ==> sessions[|sessions| - Streak(sessions)]
  {
    if sessions != [] && !sessions[|sessions| - 1] {
      StreakIs(sessions[..|sessions| - 1]);
    }
  }

  /** The sessions after the first that collected a burst. */
  ghost function Restarted(sessions: seq<bool>): set<nat> {
    set n: nat | 0 < n < |sessions| && sessions[n]
  }

  /** The first streak starts with the first failure; every later session that collects a burst ends one
      and, when it fails, starts another: the streaks ended are the sessions after the first that did. */
  lemma {:induction false} EndedIs(sessions: seq<bool>)
    ensures Ended(sessions) == |Restarted(sessions)|
  {
    if sessions != [] {
      var n, front := |sessions| - 1, sessions[..|sessions| - 1];
      EndedIs(front);
      StreakIs(front);
      assert forall m :: 0 <= m < n ==> front[m] == sessions[m];
      if 0 < n && sessions[n] {
        assert Restarted(sessions) == Restarted(front) + {n};
      } else {
        assert Restarted(sessions) == Restarted(front);
      }
    }
  }

  /** Every failed session was followed by the delay for its place in its streak. */
  ghost predicate BackedOff(sessions: seq<bool>, delays: seq<nat>) {
    |delays| == |sessions| && forall n :: 0 <= n < |delays| ==> delays[n] == Delay(Streak(sessions[..n + 1]))
  }

  /** After the k-th failure since the last collected burst the wait is 1, 2, 5, 10, 30 seconds, and 60 from
      the sixth failure on; `m` is the session that collected the burst, or the first of all. */
  lemma {:induction false} DelaysFollowTheTable(sessions: seq<bool>, delays: seq<nat>, m: nat, n: nat)
    requires BackedOff(sessions, delays) && m <= n < |sessions|
    requires (m == 0 || sessions[m]) && forall j :: m < j <= n ==> !sessions[j]
    ensures var k := n - m + 1;
            delays[n] == if k == 1 then 1 else if k == 2 then 2 else if k == 3 then 5 else if k == 4 then 10 else if k == 5 then 30 else 60
  {
    var prefix := sessions[..n + 1];
    StreakIs(prefix);
    assert prefix[m] == sessions[m];
    assert |prefix| - Streak(prefix) == m;
  }

  lemma {:induction false} BackedOffOnceMore(sessions: seq<bool>, delays: seq<nat>, recovered: bool)
    requires BackedOff(sessions, delays)
    ensures var more := sessions + [recovered]; BackedOff(more, delays + [Delay(Streak(more))])
  {
    var more := sessions + [recovered];
    assert more[..|more|] == more;
    forall n | 0 <= n < |delays| ensures delays[n] == Delay(Streak(more[..n + 1])) {
      assert more[..n + 1] == sessions[..n + 1];
    }
  }

  /** The outcomes of the attempts of one session, and of all sessions, in order. */
  ghost function Attempts(passes: seq<Pass>): seq<SyncResult> {
    if passes == [] then []
    else Attempts(passes[..|passes| - 1]) + if passes[|passes| - 1].attempt.Some? then [passes[|passes| - 1].attempt.value] else []
  }

  ghost function AllAttempts(past: seq<seq<Pass>>): seq<SyncResult> {
    if past == [] then [] else AllAttempts(past[..|past| - 1]) + Attempts(past[|past| - 1])
  }

  lemma {:induction false} AttemptsStep(passes: seq<Pass>, pass: Pass)
    ensures Attempts(passes + [pass]) == Attempts(passes) + if pass.attempt.Some? then [pass.attempt.value] else []
  {
    assert (passes + [pass])[..|passes|] == passes;
  }

  lemma {:induction false} AllAttemptsStep(past: seq<seq<Pass>>, passes: seq<Pass>)
    ensures AllAttempts(past + [passes]) == AllAttempts(past) + Attempts(passes)
  {
    assert (past + [passes])[..|past|] == past;
  }

  /** A session has collected a burst exactly if one of its windows has. */
  ghost predicate Kept(passes: seq<Pass>, recovered: bool) {
    recovered == Collected(passes)
  }

  ghost predicate Collected(passes: seq<Pass>) {
    passes != [] && (passes[|passes| - 1].burst || Collected(passes[..|passes| - 1]))
  }

  lemma {:induction false} CollectedIs(passes: seq<Pass>)
    ensures Collected(passes) <==> exists k :: 0 <= k < |passes| && passes[k].burst
  {
    if passes != [] { CollectedIs(passes[..|passes| - 1]); }
  }

  lemma {:induction false} KeptStep(passes: seq<Pass>, pass: Pass, recovered: bool)
    requires Kept(passes, recovered)
    ensures Kept(passes + [pass], recovered || pass.burst)
  {
    assert (passes + [pass])[..|passes|] == passes;
  }

  /** The windows of every failed session are kept, and obey the law of a session. */
  ghost predicate Filed(past: seq<seq<Pass>>, sessions: seq<bool>, limits: Limits) {
    |past| == |sessions| && AllLawful(past, limits) && forall a :: 0 <= a < |past| ==> Kept(past[a], sessions[a])
  }

  lemma {:induction false} FiledOnceMore(past: seq<seq<Pass>>, sessions: seq<bool>, limits: Limits, passes: seq<Pass>, recovered: bool)
    requires Filed(past, sessions, limits) && Lawful(passes, limits) && Kept(passes, recovered)
    ensures Filed(past + [passes], sessions + [recovered], limits)
  {
    var more := past + [passes];
    forall a | 0 <= a < |more| ensures Lawful(more[a], limits) && Kept(more[a], (sessions + [recovered])[a]) {
      if a < |past| { assert more[a] == past[a]; }
    }
  }

  lemma {:induction false} CountersStep(sessions: seq<bool>, recovered: bool)
    ensures var more := sessions + [recovered];
      && Streak(more) == (if recovered then 0 else Streak(sessions)) + 1
      && Ended(more) == Ended(sessions) + if recovered && Streak(sessions) > 0 then 1 else 0
  {
    assert (sessions + [recovered])[..|sessions|] == sessions;
  }

  class Watcher {
    const limits: Limits
    var failures: nat
    var reconnects: nat
    var degraded: bool
    var results: seq<SyncResult>
    var clock: int
    /** A stop has been asked for, for good, and how the last connection was opened. */
    var stopping: bool
    var opening: Opening
    /** The windows of the current session and of the failed ones before it, what those collected, and
        the delays waited. */
    var passes: seq<Pass>
    var past: seq<seq<Pass>>
    var sessions: seq<bool>
    var delays: seq<nat>

    constructor (limits: Limits)
      ensures this.limits == limits && Valid() && sessions == [] && delays == [] && past == []
    {
      this.limits := limits;
      failures, reconnects, degraded, results, clock := 0, 0, false, [], 0;
      stopping, opening := false, OpenFailed;
      passes, past, sessions, delays := [], [], [], [];
    }

    /** Between sessions: the counters are those of the sessions that failed, and so were the delays, and
        nothing has ended the run. */
    ghost predicate Valid()
      reads this
    {
      && failures == Streak(sessions) && reconnects == Ended(sessions)
      && degraded == Degraded(results)
      && BackedOff(sessions, delays) && Filed(past, sessions, limits) && passes == [] && results == AllAttempts(past)
      && !stopping && opening in {Opened, OpenFailed}
    }

    /** Inside a session: its first burst has reset the streak, if there was one, and counted it. */
    ghost predicate InSession(recovered: bool)
      reads this`failures, this`reconnects, this`degraded, this`results, this`sessions
    {
      && failures == (if recovered then 0 else Streak(sessions))
      && reconnects == Ended(sessions) + (if recovered && Streak(sessions) > 0 then 1 else 0)
      && degraded == Degraded(results)
    }

    method StopAsked() returns (stop: bool)
      modifies this`stopping
      ensures stop == stopping && (old(stopping) ==> stopping)
    {
      if !stopping { stopping := *; }
      stop := stopping;
    }

    /** One synchronization, reported by whether it succeeded. */
    method SyncAndRefresh() returns (ok: bool)
      modifies this`degraded, this`results
      ensures exists r: SyncResult :: results == old(results) + [r] && ok == (r == Synced)
      ensures old(degraded) == Degraded(old(results)) ==> degraded == Degraded(results)
    {
      var outcome: SyncResult := *;
      assert (results + [outcome])[..|results|] == results;
      results := results + [outcome];
      if outcome == Busy { return false; }
      degraded := outcome == SyncFailed;
      ok := outcome == Synced;
    }

    /** One IDLE window, from the top of the loop: arm, attempt what is pending, collect a burst.  `ended`
        tells that the session is over and how. */
    method Window(pending: bool, reconciled: int) returns (pass: Pass, ended: Option<End>)
      requires reconciled <= clock
      modifies this`clock, this`degraded, this`results
      ensures old(degraded) == Degraded(old(results)) ==> degraded == Degraded(results)
      ensures pass.top == old(clock) && pass.completed == ended.None?
      ensures pass.armed.Some? ==> old(clock) <= pass.armed.value <= old(clock) + limits.arming && (pass.attempt.Some? <==> pending)
      ensures pass.attempt.Some? ==> pass.armed.Some? && pass.armed.value <= pass.reconciled <= clock
      ensures if pass.attempt.Some? then results == old(results) + [pass.attempt.value] else results == old(results) && pass.reconciled == reconciled
      ensures pass.completed ==> pass.end == clock && old(clock) <= clock <= old(clock) + limits.bound && pass.armed.Some?
      ensures ended.Some? ==> ended.value in {Transport, Rejected}
      ensures (pass.completed ==> pass.burst) && (pass.burst ==> pass.armed.Some?)
      ensures clock >= old(clock)
    {
      var arms: bool, leaves: bool, rejected: bool, relevant: bool := *, *, *, *;
      var arming: nat, syncing: nat, waiting: nat := *, *, *;
      var top := clock;
      var collected: bool := *;
      pass := Pass(top, None, None, reconciled, false, false, false, top);
      if !arms {
        clock := clock + arming;
        return pass, Some(if rejected then Rejected else Transport);
      }
      if arming > limits.arming { arming := limits.arming; }
      if collected && leaves && arming + syncing + waiting > limits.bound { arming, syncing, waiting := 0, 0, limits.bound; }
      clock := clock + arming;
      pass := pass.(armed := Some(clock));
      if pending {
        var ok := SyncAndRefresh();
        clock := clock + syncing;
        pass := pass.(attempt := Some(results[|results| - 1]), reconciled := clock);
      }
      clock := clock + waiting;
      pass := pass.(burst := collected);
      if !collected || !leaves { return pass, Some(if rejected then Rejected else Transport); }
      pass := pass.(completed := true, relevant := relevant, end := clock);
      ended := None;
    }

    /** What a completed window leaves pending. */
    method AfterWindow(pass: Pass, before: bool, last: int) returns (pending: bool, reconciled: int)
      requires pass.completed && pass.end == clock && (pass.attempt.Some? <==> before) && (pass.attempt.None? ==> pass.reconciled == last)
      ensures reconciled == pass.reconciled && (pending <==> Forced(Some(pass), limits.interval))
    {
      pending, reconciled := before, last;
      if before { pending, reconciled := pass.attempt.value != Synced, pass.reconciled; }
      if pass.relevant { pending := true; }
      if clock - reconciled >= limits.interval { pending := true; }
    }

    /** A burst shows that the transport works again. */
    method NoteBurst(ghost recovered: bool)
      requires InSession(recovered)
      modifies this`failures, this`reconnects
      ensures InSession(true)
    {
      if failures > 0 { reconnects, failures := reconnects + 1, 0; }
    }

    /** One window of a session, lawful after the last one, with its burst noted. */
    method WindowWithBurst(pending: bool, reconciled: int, ghost last: Option<Pass>, before: bool) returns (pass: Pass, recovered: bool, ended: Option<End>)
      requires InSession(before) && reconciled <= clock && (pending <==> Forced(last, limits.interval))
      requires last.Some? ==> last.value.completed && last.value.end == clock && last.value.reconciled == reconciled
      modifies this`failures, this`reconnects, this`degraded, this`results, this`clock
      ensures InSession(recovered) && (recovered <==> before || pass.burst) && Follows(last, pass, limits)
      ensures results == old(results) + if pass.attempt.Some? then [pass.attempt.value] else []
      ensures pass.completed == ended.None? && (ended.Some? ==> ended.value in {Transport, Rejected})
      ensures pass.completed ==> recovered && pass.end == clock && (pass.attempt.Some? <==> pending) && (pass.attempt.None? ==> pass.reconciled == reconciled)
    {
      pass, ended := Window(pending, reconciled);
      if pass.burst { NoteBurst(before); }
      recovered := before || pass.burst;
    }

    /** The next window of the session, filed with those before it. */
    method NextWindow(pending: bool, reconciled: int, noted: bool, ghost before: seq<SyncResult>) returns (pass: Pass, recovered: bool, ended: Option<End>)
      requires InSession(noted) && Lawful(passes, limits) && Kept(passes, noted) && reconciled <= clock
      requires results == before + Attempts(passes)
      requires pending <==> Forced(Before(passes, |passes|), limits.interval)
      requires passes != [] ==> var last := passes[|passes| - 1]; last.completed && last.end == clock && last.reconciled == reconciled
      modifies this`failures, this`reconnects, this`degraded, this`results, this`clock, this`passes
      ensures InSession(recovered) && Lawful(passes, limits) && Kept(passes, recovered)
      ensures passes == old(passes) + [pass] && results == before + Attempts(passes)
      ensures pass.completed == ended.None? && (ended.Some? ==> ended.value in {Transport, Rejected})
      ensures pass.completed ==> recovered && pass.reconciled <= pass.end == clock && (pass.attempt.Some? <==> pending) && (pass.attempt.None? ==> pass.reconciled == reconciled)
    {
      pass, recovered, ended := WindowWithBurst(pending, reconciled, Before(passes, |passes|), noted);
      LawfulGrows(passes, limits, pass);
      AttemptsStep(passes, pass);
      KeptStep(passes, pass, noted);
      passes := passes + [pass];
    }

    /** A session that goes on: what is pending is what the law calls for next, and nothing has broken off. */
    ghost predicate GoesOn(pending: bool, reconciled: int, noted: bool, before: seq<SyncResult>)
      reads this`failures, this`reconnects, this`degraded, this`results, this`sessions, this`passes, this`clock
    {
      && InSession(noted) && Lawful(passes, limits) && Kept(passes, noted) && results == before + Attempts(passes)
      && reconciled <= clock && (pending <==> Forced(Before(passes, |passes|), limits.interval))
      && (passes != [] ==> var last := passes[|passes| - 1]; last.completed && last.end == clock && last.reconciled == reconciled)
    }

    /** One turn of the session's loop. */
    method OneWindow(pending: bool, reconciled: int, noted: bool, ghost before: seq<SyncResult>)
      returns (recovered: bool, ended: Option<End>, next: bool, at: int)
      requires GoesOn(pending, reconciled, noted, before)
      modifies this`failures, this`reconnects, this`degraded, this`results, this`clock, this`passes
      ensures if ended.None? then GoesOn(next, at, recovered, before)
              else && InSession(recovered) && Lawful(passes, limits) && Kept(passes, recovered) && results == before + Attempts(passes)
                   && ended.value in {Transport, Rejected} && passes != [] && !passes[|passes| - 1].completed
    {
      var pass;
      pass, recovered, ended := NextWindow(pending, reconciled, noted, before);
      next, at := pending, reconciled;
      if ended.None? { next, at := AfterWindow(pass, pending, reconciled); }
    }

    method NewSession()
      requires InSession(false)
      modifies this`passes
      ensures passes == [] && GoesOn(true, clock, false, results)
    {
      passes := [];
    }

    /** One IDLE session.  Its windows obey the law of a session, and its first burst ends the streak of
        transport failures before it.  It breaks off exactly if its last window does, and otherwise is
        stopped on request. */
    method RunIdle(fuel: nat) returns (end: End, recovered: bool)
      requires InSession(false) && !stopping
      modifies this`failures, this`reconnects, this`degraded, this`results, this`clock, this`passes, this`stopping
      ensures InSession(recovered) && Lawful(passes, limits) && Kept(passes, recovered)
      ensures end == Stopped <==> stopping
      ensures end in {Transport, Rejected} <==> passes != [] && !passes[|passes| - 1].completed
      ensures results == old(results) + Attempts(passes)
    {
      var pending, reconciled, left := true, clock, fuel;
      recovered := false;
      NewSession();
      while left > 0
        invariant GoesOn(pending, reconciled, recovered, old(results)) && !stopping
        decreases left
      {
        var stop := StopAsked();
        if stop { return Stopped, recovered; }
        left := left - 1;
        var ended;
        recovered, ended, pending, reconciled := OneWindow(pending, reconciled, recovered, old(results));
        if ended.Some? { return ended.value, recovered; }
      }
      end := Unfinished;
    }

    /** Connecting: the notification connection is opened, or it is known why not. */
    method Open() returns (o: Opening)
      modifies this`clock, this`opening
      ensures o == opening
    {
      clock, opening := *, *;
      o := opening;
    }

    /** One connection: it ends the run, or fails. */
    method Connect() returns (finish: Option<Finish>, recovered: bool, ghost end: End)
      requires Valid()
      modifies this
      ensures past == old(past) && sessions == old(sessions) && delays == old(delays)
      ensures UnderWay(recovered)
      ensures opening != Opened ==> passes == [] && !recovered && end == Unfinished
      ensures end in {Transport, Rejected} <==> passes != [] && !passes[|passes| - 1].completed
      ensures finish.Some? ==> EndsAs(finish.value, end)
      ensures finish.None? <==> opening == OpenFailed || end == Transport
      ensures finish.None? ==> !stopping
    {
      recovered, end := false, Unfinished;
      var o := Open();
      if o == Refused { return Some(PermanentError), false, end; }
      if o == IdleUnsupported { return Some(Polling), false, end; }
      if o == OpenFailed { return None, false, end; }
      var windows: nat, how := *, Stopped;
      how, recovered := RunIdle(windows);
      end := how;
      finish := match how
        case Stopped => Some(StopRequested)
        case Rejected => Some(Polling)
        case Unfinished => Some(Followed)
        case Transport => None;
    }

    /** What ends a run: a request, an account that is refused, or an IDLE command that the server does not
        support or turns down; `end` is how the last session went. */
    ghost predicate EndsAs(finish: Finish, end: End)
      reads this
    {
      && (finish == StopRequested <==> stopping)
      && (finish == PermanentError <==> opening == Refused)
      && (finish == Polling <==> opening == IdleUnsupported || end == Rejected)
    }

    /** Within a run: the counters, the delays and the windows are as they should be, and the results are
        the attempts of the windows. */
    ghost predicate UnderWay(recovered: bool)
      reads this
    {
      && InSession(recovered) && BackedOff(sessions, delays) && Filed(past, sessions, limits) && Lawful(passes, limits) && Kept(passes, recovered)
      && results == AllAttempts(past) + Attempts(passes)
    }

    /** The sessions of a run, one after another. */
    method RunSessions(fuel: nat) returns (finish: Finish, recovered: bool, ghost end: End)
      requires Valid()
      modifies this
      ensures old(sessions) <= sessions && old(delays) <= delays && old(past) <= past
      ensures UnderWay(recovered) && EndsAs(finish, end)
    {
      var left := fuel;
      recovered, end := false, Unfinished;
      while left > 0
        invariant Valid() && !recovered && old(sessions) <= sessions && old(delays) <= delays && old(past) <= past
        decreases left
      {
        var stop := StopAsked();
        if stop { return StopRequested, false, Unfinished; }
        left := left - 1;
        var ended;
        ended, recovered, end := Connect();
        if ended.Some? { return ended.value, recovered, end; }
        FailedSession(recovered);
        recovered := false;
      }
      return Followed, false, Unfinished;
    }

    /** The whole run.  The k-th consecutive transport failure waits the k-th delay of the table, the last
        one from there on; the reconnect count is the number of failure streaks that have ended, counting
        that of the session under way; and the windows of every session, the last one included, are kept
        and lawful, so CallsAreAnswered holds of them all.  What decides whether acquisition is degraded is
        the attempts of all these windows, in order. */
    method Run(fuel: nat) returns (finish: Finish, recovered: bool, ghost end: End)
      requires Valid()
      modifies this
      ensures old(sessions) <= sessions && old(delays) <= delays && old(past) <= past
      ensures InSession(recovered) && BackedOff(sessions, delays) && Filed(past, sessions, limits) && Kept(passes, recovered)
      ensures AllLawful(past + [passes], limits)
      ensures EndsAs(finish, end)
      ensures results == AllAttempts(past + [passes]) && degraded == Degraded(AllAttempts(past + [passes]))
    {
      finish, recovered, end := RunSessions(fuel);
      AllAttemptsStep(past, passes);
    }

    /** Counts a transport failure, and waits. */
    method CountFailure(recovered: bool)
      requires InSession(recovered)
      modifies this`failures, this`sessions, this`delays
      ensures failures == Streak(sessions) && reconnects == Ended(sessions)
      ensures sessions == old(sessions) + [recovered] && delays == old(delays) + [Delay(failures)]
    {
      CountersStep(sessions, recovered);
      failures := failures + 1;
      sessions, delays := sessions + [recovered], delays + [Delay(failures)];
    }

    /** A transport failure: one more in the streak, and its delay. */
    method FailedSession(recovered: bool)
      requires UnderWay(recovered) && !stopping && opening in {Opened, OpenFailed}
      modifies this`failures, this`sessions, this`delays, this`past, this`passes
      ensures Valid() && sessions == old(sessions) + [recovered] && old(delays) <= delays && past == old(past) + [old(passes)]
    {
      BackedOffOnceMore(sessions, delays, recovered);
      FiledOnceMore(past, sessions, limits, passes, recovered);
      AllAttemptsStep(past, passes);
      CountFailure(recovered);
      past, passes := past + [passes], [];
    }
  }
}
