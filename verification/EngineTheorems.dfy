/** The engine's results over whole executions: every interleaving of executors, reconcilers, mailbox
    changes and crashes. */
module EngineTheorems {
  import opened Base
  import opened Verdicts
  import opened Targets
  import opened Engine
  import opened EngineSafety
  import opened EngineHistory
  import Fingerprint

  // --- At most one provider call per plan row ---

  /** Two recorded calls for the same row of the same source plan are one and the same call, whatever
      executors ran and crashed. */
  lemma {:induction false} AtMostOneCallPerPlanRow(states: seq<State>, actions: seq<Action>, n: nat, k: nat, l: nat)
    requires Execution(states, actions) && n < |states|
    requires k < |states[n].history| && l < |states[n].history|
    requires states[n].history[k].Called? && states[n].history[l].Called?
    ensures states[n].history[k].run in states[n].runs && states[n].history[l].run in states[n].runs
    ensures (states[n].runs[states[n].history[k].run].plan == states[n].runs[states[n].history[l].run].plan
              && states[n].history[k].i == states[n].history[l].i) ==> k == l
  {
    ExecutionKeepsInv(states, actions, n);
    assert CallOk(states[n], k) && CallOk(states[n], l);
  }

  /** An evaluation found this row, linked to this canonical object, eligible. */
  ghost predicate OnTarget(report: LocalRow, target: Target) {
    report.eligible && report.current.remoteId == target.remoteId && report.current.canonicalId == target.canonicalId
  }

  /** Every provider call follows, in this order and with no other provider call of its run in between,
      an evaluation that found the target eligible, a check that its fingerprint is unchanged, and a
      committed `started` state. */
  lemma {:induction false} EveryCallIsAuthorized(states: seq<State>, actions: seq<Action>, n: nat, k: nat)
    requires Execution(states, actions) && n < |states|
    requires k < |states[n].history| && states[n].history[k].Called?
    ensures exists e: nat, m: nat, c: nat ::
              && Authorized(states[n].history, k, e, m, c)
              && OnTarget(states[n].history[e].row, states[n].history[k].target)
              && Fingerprint.Payload(states[n].history[m].row.current) == Fingerprint.Payload(states[n].history[k].target)
  {
    ExecutionKeepsInv(states, actions, n);
    assert CallOk(states[n], k);
    var e: nat, m: nat, c: nat :| Authorized(states[n].history, k, e, m, c);
    Fingerprint.FingerprintDecides(states[n].history[m].row.current, states[n].history[k].target);
  }

  // --- How many calls a run makes ---

  function CallsOf(h: seq<Event>, run: nat): seq<nat> {
    if h == [] then []
    else CallsOf(h[..|h| - 1], run) + if h[|h| - 1].Called? && h[|h| - 1].run == run then [h[|h| - 1].i] else []
  }

  lemma {:induction false} CallsOfFinds(h: seq<Event>, run: nat, x: nat)
    requires x in CallsOf(h, run)
    ensures exists k :: 0 <= k < |h| && h[k].Called? && h[k].run == run && h[k].i == x
  {
    var last := h[|h| - 1];
    if last.Called? && last.run == run && last.i == x {
      assert h[|h| - 1] == last;
    } else {
      CallsOfFinds(h[..|h| - 1], run, x);
      var k :| 0 <= k < |h| - 1 && h[..|h| - 1][k].Called? && h[..|h| - 1][k].run == run && h[..|h| - 1][k].i == x;
      assert h[k] == h[..|h| - 1][k];
    }
  }

  ghost predicate NoRepeats(xs: seq<nat>) {
    forall i, j :: 0 <= i < j < |xs| ==> xs[i] != xs[j]
  }

  lemma {:induction false} CallsOfNoRepeats(h: seq<Event>, run: nat)
    requires CallsDistinct(h)
    ensures NoRepeats(CallsOf(h, run))
  {
    if h != [] {
      var front, last := h[..|h| - 1], h[|h| - 1];
      CallsOfNoRepeats(front, run);
      if last.Called? && last.run == run {
        var xs := CallsOf(front, run);
        forall j | 0 <= j < |xs| ensures xs[j] != last.i {
          assert xs[j] in xs;
          CallsOfFinds(front, run, xs[j]);
          var k :| 0 <= k < |front| && front[k].Called? && front[k].run == run && front[k].i == xs[j];
          assert h[k] == front[k];
        }
      }
    }
  }

  /** Distinct numbers below `n` are at most `n` many. */
  lemma {:induction false} Pigeonhole(xs: seq<nat>, n: nat)
    requires NoRepeats(xs) && forall x :: x in xs ==> x < n
    ensures |xs| <= n
  {
    assert |xs| > 0 ==> xs[0] in xs;
    if n == 0 {
    } else if n - 1 in xs {
      var p :| 0 <= p < |xs| && xs[p] == n - 1;
      var ys := xs[..p] + xs[p + 1..];
      assert forall y :: y in ys ==> y in xs;
      assert NoRepeats(ys) by {
        assert forall i :: 0 <= i < |ys| ==> ys[i] == if i < p then xs[i] else xs[i + 1];
      }
      forall y | y in ys ensures y < n - 1 {
        var q :| 0 <= q < |ys| && ys[q] == y;
        assert y == if q < p then xs[q] else xs[q + 1];
      }
      Pigeonhole(ys, n - 1);
    } else {
      Pigeonhole(xs, n - 1);
    }
  }

  /** A run makes at most one provider call per row, so no more than any limit its plan passed. */
  lemma {:induction false} CallsAreBounded(states: seq<State>, actions: seq<Action>, n: nat, run: nat)
    requires Execution(states, actions) && n < |states| && run in states[n].runs
    ensures |CallsOf(states[n].history, run)| <= |states[n].runs[run].rows|
  {
    ExecutionKeepsInv(states, actions, n);
    var s := states[n];
    CallsOfNoRepeats(s.history, run);
    forall x | x in CallsOf(s.history, run) ensures x < |s.runs[run].rows| {
      CallsOfFinds(s.history, run, x);
      var k :| 0 <= k < |s.history| && s.history[k].Called? && s.history[k].run == run && s.history[k].i == x;
      assert CallOk(s, k);
    }
    Pigeonhole(CallsOf(s.history, run), |s.runs[run].rows|);
  }

  // --- The shape of every run ---

  /** In row order every run is a block of succeeded rows, at most one row in another state, and only
      planned rows after it.  A completed run has only succeeded rows.  A halted run has no row in
      flight and at most one unresolved row. */
  lemma {:induction false} EveryRunHasTheShape(states: seq<State>, actions: seq<Action>, n: nat, r: nat)
    requires Execution(states, actions) && n < |states| && r in states[n].runs
    ensures exists k: nat :: Frontier(states[n].runs[r].rows, k)
    ensures states[n].runs[r].status == RunCompleted ==>
              forall j :: 0 <= j < |states[n].runs[r].rows| ==> states[n].runs[r].rows[j].status == Succeeded
    ensures states[n].runs[r].status == RunHalted ==>
              forall j :: 0 <= j < |states[n].runs[r].rows| ==> states[n].runs[r].rows[j].status != Started
    ensures states[n].runs[r].status == RunHalted ==>
              forall i, j | 0 <= i < j < |states[n].runs[r].rows| ::
                !(Unresolved(states[n].runs[r].rows[i].status) && Unresolved(states[n].runs[r].rows[j].status))
  {
    ExecutionKeepsInv(states, actions, n);
    assert Shaped(states[n].runs[r]);
  }

  /** What writing one observation may change among the runs. */
  ghost predicate RunsConfined(s: State, proc: Process, t: State)
    requires proc.Observed?
  {
    && RowExists(s, proc.run, proc.i) && RowExists(t, proc.run, proc.i)
    && t.runs[proc.run].status == s.runs[proc.run].status == RunHalted
    && (forall r :: r in s.runs && r != proc.run ==> r in t.runs && t.runs[r] == s.runs[r])
    && |t.runs[proc.run].rows| == |s.runs[proc.run].rows|
    && (forall j :: 0 <= j < |s.runs[proc.run].rows| && j != proc.i ==> t.runs[proc.run].rows[j] == s.runs[proc.run].rows[j])
    && s.runs[proc.run].rows[proc.i].status != Planned
  }

  /** What writing an observation about `target` may change among the local rows: presence only, and
      only where the current identity is the historical one. */
  ghost predicate LocalConfined(before: map<string, LocalRow>, target: Target, after: map<string, LocalRow>) {
    && after.Keys == before.Keys
    && (forall key :: key in before ==> after[key] == before[key].(present := after[key].present))
    && (forall key :: key in before && after[key] != before[key] ==> IdentityOf(before[key].current) == IdentityOf(target))
  }

  lemma {:induction false} SetPresenceConfined(local: map<string, LocalRow>, target: Target, present: bool)
    ensures LocalConfined(local, target, SetPresence(local, target, present))
  {
  }

  lemma {:induction false} WriteTouchesNoMail(s: State, p: nat, t: State)
    requires Step(s, WriteObservation(p), t)
    ensures t.mailbox == s.mailbox && t.history == s.history
  {
  }

  lemma {:induction false} WriteKeepsRunsConfined(s: State, p: nat, t: State)
    requires RunsOk(s) && Step(s, WriteObservation(p), t)
    ensures s.procs[p].seen != Started && RunsConfined(s, s.procs[p], t)
  {
    assert Placed(s, s.procs[p]);
  }

  lemma {:induction false} WriteKeepsLocalConfined(s: State, p: nat, t: State)
    requires Step(s, WriteObservation(p), t)
    ensures LocalConfined(s.local, s.runs[s.procs[p].run].rows[s.procs[p].i].target, t.local)
  {
    ReconciledLocal(s, p, s.procs[p]);
  }

  /** A reconciliation sets the presence of its target, or writes no local row. */
  lemma {:induction false} ReconciledPresence(s: State, p: nat, proc: Process)
    requires proc.Observed? && RowExists(s, proc.run, proc.i)
    ensures var target, local := s.runs[proc.run].rows[proc.i].target, Reconciled(s, proc).local;
            local == SetPresence(s.local, target, true) || local == SetPresence(s.local, target, false) || local == s.local
  {
  }

  lemma {:induction false} ReconciledLocal(s: State, p: nat, proc: Process)
    requires proc.Observed? && RowExists(s, proc.run, proc.i)
    ensures LocalConfined(s.local, s.runs[proc.run].rows[proc.i].target, Reconciled(s, proc).local)
  {
    var target, local := s.runs[proc.run].rows[proc.i].target, Reconciled(s, proc).local;
    ReconciledPresence(s, p, proc);
    SetPresenceConfined(s.local, target, true);
    SetPresenceConfined(s.local, target, false);
    SameLocalConfined(s.local, target);
    assert LocalConfined(s.local, target, local);
  }

  lemma {:induction false} SameLocalConfined(local: map<string, LocalRow>, target: Target)
    ensures LocalConfined(local, target, local)
  {
  }

  /** What a reconciliation may write: the run stays halted, planned rows stay planned, no row other
      than the one observed changes, and a presence flag changes only on a local row whose current
      provider identity is the historical target's.  The branch for a row read as `started` is never
      taken. */
  lemma {:induction false} ReconciliationIsConfined(states: seq<State>, actions: seq<Action>, n: nat, p: nat)
    requires Execution(states, actions) && n < |actions| && actions[n] == WriteObservation(p)
    ensures p in states[n].procs && states[n].procs[p].Observed?
    ensures states[n].procs[p].seen != Started && RunsConfined(states[n], states[n].procs[p], states[n + 1])
    ensures states[n + 1].mailbox == states[n].mailbox && states[n + 1].history == states[n].history
    ensures LocalConfined(states[n].local, states[n].runs[states[n].procs[p].run].rows[states[n].procs[p].i].target, states[n + 1].local)
  {
    ExecutionKeepsInv(states, actions, n);
    assert Step(states[n], actions[n], states[n + 1]);
    WriteTouchesNoMail(states[n], p, states[n + 1]);
    WriteKeepsRunsConfined(states[n], p, states[n + 1]);
    WriteKeepsLocalConfined(states[n], p, states[n + 1]);
  }

  /** The presence flag of one local row has been written, and nothing else: that of the target's row, if
      its current provider identity is the historical one. */
  ghost predicate PresenceWritten(before: map<string, LocalRow>, target: Target, present: bool, after: map<string, LocalRow>) {
    && after.Keys == before.Keys
    && forall key :: key in before ==>
         after[key] == if key == target.remoteId && IdentityOf(before[key].current) == IdentityOf(target)
                       then before[key].(present := present) else before[key]
  }

  /** The observed row and the local rows say what was answered. */
  ghost predicate AsAnswered(s: State, proc: Process, t: State)
    requires proc.Observed?
  {
    && RowExists(s, proc.run, proc.i) && RowExists(t, proc.run, proc.i)
    && var target, status := s.runs[proc.run].rows[proc.i].target, t.runs[proc.run].rows[proc.i].status;
       match proc.answer
       case ObservedAbsent => status == Succeeded && PresenceWritten(s.local, target, false, t.local)
       case ObservedPresentMatch => status == Failed && PresenceWritten(s.local, target, true, t.local)
       case _ => t.runs == s.runs && t.local == s.local
  }

  lemma {:induction false} SetPresenceWrites(local: map<string, LocalRow>, target: Target, present: bool)
    ensures PresenceWritten(local, target, present, SetPresence(local, target, present))
  {
  }

  lemma {:induction false} WriteIsAsAnswered(s: State, p: nat, t: State)
    requires RunsOk(s) && Step(s, WriteObservation(p), t)
    ensures AsAnswered(s, s.procs[p], t)
  {
    var proc := s.procs[p];
    assert Placed(s, proc);
    SetPresenceWrites(s.local, s.runs[proc.run].rows[proc.i].target, proc.answer == ObservedPresentMatch);
  }

  /** What a reconciliation writes: a confirmed absence marks the row succeeded and its message absent, a
      confirmed presence marks the row failed and its message present, the latter half each time only under
      the historical identity; any other answer changes neither rows nor presence. */
  lemma {:induction false} ReconciliationIsAsAnswered(states: seq<State>, actions: seq<Action>, n: nat, p: nat)
    requires Execution(states, actions) && n < |actions| && actions[n] == WriteObservation(p)
    ensures p in states[n].procs && states[n].procs[p].Observed?
    ensures AsAnswered(states[n], states[n].procs[p], states[n + 1])
  {
    ExecutionKeepsInv(states, actions, n);
    assert Step(states[n], actions[n], states[n + 1]);
    WriteIsAsAnswered(states[n], p, states[n + 1]);
  }

  /** A reconciliation takes the unresolved rows of its run in turn: it starts with all of them, looks at the
      first, and after its record goes on with the rest, or ends. */
  lemma {:induction false} ReconciliationTakesTurns(states: seq<State>, actions: seq<Action>, n: nat, p: nat)
    requires Execution(states, actions) && n < |actions| && Actor(actions[n]) == Some(p)
    requires actions[n].StartReconcile? || actions[n].ReadUnresolved? || actions[n].Observe? || actions[n].WriteObservation?
    ensures actions[n].StartReconcile? || p in states[n].procs
    ensures var after := states[n + 1].procs;
            if actions[n].StartReconcile? then
              actions[n].run in states[n].runs
              && (p in after ==>
                    && after[p].Reconciling? && after[p].run == actions[n].run
                    && forall i :: i in after[p].todo <==> UnresolvedAt(states[n], actions[n].run, i))
              && (p !in after ==> forall i: nat :: !UnresolvedAt(states[n], actions[n].run, i))
            else
              var proc := states[n].procs[p];
              if actions[n].ReadUnresolved? then
                && proc.Reconciling? && proc.todo != [] && p in after && after[p].Observing?
                && after[p].run == proc.run && [after[p].i] + after[p].todo == proc.todo
              else if actions[n].Observe? then
                proc.Observing? && p in after && after[p] == Observed(proc.run, proc.i, proc.seen, actions[n].answer, proc.todo)
              else
                proc.Observed? && if proc.todo == [] then p !in after else p in after && after[p] == Reconciling(proc.run, proc.todo)
  {
    assert Step(states[n], actions[n], states[n + 1]);
    if actions[n].StartReconcile? {
      UnresolvedFromFinds(states[n].runs[actions[n].run].rows, 0);
    }
  }

  /** Mail comes and goes by itself, or goes by a provider call, and then it is the mail of the row called
      for; nothing else touches the mailbox. */
  lemma {:induction false} OnlyCallsRemoveMail(states: seq<State>, actions: seq<Action>, n: nat)
    requires Execution(states, actions) && n < |actions|
    ensures var s, a, after := states[n], actions[n], states[n + 1].mailbox;
            match a
            case MailArrives(id) => after == s.mailbox + {id}
            case MailLeaves(id) => after == s.mailbox - {id}
            case CallProvider(p, _, _, removed) =>
              && p in s.procs && s.procs[p].Calling? && RowExists(s, s.procs[p].run, s.procs[p].i)
              && after == if removed then s.mailbox - {IdentityOf(s.runs[s.procs[p].run].rows[s.procs[p].i].target)} else s.mailbox
            case _ => after == s.mailbox
  {
    assert Step(states[n], actions[n], states[n + 1]);
  }

  /** What an executor records of a call: the status of the answer, on its row alone; success marks the
      message absent, on the row that has the target's identifier, and anything else halts the run and
      changes no presence.  An exception is recorded as unknown. */
  lemma {:induction false} OutcomeIsAsAnswered(states: seq<State>, actions: seq<Action>, n: nat, p: nat)
    requires Execution(states, actions) && n < |actions| && actions[n] == RecordOutcome(p)
    ensures p in states[n].procs && states[n].procs[p].Returned?
    ensures var proc := states[n].procs[p]; OnlyRowWritten(states[n], states[n + 1], proc.run, proc.i)
    ensures var s, t, proc := states[n], states[n + 1], states[n].procs[p];
            var id, status := s.runs[proc.run].rows[proc.i].target.remoteId, t.runs[proc.run].rows[proc.i].status;
            && status == (if proc.raised.Some? then Unknown else Normalize(proc.result, None).status)
            && t.local.Keys == s.local.Keys
            && (forall key :: key in s.local ==>
                  t.local[key] == if status == Succeeded && key == id then s.local[key].(present := false) else s.local[key])
            && t.runs[proc.run].status == if status == Succeeded then s.runs[proc.run].status else RunHalted
  {
    ExecutionKeepsInv(states, actions, n);
    assert Step(states[n], actions[n], states[n + 1]);
    assert Placed(states[n], states[n].procs[p]);
  }

  /** Nothing of the runs has changed but the status of one row and of its run. */
  ghost predicate OnlyRowWritten(s: State, t: State, run: nat, i: nat) {
    && RowExists(s, run, i) && RowExists(t, run, i) && t.runs.Keys == s.runs.Keys
    && (forall r :: r in s.runs && r != run ==> t.runs[r] == s.runs[r])
    && t.runs[run].plan == s.runs[run].plan && |t.runs[run].rows| == |s.runs[run].rows|
    && t.runs[run].rows[i] == s.runs[run].rows[i].(status := t.runs[run].rows[i].status)
    && forall j :: 0 <= j < |s.runs[run].rows| && j != i ==> t.runs[run].rows[j] == s.runs[run].rows[j]
  }

  // --- What `succeeded` means ---

  ghost predicate Gone(s: State, id: Identity) {
    id in s.ever && id !in s.mailbox
  }

  /** The process is about to record its row as succeeded. */
  predicate ClaimsSuccess(proc: Process) {
    || (proc.Returned? && Normalize(proc.result, proc.raised).Recorded? && Normalize(proc.result, proc.raised).status == Succeeded)
    || (proc.Observed? && proc.answer == ObservedAbsent)
  }

  ghost predicate RowGone(s: State, r: nat, i: nat)
    requires RowExists(s, r, i)
  {
    s.runs[r].rows[i].status == Succeeded ==> Gone(s, IdentityOf(s.runs[r].rows[i].target))
  }

  ghost predicate ClaimGone(s: State, proc: Process) {
    ClaimsSuccess(proc) && RowExists(s, proc.run, proc.i) ==> Gone(s, IdentityOf(s.runs[proc.run].rows[proc.i].target))
  }

  /** Rows recorded as succeeded, and rows about to be, name messages that are gone. */
  ghost predicate GoneOk(s: State) {
    && (forall r, i :: RowExists(s, r, i) ==> RowGone(s, r, i))
    && (forall p :: p in s.procs ==> ClaimGone(s, s.procs[p]))
  }

  /** The only ways a row becomes succeeded. */
  lemma {:induction false} SuccessComesFromAClaim(s: State, a: Action, t: State, r: nat, i: nat)
    requires Step(s, a, t) && RowExists(s, r, i) && RowExists(t, r, i)
    requires t.runs[r].rows[i].status == Succeeded && s.runs[r].rows[i].status != Succeeded
    ensures Actor(a).Some? && Actor(a).value in s.procs
    ensures var proc := s.procs[Actor(a).value]; ClaimsSuccess(proc) && proc.run == r && proc.i == i
  {
    if !RewritesRun(a) {
      OthersKeepRuns(s, a, t, r);
    } else if s.procs[Actor(a).value].run != r {
      OtherRunsUntouched(s, a, t, r);
    }
  }

  lemma {:induction false} StepKeepsRowGone(s: State, a: Action, t: State, r: nat, i: nat)
    requires Inv(s) && GoneOk(s) && Step(s, a, t) && RowExists(t, r, i)
    ensures RowGone(t, r, i)
  {
    IdentitiesAreNotReused(s, a, t);
    if r !in s.runs {
      RunsKeepTheirPlan(s, a, t, r);
    } else {
      RunsKeepTheirTargets(s, a, t, r);
      assert RowGone(s, r, i);
      if t.runs[r].rows[i].status == Succeeded && s.runs[r].rows[i].status != Succeeded {
        SuccessComesFromAClaim(s, a, t, r, i);
        assert ClaimGone(s, s.procs[Actor(a).value]);
      }
    }
  }

  lemma {:induction false} CallClaimsHonestly(s: State, a: Action, t: State)
    requires Inv(s) && a.CallProvider? && Step(s, a, t) && Honest(s, a)
    ensures a.p in t.procs && ClaimGone(t, t.procs[a.p])
  {
    assert Placed(s, s.procs[a.p]) && RowOk(s, s.runs[s.procs[a.p].run].rows[s.procs[a.p].i]);
  }

  lemma {:induction false} ObservationClaimsHonestly(s: State, p: nat, answer: Observation, t: State)
    requires Inv(s) && Step(s, Observe(p, answer), t) && Honest(s, Observe(p, answer))
    ensures p in t.procs && ClaimGone(t, t.procs[p])
  {
    assert Placed(s, s.procs[p]) && RowOk(s, s.runs[s.procs[p].run].rows[s.procs[p].i]);
  }

  lemma {:induction false} OthersMakeNoClaim(s: State, a: Action, t: State, p: nat)
    requires Step(s, a, t) && Actor(a) == Some(p) && p in t.procs && !a.CallProvider? && !a.Observe?
    ensures !ClaimsSuccess(t.procs[p])
  {
  }

  /** A claim is made only by an adapter or an observer, and they keep their contract. */
  lemma {:induction false} ClaimsAreHonest(s: State, a: Action, t: State, p: nat)
    requires Inv(s) && Step(s, a, t) && Honest(s, a) && Actor(a) == Some(p) && p in t.procs
    ensures ClaimGone(t, t.procs[p])
  {
    if a.CallProvider? {
      CallClaimsHonestly(s, a, t);
    } else if a.Observe? {
      ObservationClaimsHonestly(s, p, a.answer, t);
    } else {
      OthersMakeNoClaim(s, a, t, p);
    }
  }

  lemma {:induction false} StepKeepsClaimGone(s: State, a: Action, t: State, p: nat)
    requires Inv(s) && GoneOk(s) && Step(s, a, t) && Honest(s, a) && p in t.procs
    ensures ClaimGone(t, t.procs[p])
  {
    if Actor(a) == Some(p) {
      ClaimsAreHonest(s, a, t, p);
    } else {
      OnlyTheActorMoves(s, a, t, p);
      IdentitiesAreNotReused(s, a, t);
      var proc := s.procs[p];
      assert ClaimGone(s, proc) && Placed(s, proc);
      if ClaimsSuccess(proc) {
        RowsKeepTheirTarget(s, a, t, proc.run, proc.i);
      }
    }
  }

  ghost predicate HonestExecution(states: seq<State>, actions: seq<Action>) {
    Execution(states, actions) && forall k {:trigger actions[k]} :: 0 <= k < |actions| ==> Step(states[k], actions[k], states[k + 1]) && Honest(states[k], actions[k])
  }

  lemma {:induction false} ExecutionKeepsGoneOk(states: seq<State>, actions: seq<Action>, n: nat)
    requires HonestExecution(states, actions) && n < |states|
    ensures GoneOk(states[n])
  {
    if n > 0 {
      ExecutionKeepsGoneOk(states, actions, n - 1);
      ExecutionKeepsInv(states, actions, n - 1);
      var s, a, t := states[n - 1], actions[n - 1], states[n];
      assert Step(s, a, t) && Honest(s, a);
      forall r, i | RowExists(t, r, i) ensures RowGone(t, r, i) {
        StepKeepsRowGone(s, a, t, r, i);
      }
      forall p | p in t.procs ensures ClaimGone(t, t.procs[p]) {
        StepKeepsClaimGone(s, a, t, p);
      }
    }
  }

  lemma {:induction false} GoneStays(s: State, a: Action, t: State, id: Identity)
    requires Step(s, a, t) && Gone(s, id)
    ensures Gone(t, id)
  {
    IdentitiesAreNotReused(s, a, t);
  }

  lemma {:induction false} GoneIsForEver(states: seq<State>, actions: seq<Action>, n: nat, m: nat, id: Identity)
    requires Execution(states, actions) && n <= m < |states| && Gone(states[n], id)
    ensures Gone(states[m], id)
    decreases m
  {
    if n < m {
      GoneIsForEver(states, actions, n, m - 1, id);
      assert Step(states[m - 1], actions[m - 1], states[m]);
      GoneStays(states[m - 1], actions[m - 1], states[m], id);
    }
  }

  /** With adapters and observers that confirm absence only of messages that are gone, a row that is
      ever marked `succeeded`, by execution or by reconciliation, names a message that is absent from
      the mailbox in that state and in every later one, even if the row is overwritten later. */
  lemma {:induction false} SucceededMeansGone(states: seq<State>, actions: seq<Action>, n: nat, m: nat, r: nat, i: nat)
    requires HonestExecution(states, actions) && n <= m < |states|
    requires RowExists(states[n], r, i) && states[n].runs[r].rows[i].status == Succeeded
    ensures IdentityOf(states[n].runs[r].rows[i].target) !in states[m].mailbox
  {
    ExecutionKeepsGoneOk(states, actions, n);
    assert RowGone(states[n], r, i);
    GoneIsForEver(states, actions, n, m, IdentityOf(states[n].runs[r].rows[i].target));
  }
}
