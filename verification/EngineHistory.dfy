/** What the history of provider calls and the recorded statuses mean, over whole executions. */
module EngineHistory {
  import opened Base
  import opened Verdicts
  import opened Targets
  import opened Engine
  import opened EngineSafety

  // --- Stored facts ---

  ghost predicate PlanRowOk(s: State, row: PlanRow) {
    row.hashed == row.target && IdentityOf(row.target) in s.ever
  }

  ghost predicate RowOk(s: State, row: Row) {
    row.hashed == row.target && IdentityOf(row.target) in s.ever
  }

  /** Rows are filed under their own identifier, fingerprints belong to their targets, and every
      stored provider identity has existed at the provider. */
  ghost predicate FactsOk(s: State) {
    && s.mailbox <= s.ever
    && (forall k :: k in s.local ==> s.local[k].current.remoteId == k && IdentityOf(s.local[k].current) in s.ever)
    && (forall q, i :: q in s.plans && 0 <= i < |s.plans[q]| ==> PlanRowOk(s, s.plans[q][i]))
    && (forall r, i :: r in s.runs && 0 <= i < |s.runs[r].rows| ==> RowOk(s, s.runs[r].rows[i]))
  }

  lemma {:induction false} ActorsBringNoMail(s: State, a: Action)
    requires Enabled(s, a) && Actor(a).Some?
    ensures EffectOf(s, a).mailbox <= s.mailbox
    ensures EffectOf(s, a).event.Some? && EffectOf(s, a).event.value.Called? ==> a.CallProvider?
  {
  }

  /** Identities are never forgotten, and one that has been removed never returns. */
  lemma {:induction false} IdentitiesAreNotReused(s: State, a: Action, t: State)
    requires Step(s, a, t)
    ensures s.ever <= t.ever && (s.mailbox <= s.ever ==> t.mailbox <= t.ever)
    ensures forall id :: id in s.ever && id !in s.mailbox ==> id !in t.mailbox
  {
    if Actor(a).Some? {
      ActorsPatch(s, a, t);
      ActorsBringNoMail(s, a);
    }
  }

  ghost predicate SameTargets(x: Run, y: Run) {
    && |x.rows| == |y.rows|
    && forall i :: 0 <= i < |x.rows| ==> x.rows[i].target == y.rows[i].target && x.rows[i].hashed == y.rows[i].hashed
  }

  lemma {:induction false} SetStatusKeepsTargets(run: Run, i: nat, status: RowStatus)
    requires i < |run.rows|
    ensures SameTargets(run, SetStatus(run, i, status))
  {
  }

  /** A rewriting step changes the status of at most one row of its own run. */
  lemma {:induction false} RewriteIs(s: State, a: Action, t: State, r: nat)
    requires Step(s, a, t) && r in s.runs && RewritesRun(a) && s.procs[Actor(a).value].run == r
    ensures r in t.runs
    ensures a.Pick? ==> t.runs[r].rows == s.runs[r].rows
    ensures !a.Pick? ==>
              var i := s.procs[Actor(a).value].i;
              && RowExists(s, r, i) && RowExists(t, r, i)
              && t.runs[r].rows == s.runs[r].rows[i := s.runs[r].rows[i].(status := t.runs[r].rows[i].status)]
  {
  }

  lemma {:induction false} RewriteKeepsTargets(s: State, a: Action, t: State, r: nat)
    requires Step(s, a, t) && r in s.runs && RewritesRun(a) && s.procs[Actor(a).value].run == r
    ensures r in t.runs && SameTargets(s.runs[r], t.runs[r])
  {
    RewriteIs(s, a, t, r);
  }

  /** A run's rows keep their targets and fingerprints for ever. */
  lemma {:induction false} RunsKeepTheirTargets(s: State, a: Action, t: State, r: nat)
    requires Step(s, a, t) && r in s.runs
    ensures r in t.runs && SameTargets(s.runs[r], t.runs[r])
  {
    if !RewritesRun(a) {
      OthersKeepRuns(s, a, t, r);
    } else if s.procs[Actor(a).value].run != r {
      OtherRunsUntouched(s, a, t, r);
    } else {
      RewriteKeepsTargets(s, a, t, r);
    }
  }

  lemma {:induction false} RowsKeepTheirTarget(s: State, a: Action, t: State, r: nat, i: nat)
    requires Step(s, a, t) && RowExists(s, r, i)
    ensures RowExists(t, r, i)
    ensures t.runs[r].rows[i].target == s.runs[r].rows[i].target
    ensures t.runs[r].rows[i].hashed == s.runs[r].rows[i].hashed
  {
    RunsKeepTheirTargets(s, a, t, r);
  }

  lemma {:induction false} StepKeepsRowsOk(s: State, a: Action, t: State, r: nat, i: nat)
    requires FactsOk(s) && Step(s, a, t) && RowExists(t, r, i)
    ensures RowOk(t, t.runs[r].rows[i])
  {
    IdentitiesAreNotReused(s, a, t);
    if r in s.runs {
      RunsKeepTheirTargets(s, a, t, r);
      assert RowOk(s, s.runs[r].rows[i]);
    } else {
      RunsKeepTheirPlan(s, a, t, r);
      assert PlanRowOk(s, s.plans[s.procs[a.p].plan][i]);
    }
  }

  lemma {:induction false} OthersKeepLocal(s: State, a: Action, t: State)
    requires Step(s, a, t) && !a.LocalChanges? && !a.RecordOutcome? && !a.WriteObservation?
    ensures t.local == s.local
  {
  }

  /** The writes of presence keep every row's identity. */
  lemma {:induction false} PresenceWritesKeepIdentity(s: State, a: Action, t: State, k: string)
    requires Step(s, a, t) && (a.RecordOutcome? || a.WriteObservation?) && k in t.local
    ensures k in s.local && t.local[k].current == s.local[k].current
  {
  }

  lemma {:induction false} StepKeepsLocalOk(s: State, a: Action, t: State, k: string)
    requires FactsOk(s) && Step(s, a, t) && k in t.local
    ensures t.local[k].current.remoteId == k && IdentityOf(t.local[k].current) in t.ever
  {
    IdentitiesAreNotReused(s, a, t);
    if a.RecordOutcome? || a.WriteObservation? {
      PresenceWritesKeepIdentity(s, a, t, k);
    } else if a.LocalChanges? {
      assert k in s.local ==> s.local[k].current.remoteId == k && IdentityOf(s.local[k].current) in s.ever;
    } else {
      OthersKeepLocal(s, a, t);
    }
  }

  lemma {:induction false} StepKeepsPlanOk(s: State, a: Action, t: State, q: nat, i: nat)
    requires FactsOk(s) && Step(s, a, t) && q in t.plans && i < |t.plans[q]|
    ensures PlanRowOk(t, t.plans[q][i])
  {
    if q in s.plans {
      assert PlanRowOk(s, s.plans[q][i]);
    } else {
      assert TakenFromLocal(s, a.rows[i]);
    }
  }

  lemma {:induction false} StepKeepsFacts(s: State, a: Action, t: State)
    requires FactsOk(s) && Step(s, a, t)
    ensures FactsOk(t)
  {
    IdentitiesAreNotReused(s, a, t);
    forall k | k in t.local ensures t.local[k].current.remoteId == k && IdentityOf(t.local[k].current) in t.ever {
      StepKeepsLocalOk(s, a, t, k);
    }
    forall q, i | q in t.plans && 0 <= i < |t.plans[q]| ensures PlanRowOk(t, t.plans[q][i]) {
      StepKeepsPlanOk(s, a, t, q, i);
    }
    forall r, i | r in t.runs && 0 <= i < |t.runs[r].rows| ensures RowOk(t, t.runs[r].rows[i]) {
      StepKeepsRowsOk(s, a, t, r, i);
    }
  }

  // --- The history of calls ---

  ghost predicate NoCallSince(h: seq<Event>, run: nat, from: nat) {
    forall k :: from <= k < |h| && h[k].Called? ==> h[k].run != run
  }

  ghost predicate NeverCalled(h: seq<Event>, run: nat, i: nat) {
    forall k :: 0 <= k < |h| && h[k].Called? ==> !(h[k].run == run && h[k].i == i)
  }

  /** Position `e` is an evaluation, made for this row, that reported `report` and found it eligible. */
  ghost predicate ReportedAt(h: seq<Event>, run: nat, i: nat, report: LocalRow, e: nat) {
    e < |h| && h[e] == Evaluated(run, i, report) && report.eligible
  }

  /** Position `e` is an evaluation that found this very target eligible: this row, and linked to this
      canonical object. */
  ghost predicate EvaluatedAt(h: seq<Event>, run: nat, i: nat, target: Target, e: nat) {
    && e < |h| && h[e].Evaluated? && h[e].run == run && h[e].i == i
    && h[e].row.eligible && ReportsOn(h[e].row, target)
  }

  /** Position `m` found the row present and its identity, canonical object and hash unchanged. */
  ghost predicate MatchedAt(h: seq<Event>, run: nat, i: nat, target: Target, m: nat) {
    && m < |h| && h[m].IdentityMatched? && h[m].run == run && h[m].i == i
    && h[m].row.present && SameTarget(h[m].row.current, target)
  }

  /** The call at `k` was authorized: an evaluation that found its target eligible, then the identity
      check, then the `started` commit, with no other provider call of the run since the evaluation. */
  ghost predicate Authorized(h: seq<Event>, k: nat, e: nat, m: nat, c: nat) {
    && e < m < c < k < |h| && h[k].Called?
    && EvaluatedAt(h, h[k].run, h[k].i, h[k].target, e)
    && MatchedAt(h, h[k].run, h[k].i, h[k].target, m)
    && h[c] == StartCommitted(h[k].run, h[k].i)
    && (forall j :: e <= j < k && h[j].Called? ==> h[j].run != h[k].run)
  }

  ghost predicate CallOk(s: State, k: nat)
    requires k < |s.history|
  {
    s.history[k].Called? ==>
      && (exists e: nat, m: nat, c: nat :: Authorized(s.history, k, e, m, c))
      && RowExists(s, s.history[k].run, s.history[k].i)
      && s.runs[s.history[k].run].rows[s.history[k].i].status != Planned
  }

  ghost predicate CallsDistinct(h: seq<Event>) {
    forall k, l :: 0 <= k < l < |h| && h[k].Called? && h[l].Called? ==> !(h[k].run == h[l].run && h[k].i == h[l].i)
  }

  /** The positions a process carries point at what they claim. */
  ghost predicate Backed(s: State, proc: Process) {
    match proc
    case Reported(run, i, e, report) =>
      RowExists(s, run, i) && ReportedAt(s.history, run, i, report, e) && NoCallSince(s.history, run, e)
    case Matched(run, i, e, m) =>
      && RowExists(s, run, i) && EvaluatedAt(s.history, run, i, s.runs[run].rows[i].target, e) && NoCallSince(s.history, run, e)
      && e < m && MatchedAt(s.history, run, i, s.runs[run].rows[i].target, m)
    case Calling(run, i, e, m, c) =>
      && RowExists(s, run, i) && EvaluatedAt(s.history, run, i, s.runs[run].rows[i].target, e) && NoCallSince(s.history, run, e)
      && e < m && MatchedAt(s.history, run, i, s.runs[run].rows[i].target, m)
      && m < c < |s.history| && s.history[c] == StartCommitted(run, i) && NeverCalled(s.history, run, i)
    case _ => true
  }

  ghost predicate HistoryOk(s: State) {
    && (forall k :: 0 <= k < |s.history| ==> CallOk(s, k))
    && CallsDistinct(s.history)
    && (forall p :: p in s.procs ==> Backed(s, s.procs[p]))
  }

  ghost predicate Inv(s: State) {
    RunsOk(s) && FactsOk(s) && HistoryOk(s)
  }

  lemma {:induction false} HistoryGrows(s: State, a: Action, t: State)
    requires Step(s, a, t)
    ensures |s.history| <= |t.history| <= |s.history| + 1
    ensures forall k :: 0 <= k < |s.history| ==> t.history[k] == s.history[k]
    ensures |t.history| > |s.history| && t.history[|s.history|].Called? ==> a.CallProvider?
  {
    if Actor(a).Some? {
      ActorsPatch(s, a, t);
      ActorsBringNoMail(s, a);
    } else {
      OthersKeepProcsAndRuns(s, a, t);
    }
  }

  /** No row returns to `planned`. */
  lemma {:induction false} NoRowIsReplanned(s: State, a: Action, t: State, r: nat, i: nat)
    requires RunsOk(s) && Step(s, a, t) && RowExists(s, r, i) && s.runs[r].rows[i].status != Planned
    ensures RowExists(t, r, i) && t.runs[r].rows[i].status != Planned
  {
    if !RewritesRun(a) {
      OthersKeepRuns(s, a, t, r);
    } else if s.procs[Actor(a).value].run != r {
      OtherRunsUntouched(s, a, t, r);
    } else {
      RewriteNeverPlans(s, a, t, r, i);
    }
  }

  lemma {:induction false} RewriteNeverPlans(s: State, a: Action, t: State, r: nat, i: nat)
    requires Step(s, a, t) && RowExists(s, r, i) && RewritesRun(a) && s.procs[Actor(a).value].run == r
    ensures RowExists(t, r, i) && (t.runs[r].rows[i].status == s.runs[r].rows[i].status || t.runs[r].rows[i].status != Planned)
  {
  }

  /** An authorization does not depend on what happens after the call. */
  lemma {:induction false} AuthorizationIsFinal(h: seq<Event>, g: seq<Event>, k: nat, e: nat, m: nat, c: nat)
    requires |h| <= |g| && (forall j :: 0 <= j < |h| ==> g[j] == h[j])
    requires Authorized(h, k, e, m, c)
    ensures Authorized(g, k, e, m, c)
  {
  }

  lemma {:induction false} OldCallStaysOk(s: State, a: Action, t: State, k: nat)
    requires Inv(s) && Step(s, a, t) && k < |s.history|
    ensures k < |t.history| && CallOk(t, k)
  {
    HistoryGrows(s, a, t);
    assert CallOk(s, k);
    if s.history[k].Called? {
      var e: nat, m: nat, c: nat :| Authorized(s.history, k, e, m, c);
      AuthorizationIsFinal(s.history, t.history, k, e, m, c);
      NoRowIsReplanned(s, a, t, s.history[k].run, s.history[k].i);
    }
  }

  lemma {:induction false} NewCallIsOk(s: State, a: Action, t: State)
    requires Inv(s) && Step(s, a, t) && a.CallProvider?
    ensures |t.history| == |s.history| + 1 && CallOk(t, |s.history|) && CallsDistinct(t.history)
  {
    var proc := s.procs[a.p];
    assert Backed(s, proc) && Placed(s, proc);
    assert Authorized(t.history, |s.history|, proc.e, proc.m, proc.c);
  }

  /** Appending an event that is not a call of this run keeps a process backed. */
  lemma {:induction false} BackedFrame(s: State, t: State, proc: Process)
    requires Backed(s, proc)
    requires |s.history| <= |t.history| <= |s.history| + 1 && (forall k :: 0 <= k < |s.history| ==> t.history[k] == s.history[k])
    requires |t.history| > |s.history| && t.history[|s.history|].Called? && !proc.Validated? ==> t.history[|s.history|].run != proc.run
    requires proc.Reported? || proc.Matched? || proc.Calling? ==>
               RowExists(t, proc.run, proc.i) && t.runs[proc.run].rows[proc.i].target == s.runs[proc.run].rows[proc.i].target
    ensures Backed(t, proc)
  {
  }

  lemma {:induction false} BystanderStaysBacked(s: State, a: Action, t: State, p: nat)
    requires Inv(s) && Step(s, a, t) && p in s.procs && Actor(a) != Some(p)
    ensures p in t.procs && Backed(t, t.procs[p])
  {
    OnlyTheActorMoves(s, a, t, p);
    var proc := s.procs[p];
    assert Backed(s, proc);
    if proc.Reported? || proc.Matched? || proc.Calling? {
      HistoryGrows(s, a, t);
      RowsKeepTheirTarget(s, a, t, proc.run, proc.i);
      NoNewCallOfItsRun(s, a, t, p);
      BackedFrame(s, t, proc);
    }
  }

  /** While a process works on a run, only it adds calls to that run. */
  lemma {:induction false} NoNewCallOfItsRun(s: State, a: Action, t: State, p: nat)
    requires RunsOk(s) && Step(s, a, t) && p in s.procs && Actor(a) != Some(p)
    requires s.procs[p].Reported? || s.procs[p].Matched? || s.procs[p].Calling?
    ensures |t.history| > |s.history| && t.history[|s.history|].Called? ==> t.history[|s.history|].run != s.procs[p].run
  {
    HistoryGrows(s, a, t);
    if a.CallProvider? && s.procs[a.p].run == s.procs[p].run {
      ExecutorIsAlone(s, a.p, p);
      assert false;
    }
  }

  lemma {:induction false} OthersCarryNoPositions(s: State, a: Action, t: State, p: nat)
    requires Step(s, a, t) && Actor(a) == Some(p) && p in t.procs
    requires !a.Evaluate? && !a.MatchIdentity? && !a.CommitStarted?
    ensures !t.procs[p].Reported? && !t.procs[p].Matched? && !t.procs[p].Calling?
  {
  }

  lemma {:induction false} EvaluateIsBacked(s: State, p: nat, t: State)
    requires Inv(s) && Step(s, Evaluate(p), t)
    ensures p in t.procs && Backed(t, t.procs[p])
  {
    assert Placed(s, s.procs[p]);
  }

  lemma {:induction false} MatchIsBacked(s: State, p: nat, t: State)
    requires Inv(s) && Step(s, MatchIdentity(p), t)
    ensures p in t.procs && Backed(t, t.procs[p])
  {
    var proc := s.procs[p];
    assert Backed(s, proc);
    assert RowOk(s, s.runs[proc.run].rows[proc.i]);
  }

  lemma {:induction false} CommitIsBacked(s: State, p: nat, t: State)
    requires Inv(s) && Step(s, CommitStarted(p), t)
    ensures p in t.procs && Backed(t, t.procs[p])
  {
    var proc := s.procs[p];
    assert Placed(s, proc) && Backed(s, proc);
    SetStatusKeepsTargets(s.runs[proc.run], proc.i, Started);
    forall k | 0 <= k < |t.history| && t.history[k].Called? ensures !(t.history[k].run == proc.run && t.history[k].i == proc.i) {
      assert CallOk(s, k);
    }
  }

  lemma {:induction false} ActorIsBacked(s: State, a: Action, t: State, p: nat)
    requires Inv(s) && Step(s, a, t) && Actor(a) == Some(p) && p in t.procs
    ensures Backed(t, t.procs[p])
  {
    if a.Evaluate? {
      EvaluateIsBacked(s, p, t);
    } else if a.MatchIdentity? {
      MatchIsBacked(s, p, t);
    } else if a.CommitStarted? {
      CommitIsBacked(s, p, t);
    } else {
      OthersCarryNoPositions(s, a, t, p);
    }
  }

  lemma {:induction false} OtherEventsKeepCallsDistinct(h: seq<Event>, g: seq<Event>)
    requires CallsDistinct(h) && |h| <= |g| <= |h| + 1 && (forall k :: 0 <= k < |h| ==> g[k] == h[k])
    requires |g| > |h| ==> !g[|h|].Called?
    ensures CallsDistinct(g)
  {
  }

  lemma {:induction false} StepKeepsCallsDistinct(s: State, a: Action, t: State)
    requires Inv(s) && Step(s, a, t)
    ensures CallsDistinct(t.history)
  {
    if a.CallProvider? {
      NewCallIsOk(s, a, t);
    } else {
      HistoryGrows(s, a, t);
      OtherEventsKeepCallsDistinct(s.history, t.history);
    }
  }

  lemma {:induction false} StepKeepsCallOk(s: State, a: Action, t: State, k: nat)
    requires Inv(s) && Step(s, a, t) && k < |t.history|
    ensures CallOk(t, k)
  {
    HistoryGrows(s, a, t);
    if k < |s.history| {
      OldCallStaysOk(s, a, t, k);
    } else if a.CallProvider? {
      NewCallIsOk(s, a, t);
    } else {
      assert !t.history[k].Called?;
    }
  }

  lemma {:induction false} StepKeepsHistory(s: State, a: Action, t: State)
    requires Inv(s) && Step(s, a, t)
    ensures HistoryOk(t)
  {
    forall k | 0 <= k < |t.history| ensures CallOk(t, k) {
      StepKeepsCallOk(s, a, t, k);
    }
    StepKeepsCallsDistinct(s, a, t);
    forall p | p in t.procs ensures Backed(t, t.procs[p]) {
      if Actor(a) == Some(p) {
        ActorIsBacked(s, a, t, p);
      } else {
        OnlyTheActorMoves(s, a, t, p);
        BystanderStaysBacked(s, a, t, p);
      }
    }
  }

  lemma {:induction false} ExecutionKeepsInv(states: seq<State>, actions: seq<Action>, k: nat)
    requires Execution(states, actions) && k < |states|
    ensures Inv(states[k])
  {
    if k == 0 {
      InitialRunsOk(states[0]);
    } else {
      ExecutionKeepsInv(states, actions, k - 1);
      assert Step(states[k - 1], actions[k - 1], states[k]);
      StepKeepsRunsOk(states[k - 1], actions[k - 1], states[k]);
      StepKeepsFacts(states[k - 1], actions[k - 1], states[k]);
      StepKeepsHistory(states[k - 1], actions[k - 1], states[k]);
    }
  }
}
