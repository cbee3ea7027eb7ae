/** Executions built step by step: how an executor can be driven to any of its calls.  They are the
    witnesses that what the other modules rule out, or fail to rule out, can be reached. */
module EngineDrive {
  import opened Base
  import opened Verdicts
  import opened Targets
  import opened Engine
  import opened EngineSafety
  import opened EngineHistory
  import opened EngineExclusion

  /** One more step. */
  lemma {:induction false} Extend(states: seq<State>, actions: seq<Action>, a: Action) returns (next: seq<State>, done: seq<Action>)
    requires Execution(states, actions) && Enabled(states[|states| - 1], a)
    ensures Execution(next, done) && states <= next && actions <= done
    ensures next[|next| - 1] == Apply(states[|states| - 1], a)
  {
    next, done := states + [Apply(states[|states| - 1], a)], actions + [a];
    OneMoreLink(Step, states, actions, a, Apply(states[|states| - 1], a));
  }

  /** From `s` to `t` only process `p` has moved, only run `run` has been written, and plans are as they
      were. */
  ghost predicate OnlyMoved(s: State, t: State, p: nat, run: nat) {
    && t.plans == s.plans && t.limits == s.limits
    && (forall q :: q in s.procs && q != p ==> q in t.procs && t.procs[q] == s.procs[q])
    && (forall r :: r in s.runs && r != run ==> r in t.runs && t.runs[r] == s.runs[r])
    && (forall r :: r in t.runs && r != run ==> r in s.runs)
  }

  /** The process has committed the start of this row and is about to make its call. */
  ghost predicate AtCall(s: State, p: nat, run: nat, i: nat) {
    && p in s.procs && s.procs[p].Calling? && s.procs[p].run == run && s.procs[p].i == i
    && RowExists(s, run, i) && s.runs[run].rows[i].status == Started
  }

  /** The next row of an executor between rows. */
  ghost predicate NextRow(s: State, p: nat, run: nat, i: nat) {
    p in s.procs && s.procs[p] == Picking(run) && RowExists(s, run, i) && FirstPlanned(s.runs[run].rows, 0) == Some(i)
  }

  /** The local row as it was when the target was planned, present and eligible. */
  function Restored(target: Target): Action {
    LocalChanges(target.remoteId, LocalRow(target, true, true))
  }

  /** With the local row restored, the next row is picked and evaluated as eligible. */
  lemma {:induction false} RestoredIsReported(s: State, p: nat, run: nat, i: nat)
    requires NextRow(s, p, run, i) && RowOk(s, s.runs[run].rows[i])
    ensures Enabled(s, Restored(s.runs[run].rows[i].target))
    ensures var s1 := Apply(s, Restored(s.runs[run].rows[i].target));
            Enabled(s1, Pick(p)) && var s2 := Apply(s1, Pick(p));
            Enabled(s2, Evaluate(p)) && Reporting(s, Apply(s2, Evaluate(p)), p, run, i)
  {
    var s2 := Apply(Apply(s, Restored(s.runs[run].rows[i].target)), Pick(p));
    assert s2.procs[p] == Picked(run, i);
  }

  /** The process holds an evaluation of its row's message, which is still as it was planned. */
  ghost predicate Reporting(s: State, t: State, p: nat, run: nat, i: nat) {
    && OnlyMoved(s, t, p, run) && t.runs == s.runs && RowExists(t, run, i)
    && var target := t.runs[run].rows[i].target;
    && p in t.procs && t.procs[p].Reported? && t.procs[p].run == run && t.procs[p].i == i
    && ReportsOn(t.procs[p].report, target)
    && target.remoteId in t.local && t.local[target.remoteId] == LocalRow(target, true, true)
  }

  lemma {:induction false} DriveToReport(states: seq<State>, actions: seq<Action>, p: nat, run: nat, i: nat)
    returns (next: seq<State>, done: seq<Action>)
    requires Execution(states, actions) && NextRow(states[|states| - 1], p, run, i)
    requires RowOk(states[|states| - 1], states[|states| - 1].runs[run].rows[i])
    ensures Execution(next, done) && states <= next && actions <= done
    ensures Reporting(states[|states| - 1], next[|next| - 1], p, run, i)
  {
    RestoredIsReported(states[|states| - 1], p, run, i);
    next, done := Extend(states, actions, Restored(states[|states| - 1].runs[run].rows[i].target));
    next, done := Extend(next, done, Pick(p));
    next, done := Extend(next, done, Evaluate(p));
  }

  /** From there the identity check and the `started` commit lead to the call. */
  lemma {:induction false} ReportedIsCalled(s: State, t: State, p: nat, run: nat, i: nat)
    requires Reporting(s, t, p, run, i) && t.runs[run].rows[i].hashed == t.runs[run].rows[i].target
    ensures Enabled(t, MatchIdentity(p))
    ensures var t1 := Apply(t, MatchIdentity(p));
            Enabled(t1, CommitStarted(p)) && var t2 := Apply(t1, CommitStarted(p));
            OnlyMoved(s, t2, p, run) && AtCall(t2, p, run, i) && t2.runs[run] == SetStatus(s.runs[run], i, Started)
  {
    assert Apply(t, MatchIdentity(p)).procs[p].Matched?;
  }

  lemma {:induction false} CallFromReport(states: seq<State>, actions: seq<Action>, s: State, p: nat, run: nat, i: nat)
    returns (next: seq<State>, done: seq<Action>)
    requires Execution(states, actions) && Reporting(s, states[|states| - 1], p, run, i)
    requires s.runs[run].rows[i].hashed == s.runs[run].rows[i].target
    ensures Execution(next, done) && states <= next && actions <= done
    ensures var t := next[|next| - 1];
            OnlyMoved(s, t, p, run) && AtCall(t, p, run, i) && t.runs[run] == SetStatus(s.runs[run], i, Started)
  {
    ReportedIsCalled(s, states[|states| - 1], p, run, i);
    next, done := Extend(states, actions, MatchIdentity(p));
    next, done := Extend(next, done, CommitStarted(p));
  }

  /** An executor whose next row is `i` can be brought to its call: the local row may be eligible and
      unchanged just then. */
  lemma {:induction false} DriveToCall(states: seq<State>, actions: seq<Action>, p: nat, run: nat, i: nat)
    returns (next: seq<State>, done: seq<Action>)
    requires Execution(states, actions) && NextRow(states[|states| - 1], p, run, i)
    ensures Execution(next, done) && states <= next && actions <= done
    ensures var s, t := states[|states| - 1], next[|next| - 1];
            OnlyMoved(s, t, p, run) && AtCall(t, p, run, i) && t.runs[run] == SetStatus(s.runs[run], i, Started)
  {
    ExecutionKeepsInv(states, actions, |states| - 1);
    assert RowOk(states[|states| - 1], states[|states| - 1].runs[run].rows[i]);
    next, done := DriveToReport(states, actions, p, run, i);
    next, done := CallFromReport(next, done, states[|states| - 1], p, run, i);
  }

  /** The call may succeed, and be recorded as succeeded. */
  lemma {:induction false} FinishRow(states: seq<State>, actions: seq<Action>, p: nat, run: nat, i: nat)
    returns (next: seq<State>, done: seq<Action>)
    requires Execution(states, actions) && AtCall(states[|states| - 1], p, run, i)
    ensures Execution(next, done) && states <= next && actions <= done
    ensures var s, t := states[|states| - 1], next[|next| - 1];
            && OnlyMoved(s, t, p, run) && p in t.procs && t.procs[p] == Picking(run)
            && run in t.runs && t.runs[run] == SetStatus(s.runs[run], i, Succeeded)
  {
    next, done := Extend(states, actions, CallProvider(p, Success(), false, true));
    assert next[|next| - 1].procs[p] == Returned(run, i, Success(), None);
    next, done := Extend(next, done, RecordOutcome(p));
  }

  lemma {:induction false} OnlyMovedTwice(s: State, t: State, u: State, p: nat, run: nat)
    requires OnlyMoved(s, t, p, run) && OnlyMoved(t, u, p, run)
    ensures OnlyMoved(s, u, p, run)
  {
  }

  /** After row `i` of a run has been planned and then finished, row `i + 1` is next. */
  lemma {:induction false} NextAfter(rows: seq<Row>, i: nat, after: seq<Row>)
    requires i + 1 < |rows| && FirstPlanned(rows, 0) == Some(i) && rows[i + 1].status == Planned
    requires after == rows[i := rows[i].(status := Succeeded)]
    ensures FirstPlanned(after, 0) == Some(i + 1)
  {
    FirstPlannedFinds(rows, 0);
    FirstPlannedFinds(after, 0);
    assert after[i + 1].status == Planned && forall j :: 0 <= j <= i ==> after[j].status != Planned;
  }

  ghost predicate PlannedFrom(rows: seq<Row>, k: nat) {
    forall j :: k <= j < |rows| ==> rows[j].status == Planned
  }

  /** An executor whose next row is `k` can be brought to the call of any later row of its run. */
  lemma {:induction false} DriveToRow(states: seq<State>, actions: seq<Action>, p: nat, run: nat, k: nat, i: nat)
    returns (next: seq<State>, done: seq<Action>)
    requires Execution(states, actions) && NextRow(states[|states| - 1], p, run, k)
    requires k <= i && RowExists(states[|states| - 1], run, i)
    requires PlannedFrom(states[|states| - 1].runs[run].rows, k)
    ensures Execution(next, done) && states <= next && actions <= done
    ensures OnlyMoved(states[|states| - 1], next[|next| - 1], p, run) && AtCall(next[|next| - 1], p, run, i)
    ensures next[|next| - 1].runs[run].plan == states[|states| - 1].runs[run].plan
    ensures IdAt(next[|next| - 1], run, i) == IdAt(states[|states| - 1], run, i)
    decreases i - k
  {
    var s := states[|states| - 1];
    next, done := DriveToCall(states, actions, p, run, k);
    var t := next[|next| - 1];
    if k < i {
      next, done := FinishRow(next, done, p, run, k);
      var u := next[|next| - 1];
      assert u.runs[run].rows == s.runs[run].rows[k := s.runs[run].rows[k].(status := Succeeded)];
      NextAfter(s.runs[run].rows, k, u.runs[run].rows);
      OnlyMovedTwice(s, t, u, p, run);
      next, done := DriveToRow(next, done, p, run, k + 1, i);
      OnlyMovedTwice(s, u, next[|next| - 1], p, run);
    }
  }

  lemma {:induction false} FreshNumber(used: set<nat>) returns (n: nat)
    ensures n !in used && forall x :: x in used ==> x < n
  {
    if used == {} {
      n := 0;
    } else {
      var x: nat :| x in used;
      var m := FreshNumber(used - {x});
      n := if m > x then m else x + 1;
      assert forall y :: y in used ==> y == x || y in used - {x};
    }
  }

  /** A validated plan that has no run yet can be brought to the call of any of its rows. */
  lemma {:induction false} DriveFromPlan(states: seq<State>, actions: seq<Action>, p: nat, plan: nat, i: nat)
    returns (next: seq<State>, done: seq<Action>, run: nat)
    requires Execution(states, actions)
    requires var s := states[|states| - 1];
             && p in s.procs && s.procs[p] == Validated(plan) && plan in s.plans && i < |s.plans[plan]|
             && forall r :: r in s.runs ==> s.runs[r].plan != plan
    ensures Execution(next, done) && states <= next && actions <= done
    ensures var s, t := states[|states| - 1], next[|next| - 1];
            && run !in s.runs && OnlyMoved(s, t, p, run) && AtCall(t, p, run, i)
            && t.runs[run].plan == plan && IdAt(t, run, i) == s.plans[plan][i].target.remoteId
  {
    var s := states[|states| - 1];
    run := FreshNumber(s.runs.Keys);
    next, done := Extend(states, actions, InsertRun(p, run));
    var t := next[|next| - 1];
    FirstPlannedFinds(t.runs[run].rows, 0);
    next, done := DriveToRow(next, done, p, run, 0, i);
    OnlyMovedTwice(s, t, next[|next| - 1], p, run);
  }

  // --- Executors under way ---

  /** An executor that is at row `i`: from picking it to calling for it. */
  predicate AtRow(s: State, p: nat, run: nat, i: nat) {
    && p in s.procs && RowExists(s, run, i)
    && var proc := s.procs[p];
    (proc.Picked? || proc.Reported? || proc.Matched? || proc.Calling?) && proc.run == run && proc.i == i
  }

  /** Its local row restored, an executor that has picked its row is told that it is eligible. */
  lemma {:induction false} PickedIsReported(s: State, p: nat, run: nat, i: nat)
    requires AtRow(s, p, run, i) && RowOk(s, s.runs[run].rows[i])
    ensures Enabled(s, Restored(s.runs[run].rows[i].target))
    ensures var s1 := Apply(s, Restored(s.runs[run].rows[i].target));
            && (s.procs[p].Picked? ==> Enabled(s1, Evaluate(p)) && Reporting(s, Apply(s1, Evaluate(p)), p, run, i))
            && (s.procs[p].Reported? && GoesOn(s, s.procs[p]) ==> Reporting(s, s1, p, run, i))
  {
  }

  lemma {:induction false} DriveToOwnReport(states: seq<State>, actions: seq<Action>, p: nat, run: nat, i: nat)
    returns (next: seq<State>, done: seq<Action>)
    requires Execution(states, actions) && AtRow(states[|states| - 1], p, run, i) && RowOk(states[|states| - 1], states[|states| - 1].runs[run].rows[i])
    requires GoesOn(states[|states| - 1], states[|states| - 1].procs[p])
    requires states[|states| - 1].procs[p].Picked? || states[|states| - 1].procs[p].Reported?
    ensures Execution(next, done) && states <= next && actions <= done
    ensures Reporting(states[|states| - 1], next[|next| - 1], p, run, i)
  {
    var s := states[|states| - 1];
    PickedIsReported(s, p, run, i);
    next, done := Extend(states, actions, Restored(s.runs[run].rows[i].target));
    if s.procs[p].Picked? { next, done := Extend(next, done, Evaluate(p)); }
  }

  /** An executor that goes on can be brought to the call of the row it is at. */
  lemma {:induction false} DriveToOwnCall(states: seq<State>, actions: seq<Action>, p: nat, run: nat, i: nat)
    returns (next: seq<State>, done: seq<Action>)
    requires Execution(states, actions) && AtRow(states[|states| - 1], p, run, i)
    requires GoesOn(states[|states| - 1], states[|states| - 1].procs[p])
    ensures Execution(next, done) && states <= next && actions <= done
    ensures var s, t := states[|states| - 1], next[|next| - 1];
            OnlyMoved(s, t, p, run) && AtCall(t, p, run, i) && t.runs[run] == SetStatus(s.runs[run], i, Started)
  {
    var s := states[|states| - 1];
    ExecutionKeepsInv(states, actions, |states| - 1);
    assert RowOk(s, s.runs[run].rows[i]) && Placed(s, s.procs[p]);
    if s.procs[p].Picked? || s.procs[p].Reported? {
      next, done := DriveToOwnReport(states, actions, p, run, i);
      next, done := CallFromReport(next, done, s, p, run, i);
    } else if s.procs[p].Matched? {
      next, done := Extend(states, actions, CommitStarted(p));
    } else {
      next, done := states, actions;
      assert SetStatus(s.runs[run], i, Started) == s.runs[run];
    }
  }

  /** A call that has returned with success leads to the next row. */
  lemma {:induction false} DriveToPicking(states: seq<State>, actions: seq<Action>, p: nat, run: nat, i: nat)
    returns (next: seq<State>, done: seq<Action>)
    requires Execution(states, actions) && RowExists(states[|states| - 1], run, i)
    requires var s := states[|states| - 1];
             && p in s.procs && GoesOn(s, s.procs[p])
             && (AtRow(s, p, run, i) || (s.procs[p].Returned? && s.procs[p].run == run && s.procs[p].i == i))
    ensures Execution(next, done) && states <= next && actions <= done
    ensures var s, t := states[|states| - 1], next[|next| - 1];
            && OnlyMoved(s, t, p, run) && p in t.procs && t.procs[p] == Picking(run)
            && run in t.runs && t.runs[run] == SetStatus(s.runs[run], i, Succeeded)
  {
    var s := states[|states| - 1];
    if s.procs[p].Returned? {
      next, done := Extend(states, actions, RecordOutcome(p));
    } else {
      next, done := DriveToOwnCall(states, actions, p, run, i);
      var t := next[|next| - 1];
      next, done := FinishRow(next, done, p, run, i);
      OnlyMovedTwice(s, t, next[|next| - 1], p, run);
    }
  }

  /** With the rows up to `i` settled and those after it planned, row `i + 1` is next. */
  lemma {:induction false} NextAtFrontier(rows: seq<Row>, i: nat)
    requires i + 1 < |rows| && Frontier(rows, i) && rows[i].status == Succeeded
    ensures FirstPlanned(rows, 0) == Some(i + 1) && PlannedFrom(rows, i + 1)
  {
    FirstPlannedFinds(rows, 0);
    assert rows[i + 1].status == Planned;
  }

  /** From row `i` to a later one. */
  lemma {:induction false} DriveAcross(states: seq<State>, actions: seq<Action>, p: nat, run: nat, i: nat, j: nat)
    returns (next: seq<State>, done: seq<Action>)
    requires Execution(states, actions) && RowExists(states[|states| - 1], run, i) && i < j && RowExists(states[|states| - 1], run, j)
    requires var s := states[|states| - 1];
             && p in s.procs && GoesOn(s, s.procs[p]) && Frontier(s.runs[run].rows, i)
             && (AtRow(s, p, run, i) || (s.procs[p].Returned? && s.procs[p].run == run && s.procs[p].i == i))
    ensures Execution(next, done) && states <= next && actions <= done
    ensures var s, t := states[|states| - 1], next[|next| - 1];
            OnlyMoved(s, t, p, run) && AtCall(t, p, run, j) && t.runs[run].plan == s.runs[run].plan && IdAt(t, run, j) == IdAt(s, run, j)
  {
    var s := states[|states| - 1];
    next, done := DriveToPicking(states, actions, p, run, i);
    var t := next[|next| - 1];
    SetStatusKeepsFrontier(s.runs[run], i, Succeeded);
    NextAtFrontier(t.runs[run].rows, i);
    next, done := DriveToRow(next, done, p, run, i + 1, j);
    OnlyMovedTwice(s, t, next[|next| - 1], p, run);
  }

  lemma {:induction false} FirstOfPicking(s: State, p: nat, run: nat, j: nat) returns (k: nat)
    requires p in s.procs && s.procs[p] == Picking(run) && Placed(s, s.procs[p])
    requires RowExists(s, run, j) && s.runs[run].rows[j].status == Planned
    ensures NextRow(s, p, run, k) && k <= j && PlannedFrom(s.runs[run].rows, k)
  {
    var rows := s.runs[run].rows;
    k :| Frontier(rows, k) && (k < |rows| ==> rows[k].status == Planned);
    FirstPlannedFinds(rows, 0);
  }

  /** The row an executor is at is no later than any that is still planned. */
  lemma {:induction false} PlannedIsAhead(s: State, p: nat, j: nat, id: string)
    requires p in s.procs && Placed(s, s.procs[p]) && !s.procs[p].Validated? && GoesOn(s, s.procs[p]) && !s.procs[p].Picking?
    requires PlannedRow(s, s.procs[p].run, j, id)
    ensures var proc := s.procs[p];
            && (AtRow(s, p, proc.run, proc.i) || proc.Returned?) && RowExists(s, proc.run, proc.i)
            && Frontier(s.runs[proc.run].rows, proc.i) && proc.i <= j && (proc.i == j ==> AtRow(s, p, proc.run, j))
  {
  }

  lemma {:induction false} ExecutorIsPlaced(states: seq<State>, actions: seq<Action>, p: nat)
    requires Execution(states, actions) && p in states[|states| - 1].procs
    ensures Placed(states[|states| - 1], states[|states| - 1].procs[p])
  {
    ExecutionKeepsInv(states, actions, |states| - 1);
  }

  /** An executor that goes on can be brought to the call of any row of its run that is still planned. */
  lemma {:induction false} DriveOn(states: seq<State>, actions: seq<Action>, p: nat, j: nat, id: string)
    returns (next: seq<State>, done: seq<Action>)
    requires Execution(states, actions) && p in states[|states| - 1].procs
    requires var s := states[|states| - 1];
             !s.procs[p].Validated? && GoesOn(s, s.procs[p]) && PlannedRow(s, s.procs[p].run, j, id)
    ensures Execution(next, done) && states <= next && actions <= done
    ensures var s, t := states[|states| - 1], next[|next| - 1];
            var run := s.procs[p].run;
            OnlyMoved(s, t, p, run) && AtCall(t, p, run, j) && t.runs[run].plan == s.runs[run].plan && IdAt(t, run, j) == id
  {
    var s := states[|states| - 1];
    var run := s.procs[p].run;
    ExecutorIsPlaced(states, actions, p);
    if s.procs[p].Picking? {
      var k := FirstOfPicking(s, p, run, j);
      next, done := DriveToRow(states, actions, p, run, k, j);
    } else {
      PlannedIsAhead(s, p, j, id);
      if s.procs[p].i == j {
        next, done := DriveToOwnCall(states, actions, p, run, j);
      } else {
        next, done := DriveAcross(states, actions, p, run, s.procs[p].i, j);
      }
    }
  }
}
