/** Exclusion between plans that share a remote message.  The check that no target is unresolved is not
    atomic with the insertion of the new run, and does not see rows that are still planned, so it protects
    a target exactly as far as no two processes hold it at once. */
module EngineExclusion {
  import opened Base
  import opened Verdicts
  import opened Targets
  import opened Engine
  import opened EngineSafety
  import opened EngineHistory

  /** At most one production row per remote message is unresolved. */
  ghost predicate UnresolvedOnce(s: State) {
    forall r, i, q, j :: UnresolvedAt(s, r, i) && UnresolvedAt(s, q, j) && IdAt(s, r, i) == IdAt(s, q, j) ==> r == q && i == j
  }

  ghost predicate DistinctIds(s: State) {
    && (forall q :: q in s.plans ==> forall i, j :: 0 <= i < j < |s.plans[q]| ==> s.plans[q][i].target.remoteId != s.plans[q][j].target.remoteId)
    && (forall r :: r in s.runs ==> forall i, j :: 0 <= i < j < |s.runs[r].rows| ==> IdAt(s, r, i) != IdAt(s, r, j))
  }

  ghost predicate Unexecuted(s: State, plan: nat) {
    forall r :: r in s.runs ==> s.runs[r].plan != plan
  }

  ghost predicate PlanNames(s: State, plan: nat, id: string) {
    plan in s.plans && exists k :: 0 <= k < |s.plans[plan]| && s.plans[plan][k].target.remoteId == id
  }

  /** A row that is still to be called. */
  ghost predicate PlannedRow(s: State, run: nat, i: nat, id: string) {
    RowExists(s, run, i) && s.runs[run].rows[i].status == Planned && IdAt(s, run, i) == id
  }

  /** An executor that has not come to the point where it can only halt: what it was told of its row is of
      that row, and its call, if it has returned, succeeded. */
  predicate GoesOn(s: State, proc: Process) {
    match proc
    case Reported(run, i, _, report) => RowExists(s, run, i) && ReportsOn(report, s.runs[run].rows[i].target)
    case Returned(_, _, result, raised) => Normalize(result, raised).Recorded? && Normalize(result, raised).status == Succeeded
    case _ => proc.Picking? || proc.Picked? || proc.Matched? || proc.Calling?
  }

  /** The process may still start a call about this message: it has validated a plan that names it and has
      not been executed, or it goes on executing a run in which a row for it is still planned. */
  ghost predicate Holds(s: State, proc: Process, id: string) {
    if proc.Validated? then Unexecuted(s, proc.plan) && PlanNames(s, proc.plan, id)
    else GoesOn(s, proc) && exists i: nat :: PlannedRow(s, proc.run, i, id)
  }

  /** Two processes that validated the same plan are no rivals: only one of them can execute it. */
  predicate Rivals(x: Process, y: Process) {
    !(x.Validated? && y.Validated? && x.plan == y.plan)
  }

  /** No two processes hold the same message. */
  ghost predicate Apart(s: State) {
    forall p, q, id :: p in s.procs && q in s.procs && p != q && Rivals(s.procs[p], s.procs[q]) && Holds(s, s.procs[p], id) ==>
      !Holds(s, s.procs[q], id)
  }

  /** What a process holds is unresolved nowhere. */
  ghost predicate ClearFor(s: State, proc: Process) {
    forall q: nat, j: nat :: UnresolvedAt(s, q, j) ==> !Holds(s, proc, IdAt(s, q, j))
  }

  ghost predicate Exclusive(s: State) {
    UnresolvedOnce(s) && Apart(s) && DistinctIds(s) && ValidatedStored(s) && forall p :: p in s.procs ==> ClearFor(s, s.procs[p])
  }

  /** Executors may overlap, but when a plan is validated no other process holds one of its messages. */
  ghost predicate StartsApart(s: State, a: Action) {
    a.Validate? ==>
      forall q, id :: q in s.procs && PlanNames(s, a.plan, id) && s.procs[q] != Validated(a.plan) ==> !Holds(s, s.procs[q], id)
  }

  // --- What one step does to rows, plans and what is held ---

  /** The only transaction that makes a row unresolved is the `started` commit. */
  lemma {:induction false} OnlyCommitUnresolves(s: State, a: Action, t: State, r: nat, i: nat)
    requires RunsOk(s) && Step(s, a, t) && UnresolvedAt(t, r, i) && !UnresolvedAt(s, r, i)
    ensures a.CommitStarted? && a.p in s.procs && s.procs[a.p].Matched? && s.procs[a.p].run == r && s.procs[a.p].i == i
  {
    if r !in s.runs {
      InsertedRowsAreThePlans(s, a, t, r);
    } else {
      RunsKeepTheirTargets(s, a, t, r);
      if !RewritesRun(a) {
        OthersKeepRuns(s, a, t, r);
      } else if s.procs[Actor(a).value].run != r {
        OtherRunsUntouched(s, a, t, r);
      } else {
        assert Placed(s, s.procs[Actor(a).value]);
        RewriteUnresolvesOnCommit(s, a, t, Actor(a).value, i);
      }
    }
  }

  lemma {:induction false} RewriteUnresolvesOnCommit(s: State, a: Action, t: State, p: nat, i: nat)
    requires Step(s, a, t) && RewritesRun(a) && Actor(a) == Some(p) && Placed(s, s.procs[p])
    requires UnresolvedAt(t, s.procs[p].run, i) && RowExists(s, s.procs[p].run, i) && !UnresolvedAt(s, s.procs[p].run, i)
    ensures a.CommitStarted? && s.procs[p].i == i
  {
    if a.WriteObservation? { ObservationsSettle(s, p, s.procs[p]); }
  }

  lemma {:induction false} IdsAreFixed(s: State, a: Action, t: State, r: nat, i: nat)
    requires Step(s, a, t) && RowExists(s, r, i)
    ensures RowExists(t, r, i) && IdAt(t, r, i) == IdAt(s, r, i)
  {
    RowsKeepTheirTarget(s, a, t, r, i);
  }

  lemma {:induction false} InsertedRowsAreThePlans(s: State, a: Action, t: State, r: nat)
    requires Step(s, a, t) && r in t.runs && r !in s.runs
    ensures a.InsertRun? && a.run == r && a.p in s.procs && s.procs[a.p].Validated? && s.procs[a.p].plan in s.plans
    ensures t.runs[r] == Run(s.procs[a.p].plan, PlannedRows(s.plans[s.procs[a.p].plan]), RunPlanned)
  {
    RunsKeepTheirPlan(s, a, t, r);
  }

  lemma {:induction false} PlansOnlyGrow(s: State, a: Action, t: State)
    requires Step(s, a, t)
    ensures forall q :: q in s.plans ==> q in t.plans && t.plans[q] == s.plans[q]
    ensures forall q :: q in t.plans && q !in s.plans ==>
              forall i, j :: 0 <= i < j < |t.plans[q]| ==> t.plans[q][i].target.remoteId != t.plans[q][j].target.remoteId
  {
    if Actor(a).Some? { ActorsPatch(s, a, t); }
  }

  /** Rows are planned only by inserting their run. */
  lemma {:induction false} PlannedRowsWerePlanned(s: State, a: Action, t: State, run: nat, i: nat, id: string)
    requires RunsOk(s) && Step(s, a, t) && run in s.runs && PlannedRow(t, run, i, id)
    ensures PlannedRow(s, run, i, id)
  {
    RunsKeepTheirTargets(s, a, t, run);
    IdsAreFixed(s, a, t, run, i);
    if s.runs[run].rows[i].status != Planned { NoRowIsReplanned(s, a, t, run, i); }
  }

  /** A process that can only halt never goes on again. */
  lemma {:induction false} WentOn(s: State, a: Action, t: State, p: nat)
    requires RunsOk(s) && Step(s, a, t) && p in s.procs && p in t.procs && GoesOn(t, t.procs[p]) && !s.procs[p].Validated?
    requires Executes(s.procs[p], s.procs[p].run)
    ensures GoesOn(s, s.procs[p]) && t.procs[p].run == s.procs[p].run
  {
    if Actor(a) != Some(p) {
      OnlyTheActorMoves(s, a, t, p);
      assert Placed(s, s.procs[p]);
      if s.procs[p].Reported? { RowsKeepTheirTarget(s, a, t, s.procs[p].run, s.procs[p].i); }
    }
  }

  /** A validated plan is stored. */
  ghost predicate ValidatedStored(s: State) {
    forall p :: p in s.procs && s.procs[p].Validated? ==> s.procs[p].plan in s.plans
  }

  lemma {:induction false} ValidatedWas(s: State, a: Action, t: State, p: nat)
    requires Step(s, a, t) && p in t.procs && t.procs[p].Validated?
    ensures if a.Validate? && a.p == p then t.procs[p] == Validated(a.plan) && a.plan in s.plans && t.runs == s.runs
            else p in s.procs && s.procs[p] == t.procs[p]
  {
    if Actor(a) != Some(p) { OnlyTheActorMoves(s, a, t, p); }
  }

  /** A process holds only what it held before, except that validating a plan takes hold of its messages. */
  lemma {:induction false} HoldsWereHeld(s: State, a: Action, t: State, p: nat, id: string)
    requires RunsOk(s) && ValidatedStored(s) && Step(s, a, t) && p in t.procs && Holds(t, t.procs[p], id)
    ensures || (p in s.procs && Holds(s, s.procs[p], id))
            || (a.Validate? && a.p == p && PlanNames(s, a.plan, id))
  {
    if t.procs[p].Validated? {
      ValidatedHeld(s, a, t, p, id);
    } else {
      ExecutorHeld(s, a, t, p, id);
    }
  }

  lemma {:induction false} ValidatedHeld(s: State, a: Action, t: State, p: nat, id: string)
    requires ValidatedStored(s) && Step(s, a, t) && p in t.procs && t.procs[p].Validated? && Holds(t, t.procs[p], id)
    ensures || (p in s.procs && Holds(s, s.procs[p], id))
            || (a.Validate? && a.p == p && PlanNames(s, a.plan, id))
  {
    var plan := t.procs[p].plan;
    PlansOnlyGrow(s, a, t);
    ValidatedWas(s, a, t, p);
    assert plan in s.plans && PlanNames(s, plan, id);
    forall r | r in s.runs ensures s.runs[r].plan != plan { RunsKeepTheirPlan(s, a, t, r); }
  }

  lemma {:induction false} ExecutorHeld(s: State, a: Action, t: State, p: nat, id: string)
    requires RunsOk(s) && Step(s, a, t) && p in t.procs && !t.procs[p].Validated? && Holds(t, t.procs[p], id)
    ensures p in s.procs && Holds(s, s.procs[p], id)
  {
    var run := t.procs[p].run;
    var i: nat :| PlannedRow(t, run, i, id);
    ExecutorsAreBornAtInsert(s, a, t, p, run);
    if a == InsertRun(p, run) {
      InsertedHeld(s, p, run, t, i, id);
    } else {
      PlannedRowsHeld(s, a, t, p, run, i, id);
    }
  }

  lemma {:induction false} PlannedRowsHeld(s: State, a: Action, t: State, p: nat, run: nat, i: nat, id: string)
    requires RunsOk(s) && Step(s, a, t) && p in s.procs && Executes(s.procs[p], run) && PlannedRow(t, run, i, id)
    requires p in t.procs && GoesOn(t, t.procs[p])
    ensures Holds(s, s.procs[p], id)
  {
    assert Placed(s, s.procs[p]);
    PlannedRowsWerePlanned(s, a, t, run, i, id);
    WentOn(s, a, t, p);
  }

  lemma {:induction false} InsertedHeld(s: State, p: nat, run: nat, t: State, i: nat, id: string)
    requires Step(s, InsertRun(p, run), t) && PlannedRow(t, run, i, id)
    ensures p in s.procs && Holds(s, s.procs[p], id)
  {
    InsertedRowsAreThePlans(s, InsertRun(p, run), t, run);
    assert s.plans[s.procs[p].plan][i].target.remoteId == id;
  }

  // --- Exclusion is kept ---

  lemma {:induction false} StepKeepsDistinctIds(s: State, a: Action, t: State)
    requires DistinctIds(s) && Step(s, a, t)
    ensures DistinctIds(t)
  {
    forall r, i, j | r in t.runs && 0 <= i < j < |t.runs[r].rows| ensures IdAt(t, r, i) != IdAt(t, r, j) {
      if r in s.runs {
        RunsKeepTheirTargets(s, a, t, r);
        assert IdAt(s, r, i) != IdAt(s, r, j);
      } else {
        InsertedRowsAreThePlans(s, a, t, r);
      }
    }
    PlansOnlyGrow(s, a, t);
  }

  lemma {:induction false} StepKeepsValidatedStored(s: State, a: Action, t: State)
    requires ValidatedStored(s) && Step(s, a, t)
    ensures ValidatedStored(t)
  {
    PlansOnlyGrow(s, a, t);
    forall p | p in t.procs && t.procs[p].Validated? ensures t.procs[p].plan in t.plans { ValidatedWas(s, a, t, p); }
  }

  /** The row a `started` commit makes unresolved is held by the process that commits it. */
  lemma {:induction false} CommitterHolds(s: State, a: Action)
    requires RunsOk(s) && Enabled(s, a) && a.CommitStarted?
    ensures Holds(s, s.procs[a.p], IdAt(s, s.procs[a.p].run, s.procs[a.p].i))
  {
    var proc := s.procs[a.p];
    assert Placed(s, proc);
    assert PlannedRow(s, proc.run, proc.i, IdAt(s, proc.run, proc.i));
  }

  lemma {:induction false} StepKeepsUnresolvedOnce(s: State, a: Action, t: State)
    requires RunsOk(s) && Exclusive(s) && Step(s, a, t)
    ensures UnresolvedOnce(t)
  {
    forall r, i, q, j | UnresolvedAt(t, r, i) && UnresolvedAt(t, q, j) && IdAt(t, r, i) == IdAt(t, q, j) ensures r == q && i == j {
      if !UnresolvedAt(s, r, i) {
        NewlyUnresolvedIsAlone(s, a, t, r, i, q, j);
      } else if !UnresolvedAt(s, q, j) {
        NewlyUnresolvedIsAlone(s, a, t, q, j, r, i);
      } else {
        IdsAreFixed(s, a, t, r, i);
        IdsAreFixed(s, a, t, q, j);
      }
    }
  }

  /** A row that has just become unresolved shares its message with no other unresolved row. */
  lemma {:induction false} NewlyUnresolvedIsAlone(s: State, a: Action, t: State, r: nat, i: nat, q: nat, j: nat)
    requires RunsOk(s) && Exclusive(s) && Step(s, a, t)
    requires UnresolvedAt(t, r, i) && !UnresolvedAt(s, r, i) && UnresolvedAt(t, q, j) && IdAt(t, q, j) == IdAt(t, r, i)
    ensures r == q && i == j
  {
    OnlyCommitUnresolves(s, a, t, r, i);
    if !UnresolvedAt(s, q, j) {
      OnlyCommitUnresolves(s, a, t, q, j);
    } else {
      IdsAreFixed(s, a, t, q, j);
      RunsKeepTheirTargets(s, a, t, r);
      assert IdAt(s, q, j) == IdAt(s, r, i) && ClearFor(s, s.procs[a.p]);
      CommitterHolds(s, a);
      assert false;
    }
  }

  lemma {:induction false} StepKeepsClear(s: State, a: Action, t: State, p: nat)
    requires RunsOk(s) && Exclusive(s) && Step(s, a, t) && p in t.procs
    ensures ClearFor(t, t.procs[p])
  {
    forall q: nat, j: nat | UnresolvedAt(t, q, j) ensures !Holds(t, t.procs[p], IdAt(t, q, j)) {
      if Holds(t, t.procs[p], IdAt(t, q, j)) {
        HoldsWereHeld(s, a, t, p, IdAt(t, q, j));
        if p in s.procs && Holds(s, s.procs[p], IdAt(t, q, j)) {
          HeldStaysClear(s, a, t, p, q, j);
        } else {
          ValidatedIsClear(s, a, t, q, j);
        }
        assert false;
      }
    }
  }

  /** A plan is validated only when none of its messages is unresolved anywhere. */
  lemma {:induction false} ValidatedIsClear(s: State, a: Action, t: State, q: nat, j: nat)
    requires RunsOk(s) && Step(s, a, t) && a.Validate? && UnresolvedAt(t, q, j)
    ensures !PlanNames(s, a.plan, IdAt(t, q, j))
  {
    ActorsPatch(s, a, t);
    assert t.runs == s.runs;
    assert UnresolvedAt(s, q, j) && IdAt(s, q, j) == IdAt(t, q, j);
    forall k | 0 <= k < |s.plans[a.plan]| ensures s.plans[a.plan][k].target.remoteId != IdAt(t, q, j) {
      assert !Blocked(s, s.plans[a.plan][k].target.remoteId);
    }
  }

  lemma {:induction false} HeldStaysClear(s: State, a: Action, t: State, p: nat, q: nat, j: nat)
    requires RunsOk(s) && Exclusive(s) && Step(s, a, t) && p in t.procs && p in s.procs
    requires UnresolvedAt(t, q, j) && Holds(s, s.procs[p], IdAt(t, q, j))
    ensures !Holds(t, t.procs[p], IdAt(t, q, j))
  {
    if UnresolvedAt(s, q, j) {
      assert ClearFor(s, s.procs[p]);
      IdsAreFixed(s, a, t, q, j);
      assert false;
    } else {
      OnlyCommitUnresolves(s, a, t, q, j);
      CommitterHolds(s, a);
      RunsKeepTheirTargets(s, a, t, q);
      assert Rivals(s.procs[p], s.procs[a.p]);
      assert a.p == p;
      StepKeepsDistinctIds(s, a, t);
      CommittedIsNotHeld(t, t.procs[p], q, j);
    }
  }

  /** The executor of a run holds none of the messages whose row in it is no longer planned. */
  lemma {:induction false} CommittedIsNotHeld(t: State, proc: Process, q: nat, j: nat)
    requires DistinctIds(t) && UnresolvedAt(t, q, j) && !proc.Validated? && proc.run == q
    ensures !Holds(t, proc, IdAt(t, q, j))
  {
    forall i: nat ensures !PlannedRow(t, q, i, IdAt(t, q, j)) {
      if RowExists(t, q, i) && i != j {
        assert IdAt(t, q, i) != IdAt(t, q, j);
      }
    }
  }

  lemma {:induction false} StepKeepsApart(s: State, a: Action, t: State)
    requires RunsOk(s) && Exclusive(s) && Step(s, a, t) && StartsApart(s, a)
    ensures Apart(t)
  {
    forall p, q, id | p in t.procs && q in t.procs && p != q && Rivals(t.procs[p], t.procs[q]) && Holds(t, t.procs[p], id)
      ensures !Holds(t, t.procs[q], id)
    {
      if Holds(t, t.procs[q], id) {
        HoldsWereHeld(s, a, t, p, id);
        HoldsWereHeld(s, a, t, q, id);
        if a.Validate? && (a.p == p || a.p == q) {
          ValidatedApart(s, a, t, p, q, id);
        } else {
          StillApart(s, a, t, p, q, id);
        }
        assert false;
      }
    }
  }

  lemma {:induction false} ValidatedApart(s: State, a: Action, t: State, p: nat, q: nat, id: string)
    requires Step(s, a, t) && StartsApart(s, a) && p in t.procs && q in t.procs && p != q && Rivals(t.procs[p], t.procs[q])
    requires a.Validate? && (a.p == p || a.p == q)
    requires p in s.procs ==> Holds(s, s.procs[p], id)
    requires q in s.procs ==> Holds(s, s.procs[q], id)
    ensures !(Holds(t, t.procs[p], id) && Holds(t, t.procs[q], id))
  {
    var other := if a.p == p then q else p;
    OnlyTheActorMoves(s, a, t, other);
    ActorsPatch(s, a, t);
    assert other in s.procs && s.procs[other] != Validated(a.plan);
    assert !PlanNames(s, a.plan, id);
  }

  lemma {:induction false} StillApart(s: State, a: Action, t: State, p: nat, q: nat, id: string)
    requires Apart(s) && Step(s, a, t) && p in t.procs && q in t.procs && p != q && Rivals(t.procs[p], t.procs[q])
    requires p in s.procs && q in s.procs && Holds(s, s.procs[p], id) && Holds(s, s.procs[q], id)
    ensures !(Holds(t, t.procs[p], id) && Holds(t, t.procs[q], id))
  {
    assert !Rivals(s.procs[p], s.procs[q]);
    if Actor(a) != Some(p) { OnlyTheActorMoves(s, a, t, p); }
    if Actor(a) != Some(q) { OnlyTheActorMoves(s, a, t, q); }
    assert Actor(a) == Some(p) || Actor(a) == Some(q);
    if Actor(a) == Some(p) { SamePlanLoses(s, a, t, p, q, id); } else { SamePlanLoses(s, a, t, q, p, id); }
  }

  /** Of two processes that validated the same plan, the one that does not insert its run holds nothing
      any more. */
  lemma {:induction false} SamePlanLoses(s: State, a: Action, t: State, p: nat, q: nat, id: string)
    requires Step(s, a, t) && p in s.procs && q in s.procs && p != q && Actor(a) == Some(p) && p in t.procs
    requires s.procs[p].Validated? && s.procs[q] == s.procs[p] && q in t.procs && t.procs[q] == s.procs[q] && t.procs[p] != s.procs[p]
    ensures !Holds(t, t.procs[q], id)
  {
    ActorsPatch(s, a, t);
    assert a.InsertRun?;
    assert a.run in t.runs && t.runs[a.run].plan == s.procs[q].plan;
  }

  lemma {:induction false} StepKeepsExclusive(s: State, a: Action, t: State)
    requires RunsOk(s) && Exclusive(s) && Step(s, a, t) && StartsApart(s, a)
    ensures Exclusive(t)
  {
    StepKeepsUnresolvedOnce(s, a, t);
    StepKeepsApart(s, a, t);
    StepKeepsDistinctIds(s, a, t);
    StepKeepsValidatedStored(s, a, t);
    forall p | p in t.procs ensures ClearFor(t, t.procs[p]) {
      StepKeepsClear(s, a, t, p);
    }
  }

  ghost predicate ApartExecution(states: seq<State>, actions: seq<Action>) {
    Execution(states, actions) && forall k {:trigger actions[k]} :: 0 <= k < |actions| ==> StartsApart(states[k], actions[k])
  }

  /** However executors overlap, and whatever crashes and reconciliations happen: as long as no plan is
      validated while another process holds one of its messages, no remote message ever has two unresolved
      production rows, in one run or in two. */
  lemma {:induction false} ApartExecutorsExclude(states: seq<State>, actions: seq<Action>, n: nat)
    requires ApartExecution(states, actions) && n < |states|
    ensures Exclusive(states[n])
  {
    if n > 0 {
      ApartExecutorsExclude(states, actions, n - 1);
      ExecutionKeepsInv(states, actions, n - 1);
      assert Step(states[n - 1], actions[n - 1], states[n]) && StartsApart(states[n - 1], actions[n - 1]);
      StepKeepsExclusive(states[n - 1], actions[n - 1], states[n]);
    }
  }
}
