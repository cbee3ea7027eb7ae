/** What a crash leaves behind, and when reconciliation can help. */
module EngineCrash {
  import opened Base
  import opened Verdicts
  import opened Targets
  import opened Engine
  import opened EngineSafety
  import opened EngineHistory
  import opened EngineDrive
  import Planning

  /** A row left `started` whose executor has crashed. */
  ghost predicate Orphaned(s: State, r: nat, i: nat) {
    && RowExists(s, r, i) && s.runs[r].rows[i].status == Started && s.runs[r].status == RunPlanned
    && (forall p :: p in s.procs ==> !Executes(s.procs[p], r))
  }

  lemma {:induction false} OrphanGainsNoExecutor(s: State, a: Action, t: State, r: nat)
    requires RunsOk(s) && Step(s, a, t) && r in s.runs && forall p :: p in s.procs ==> !Executes(s.procs[p], r)
    ensures forall p :: p in t.procs ==> !Executes(t.procs[p], r)
  {
    forall p | p in t.procs ensures !Executes(t.procs[p], r) {
      if Executes(t.procs[p], r) { ExecutorsAreBornAtInsert(s, a, t, p, r); }
    }
  }

  lemma {:induction false} OrphanIsNotRewritten(s: State, a: Action, t: State, r: nat, i: nat)
    requires RunsOk(s) && Step(s, a, t) && Orphaned(s, r, i)
    ensures r in t.runs && t.runs[r] == s.runs[r]
  {
    if !RewritesRun(a) {
      OthersKeepRuns(s, a, t, r);
    } else {
      var p := Actor(a).value;
      assert Placed(s, s.procs[p]);
      OtherRunsUntouched(s, a, t, r);
    }
  }

  /** Nothing in the system ever moves an orphaned row again. */
  lemma {:induction false} OrphanStays(s: State, a: Action, t: State, r: nat, i: nat)
    requires Inv(s) && Step(s, a, t) && Orphaned(s, r, i)
    ensures Orphaned(t, r, i)
  {
    OrphanIsNotRewritten(s, a, t, r, i);
    OrphanGainsNoExecutor(s, a, t, r);
  }

  lemma {:induction false} OrphanStaysForEver(states: seq<State>, actions: seq<Action>, n: nat, m: nat, r: nat, i: nat)
    requires Execution(states, actions) && n <= m < |states| && Orphaned(states[n], r, i)
    ensures Orphaned(states[m], r, i) && states[m].runs[r].rows[i].target == states[n].runs[r].rows[i].target
    decreases m
  {
    if n < m {
      OrphanStaysForEver(states, actions, n, m - 1, r, i);
      ExecutionKeepsInv(states, actions, m - 1);
      assert Step(states[m - 1], actions[m - 1], states[m]);
      OrphanStays(states[m - 1], actions[m - 1], states[m], r, i);
      RowsKeepTheirTarget(states[m - 1], actions[m - 1], states[m], r, i);
    }
  }

  /** A crash between the `started` commit and the recording of the outcome cannot be reconciled: the
      run is never halted, so reconciliation refuses it for ever, and no plan that contains the same
      remote message is executed again. */
  lemma {:induction false} CrashedTargetStaysBlocked(states: seq<State>, actions: seq<Action>, n: nat, m: nat, r: nat, i: nat)
    requires Execution(states, actions) && n <= m < |actions| && Orphaned(states[n], r, i)
    ensures !(actions[m].StartReconcile? && actions[m].run == r)
    ensures actions[m].Validate? ==>
              actions[m].plan in states[m].plans && forall j :: 0 <= j < |states[m].plans[actions[m].plan]| ==>
                states[m].plans[actions[m].plan][j].target.remoteId != states[n].runs[r].rows[i].target.remoteId
  {
    OrphanStaysForEver(states, actions, n, m, r, i);
    assert Step(states[m], actions[m], states[m + 1]);
    assert UnresolvedAt(states[m], r, i) && IdAt(states[m], r, i) == states[n].runs[r].rows[i].target.remoteId;
  }

  /** A crash of an executor whose call is in flight orphans its row: such states are reached from every
      state in which a call is about to be made. */
  lemma {:induction false} CrashOrphans(states: seq<State>, actions: seq<Action>, p: nat, run: nat, i: nat)
    returns (next: seq<State>, done: seq<Action>)
    requires Execution(states, actions) && AtCall(states[|states| - 1], p, run, i)
    ensures Execution(next, done) && states <= next && Orphaned(next[|next| - 1], run, i)
    ensures IdAt(next[|next| - 1], run, i) == IdAt(states[|states| - 1], run, i)
  {
    var s := states[|states| - 1];
    ExecutionKeepsInv(states, actions, |states| - 1);
    assert Placed(s, s.procs[p]) && OneExecutor(s);
    next, done := Extend(states, actions, Crash(p));
    var t := next[|next| - 1];
    assert Executes(s.procs[p], run);
    forall q | q in t.procs ensures !Executes(t.procs[q], run) {
      assert q != p && t.procs[q] == s.procs[q];
    }
  }

  /** One plan for one present message, stored and validated. */
  lemma {:induction false} OnePlanned(target: Target) returns (states: seq<State>, actions: seq<Action>)
    ensures Execution(states, actions)
    ensures var s := states[|states| - 1];
            s.runs == map[] && s.procs == map[0 := Validated(0)] && s.plans == map[0 := [PlanRow(target, target)]]
  {
    var row, limits := PlanRow(target, target), Planning.Plan(1, 1, 1);
    var s0 := State({IdentityOf(target)}, {IdentityOf(target)}, map[target.remoteId := LocalRow(target, true, true)], map[], map[], map[], map[], []);
    states, actions := [s0], [];
    assert TakenFromLocal(s0, row);
    states, actions := Extend(states, actions, PlanStored(0, [row], limits));
    assert states[|states| - 1] == s0.(plans := map[0 := [row]], limits := map[0 := limits]);
    states, actions := Extend(states, actions, Validate(0, 0, 1, 1));
  }

  /** For any message there is an execution that ends with its row orphaned. */
  lemma {:induction false} OrphansAreReached(target: Target) returns (states: seq<State>, actions: seq<Action>, run: nat)
    ensures Execution(states, actions) && Orphaned(states[|states| - 1], run, 0)
    ensures IdAt(states[|states| - 1], run, 0) == target.remoteId
  {
    states, actions := OnePlanned(target);
    states, actions, run := DriveFromPlan(states, actions, 0, 0, 0);
    states, actions := CrashOrphans(states, actions, 0, run, 0);
  }

  // --- What reconciliation can reach ---

  /** An unknown outcome always comes with a halted run. */
  ghost predicate UnknownIsHalted(s: State) {
    forall r: nat, i: nat :: RowExists(s, r, i) && s.runs[r].rows[i].status == Unknown ==> s.runs[r].status == RunHalted
  }

  lemma {:induction false} StepKeepsUnknownHalted(s: State, a: Action, t: State, r: nat, i: nat)
    requires RunsOk(s) && Step(s, a, t) && RowExists(t, r, i) && t.runs[r].rows[i].status == Unknown
    requires RowExists(s, r, i) && s.runs[r].rows[i].status == Unknown ==> s.runs[r].status == RunHalted
    ensures t.runs[r].status == RunHalted
  {
    if r !in s.runs {
      RunsKeepTheirPlan(s, a, t, r);
    } else {
      RunsKeepTheirTargets(s, a, t, r);
      if !RewritesRun(a) {
        OthersKeepRuns(s, a, t, r);
      } else if s.procs[Actor(a).value].run != r {
        OtherRunsUntouched(s, a, t, r);
      } else {
        assert Placed(s, s.procs[Actor(a).value]);
        RewriteKeepsUnknownHalted(s, a, t, Actor(a).value, i);
      }
    }
  }

  lemma {:induction false} RewriteKeepsUnknownHalted(s: State, a: Action, t: State, p: nat, i: nat)
    requires Step(s, a, t) && RewritesRun(a) && Actor(a) == Some(p) && Placed(s, s.procs[p])
    requires RowExists(s, s.procs[p].run, i) && RowExists(t, s.procs[p].run, i) && t.runs[s.procs[p].run].rows[i].status == Unknown
    requires s.runs[s.procs[p].run].rows[i].status == Unknown ==> s.runs[s.procs[p].run].status == RunHalted
    ensures t.runs[s.procs[p].run].status == RunHalted
  {
    if a.WriteObservation? { ObservationsSettle(s, p, s.procs[p]); }
  }

  lemma {:induction false} ExecutionKeepsUnknownHalted(states: seq<State>, actions: seq<Action>, n: nat)
    requires Execution(states, actions) && n < |states|
    ensures UnknownIsHalted(states[n])
  {
    if n > 0 {
      ExecutionKeepsUnknownHalted(states, actions, n - 1);
      ExecutionKeepsInv(states, actions, n - 1);
      assert Step(states[n - 1], actions[n - 1], states[n]);
      forall r: nat, i: nat | RowExists(states[n], r, i) && states[n].runs[r].rows[i].status == Unknown ensures states[n].runs[r].status == RunHalted {
        StepKeepsUnknownHalted(states[n - 1], actions[n - 1], states[n], r, i);
      }
    }
  }

  /** In every execution an unresolved row can be reconciled by a fresh process if and only if its outcome
      was recorded as unknown: never while, or after, its call was left in flight. */
  lemma {:induction false} ReconcilableIffUnknown(states: seq<State>, actions: seq<Action>, n: nat, r: nat, i: nat, p: nat)
    requires Execution(states, actions) && n < |states| && UnresolvedAt(states[n], r, i) && p !in states[n].procs
    ensures Enabled(states[n], StartReconcile(p, r)) <==> states[n].runs[r].rows[i].status == Unknown
    ensures states[n].runs[r].rows[i].status == Unknown ==>
              var t := Apply(states[n], StartReconcile(p, r));
              p in t.procs && t.procs[p].Reconciling? && t.procs[p].run == r && i in t.procs[p].todo
  {
    ExecutionKeepsUnknownHalted(states, actions, n);
    ExecutionKeepsInv(states, actions, n);
    assert Shaped(states[n].runs[r]);
    UnresolvedFromFinds(states[n].runs[r].rows, 0);
  }
}
