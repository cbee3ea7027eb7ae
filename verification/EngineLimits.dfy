/** The limits of a plan against the provider calls of its production run: the executor's gate is passed
    once, before the run is cloned from the plan, and bounds everything that happens afterwards. */
module EngineLimits {
  import opened Engine
  import opened EngineSafety
  import opened EngineHistory
  import opened EngineTheorems
  import EngineExclusion
  import Planning

  /** A production run has exactly the rows of its plan, with the targets and fingerprints they had. */
  ghost predicate ClonesItsPlan(s: State, r: nat)
    requires r in s.runs
  {
    && s.runs[r].plan in s.plans
    && SameTargets(Run(s.runs[r].plan, PlannedRows(s.plans[s.runs[r].plan]), RunPlanned), s.runs[r])
  }

  lemma {:induction false} StepKeepsClones(s: State, a: Action, t: State, r: nat)
    requires Step(s, a, t) && r in t.runs && (r in s.runs ==> ClonesItsPlan(s, r))
    ensures ClonesItsPlan(t, r)
  {
    RunsKeepTheirPlan(s, a, t, r);
    EngineExclusion.PlansOnlyGrow(s, a, t);
    if r in s.runs {
      RunsKeepTheirTargets(s, a, t, r);
    } else {
      EngineExclusion.InsertedRowsAreThePlans(s, a, t, r);
    }
  }

  lemma {:induction false} RunsCloneTheirPlans(states: seq<State>, actions: seq<Action>, n: nat, r: nat)
    requires Execution(states, actions) && n < |states| && r in states[n].runs
    ensures ClonesItsPlan(states[n], r)
  {
    if n > 0 {
      var s, t := states[n - 1], states[n];
      assert Step(s, actions[n - 1], t);
      if r in s.runs { RunsCloneTheirPlans(states, actions, n - 1, r); }
      StepKeepsClones(s, actions[n - 1], t, r);
    }
  }

  /** The plan has passed the limit gate of some earlier step, under the limits configured then. */
  ghost predicate Gated(states: seq<State>, actions: seq<Action>, n: nat, plan: nat, k: nat) {
    && k < n <= |actions| && k < |states| && actions[k].Validate? && actions[k].plan == plan
    && plan in states[k].plans && plan in states[k].limits && states[k].limits[plan].selectedCount == |states[k].plans[plan]|
    && Planning.PassesLimits(states[k].limits[plan], actions[k].maxPerRun, actions[k].maxPerAccount)
  }

  lemma {:induction false} ValidatedWasGated(states: seq<State>, actions: seq<Action>, n: nat, p: nat) returns (k: nat)
    requires Execution(states, actions) && n < |states| && p in states[n].procs && states[n].procs[p].Validated?
    ensures Gated(states, actions, n, states[n].procs[p].plan, k)
  {
    var s, a, t := states[n - 1], actions[n - 1], states[n];
    assert Step(s, a, t);
    EngineExclusion.ValidatedWas(s, a, t, p);
    if a.Validate? && a.p == p { k := n - 1; } else { k := ValidatedWasGated(states, actions, n - 1, p); }
  }

  /** Every production run goes back to a validation of its plan. */
  lemma {:induction false} RunWasGated(states: seq<State>, actions: seq<Action>, n: nat, r: nat) returns (k: nat)
    requires Execution(states, actions) && n < |states| && r in states[n].runs
    ensures Gated(states, actions, n, states[n].runs[r].plan, k)
  {
    var s, a, t := states[n - 1], actions[n - 1], states[n];
    assert Step(s, a, t);
    RunsKeepTheirPlan(s, a, t, r);
    if r in s.runs {
      k := RunWasGated(states, actions, n - 1, r);
    } else {
      EngineExclusion.InsertedRowsAreThePlans(s, a, t, r);
      k := ValidatedWasGated(states, actions, n - 1, a.p);
    }
  }

  lemma {:induction false} PlansNeverChange(states: seq<State>, actions: seq<Action>, n: nat, m: nat, plan: nat)
    requires Execution(states, actions) && n <= m < |states| && plan in states[n].plans
    ensures plan in states[m].plans && states[m].plans[plan] == states[n].plans[plan]
    decreases m
  {
    if n < m {
      PlansNeverChange(states, actions, n, m - 1, plan);
      assert Step(states[m - 1], actions[m - 1], states[m]);
      EngineExclusion.PlansOnlyGrow(states[m - 1], actions[m - 1], states[m]);
    }
  }

  /** In every execution every production run makes no more provider calls than the smallest of four caps:
      the two its plan was stored with, and the two configured when the plan was validated. */
  lemma {:induction false} CallsStayWithinEveryCap(states: seq<State>, actions: seq<Action>, n: nat, r: nat) returns (k: nat)
    requires Execution(states, actions) && n < |states| && r in states[n].runs
    ensures Gated(states, actions, n, states[n].runs[r].plan, k)
    ensures var stored := states[k].limits[states[n].runs[r].plan];
            |CallsOf(states[n].history, r)| <=
            Planning.Min(Planning.Min(stored.effectiveMaxPerRun, stored.effectiveMaxPerAccount), Planning.Min(actions[k].maxPerRun, actions[k].maxPerAccount))
  {
    k := RunWasGated(states, actions, n, r);
    RunsCloneTheirPlans(states, actions, n, r);
    PlansNeverChange(states, actions, k, n, states[n].runs[r].plan);
    CallsAreBounded(states, actions, n, r);
  }
}
