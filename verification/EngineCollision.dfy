/** Two executors that overlap: exactly when both can have a provider call in flight for one message. */
module EngineCollision {
  import opened Base
  import opened Engine
  import opened EngineSafety
  import opened EngineHistory
  import opened EngineDrive
  import opened EngineExclusion
  import opened EngineLimits
  import opened Targets
  import Planning

  /** A process is about to call the provider for this message, under this plan, its row started. */
  ghost predicate CallInFlight(s: State, p: nat, plan: nat, id: string) {
    && p in s.procs && s.procs[p].Calling? && AtCall(s, p, s.procs[p].run, s.procs[p].i)
    && s.runs[s.procs[p].run].plan == plan && IdAt(s, s.procs[p].run, s.procs[p].i) == id
  }

  /** The plan a process works on: the one it has validated, or that of its run. */
  function PlanOf(s: State, proc: Process): Option<nat> {
    if proc.Validated? then Some(proc.plan)
    else if proc.run in s.runs then Some(s.runs[proc.run].plan)
    else None
  }

  /** The process can still have a call in flight for this message: it has one now, or may start one. */
  ghost predicate MayCall(s: State, p: nat, id: string) {
    p in s.procs && PlanOf(s, s.procs[p]).Some? && (Holds(s, s.procs[p], id) || CallInFlight(s, p, PlanOf(s, s.procs[p]).value, id))
  }

  /** Both processes work on plans, not the same one, and may call for the same message. */
  ghost predicate MayCollide(s: State, p: nat, q: nat) {
    && p in s.procs && q in s.procs && PlanOf(s, s.procs[p]) != PlanOf(s, s.procs[q])
    && exists id :: MayCall(s, p, id) && MayCall(s, q, id)
  }

  /** The processes, on the plans they worked on in `s`, are both about to call for one and the same
      message. */
  ghost predicate Collide(s: State, t: State, p: nat, q: nat) {
    && p in s.procs && q in s.procs && PlanOf(s, s.procs[p]).Some? && PlanOf(s, s.procs[q]).Some?
    && exists id :: CallInFlight(t, p, PlanOf(s, s.procs[p]).value, id) && CallInFlight(t, q, PlanOf(s, s.procs[q]).value, id)
  }

  /** A continuation of an execution that ends in a collision. */
  ghost predicate EndsInCollision(states: seq<State>, next: seq<State>, done: seq<Action>, p: nat, q: nat) {
    states != [] && Execution(next, done) && states <= next && Collide(states[|states| - 1], next[|next| - 1], p, q)
  }

  // --- Whoever may call can be brought to the call ---

  lemma {:induction false} DriveToMessage(states: seq<State>, actions: seq<Action>, p: nat, id: string)
    returns (next: seq<State>, done: seq<Action>, run: nat)
    requires Execution(states, actions) && MayCall(states[|states| - 1], p, id)
    ensures Execution(next, done) && states <= next && actions <= done
    ensures var s, t := states[|states| - 1], next[|next| - 1];
            && OnlyMoved(s, t, p, run) && CallInFlight(t, p, PlanOf(s, s.procs[p]).value, id) && t.procs[p].run == run
            && (run in s.runs ==> Executes(s.procs[p], run))
  {
    var s := states[|states| - 1];
    if CallInFlight(s, p, PlanOf(s, s.procs[p]).value, id) {
      next, done, run := states, actions, s.procs[p].run;
    } else if s.procs[p].Validated? {
      var k :| 0 <= k < |s.plans[s.procs[p].plan]| && s.plans[s.procs[p].plan][k].target.remoteId == id;
      next, done, run := DriveFromPlan(states, actions, p, s.procs[p].plan, k);
    } else {
      run := s.procs[p].run;
      var j: nat :| PlannedRow(s, run, j, id);
      next, done := DriveOn(states, actions, p, j, id);
    }
  }

  /** What one process does leaves what the other may call as it was. */
  lemma {:induction false} OthersMayStillCall(s: State, t: State, p: nat, run: nat, q: nat, id: string)
    requires OneExecutor(s) && OnlyMoved(s, t, p, run) && p != q && p in s.procs && MayCall(s, q, id)
    requires run in s.runs ==> Executes(s.procs[p], run)
    requires run in t.runs && Some(t.runs[run].plan) != PlanOf(s, s.procs[q])
    ensures MayCall(t, q, id) && PlanOf(t, t.procs[q]) == PlanOf(s, s.procs[q])
  {
    var proc := s.procs[q];
    if !proc.Validated? {
      assert Executes(proc, proc.run);
      assert proc.run != run;
      assert t.runs[proc.run] == s.runs[proc.run];
      if Holds(s, proc, id) {
        var i: nat :| PlannedRow(s, proc.run, i, id);
        assert PlannedRow(t, proc.run, i, id);
      }
    }
  }

  /** Whenever two processes on different plans may call for one message, both can be brought to its call:
      two rows for it are started at once. */
  lemma {:induction false} SharedMessageCollides(states: seq<State>, actions: seq<Action>, p: nat, q: nat, id: string)
    returns (next: seq<State>, done: seq<Action>)
    requires Execution(states, actions) && p != q
    requires var s := states[|states| - 1]; MayCall(s, p, id) && MayCall(s, q, id) && PlanOf(s, s.procs[p]) != PlanOf(s, s.procs[q])
    ensures Execution(next, done) && states <= next
    ensures var s, u := states[|states| - 1], next[|next| - 1];
            && CallInFlight(u, p, PlanOf(s, s.procs[p]).value, id) && CallInFlight(u, q, PlanOf(s, s.procs[q]).value, id)
            && !UnresolvedOnce(u)
  {
    var s := states[|states| - 1];
    ExecutionKeepsInv(states, actions, |states| - 1);
    var run, other;
    next, done, run := DriveToMessage(states, actions, p, id);
    var t := next[|next| - 1];
    OthersMayStillCall(s, t, p, run, q, id);
    ExecutionKeepsInv(next, done, |next| - 1);
    assert MayCall(t, p, id);
    next, done, other := DriveToMessage(next, done, q, id);
    var u := next[|next| - 1];
    BothInFlight(t, u, p, run, q, other, id);
  }

  lemma {:induction false} BothInFlight(t: State, u: State, p: nat, run: nat, q: nat, other: nat, id: string)
    requires OneExecutor(t) && p != q && p in t.procs && q in t.procs && PlanOf(t, t.procs[p]).Some? && PlanOf(t, t.procs[q]).Some?
    requires CallInFlight(t, p, PlanOf(t, t.procs[p]).value, id) && t.procs[p].run == run
    requires OnlyMoved(t, u, q, other) && CallInFlight(u, q, PlanOf(t, t.procs[q]).value, id) && u.procs[q].run == other
    requires other in t.runs ==> Executes(t.procs[q], other)
    ensures CallInFlight(u, p, PlanOf(t, t.procs[p]).value, id) && !UnresolvedOnce(u)
  {
    assert run != other;
    assert u.runs[run] == t.runs[run] && u.procs[p] == t.procs[p];
    assert UnresolvedAt(u, run, u.procs[p].i) && UnresolvedAt(u, other, u.procs[q].i);
  }

  // --- And whoever is brought to a call could call before ---

  /** An executor whose run exists has executed it all along, and may have made its calls all along. */
  lemma {:induction false} ExecutorMightCall(states: seq<State>, actions: seq<Action>, n: nat, p: nat, run: nat, id: string)
    requires Execution(states, actions) && n < |states| && run in states[n].runs
    requires p in states[|states| - 1].procs && Executes(states[|states| - 1].procs[p], run) && MayCall(states[|states| - 1], p, id)
    ensures p in states[n].procs && Executes(states[n].procs[p], run) && MayCall(states[n], p, id)
    decreases |states|
  {
    if n < |states| - 1 {
      var m := |actions| - 1;
      assert Step(states[m], actions[m], states[m + 1]);
      RunStays(states, actions, n, m, run);
      ExecutionKeepsInv(states, actions, m);
      CallersMightCall(states[m], actions[m], states[m + 1], p, run, id);
      Prefix(states, actions, m);
      ExecutorMightCall(states[..m + 1], actions[..m], n, p, run, id);
    }
  }

  lemma {:induction false} Prefix(states: seq<State>, actions: seq<Action>, m: nat)
    requires Execution(states, actions) && m < |states|
    ensures Execution(states[..m + 1], actions[..m])
  {
    forall k | 0 <= k < m ensures Step(states[..m + 1][k], actions[..m][k], states[..m + 1][k + 1]) {
      assert Step(states[k], actions[k], states[k + 1]);
    }
  }

  lemma {:induction false} RunStays(states: seq<State>, actions: seq<Action>, n: nat, m: nat, run: nat)
    requires Execution(states, actions) && n <= m < |states| && run in states[n].runs
    ensures run in states[m].runs && states[m].runs[run].plan == states[n].runs[run].plan
    decreases m
  {
    if n < m {
      RunStays(states, actions, n, m - 1, run);
      assert Step(states[m - 1], actions[m - 1], states[m]);
      RunsKeepTheirTargets(states[m - 1], actions[m - 1], states[m], run);
    }
  }

  lemma {:induction false} CallersMightCall(s: State, a: Action, t: State, p: nat, run: nat, id: string)
    requires RunsOk(s) && Step(s, a, t) && run in s.runs && p in t.procs && Executes(t.procs[p], run) && MayCall(t, p, id)
    ensures p in s.procs && Executes(s.procs[p], run) && MayCall(s, p, id)
  {
    ExecutorsAreBornAtInsert(s, a, t, p, run);
    RunsKeepTheirTargets(s, a, t, run);
    if Holds(t, t.procs[p], id) {
      ExecutorHeld(s, a, t, p, id);
    } else {
      CallWasHeld(s, a, t, p, id);
    }
  }

  lemma {:induction false} CallWasHeld(s: State, a: Action, t: State, p: nat, id: string)
    requires RunsOk(s) && Step(s, a, t) && p in t.procs && t.procs[p].Calling? && p in s.procs && Executes(s.procs[p], t.procs[p].run)
    requires t.procs[p].run in s.runs && CallInFlight(t, p, t.runs[t.procs[p].run].plan, id)
    ensures Holds(s, s.procs[p], id) || CallInFlight(s, p, s.runs[t.procs[p].run].plan, id)
  {
    var run := t.procs[p].run;
    RunsKeepTheirTargets(s, a, t, run);
    IdsAreFixed(s, a, t, run, t.procs[p].i);
    if Actor(a) == Some(p) {
      OnlyCommitsLeadToCalls(s, a, t, p);
      CommitterHolds(s, a);
    } else {
      OnlyTheActorMoves(s, a, t, p);
      assert Placed(s, s.procs[p]);
    }
  }

  lemma {:induction false} OnlyCommitsLeadToCalls(s: State, a: Action, t: State, p: nat)
    requires Step(s, a, t) && Actor(a) == Some(p) && p in t.procs && t.procs[p].Calling?
    ensures a.CommitStarted? && p in s.procs && s.procs[p].Matched? && s.procs[p].run == t.procs[p].run && s.procs[p].i == t.procs[p].i
  {
  }

  /** A call under a plan is for a message the plan names. */
  lemma {:induction false} CallsAreOfThePlan(states: seq<State>, actions: seq<Action>, n: nat, p: nat, plan: nat, id: string)
    requires Execution(states, actions) && n < |states| && plan in states[n].plans
    requires CallInFlight(states[|states| - 1], p, plan, id)
    ensures PlanNames(states[n], plan, id)
  {
    var last := |states| - 1;
    var run, i := states[last].procs[p].run, states[last].procs[p].i;
    RunsCloneTheirPlans(states, actions, last, run);
    PlansNeverChange(states, actions, n, last, plan);
    assert states[n].plans[plan][i].target.remoteId == id;
  }

  /** A process that ends in a call of its plan could make it from the start. */
  lemma {:induction false} CallerMightCall(states: seq<State>, actions: seq<Action>, n: nat, p: nat, plan: nat, id: string)
    requires Execution(states, actions) && n < |states| && p in states[n].procs && PlanOf(states[n], states[n].procs[p]) == Some(plan)
    requires ValidatedStored(states[n]) && CallInFlight(states[|states| - 1], p, plan, id)
    ensures MayCall(states[n], p, id)
  {
    var s, last := states[n], |states| - 1;
    var run := states[last].procs[p].run;
    ExecutionKeepsInv(states, actions, last);
    forall r | r in s.runs && s.runs[r].plan == plan ensures r == run { RunStays(states, actions, n, last, r); }
    if run in s.runs {
      ExecutorMightCall(states, actions, n, p, run, id);
    } else {
      CallsAreOfThePlan(states, actions, n, p, plan, id);
    }
  }

  lemma {:induction false} ExecutionKeepsValidatedStored(states: seq<State>, actions: seq<Action>, n: nat)
    requires Execution(states, actions) && n < |states|
    ensures ValidatedStored(states[n])
  {
    if n > 0 {
      ExecutionKeepsValidatedStored(states, actions, n - 1);
      assert Step(states[n - 1], actions[n - 1], states[n]);
      StepKeepsValidatedStored(states[n - 1], actions[n - 1], states[n]);
    }
  }

  /** Two calls in flight are under different plans. */
  lemma {:induction false} CallsAreUnderTwoPlans(s: State, p: nat, q: nat, plan: nat, other: nat, id: string)
    requires RunsOk(s) && p != q && CallInFlight(s, p, plan, id) && CallInFlight(s, q, other, id)
    ensures plan != other
  {
    if plan == other {
      assert s.procs[p].run == s.procs[q].run;
      assert Executes(s.procs[p], s.procs[p].run) && Executes(s.procs[q], s.procs[p].run);
      assert false;
    }
  }

  lemma {:induction false} CollidersMightCall(states: seq<State>, actions: seq<Action>, n: nat, p: nat, q: nat)
    requires Execution(states, actions) && n < |states| && p != q && Collide(states[n], states[|states| - 1], p, q)
    ensures MayCollide(states[n], p, q)
  {
    var s, last := states[n], states[|states| - 1];
    var plan, other := PlanOf(s, s.procs[p]).value, PlanOf(s, s.procs[q]).value;
    var id :| CallInFlight(last, p, plan, id) && CallInFlight(last, q, other, id);
    ExecutionKeepsValidatedStored(states, actions, n);
    ExecutionKeepsInv(states, actions, |states| - 1);
    CallsAreUnderTwoPlans(last, p, q, plan, other, id);
    CallerMightCall(states, actions, n, p, plan, id);
    CallerMightCall(states, actions, n, q, other, id);
  }

  /** Wherever two processes are, with their plans validated or their runs under way: they can both come to
      have a call in flight for one message, under the plans they work on now, if and only if these are
      different plans and both processes may call for one message now. */
  lemma {:induction false} CollisionIffShared(states: seq<State>, actions: seq<Action>, p: nat, q: nat)
    requires Execution(states, actions) && p != q
    ensures (exists next: seq<State>, done: seq<Action> :: EndsInCollision(states, next, done, p, q)) <==>
            MayCollide(states[|states| - 1], p, q)
  {
    var s := states[|states| - 1];
    if MayCollide(s, p, q) {
      var id :| MayCall(s, p, id) && MayCall(s, q, id);
      var next, done := SharedMessageCollides(states, actions, p, q, id);
      assert EndsInCollision(states, next, done, p, q);
    }
    if next: seq<State>, done: seq<Action> :| EndsInCollision(states, next, done, p, q) {
      assert next[|states| - 1] == s;
      CollidersMightCall(next, done, |states| - 1, p, q);
    }
  }

  /** The premise under which executors exclude each other cannot be weakened: whenever a plan is validated
      while another process holds one of its messages, two unresolved rows for that message can follow. */
  lemma {:induction false} StartingApartIsNeeded(states: seq<State>, actions: seq<Action>, a: Action)
    returns (next: seq<State>, done: seq<Action>)
    requires Execution(states, actions) && a.Validate? && Enabled(states[|states| - 1], a) && !StartsApart(states[|states| - 1], a)
    ensures Execution(next, done) && states <= next && !UnresolvedOnce(next[|next| - 1])
  {
    var s := states[|states| - 1];
    var q, id :| q in s.procs && PlanNames(s, a.plan, id) && s.procs[q] != Validated(a.plan) && Holds(s, s.procs[q], id);
    ExecutionKeepsInv(states, actions, |states| - 1);
    assert Placed(s, s.procs[q]);
    next, done := Extend(states, actions, a);
    NowBothMayCall(s, a, next[|next| - 1], q, id);
    next, done := SharedMessageCollides(next, done, a.p, q, id);
  }

  lemma {:induction false} NowBothMayCall(s: State, a: Action, t: State, q: nat, id: string)
    requires a.Validate? && Step(s, a, t) && PlanNames(s, a.plan, id) && q in s.procs && Holds(s, s.procs[q], id)
    requires s.procs[q] != Validated(a.plan) && Placed(s, s.procs[q])
    ensures MayCall(t, a.p, id) && MayCall(t, q, id) && PlanOf(t, t.procs[a.p]) != PlanOf(t, t.procs[q])
  {
    assert t.runs == s.runs && t.plans == s.plans && t.procs == s.procs[a.p := Validated(a.plan)];
    if !s.procs[q].Validated? {
      var i: nat :| PlannedRow(s, s.procs[q].run, i, id);
      assert PlannedRow(t, s.procs[q].run, i, id);
    }
  }

  // --- Such a state is reached ---

  /** Two plans for one present message are stored, and two processes run as given. */
  function Staged(target: Target, procs: map<nat, Process>): State {
    State({IdentityOf(target)}, {IdentityOf(target)}, map[target.remoteId := LocalRow(target, true, true)],
          map[0 := [PlanRow(target, target)], 1 := [PlanRow(target, target)]],
          map[0 := Planning.Plan(1, 1, 1), 1 := Planning.Plan(1, 1, 1)], map[], procs, [])
  }

  lemma {:induction false} BothPlanned(target: Target) returns (states: seq<State>, actions: seq<Action>)
    ensures Execution(states, actions) && states[|states| - 1] == Staged(target, map[])
  {
    var row, limits := PlanRow(target, target), Planning.Plan(1, 1, 1);
    var s0 := Staged(target, map[]).(plans := map[], limits := map[]);
    states, actions := [s0], [];
    assert TakenFromLocal(s0, row);
    states, actions := Extend(states, actions, PlanStored(0, [row], limits));
    assert states[|states| - 1] == s0.(plans := map[0 := [row]], limits := map[0 := limits]);
    assert TakenFromLocal(states[|states| - 1], row);
    states, actions := Extend(states, actions, PlanStored(1, [row], limits));
  }

  /** For any message there is an execution in which two plans that name it are both validated before
      either is executed, and from there both executors reach its call. */
  lemma {:induction false} OverlappingExecutorsCollide(target: Target) returns (states: seq<State>, actions: seq<Action>)
    ensures Execution(states, actions)
    ensures CallInFlight(states[|states| - 1], 0, 0, target.remoteId) && CallInFlight(states[|states| - 1], 1, 1, target.remoteId)
    ensures !UnresolvedOnce(states[|states| - 1])
  {
    states, actions := BothPlanned(target);
    states, actions := Extend(states, actions, Validate(0, 0, 1, 1));
    assert states[|states| - 1] == Staged(target, map[0 := Validated(0)]);
    states, actions := Extend(states, actions, Validate(1, 1, 1, 1));
    var s := states[|states| - 1];
    assert s == Staged(target, map[0 := Validated(0), 1 := Validated(1)]);
    assert s.plans[0][0].target.remoteId == target.remoteId && s.plans[1][0].target.remoteId == target.remoteId;
    assert MayCall(s, 0, target.remoteId) && MayCall(s, 1, target.remoteId);
    states, actions := SharedMessageCollides(states, actions, 0, 1, target.remoteId);
  }
}
