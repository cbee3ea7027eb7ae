/** Invariants of the deletion engine under arbitrary adapters, interleavings and crashes, and the
    whole-run results that follow from them. */
module EngineSafety {
  import opened Base
  import opened Verdicts
  import opened Targets
  import opened Engine

  // --- The shape of a run ---

  /** Rows before `k` succeeded, rows after it are still planned. */
  ghost predicate Frontier(rows: seq<Row>, k: nat) {
    && k <= |rows|
    && (forall j :: 0 <= j < k ==> rows[j].status == Succeeded)
    && (forall j :: k < j < |rows| ==> rows[j].status == Planned)
  }

  /** Position `k` is where a halted run stopped: its row is settled or unknown, never in flight. */
  ghost predicate StoppedAt(rows: seq<Row>, k: nat) {
    k < |rows| && Frontier(rows, k) && rows[k].status != Planned && rows[k].status != Started
  }

  ghost predicate Shaped(run: Run) {
    && (exists k: nat :: Frontier(run.rows, k))
    && (run.status == RunCompleted ==> forall j :: 0 <= j < |run.rows| ==> run.rows[j].status == Succeeded)
    && (run.status == RunHalted ==> exists k: nat :: StoppedAt(run.rows, k))
  }

  ghost predicate AllShaped(s: State) {
    forall r :: r in s.runs ==> Shaped(s.runs[r])
  }

  predicate Executes(proc: Process, run: nat) {
    (proc.Picking? || proc.Picked? || proc.Reported? || proc.Matched? || proc.Stale? || proc.Calling? || proc.Returned?) && proc.run == run
  }

  /** The local position of a process agrees with the stored rows. */
  ghost predicate Placed(s: State, proc: Process) {
    match proc
    case Validated(_) => true
    case Picking(run) =>
      && run in s.runs && s.runs[run].status == RunPlanned
      && exists k: nat :: Frontier(s.runs[run].rows, k) && (k < |s.runs[run].rows| ==> s.runs[run].rows[k].status == Planned)
    case Reconciling(run, todo) =>
      && run in s.runs && s.runs[run].status == RunHalted
      && forall t :: t in todo ==> StoppedAt(s.runs[run].rows, t)
    case Observing(run, i, seen, todo) =>
      && run in s.runs && s.runs[run].status == RunHalted && seen != Started
      && StoppedAt(s.runs[run].rows, i) && forall t :: t in todo ==> StoppedAt(s.runs[run].rows, t)
    case Observed(run, i, seen, _, todo) =>
      && run in s.runs && s.runs[run].status == RunHalted && seen != Started
      && StoppedAt(s.runs[run].rows, i) && forall t :: t in todo ==> StoppedAt(s.runs[run].rows, t)
    case _ =>
      && RowExists(s, proc.run, proc.i) && s.runs[proc.run].status == RunPlanned
      && Frontier(s.runs[proc.run].rows, proc.i)
      && s.runs[proc.run].rows[proc.i].status == if proc.Calling? || proc.Returned? then Started else Planned
  }

  ghost predicate AllPlaced(s: State) {
    forall p :: p in s.procs ==> Placed(s, s.procs[p])
  }

  ghost predicate OneExecutor(s: State) {
    forall p, q, run :: p in s.procs && q in s.procs && Executes(s.procs[p], run) && Executes(s.procs[q], run) ==> p == q
  }

  ghost predicate OneRunPerPlan(s: State) {
    forall r, q :: r in s.runs && q in s.runs && s.runs[r].plan == s.runs[q].plan ==> r == q
  }

  ghost predicate RunsOk(s: State) {
    AllShaped(s) && AllPlaced(s) && OneExecutor(s) && OneRunPerPlan(s)
  }

  lemma {:induction false} FirstPlannedFinds(rows: seq<Row>, from: nat)
    requires from <= |rows|
    ensures match FirstPlanned(rows, from)
            case None => forall j :: from <= j < |rows| ==> rows[j].status != Planned
            case Some(i) => from <= i < |rows| && rows[i].status == Planned && forall j :: from <= j < i ==> rows[j].status != Planned
    decreases |rows| - from
  {
    if from < |rows| && rows[from].status != Planned {
      FirstPlannedFinds(rows, from + 1);
    }
  }

  lemma {:induction false} UnresolvedFromFinds(rows: seq<Row>, from: nat)
    requires from <= |rows|
    ensures forall t :: t in UnresolvedFrom(rows, from) <==> from <= t < |rows| && Unresolved(rows[t].status)
    decreases |rows| - from
  {
    if from < |rows| {
      UnresolvedFromFinds(rows, from + 1);
    }
  }

  /** The only stopped row of a halted run is at its frontier, so that is where any unresolved row is. */
  lemma {:induction false} UnresolvedIsStopped(rows: seq<Row>, k: nat, t: nat)
    requires StoppedAt(rows, k) && t < |rows| && Unresolved(rows[t].status)
    ensures t == k
  {
  }

  /** A transition of one row by the executor that owns the run. */
  lemma {:induction false} SetStatusKeepsFrontier(run: Run, i: nat, status: RowStatus)
    requires i < |run.rows| && Frontier(run.rows, i)
    ensures Frontier(SetStatus(run, i, status).rows, i)
    ensures status == Succeeded ==> Frontier(SetStatus(run, i, status).rows, i + 1)
    ensures status != Planned && status != Started ==> StoppedAt(SetStatus(run, i, status).rows, i)
  {
  }

  lemma {:induction false} InitialRunsOk(s: State)
    requires Initial(s)
    ensures RunsOk(s)
  {
  }

  /** Two stopped positions of the same rows are the same position. */
  lemma {:induction false} StoppedOnce(rows: seq<Row>, k: nat, t: nat)
    requires StoppedAt(rows, k) && StoppedAt(rows, t)
    ensures k == t
  {
  }

  // --- Which step writes what ---

  /** The actions that rewrite the rows or the status of an existing run. */
  predicate RewritesRun(a: Action) {
    a.Pick? || a.RecordOutcome? || a.HaltStale? || a.CommitStarted? || a.WriteObservation?
  }

  lemma {:induction false} ActorsPatch(s: State, a: Action, t: State)
    requires Step(s, a, t) && Actor(a).Some?
    ensures t == Patch(s, Actor(a).value, EffectOf(s, a))
  {
  }

  lemma {:induction false} OthersKeepProcsAndRuns(s: State, a: Action, t: State)
    requires Step(s, a, t) && Actor(a).None?
    ensures t.procs == s.procs && t.runs == s.runs && t.history == s.history
  {
  }

  lemma {:induction false} OnlyTheActorMoves(s: State, a: Action, t: State, p: nat)
    requires Step(s, a, t) && Actor(a) != Some(p)
    ensures p in t.procs <==> p in s.procs
    ensures p in s.procs ==> t.procs[p] == s.procs[p]
  {
    if Actor(a).Some? { ActorsPatch(s, a, t); } else { OthersKeepProcsAndRuns(s, a, t); }
  }

  /** An action writes its actor's own run, as executor or as reconciler, or a freshly inserted one. */
  lemma {:induction false} WritersWriteTheirRun(s: State, a: Action)
    requires Enabled(s, a) && Actor(a).Some? && EffectOf(s, a).write.Some?
    ensures RewritesRun(a) || a.InsertRun?
    ensures a.InsertRun? ==>
              EffectOf(s, a).write.value.id == a.run && a.run !in s.runs && EffectOf(s, a).write.value.run.plan == s.procs[a.p].plan
    ensures RewritesRun(a) ==>
              && Actor(a).value in s.procs && !s.procs[Actor(a).value].Validated?
              && EffectOf(s, a).write.value.id == s.procs[Actor(a).value].run && s.procs[Actor(a).value].run in s.runs
              && EffectOf(s, a).write.value.run.plan == s.runs[s.procs[Actor(a).value].run].plan
              && (a.WriteObservation? || Executes(s.procs[Actor(a).value], s.procs[Actor(a).value].run))
  {
  }

  /** The only runs an action may write to: the actor's own, and a freshly inserted one. */
  lemma {:induction false} OtherRunsUntouched(s: State, a: Action, t: State, r: nat)
    requires Step(s, a, t) && r in s.runs
    requires Actor(a).Some? && Actor(a).value in s.procs && !s.procs[Actor(a).value].Validated? ==> s.procs[Actor(a).value].run != r
    ensures r in t.runs && t.runs[r] == s.runs[r]
  {
    if Actor(a).Some? {
      ActorsPatch(s, a, t);
      if EffectOf(s, a).write.Some? { WritersWriteTheirRun(s, a); }
    } else {
      OthersKeepProcsAndRuns(s, a, t);
    }
  }

  lemma {:induction false} OthersKeepRuns(s: State, a: Action, t: State, r: nat)
    requires Step(s, a, t) && r in s.runs && !RewritesRun(a)
    ensures r in t.runs && t.runs[r] == s.runs[r]
  {
    if Actor(a).Some? {
      ActorsPatch(s, a, t);
      if EffectOf(s, a).write.Some? { WritersWriteTheirRun(s, a); }
    } else {
      OthersKeepProcsAndRuns(s, a, t);
    }
  }

  lemma {:induction false} PlacedFrame(s: State, t: State, proc: Process)
    requires Placed(s, proc)
    requires !proc.Validated? ==> proc.run in s.runs && proc.run in t.runs && t.runs[proc.run] == s.runs[proc.run]
    ensures Placed(t, proc)
  {
  }

  /** An executor and any other process never share a run. */
  lemma {:induction false} ExecutorIsAlone(s: State, p: nat, q: nat)
    requires RunsOk(s) && p in s.procs && q in s.procs && p != q
    requires !s.procs[p].Validated? && !s.procs[q].Validated? && s.procs[p].run == s.procs[q].run
    ensures !Executes(s.procs[p], s.procs[p].run)
  {
  }

  /** Settling the stopped row of a run leaves it stopped there. */
  lemma {:induction false} SettleKeepsPlaced(s: State, t: State, proc: Process, i: nat, status: RowStatus)
    requires Placed(s, proc) && (proc.Reconciling? || proc.Observing? || proc.Observed?)
    requires StoppedAt(s.runs[proc.run].rows, i) && status != Planned && status != Started
    requires proc.run in t.runs && t.runs[proc.run] == SetStatus(s.runs[proc.run], i, status)
    ensures Placed(t, proc)
  {
    SetStatusKeepsFrontier(s.runs[proc.run], i, status);
    forall k: nat | StoppedAt(s.runs[proc.run].rows, k) ensures StoppedAt(t.runs[proc.run].rows, k) {
      StoppedOnce(s.runs[proc.run].rows, i, k);
    }
  }

  /** What a recorded observation writes, if anything: the status of the row it is about. */
  lemma {:induction false} ObservationsSettle(s: State, p: nat, proc: Process)
    requires Placed(s, proc) && proc.Observed? && RowExists(s, proc.run, proc.i)
    ensures var e := Reconciled(s, proc);
            && (e.next == None || (e.next == Some(Reconciling(proc.run, proc.todo)) && Placed(s, e.next.value)))
            && (e.write.Some? ==>
                  && e.write.value.id == proc.run && StoppedAt(s.runs[proc.run].rows, proc.i)
                  && (e.write.value.run == SetStatus(s.runs[proc.run], proc.i, Succeeded)
                      || e.write.value.run == SetStatus(s.runs[proc.run], proc.i, Failed)))
  {
  }

  /** Two processes of one run, one of which records an observation, are both reconciling it. */
  lemma {:induction false} FellowStaysPlaced(s: State, q: nat, t: State, proc: Process)
    requires q in s.procs && Placed(s, proc) && Placed(s, s.procs[q])
    requires !proc.Validated? && !Executes(proc, proc.run)
    requires Step(s, WriteObservation(q), t) && s.procs[q].run == proc.run
    ensures Placed(t, proc)
  {
    var e := Reconciled(s, s.procs[q]);
    ObservationsSettle(s, q, s.procs[q]);
    ActorsPatch(s, WriteObservation(q), t);
    if e.write.None? {
      PlacedFrame(s, t, proc);
    } else if e.write.value.run == SetStatus(s.runs[proc.run], s.procs[q].i, Succeeded) {
      SettleKeepsPlaced(s, t, proc, s.procs[q].i, Succeeded);
    } else {
      SettleKeepsPlaced(s, t, proc, s.procs[q].i, Failed);
    }
  }

  /** A process that does not act stays where it is: whatever another process writes, it writes to a
      run that this one does not execute, or settles the very row both are reconciling. */
  lemma {:induction false} BystanderStaysPlaced(s: State, a: Action, t: State, p: nat)
    requires RunsOk(s) && Step(s, a, t) && p in s.procs && Actor(a) != Some(p)
    ensures p in t.procs && Placed(t, t.procs[p])
  {
    OnlyTheActorMoves(s, a, t, p);
    assert Placed(s, s.procs[p]);
    var proc, q := s.procs[p], Actor(a);
    if !proc.Validated? {
      if q.Some? && q.value in s.procs && !s.procs[q.value].Validated? && s.procs[q.value].run == proc.run {
        FellowIsNoExecutor(s, a, t, p, q.value);
      } else {
        OtherRunsUntouched(s, a, t, proc.run);
        PlacedFrame(s, t, proc);
      }
    }
  }

  lemma {:induction false} FellowIsNoExecutor(s: State, a: Action, t: State, p: nat, q: nat)
    requires RunsOk(s) && Step(s, a, t) && p in s.procs && q in s.procs && p != q && Actor(a) == Some(q)
    requires !s.procs[p].Validated? && !s.procs[q].Validated? && s.procs[q].run == s.procs[p].run
    ensures Placed(t, s.procs[p])
  {
    ExecutorIsAlone(s, q, p);
    ExecutorIsAlone(s, p, q);
    assert Placed(s, s.procs[p]) && Placed(s, s.procs[q]);
    if a.WriteObservation? {
      FellowStaysPlaced(s, q, t, s.procs[p]);
    } else {
      ActorsPatch(s, a, t);
      if EffectOf(s, a).write.Some? { WritersWriteTheirRun(s, a); }
      PlacedFrame(s, t, s.procs[p]);
    }
  }

  // --- Each step leaves its actor in place and its run in shape ---

  lemma {:induction false} PickIsPlaced(s: State, p: nat, t: State)
    requires Step(s, Pick(p), t) && Placed(s, s.procs[p])
    ensures p in t.procs ==> Placed(t, t.procs[p])
    ensures Shaped(s.runs[s.procs[p].run]) ==> Shaped(t.runs[s.procs[p].run])
  {
    var rows := s.runs[s.procs[p].run].rows;
    FirstPlannedFinds(rows, 0);
    var k: nat :| Frontier(rows, k) && (k < |rows| ==> rows[k].status == Planned);
    assert t.runs[s.procs[p].run].rows == rows;
    assert FirstPlanned(rows, 0).Some? ==> FirstPlanned(rows, 0).value == k;
  }

  lemma {:induction false} RecordIsPlaced(s: State, p: nat, t: State)
    requires Step(s, RecordOutcome(p), t) && Placed(s, s.procs[p])
    ensures p in t.procs ==> Placed(t, t.procs[p])
    ensures Shaped(t.runs[s.procs[p].run])
  {
    var proc := s.procs[p];
    var status := Normalize(proc.result, proc.raised).status;
    SetStatusKeepsFrontier(s.runs[proc.run], proc.i, status);
    var rows := SetStatus(s.runs[proc.run], proc.i, status).rows;
    assert t.runs[proc.run].rows == rows;
    assert Frontier(rows, proc.i);
    assert status == Succeeded ==> Frontier(rows, proc.i + 1);
  }

  lemma {:induction false} StartReconcileIsPlaced(s: State, p: nat, run: nat, t: State)
    requires Step(s, StartReconcile(p, run), t) && Shaped(s.runs[run])
    ensures p in t.procs ==> Placed(t, t.procs[p])
  {
    var rows := s.runs[run].rows;
    UnresolvedFromFinds(rows, 0);
    var k: nat :| StoppedAt(rows, k);
    forall x | x in UnresolvedFrom(rows, 0) ensures StoppedAt(rows, x) {
      UnresolvedIsStopped(rows, k, x);
    }
  }

  lemma {:induction false} WriteIsShaped(s: State, p: nat, t: State)
    requires Step(s, WriteObservation(p), t) && Placed(s, s.procs[p]) && Shaped(s.runs[s.procs[p].run])
    ensures Shaped(t.runs[s.procs[p].run])
  {
    var proc := s.procs[p];
    ObservationsSettle(s, p, proc);
    SetStatusKeepsFrontier(s.runs[proc.run], proc.i, Succeeded);
    SetStatusKeepsFrontier(s.runs[proc.run], proc.i, Failed);
  }

  lemma {:induction false} WriteIsPlaced(s: State, p: nat, t: State)
    requires Step(s, WriteObservation(p), t) && Placed(s, s.procs[p])
    ensures p in t.procs ==> Placed(t, t.procs[p])
  {
    ObservationsSettle(s, p, s.procs[p]);
    if p in t.procs { FellowStaysPlaced(s, p, t, t.procs[p]); }
  }

  lemma {:induction false} ReadIsPlaced(s: State, p: nat, t: State)
    requires Step(s, ReadUnresolved(p), t) && Placed(s, s.procs[p])
    ensures p in t.procs ==> Placed(t, t.procs[p])
  {
    assert s.procs[p].todo[0] in s.procs[p].todo;
  }

  lemma {:induction false} ObserveIsPlaced(s: State, p: nat, answer: Observation, t: State)
    requires Step(s, Observe(p, answer), t) && Placed(s, s.procs[p])
    ensures p in t.procs ==> Placed(t, t.procs[p])
  {
  }

  lemma {:induction false} CommitIsPlaced(s: State, p: nat, t: State)
    requires Step(s, CommitStarted(p), t) && Placed(s, s.procs[p])
    ensures p in t.procs && Placed(t, t.procs[p])
    ensures Shaped(t.runs[s.procs[p].run])
  {
    SetStatusKeepsFrontier(s.runs[s.procs[p].run], s.procs[p].i, Started);
    assert Frontier(t.runs[s.procs[p].run].rows, s.procs[p].i);
  }

  lemma {:induction false} HaltIsShaped(s: State, p: nat, t: State)
    requires Step(s, HaltStale(p), t) && Placed(s, s.procs[p])
    ensures Shaped(t.runs[s.procs[p].run])
  {
    SetStatusKeepsFrontier(s.runs[s.procs[p].run], s.procs[p].i, Failed);
    var rows := SetStatus(s.runs[s.procs[p].run], s.procs[p].i, Failed).rows;
    assert t.runs[s.procs[p].run].rows == rows && StoppedAt(rows, s.procs[p].i);
  }

  lemma {:induction false} CheckIsPlaced(s: State, a: Action, p: nat, t: State)
    requires (a == Evaluate(p) || a == MatchIdentity(p)) && Step(s, a, t) && Placed(s, s.procs[p])
    ensures p in t.procs && Placed(t, t.procs[p])
  {
  }

  lemma {:induction false} CallIsPlaced(s: State, a: Action, p: nat, t: State)
    requires (a.CallProvider? || a.RecordRaises?) && Actor(a) == Some(p) && Step(s, a, t) && Placed(s, s.procs[p])
    ensures p in t.procs && Placed(t, t.procs[p])
  {
  }

  lemma {:induction false} ReconcilerIsPlaced(s: State, a: Action, t: State, p: nat)
    requires RunsOk(s) && Step(s, a, t) && Actor(a) == Some(p)
    requires a.StartReconcile? || a.ReadUnresolved? || a.Observe? || a.WriteObservation?
    ensures p in t.procs ==> Placed(t, t.procs[p])
  {
    assert p in s.procs ==> Placed(s, s.procs[p]);
    if a.StartReconcile? {
      StartReconcileIsPlaced(s, p, a.run, t);
    } else if a.WriteObservation? {
      WriteIsPlaced(s, p, t);
    } else if a.Observe? {
      ObserveIsPlaced(s, p, a.answer, t);
    } else {
      ReadIsPlaced(s, p, t);
    }
  }

  lemma {:induction false} ActorIsPlaced(s: State, a: Action, t: State, p: nat)
    requires RunsOk(s) && Step(s, a, t) && Actor(a) == Some(p)
    ensures p in t.procs ==> Placed(t, t.procs[p])
  {
    assert p in s.procs ==> Placed(s, s.procs[p]);
    if a.StartReconcile? || a.ReadUnresolved? || a.Observe? || a.WriteObservation? {
      ReconcilerIsPlaced(s, a, t, p);
    } else if a.Evaluate? || a.MatchIdentity? {
      CheckIsPlaced(s, a, p, t);
    } else if a.CallProvider? || a.RecordRaises? {
      CallIsPlaced(s, a, p, t);
    } else if a.Pick? {
      PickIsPlaced(s, p, t);
    } else if a.CommitStarted? {
      CommitIsPlaced(s, p, t);
    } else if a.RecordOutcome? {
      RecordIsPlaced(s, p, t);
    } else if a.InsertRun? {
      assert Frontier(t.runs[a.run].rows, 0);
    }
  }

  lemma {:induction false} RewriteKeepsShape(s: State, a: Action, t: State, p: nat)
    requires Step(s, a, t) && RewritesRun(a) && Actor(a) == Some(p) && p in s.procs
    requires Placed(s, s.procs[p]) && !s.procs[p].Validated? && s.procs[p].run in s.runs && Shaped(s.runs[s.procs[p].run])
    ensures s.procs[p].run in t.runs && Shaped(t.runs[s.procs[p].run])
  {
    if a.Pick? {
      PickIsPlaced(s, p, t);
    } else if a.RecordOutcome? {
      RecordIsPlaced(s, p, t);
    } else if a.HaltStale? {
      HaltIsShaped(s, p, t);
    } else if a.CommitStarted? {
      CommitIsPlaced(s, p, t);
    } else {
      WriteIsShaped(s, p, t);
    }
  }

  lemma {:induction false} StepKeepsShape(s: State, a: Action, t: State, r: nat)
    requires RunsOk(s) && Step(s, a, t) && r in t.runs
    ensures Shaped(t.runs[r])
  {
    if r !in s.runs {
      RunsKeepTheirPlan(s, a, t, r);
      assert Frontier(t.runs[r].rows, 0);
    } else if !RewritesRun(a) {
      OthersKeepRuns(s, a, t, r);
      assert Shaped(s.runs[r]);
    } else {
      var p := Actor(a).value;
      assert Shaped(s.runs[r]) && Placed(s, s.procs[p]);
      if s.procs[p].run != r {
        OtherRunsUntouched(s, a, t, r);
      } else {
        RewriteKeepsShape(s, a, t, p);
      }
    }
  }

  /** A process starts executing a run only by inserting it. */
  lemma {:induction false} ExecutorsAreBornAtInsert(s: State, a: Action, t: State, p: nat, run: nat)
    requires Step(s, a, t) && p in t.procs && Executes(t.procs[p], run)
    ensures a == InsertRun(p, run) || (p in s.procs && Executes(s.procs[p], run))
  {
    if Actor(a) != Some(p) { OnlyTheActorMoves(s, a, t, p); }
  }

  lemma {:induction false} StepKeepsOneExecutor(s: State, a: Action, t: State)
    requires RunsOk(s) && Step(s, a, t)
    ensures OneExecutor(t)
  {
    forall p, q, run | p in t.procs && q in t.procs && Executes(t.procs[p], run) && Executes(t.procs[q], run) ensures p == q {
      ExecutorsAreBornAtInsert(s, a, t, p, run);
      ExecutorsAreBornAtInsert(s, a, t, q, run);
      assert p in s.procs ==> Placed(s, s.procs[p]);
      assert q in s.procs ==> Placed(s, s.procs[q]);
    }
  }

  /** Runs keep their source plan, and only an insert adds one. */
  lemma {:induction false} RunsKeepTheirPlan(s: State, a: Action, t: State, r: nat)
    requires Step(s, a, t)
    ensures r in s.runs ==> r in t.runs && t.runs[r].plan == s.runs[r].plan
    ensures r in t.runs && r !in s.runs ==> a.InsertRun? && r == a.run && t.runs[r].plan == s.procs[a.p].plan
  {
    if Actor(a).Some? {
      ActorsPatch(s, a, t);
      if EffectOf(s, a).write.Some? { WritersWriteTheirRun(s, a); }
    } else {
      OthersKeepProcsAndRuns(s, a, t);
    }
  }

  lemma {:induction false} StepKeepsOneRunPerPlan(s: State, a: Action, t: State)
    requires OneRunPerPlan(s) && Step(s, a, t)
    ensures OneRunPerPlan(t)
  {
    forall r, q | r in t.runs && q in t.runs && t.runs[r].plan == t.runs[q].plan ensures r == q {
      RunsKeepTheirPlan(s, a, t, r);
      RunsKeepTheirPlan(s, a, t, q);
    }
  }

  lemma {:induction false} StepKeepsRunsOk(s: State, a: Action, t: State)
    requires RunsOk(s) && Step(s, a, t)
    ensures RunsOk(t)
  {
    forall p | p in t.procs ensures Placed(t, t.procs[p]) {
      if Actor(a) == Some(p) {
        ActorIsPlaced(s, a, t, p);
      } else {
        OnlyTheActorMoves(s, a, t, p);
        BystanderStaysPlaced(s, a, t, p);
      }
    }
    forall r | r in t.runs ensures Shaped(t.runs[r]) {
      StepKeepsShape(s, a, t, r);
    }
    StepKeepsOneExecutor(s, a, t);
    StepKeepsOneRunPerPlan(s, a, t);
  }
}
