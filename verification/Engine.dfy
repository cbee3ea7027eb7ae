/** The production deletion engine as a step system (remote_mutation.py).

    One action is one committed transaction, one read, or one provider call of one process, so that a
    crash (`Crash`) and any interleaving of executors and reconcilers are between any two of them.
    Adapters and observers may answer anything; the provider's mailbox may change at any time. */
module Engine {
  import opened Base
  import opened Verdicts
  import opened Targets
  import Planning

  /** A row of `remote_messages` with its canonical link; `eligible` is what a retention evaluation
      of it would report at this moment. */
  datatype LocalRow = LocalRow(current: Target, present: bool, eligible: bool)

  /** A row of a dry-run plan.  `hashed` is the target the stored fingerprint was computed from; by
      `Fingerprint.FingerprintDecides`, comparing fingerprints is comparing with `SameTarget`. */
  datatype PlanRow = PlanRow(target: Target, hashed: Target)

  datatype Row = Row(target: Target, hashed: Target, status: RowStatus)

  datatype RunStatus = RunPlanned | RunCompleted | RunHalted

  /** A production run: the source plan it clones and its mutation rows in identifier order. */
  datatype Run = Run(plan: nat, rows: seq<Row>, status: RunStatus)

  /** What one process is about to do.  Positions (`e`, `m`, `c`) point into the history at the
      evaluation, the identity match and the `started` commit that led here; `report` is what the
      evaluation said about the row. */
  datatype Process =
    | Validated(plan: nat)
    | Picking(run: nat)
    | Picked(run: nat, i: nat)
    | Reported(run: nat, i: nat, e: nat, report: LocalRow)
    | Matched(run: nat, i: nat, e: nat, m: nat)
    | Stale(run: nat, i: nat)
    | Calling(run: nat, i: nat, e: nat, m: nat, c: nat)
    | Returned(run: nat, i: nat, result: MutationResult, raised: Option<ErrorCode>)
    | Reconciling(run: nat, todo: seq<nat>)
    | Observing(run: nat, i: nat, seen: RowStatus, todo: seq<nat>)
    | Observed(run: nat, i: nat, seen: RowStatus, answer: Observation, todo: seq<nat>)

  datatype Event =
    | Evaluated(run: nat, i: nat, row: LocalRow)
    | IdentityMatched(run: nat, i: nat, row: LocalRow)
    | StartCommitted(run: nat, i: nat)
    | Called(run: nat, i: nat, target: Target)

  datatype State = State(
    mailbox: set<Identity>,
    ever: set<Identity>,
    local: map<string, LocalRow>,
    plans: map<nat, seq<PlanRow>>,
    /** The limits each plan was made under, stored with it. */
    limits: map<nat, Planning.Plan>,
    runs: map<nat, Run>,
    procs: map<nat, Process>,
    history: seq<Event>)

  datatype Action =
    | MailArrives(id: Identity)
    | MailLeaves(id: Identity)
    | LocalChanges(key: string, row: LocalRow)
    | PlanStored(plan: nat, rows: seq<PlanRow>, limits: Planning.Plan)
    /** The two numbers are the limits configured when the plan is executed. */
    | Validate(p: nat, plan: nat, maxPerRun: nat, maxPerAccount: nat)
    | InsertRun(p: nat, run: nat)
    | Pick(p: nat)
    | Evaluate(p: nat)
    | MatchIdentity(p: nat)
    | HaltStale(p: nat)
    | CommitStarted(p: nat)
    | CallProvider(p: nat, result: MutationResult, raised: bool, removed: bool)
    | RecordOutcome(p: nat)
    | RecordRaises(p: nat)
    | StartReconcile(p: nat, run: nat)
    | ReadUnresolved(p: nat)
    | Observe(p: nat, answer: Observation)
    | WriteObservation(p: nat)
    | Crash(p: nat)

  // --- Rows ---

  predicate Unresolved(status: RowStatus) {
    status == Started || status == Unknown
  }

  function SetStatus(run: Run, i: nat, status: RowStatus): Run
    requires i < |run.rows|
  {
    run.(rows := run.rows[i := run.rows[i].(status := status)])
  }

  /** The first planned row at or after `from`. */
  function FirstPlanned(rows: seq<Row>, from: nat): Option<nat>
    requires from <= |rows|
    decreases |rows| - from
  {
    if from == |rows| then None
    else if rows[from].status == Planned then Some(from)
    else FirstPlanned(rows, from + 1)
  }

  /** The positions of the unresolved rows at or after `from`. */
  function UnresolvedFrom(rows: seq<Row>, from: nat): seq<nat>
    requires from <= |rows|
    decreases |rows| - from
  {
    if from == |rows| then []
    else (if Unresolved(rows[from].status) then [from] else []) + UnresolvedFrom(rows, from + 1)
  }

  /** The clone of a plan's rows that a production run starts from. */
  function PlannedRows(plan: seq<PlanRow>): (rows: seq<Row>)
    ensures |rows| == |plan|
    ensures forall i :: 0 <= i < |plan| ==> rows[i] == Row(plan[i].target, plan[i].hashed, Planned)
  {
    if plan == [] then [] else PlannedRows(plan[..|plan| - 1]) + [Row(plan[|plan| - 1].target, plan[|plan| - 1].hashed, Planned)]
  }

  predicate RowExists(s: State, run: nat, i: nat) {
    run in s.runs && i < |s.runs[run].rows|
  }

  // --- Local reads ---

  /** The stored half of `_still_current`: the row is still marked present and everything hashed into
      the stored fingerprint is unchanged. */
  predicate StillCurrent(s: State, target: Target, hashed: Target) {
    && target.remoteId in s.local
    && s.local[target.remoteId].current.canonicalId == target.canonicalId
    && s.local[target.remoteId].present
    && SameTarget(s.local[target.remoteId].current, hashed)
  }

  /** The evaluation a check is paired with reported on this row and this canonical object. */
  predicate ReportsOn(report: LocalRow, target: Target) {
    report.current.remoteId == target.remoteId && report.current.canonicalId == target.canonicalId
  }

  /** A plan row records the current target of a local row and the fingerprint of that same target. */
  predicate TakenFromLocal(s: State, row: PlanRow) {
    row.target.remoteId in s.local && row.target == s.local[row.target.remoteId].current && row.hashed == row.target
  }

  predicate EligibleNow(s: State, target: Target) {
    target.remoteId in s.local && s.local[target.remoteId].eligible
  }

  function IdAt(s: State, r: nat, i: nat): string
    requires RowExists(s, r, i)
  {
    s.runs[r].rows[i].target.remoteId
  }

  predicate UnresolvedAt(s: State, r: nat, i: nat) {
    RowExists(s, r, i) && Unresolved(s.runs[r].rows[i].status)
  }

  /** Some production row for this remote message is still unresolved. */
  ghost predicate Blocked(s: State, remoteId: string) {
    exists r: nat, i: nat :: UnresolvedAt(s, r, i) && IdAt(s, r, i) == remoteId
  }

  /** Presence is written only when the row's current provider identity is the historical one. */
  function SetPresence(local: map<string, LocalRow>, target: Target, present: bool): map<string, LocalRow> {
    if target.remoteId in local && IdentityOf(local[target.remoteId].current) == IdentityOf(target)
    then local[target.remoteId := local[target.remoteId].(present := present)]
    else local
  }

  // --- Steps ---

  /** The process an action belongs to, if any. */
  function Actor(a: Action): Option<nat> {
    match a
    case MailArrives(_) | MailLeaves(_) | LocalChanges(_, _) | PlanStored(_, _, _) => None
    case Validate(p, _, _, _) => Some(p)
    case InsertRun(p, _) => Some(p)
    case Pick(p) => Some(p)
    case Evaluate(p) => Some(p)
    case MatchIdentity(p) => Some(p)
    case HaltStale(p) => Some(p)
    case CommitStarted(p) => Some(p)
    case CallProvider(p, _, _, _) => Some(p)
    case RecordOutcome(p) => Some(p)
    case RecordRaises(p) => Some(p)
    case StartReconcile(p, _) => Some(p)
    case ReadUnresolved(p) => Some(p)
    case Observe(p, _) => Some(p)
    case WriteObservation(p) => Some(p)
    case Crash(p) => Some(p)
  }

  /** A dry run stores its selection of current targets, each at most once, with the limits it obeyed. */
  ghost predicate MayStore(s: State, plan: nat, rows: seq<PlanRow>, limits: Planning.Plan) {
    && plan !in s.plans && limits.selectedCount == |rows|
    && (forall i :: 0 <= i < |rows| ==> TakenFromLocal(s, rows[i]))
    && (forall i, j :: 0 <= i < j < |rows| ==> rows[i].target.remoteId != rows[j].target.remoteId)
  }

  /** A stored plan that was not executed before, passes the limit gate under the configured limits, and
      all of whose targets are unblocked, eligible and unchanged. */
  ghost predicate MayExecute(s: State, plan: nat, maxPerRun: nat, maxPerAccount: nat) {
    && plan in s.plans && |s.plans[plan]| > 0 && (forall r :: r in s.runs ==> s.runs[r].plan != plan)
    && plan in s.limits && Planning.PassesLimits(s.limits[plan], maxPerRun, maxPerAccount)
    && s.limits[plan].selectedCount == |s.plans[plan]|
    && (forall i :: 0 <= i < |s.plans[plan]| ==>
          && !Blocked(s, s.plans[plan][i].target.remoteId)
          && EligibleNow(s, s.plans[plan][i].target)
          && StillCurrent(s, s.plans[plan][i].target, s.plans[plan][i].hashed))
  }

  ghost predicate Enabled(s: State, a: Action) {
    match a
    case MailArrives(id) => id !in s.ever
    case MailLeaves(id) => true
    case LocalChanges(key, row) => row.current.remoteId == key && IdentityOf(row.current) in s.ever
    case PlanStored(plan, rows, limits) => MayStore(s, plan, rows, limits)
    case Validate(p, plan, maxPerRun, maxPerAccount) => p !in s.procs && MayExecute(s, plan, maxPerRun, maxPerAccount)
    case InsertRun(p, run) =>
      && p in s.procs && s.procs[p].Validated? && s.procs[p].plan in s.plans && run !in s.runs
      && (forall r :: r in s.runs ==> s.runs[r].plan != s.procs[p].plan)
    case Pick(p) => p in s.procs && s.procs[p].Picking? && s.procs[p].run in s.runs
    case Evaluate(p) => p in s.procs && s.procs[p].Picked? && RowExists(s, s.procs[p].run, s.procs[p].i)
    case MatchIdentity(p) => p in s.procs && s.procs[p].Reported? && RowExists(s, s.procs[p].run, s.procs[p].i)
    case HaltStale(p) => p in s.procs && s.procs[p].Stale? && RowExists(s, s.procs[p].run, s.procs[p].i)
    case CommitStarted(p) => p in s.procs && s.procs[p].Matched? && RowExists(s, s.procs[p].run, s.procs[p].i)
    case CallProvider(p, _, _, _) => p in s.procs && s.procs[p].Calling? && RowExists(s, s.procs[p].run, s.procs[p].i)
    case RecordOutcome(p) =>
      && p in s.procs && s.procs[p].Returned? && RowExists(s, s.procs[p].run, s.procs[p].i)
      && Normalize(s.procs[p].result, s.procs[p].raised).Recorded?
    case RecordRaises(p) => p in s.procs && s.procs[p].Returned? && s.procs[p].raised.None?
    case StartReconcile(p, run) => p !in s.procs && run in s.runs && s.runs[run].status == RunHalted
    case ReadUnresolved(p) =>
      && p in s.procs && s.procs[p].Reconciling? && s.procs[p].todo != []
      && RowExists(s, s.procs[p].run, s.procs[p].todo[0])
    case Observe(p, _) => p in s.procs && s.procs[p].Observing?
    case WriteObservation(p) => p in s.procs && s.procs[p].Observed? && RowExists(s, s.procs[p].run, s.procs[p].i)
    case Crash(p) => p in s.procs
  }

  /** What one action of a process does: what the process is about to do next (none: it has ended), the
      one run it writes, the event it leaves in the history, and the local rows and mailbox afterwards. */
  datatype Effect = Effect(
    next: Option<Process>,
    write: Option<RunWrite>,
    event: Option<Event>,
    local: map<string, LocalRow>,
    mailbox: set<Identity>)

  datatype RunWrite = RunWrite(id: nat, run: Run)

  /** An action that writes no run, local row or mail. */
  function Moves(s: State, next: Option<Process>, event: Option<Event>): Effect {
    Effect(next, None, event, s.local, s.mailbox)
  }

  /** An action that writes one run and no local row or mail. */
  function Writes(s: State, next: Option<Process>, event: Option<Event>, id: nat, run: Run): Effect {
    Effect(next, Some(RunWrite(id, run)), event, s.local, s.mailbox)
  }

  function Recorded(s: State, run: nat, i: nat, result: MutationResult, raised: Option<ErrorCode>): Effect
    requires RowExists(s, run, i) && Normalize(result, raised).Recorded?
  {
    var status := Normalize(result, raised).status;
    var id := s.runs[run].rows[i].target.remoteId;
    var updated := SetStatus(s.runs[run], i, status);
    if status == Succeeded then
      // The outcome update names the row by its identifier alone.
      var local := if id in s.local then s.local[id := s.local[id].(present := false)] else s.local;
      Effect(Some(Picking(run)), Some(RunWrite(run, updated)), None, local, s.mailbox)
    else
      Writes(s, None, None, run, updated.(status := RunHalted))
  }

  function Reconciled(s: State, proc: Process): Effect
    requires proc.Observed? && RowExists(s, proc.run, proc.i)
  {
    var run, i := proc.run, proc.i;
    var target := s.runs[run].rows[i].target;
    var next := if proc.todo == [] then None else Some(Reconciling(run, proc.todo));
    match proc.answer
    case ObservedAbsent =>
      Effect(next, Some(RunWrite(run, SetStatus(s.runs[run], i, Succeeded))), None, SetPresence(s.local, target, false), s.mailbox)
    case ObservedPresentMatch =>
      Effect(next, Some(RunWrite(run, SetStatus(s.runs[run], i, Failed))), None, SetPresence(s.local, target, true), s.mailbox)
    case _ =>
      if proc.seen == Started then Writes(s, next, None, run, SetStatus(s.runs[run], i, Unknown)) else Moves(s, next, None)
  }

  function EffectOf(s: State, a: Action): Effect
    requires Enabled(s, a) && Actor(a).Some?
  {
    match a
    case Validate(p, plan, _, _) => Moves(s, Some(Validated(plan)), None)
    case InsertRun(p, run) =>
      var plan := s.procs[p].plan;
      Writes(s, Some(Picking(run)), None, run, Run(plan, PlannedRows(s.plans[plan]), RunPlanned))
    case Pick(p) =>
      var run := s.procs[p].run;
      (match FirstPlanned(s.runs[run].rows, 0)
       case None => Writes(s, None, None, run, s.runs[run].(status := RunCompleted))
       case Some(i) => Moves(s, Some(Picked(run, i)), None))
    case Evaluate(p) =>
      var run, i := s.procs[p].run, s.procs[p].i;
      var target := s.runs[run].rows[i].target;
      if EligibleNow(s, target)
      then Moves(s, Some(Reported(run, i, |s.history|, s.local[target.remoteId])), Some(Evaluated(run, i, s.local[target.remoteId])))
      else Moves(s, Some(Stale(run, i)), None)
    case MatchIdentity(p) =>
      var run, i := s.procs[p].run, s.procs[p].i;
      var row := s.runs[run].rows[i];
      if StillCurrent(s, row.target, row.hashed) && ReportsOn(s.procs[p].report, row.target)
      then Moves(s, Some(Matched(run, i, s.procs[p].e, |s.history|)), Some(IdentityMatched(run, i, s.local[row.target.remoteId])))
      else Moves(s, Some(Stale(run, i)), None)
    case HaltStale(p) =>
      var run, i := s.procs[p].run, s.procs[p].i;
      Writes(s, None, None, run, SetStatus(s.runs[run], i, Failed).(status := RunHalted))
    case CommitStarted(p) =>
      var run, i := s.procs[p].run, s.procs[p].i;
      Writes(s, Some(Calling(run, i, s.procs[p].e, s.procs[p].m, |s.history|)), Some(StartCommitted(run, i)), run, SetStatus(s.runs[run], i, Started))
    case CallProvider(p, result, raised, removed) =>
      var run, i := s.procs[p].run, s.procs[p].i;
      var target := s.runs[run].rows[i].target;
      Effect(Some(Returned(run, i, result, if raised then Some(AdapterException) else None)), None, Some(Called(run, i, target)),
             s.local, if removed then s.mailbox - {IdentityOf(target)} else s.mailbox)
    case RecordOutcome(p) => Recorded(s, s.procs[p].run, s.procs[p].i, s.procs[p].result, s.procs[p].raised)
    case RecordRaises(p) =>
      Moves(s, Some(Returned(s.procs[p].run, s.procs[p].i, MutationResult(OutcomeUnknown, false, None), Some(AdapterException))), None)
    case StartReconcile(p, run) =>
      var todo := UnresolvedFrom(s.runs[run].rows, 0);
      Moves(s, if todo == [] then None else Some(Reconciling(run, todo)), None)
    case ReadUnresolved(p) =>
      var run, todo := s.procs[p].run, s.procs[p].todo;
      Moves(s, Some(Observing(run, todo[0], s.runs[run].rows[todo[0]].status, todo[1..])), None)
    case Observe(p, answer) =>
      Moves(s, Some(Observed(s.procs[p].run, s.procs[p].i, s.procs[p].seen, answer, s.procs[p].todo)), None)
    case WriteObservation(p) => Reconciled(s, s.procs[p])
    case Crash(p) => Moves(s, None, None)
  }

  /** The state after process `p` has had this effect. */
  function Patch(s: State, p: nat, e: Effect): State {
    State(e.mailbox, s.ever, e.local, s.plans, s.limits,
          if e.write.Some? then s.runs[e.write.value.id := e.write.value.run] else s.runs,
          if e.next.Some? then s.procs[p := e.next.value] else s.procs - {p},
          if e.event.Some? then s.history + [e.event.value] else s.history)
  }

  function Apply(s: State, a: Action): State
    requires Enabled(s, a)
  {
    match a
    case MailArrives(id) => s.(mailbox := s.mailbox + {id}, ever := s.ever + {id})
    case MailLeaves(id) => s.(mailbox := s.mailbox - {id})
    case LocalChanges(key, row) => s.(local := s.local[key := row])
    case PlanStored(plan, rows, limits) => s.(plans := s.plans[plan := rows], limits := s.limits[plan := limits])
    case _ => Patch(s, Actor(a).value, EffectOf(s, a))
  }

  /** Nothing has been planned or executed yet; the mailbox may already hold mail. */
  ghost predicate Initial(s: State) {
    && s.mailbox <= s.ever
    && (forall k :: k in s.local ==> s.local[k].current.remoteId == k && IdentityOf(s.local[k].current) in s.ever)
    && s.plans == map[] && s.limits == map[] && s.runs == map[] && s.procs == map[] && s.history == []
  }

  ghost predicate Step(s: State, a: Action, t: State) {
    Enabled(s, a) && t == Apply(s, a)
  }

  /** A whole history of the system: states linked by actions, starting from an initial state. */
  ghost predicate Execution(states: seq<State>, actions: seq<Action>) {
    Linked(Step, states, actions) && Initial(states[0])
  }

  /** The verdict contract of the provider adapters and observers: absence is confirmed only of a
      message that is gone.  Nothing is asked of any other answer. */
  ghost predicate Honest(s: State, a: Action)
    requires Enabled(s, a)
  {
    match a
    case CallProvider(p, result, raised, removed) =>
      !raised && Normalize(result, None).status == Succeeded ==>
        IdentityOf(s.runs[s.procs[p].run].rows[s.procs[p].i].target) !in Apply(s, a).mailbox
    case Observe(p, answer) =>
      answer == ObservedAbsent && RowExists(s, s.procs[p].run, s.procs[p].i) ==>
        IdentityOf(s.runs[s.procs[p].run].rows[s.procs[p].i].target) !in s.mailbox
    case _ => true
  }
}
