/** Presence of POP3 messages under interleaved synchronizations, deletions and reconciliations of one
    account (pop3.py `pop3_lock`, `_sync_locked`, `register_pop3_link`; pop3_mutation.py `delete`,
    `observe`; remote_mutation.py `_record_outcome`, `reconcile_production_run`).

    Every look at the server happens under one lock, but what a deletion or an observation found is
    recorded after that lock has been released.  Both record a confirmed absence; presence is recorded of
    an observation only, a deletion that still sees its message leaves the row alone. */
module Pop3Presence {
  import opened Base

  datatype Looker = Deletion | Observation

  datatype Process =
    /** Holds the lock; the listing has not been read yet. */
    | SyncStarted
    /** Holds the lock; writes presence only of messages in its listing. */
    | Syncing(listing: set<string>)
    /** Holds the lock; deletes or observes one message. */
    | Attempting(uidl: string, looker: Looker)
    /** Holds nothing; is about to record what it found. */
    | Concluded(uidl: string, looker: Looker, absent: bool)

  datatype State = State(
    maildrop: set<string>,
    ever: set<string>,
    present: map<string, bool>,
    lock: Option<nat>,
    procs: map<nat, Process>,
    /** Messages whose confirmed absence has been recorded. */
    recorded: set<string>)

  datatype Action =
    | Arrive(uidl: string)
    | Leave(uidl: string)
    | StartSync(p: nat)
    | ReadListing(p: nat)
    | MarkKnown(p: nat, known: set<string>)
    | Register(p: nat, uidl: string)
    | EndSync(p: nat)
    | StartAttempt(p: nat, uidl: string, looker: Looker)
    | Conclude(p: nat, absent: bool)
    | RecordAbsent(p: nat)
    | RecordPresent(p: nat)
    /** A deletion that saw its message, or a verdict that is not certain, leaves presence as it is. */
    | RecordOther(p: nat)
    | Crash(p: nat)

  function SetAll(present: map<string, bool>, uidls: set<string>): map<string, bool> {
    map u | u in present.Keys + uidls :: if u in uidls then true else present[u]
  }

  ghost predicate Enabled(s: State, a: Action) {
    match a
    case Arrive(u) => u !in s.ever
    case Leave(u) => true
    case StartSync(p) => p !in s.procs && s.lock.None?
    case ReadListing(p) => p in s.procs && s.procs[p].SyncStarted?
    case MarkKnown(p, known) => p in s.procs && s.procs[p].Syncing? && known <= s.procs[p].listing
    case Register(p, u) => p in s.procs && s.procs[p].Syncing? && u in s.procs[p].listing
    case EndSync(p) => p in s.procs && (s.procs[p].Syncing? || s.procs[p].SyncStarted?)
    case StartAttempt(p, u, _) => p !in s.procs && s.lock.None? && u in s.ever
    // A verdict is a sighting of the maildrop made while the lock was held.
    case Conclude(p, absent) => p in s.procs && s.procs[p].Attempting? && (absent <==> s.procs[p].uidl !in s.maildrop)
    case RecordAbsent(p) => p in s.procs && s.procs[p].Concluded? && s.procs[p].absent
    case RecordPresent(p) => p in s.procs && s.procs[p].Concluded? && !s.procs[p].absent && s.procs[p].looker == Observation
    case RecordOther(p) => p in s.procs && s.procs[p].Concluded?
    case Crash(p) => p in s.procs
  }

  function Apply(s: State, a: Action): State
    requires Enabled(s, a)
  {
    match a
    case Arrive(u) => s.(maildrop := s.maildrop + {u}, ever := s.ever + {u})
    case Leave(u) => s.(maildrop := s.maildrop - {u})
    case StartSync(p) => s.(lock := Some(p), procs := s.procs[p := SyncStarted])
    case ReadListing(p) => s.(procs := s.procs[p := Syncing(s.maildrop)])
    case MarkKnown(p, known) => s.(present := SetAll(s.present, known))
    case Register(p, u) => s.(present := s.present[u := true])
    case EndSync(p) => s.(lock := None, procs := s.procs - {p})
    case StartAttempt(p, u, looker) => s.(lock := Some(p), procs := s.procs[p := Attempting(u, looker)])
    case Conclude(p, absent) => s.(lock := None, procs := s.procs[p := Concluded(s.procs[p].uidl, s.procs[p].looker, absent)])
    case RecordAbsent(p) =>
      s.(present := s.present[s.procs[p].uidl := false], procs := s.procs - {p}, recorded := s.recorded + {s.procs[p].uidl})
    case RecordPresent(p) => s.(present := s.present[s.procs[p].uidl := true], procs := s.procs - {p})
    case RecordOther(p) => s.(procs := s.procs - {p})
    case Crash(p) => s.(lock := if s.lock == Some(p) then None else s.lock, procs := s.procs - {p})
  }

  ghost predicate Step(s: State, a: Action, t: State) {
    Enabled(s, a) && t == Apply(s, a)
  }

  ghost predicate Initial(s: State) {
    s.maildrop <= s.ever && s.lock.None? && s.procs == map[] && s.recorded == {}
  }

  ghost predicate Execution(states: seq<State>, actions: seq<Action>) {
    Linked(Step, states, actions) && Initial(states[0])
  }

  /** The message is gone and no synchronization under way has it in its listing. */
  ghost predicate Settled(s: State, uidl: string) {
    && uidl in s.ever && uidl !in s.maildrop
    && forall p :: p in s.procs && s.procs[p].Syncing? ==> uidl !in s.procs[p].listing
  }

  ghost predicate Inv(s: State) {
    && s.maildrop <= s.ever
    && (forall p :: p in s.procs && !s.procs[p].Concluded? ==> s.lock == Some(p))
    && (s.lock.Some? ==> s.lock.value in s.procs && !s.procs[s.lock.value].Concluded?)
    && (forall p :: p in s.procs && s.procs[p].Attempting? ==> s.procs[p].uidl in s.ever)
    && (forall p :: p in s.procs && s.procs[p].Concluded? && s.procs[p].absent ==> Settled(s, s.procs[p].uidl))
    && (forall u :: u in s.recorded ==> Settled(s, u))
  }

  lemma {:induction false} SettledStays(s: State, a: Action, t: State, uidl: string)
    requires Inv(s) && Step(s, a, t) && Settled(s, uidl)
    ensures Settled(t, uidl)
  {
  }

  lemma {:induction false} StepKeepsInv(s: State, a: Action, t: State)
    requires Inv(s) && Step(s, a, t)
    ensures Inv(t)
  {
    forall p | p in t.procs && t.procs[p].Concluded? && t.procs[p].absent ensures Settled(t, t.procs[p].uidl) {
      if p in s.procs && s.procs[p].Concluded? { SettledStays(s, a, t, t.procs[p].uidl); }
    }
    forall u | u in t.recorded ensures Settled(t, u) {
      if u in s.recorded { SettledStays(s, a, t, u); } else { SettledStays(s, a, t, s.procs[a.p].uidl); }
    }
  }

  lemma {:induction false} ExecutionKeepsInv(states: seq<State>, actions: seq<Action>, n: nat)
    requires Execution(states, actions) && n < |states|
    ensures Inv(states[n])
  {
    if n > 0 {
      ExecutionKeepsInv(states, actions, n - 1);
      assert Step(states[n - 1], actions[n - 1], states[n]);
      StepKeepsInv(states[n - 1], actions[n - 1], states[n]);
    }
  }

  /** The lock is held exactly by the one process that is at the server, so it is free again whenever that
      process has finished there or died. */
  lemma {:induction false} LockIsHeldAtTheServer(states: seq<State>, actions: seq<Action>, n: nat, p: nat)
    requires Execution(states, actions) && n < |states|
    ensures states[n].lock == Some(p) <==> p in states[n].procs && !states[n].procs[p].Concluded?
  {
    ExecutionKeepsInv(states, actions, n);
  }

  /** The rows of these messages now say so, and all others are as before. */
  ghost predicate Wrote(before: map<string, bool>, uidls: set<string>, value: bool, after: map<string, bool>) {
    && (forall u :: u in uidls ==> u in after && after[u] == value)
    && (forall u :: u !in uidls ==> (u in after <==> u in before))
    && (forall u :: u !in uidls && u in before ==> after[u] == before[u])
  }

  /** What each step writes: a synchronization marks messages of its listing present, a record of absence
      marks its message absent, a record of presence marks it present, and nothing else writes a row; and the maildrop changes only by mail that arrives or leaves. */
  lemma {:induction false} RowsAreWritten(states: seq<State>, actions: seq<Action>, n: nat)
    requires Execution(states, actions) && n < |actions|
    ensures Step(states[n], actions[n], states[n + 1])
    ensures var s, a, before, after := states[n], actions[n], states[n].present, states[n + 1].present;
            match a
            case MarkKnown(p, known) => known <= s.procs[p].listing && Wrote(before, known, true, after)
            case Register(p, u) => u in s.procs[p].listing && Wrote(before, {u}, true, after)
            case RecordAbsent(p) => s.procs[p].absent && Wrote(before, {s.procs[p].uidl}, false, after)
            case RecordPresent(p) => !s.procs[p].absent && Wrote(before, {s.procs[p].uidl}, true, after)
            case _ => after == before
    ensures var s, a, after := states[n], actions[n], states[n + 1].maildrop;
            after == if a.Arrive? then s.maildrop + {a.uidl} else if a.Leave? then s.maildrop - {a.uidl} else s.maildrop
  {
    assert Step(states[n], actions[n], states[n + 1]);
  }

  /** A row stops saying that its message is present only when a confirmed absence of that message is
      recorded, and then the message is gone; no step of any synchronization does it. */
  lemma {:induction false} OnlyARecordedAbsenceHides(states: seq<State>, actions: seq<Action>, n: nat, uidl: string)
    requires Execution(states, actions) && n < |actions|
    requires uidl in states[n].present && states[n].present[uidl]
    requires !(uidl in states[n + 1].present && states[n + 1].present[uidl])
    ensures actions[n].RecordAbsent? && actions[n].p in states[n].procs
    ensures states[n].procs[actions[n].p].Concluded? && states[n].procs[actions[n].p].absent && states[n].procs[actions[n].p].uidl == uidl
    ensures uidl in states[n + 1].present && uidl in states[n].ever && uidl !in states[n].maildrop
  {
    ExecutionKeepsInv(states, actions, n);
    RowsAreWritten(states, actions, n);
    assert Settled(states[n], states[n].procs[actions[n].p].uidl);
  }

  /** Once a message's absence has been recorded, the only step that can mark it present again is the
      recording of a presence observed earlier; no step of any synchronization or deletion can. */
  lemma {:induction false} OnlyAStaleSightingRevives(states: seq<State>, actions: seq<Action>, n: nat, uidl: string)
    requires Execution(states, actions) && n < |actions| && uidl in states[n].recorded
    requires uidl in states[n].present ==> !states[n].present[uidl]
    requires uidl in states[n + 1].present && states[n + 1].present[uidl]
    ensures actions[n].RecordPresent? && actions[n].p in states[n].procs
    ensures states[n].procs[actions[n].p] == Concluded(uidl, Observation, false)
  {
    ExecutionKeepsInv(states, actions, n);
    assert Step(states[n], actions[n], states[n + 1]);
    assert Settled(states[n], uidl);
  }

  /** An observation has seen the message and has not been recorded yet. */
  ghost predicate Sighted(s: State, uidl: string) {
    exists p :: p in s.procs && s.procs[p] == Concluded(uidl, Observation, false)
  }

  /** The message's absence has been confirmed and recorded, and its row says so. */
  ghost predicate MarkedAbsent(s: State, uidl: string) {
    uidl in s.recorded && uidl in s.present && !s.present[uidl]
  }

  /** With nothing sighted, no step of any process undoes a recorded absence, or sights the message. */
  lemma {:induction false} StepKeepsAbsence(s: State, a: Action, t: State, uidl: string)
    requires Inv(s) && Step(s, a, t) && MarkedAbsent(s, uidl) && !Sighted(s, uidl)
    ensures MarkedAbsent(t, uidl) && !Sighted(t, uidl)
  {
    assert Settled(s, uidl);
    forall p | p in t.procs ensures t.procs[p] != Concluded(uidl, Observation, false) {
      assert p in s.procs ==> s.procs[p] != Concluded(uidl, Observation, false);
    }
  }

  /** In every interleaving of synchronizations, deletions and reconciliations, with crashes anywhere: an
      absence that is recorded while no observation holds an earlier sighting of the message stays for ever. */
  lemma {:induction false} AbsenceIsNeverUndone(states: seq<State>, actions: seq<Action>, n: nat, m: nat, uidl: string)
    requires Execution(states, actions) && n <= m < |states|
    requires MarkedAbsent(states[n], uidl) && !Sighted(states[n], uidl)
    ensures MarkedAbsent(states[m], uidl) && !Sighted(states[m], uidl)
    decreases m
  {
    if n < m {
      AbsenceIsNeverUndone(states, actions, n, m - 1, uidl);
      ExecutionKeepsInv(states, actions, m - 1);
      assert Step(states[m - 1], actions[m - 1], states[m]);
      StepKeepsAbsence(states[m - 1], actions[m - 1], states[m], uidl);
    }
  }

  lemma {:induction false} Extend(states: seq<State>, actions: seq<Action>, a: Action) returns (next: seq<State>, done: seq<Action>)
    requires Execution(states, actions) && Enabled(states[|states| - 1], a)
    ensures Execution(next, done) && states <= next && |next| == |states| + 1
    ensures next[|next| - 1] == Apply(states[|states| - 1], a)
  {
    next, done := states + [Apply(states[|states| - 1], a)], actions + [a];
    OneMoreLink(Step, states, actions, a, Apply(states[|states| - 1], a));
  }

  /** A continuation that ends with the message marked present. */
  ghost predicate EndsRevived(states: seq<State>, next: seq<State>, done: seq<Action>, uidl: string) {
    && Execution(next, done) && states <= next
    && uidl in next[|next| - 1].present && next[|next| - 1].present[uidl]
  }

  /** A recorded absence can be undone if and only if, at that moment, some observation of the message has
      seen it and has not been recorded yet. */
  lemma {:induction false} AbsenceSurvivesIff(states: seq<State>, actions: seq<Action>, uidl: string)
    requires Execution(states, actions) && MarkedAbsent(states[|states| - 1], uidl)
    ensures (exists next: seq<State>, done: seq<Action> :: EndsRevived(states, next, done, uidl)) <==> Sighted(states[|states| - 1], uidl)
  {
    if Sighted(states[|states| - 1], uidl) {
      var p :| p in states[|states| - 1].procs && states[|states| - 1].procs[p] == Concluded(uidl, Observation, false);
      var next, done := Extend(states, actions, RecordPresent(p));
      assert EndsRevived(states, next, done, uidl);
    } else {
      forall next: seq<State>, done: seq<Action> | Execution(next, done) && states <= next ensures !EndsRevived(states, next, done, uidl) {
        assert next[|states| - 1] == states[|states| - 1];
        AbsenceIsNeverUndone(next, done, |states| - 1, |next| - 1, uidl);
      }
    }
  }

  /** With two reconciliations of the same message the guarantee fails: one sees the message and is
      slow to record, the message is removed, the other confirms and records its absence, and then the
      first marks it present although it is gone. */
  lemma {:induction false} TwoReconciliationsRevive(uidl: string) returns (states: seq<State>, actions: seq<Action>)
    ensures Execution(states, actions)
    ensures var last := states[|states| - 1]; uidl in last.recorded && uidl !in last.maildrop && uidl in last.present && last.present[uidl]
  {
    states, actions := [State({uidl}, {uidl}, map[uidl := true], None, map[], {})], [];
    states, actions := Extend(states, actions, StartAttempt(0, uidl, Observation));
    states, actions := Extend(states, actions, Conclude(0, false));
    states, actions := Extend(states, actions, Leave(uidl));
    states, actions := Extend(states, actions, StartAttempt(1, uidl, Observation));
    states, actions := Extend(states, actions, Conclude(1, true));
    states, actions := Extend(states, actions, RecordAbsent(1));
    states, actions := Extend(states, actions, RecordPresent(0));
  }

  /** A deletion that is slow to record its failure does no such harm: it has seen the message, the message
      is removed, another deletion confirms and records the absence, and nothing can undo that. */
  lemma {:induction false} SlowFailureIsHarmless(uidl: string) returns (states: seq<State>, actions: seq<Action>)
    ensures Execution(states, actions)
    ensures var last := states[|states| - 1];
            && 0 in last.procs && last.procs[0] == Concluded(uidl, Deletion, false)
            && uidl !in last.maildrop && MarkedAbsent(last, uidl)
    ensures !exists next: seq<State>, done: seq<Action> :: EndsRevived(states, next, done, uidl)
  {
    states, actions := [State({uidl}, {uidl}, map[uidl := true], None, map[], {})], [];
    states, actions := Extend(states, actions, StartAttempt(0, uidl, Deletion));
    states, actions := Extend(states, actions, Conclude(0, false));
    states, actions := Extend(states, actions, Leave(uidl));
    states, actions := Extend(states, actions, StartAttempt(1, uidl, Deletion));
    states, actions := Extend(states, actions, Conclude(1, true));
    states, actions := Extend(states, actions, RecordAbsent(1));
    AbsenceSurvivesIff(states, actions, uidl);
  }
}
