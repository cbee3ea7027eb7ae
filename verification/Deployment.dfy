/** The executor's attempt on one row carried out by the provider adapters: the engine and the provider's
    server, which are proved apart in `EngineTheorems` and in the three adapter modules, put together
    (remote_mutation.py, `_execute_serial`; the `delete` methods of the adapters).

    The engine knows a provider's mailbox as a set of identities.  Before a call the two agree about the
    message to be deleted; whatever other processes and clients do between two commits happens to both. */
module Deployment {
  import opened Base
  import opened Verdicts
  import opened Targets
  import opened Engine
  import opened EngineSafety
  import opened EngineHistory
  import opened EngineTheorems
  import opened Executor
  import Gmail = GmailMutation
  import Imap = ImapMutation
  import Pop3 = Pop3Mutation

  /** Where the message of a row is filed. */
  function RowIdentity(s: State, run: nat, i: nat): Identity
    requires RowExists(s, run, i)
  {
    IdentityOf(s.runs[run].rows[i].target)
  }

  /** The engine's mailbox and the server agree about the row's message. */
  predicate Agrees(s: State, run: nat, i: nat, gone: bool) {
    RowExists(s, run, i) && (RowIdentity(s, run, i) in s.mailbox <==> !gone)
  }

  /** Of the run, only the status of row `i` has changed. */
  predicate OnlyRow(s: State, t: State, run: nat, i: nat) {
    RowExists(s, run, i) && RowExists(t, run, i) && t.runs[run].rows == s.runs[run].rows[i := s.runs[run].rows[i].(status := t.runs[run].rows[i].status)]
  }

  lemma {:induction false} OnlyRowTwice(s: State, t: State, u: State, run: nat, i: nat)
    requires OnlyRow(s, t, run, i) && OnlyRow(t, u, run, i)
    ensures OnlyRow(s, u, run, i)
  {
  }

  /** The answer is recorded as success. */
  predicate Confirms(answer: Option<MutationResult>) {
    answer.Some? && Normalize(answer.value, None).status == Succeeded
  }

  /** One call, the whole of which the engine sees as one step: its answer, and whether the message is gone
      afterwards. */
  function CallOf(p: nat, answer: Option<MutationResult>, gone: bool): Action {
    CallProvider(p, if answer.Some? then answer.value else Uncertain(), answer.None?, gone)
  }

  /** Commits `started`; afterwards a message the engine still has was there before. */
  method Commit(db: Database, p: nat, run: nat, i: nat)
    requires db.Valid() && p in db.s.procs && db.s.procs[p].Matched? && db.s.procs[p].run == run && db.s.procs[p].i == i
    modifies db
    ensures db.Valid() && old(db.states) <= db.states && RowExists(db.s, run, i) && old(RowExists(db.s, run, i))
    ensures p in db.s.procs && db.s.procs[p].Calling? && db.s.procs[p].run == run && db.s.procs[p].i == i
    ensures RowIdentity(db.s, run, i) == old(RowIdentity(db.s, run, i))
    ensures RowIdentity(db.s, run, i) in db.s.mailbox ==> old(RowIdentity(db.s, run, i) in db.s.mailbox)
    ensures OnlyRow(old(db.s), db.s, run, i)
  {
    ghost var n := |db.states| - 1;
    ghost var before := db.s;
    db.Commit(p, run, i);
    ExecutionKeepsInv(db.states, db.actions, n);
    assert RowOk(before, before.runs[run].rows[i]);
    if RowIdentity(before, run, i) !in before.mailbox {
      GoneIsForEver(db.states, db.actions, n, |db.states| - 1, RowIdentity(before, run, i));
    }
  }

  /** What is recorded of an answer; an exception, or a record that fails, leaves the outcome unknown. */
  function StatusOf(answer: Option<MutationResult>, recorded: bool): RowStatus {
    if answer.None? || !recorded || !Normalize(answer.value, None).Recorded? then Unknown else Normalize(answer.value, None).status
  }

  /** A row's message that is gone after a step is gone in the end. */
  lemma {:induction false} StaysGone(states: seq<State>, actions: seq<Action>, n: nat, m: nat, id: Identity, run: nat, i: nat)
    requires Execution(states, actions) && n <= m < |states| && RowExists(states[n], run, i) && RowIdentity(states[n], run, i) == id
    requires id !in states[m].mailbox
    ensures id !in states[|states| - 1].mailbox
  {
    ExecutionKeepsInv(states, actions, n);
    assert RowOk(states[n], states[n].runs[run].rows[i]);
    EverIsKept(states, actions, n, m, id);
    GoneIsForEver(states, actions, m, |states| - 1, id);
  }

  lemma {:induction false} EverIsKept(states: seq<State>, actions: seq<Action>, n: nat, m: nat, id: Identity)
    requires Execution(states, actions) && n <= m < |states| && id in states[n].ever
    ensures id in states[m].ever
    decreases m
  {
    if n < m {
      EverIsKept(states, actions, n, m - 1, id);
      assert Step(states[m - 1], actions[m - 1], states[m]);
      IdentitiesAreNotReused(states[m - 1], actions[m - 1], states[m]);
    }
  }

  /** The call and the record of its outcome.  A call whose answer is true is honest; the row gets the
      status of the answer, and the executor goes on exactly if that is success. */
  method Conclude(db: Database, p: nat, run: nat, i: nat, answer: Option<MutationResult>, gone: bool, recorded: bool) returns (goOn: bool)
    requires db.Valid() && p in db.s.procs && db.s.procs[p].Calling? && db.s.procs[p].run == run && db.s.procs[p].i == i
    requires RowExists(db.s, run, i) && (Confirms(answer) ==> gone)
    modifies db
    ensures db.Valid() && |db.states| > |old(db.states)| && old(db.states) <= db.states
    ensures Enabled(old(db.s), CallOf(p, answer, gone)) && Honest(old(db.s), CallOf(p, answer, gone))
    ensures db.states[|old(db.states)|] == Apply(old(db.s), CallOf(p, answer, gone))
    ensures OnlyRow(old(db.s), db.s, run, i) && db.s.runs[run].rows[i].status == StatusOf(answer, recorded)
    ensures gone ==> old(RowIdentity(db.s, run, i)) !in db.s.mailbox
    ensures goOn <==> StatusOf(answer, recorded) == Succeeded
    ensures if goOn then p in db.s.procs && db.s.procs[p] == Picking(run) else p !in db.s.procs && db.s.runs[run].status == RunHalted
  {
    ghost var first, n := db.s, |db.states|;
    db.Do(CallOf(p, answer, gone));
    goOn := Record(db, p, run, i, answer, recorded);
    if gone {
      StaysGone(db.states, db.actions, n - 1, n, RowIdentity(first, run, i), run, i);
    }
  }

  /** The record of a returned call. */
  method Record(db: Database, p: nat, run: nat, i: nat, answer: Option<MutationResult>, recorded: bool) returns (goOn: bool)
    requires db.Valid() && p in db.s.procs && RowExists(db.s, run, i)
    requires db.s.procs[p] == Returned(run, i, if answer.Some? then answer.value else Uncertain(), if answer.Some? then None else Some(AdapterException))
    modifies db
    ensures db.Valid() && old(db.states) <= db.states
    ensures OnlyRow(old(db.s), db.s, run, i) && db.s.runs[run].rows[i].status == StatusOf(answer, recorded)
    ensures goOn <==> StatusOf(answer, recorded) == Succeeded
    ensures if goOn then p in db.s.procs && db.s.procs[p] == Picking(run) else p !in db.s.procs && db.s.runs[run].status == RunHalted
  {
    if !recorded && answer.Some? { db.RaiseInstead(p, run, i); }
    goOn := db.Settle(p, run, i);
  }

  /** The process has taken this honest look at the row's message. */
  twostate predicate Looked(db: Database, p: nat, run: nat, i: nat, answer: Observation)
    reads db
  {
    && db.Valid() && old(db.states) <= db.states && |db.states| >= 2 && db.s.runs == old(db.s.runs)
    && Enabled(db.states[|db.states| - 2], Observe(p, answer)) && Honest(db.states[|db.states| - 2], Observe(p, answer))
    && db.s == Apply(db.states[|db.states| - 2], Observe(p, answer))
    && p in db.s.procs && db.s.procs[p].Observed? && db.s.procs[p].run == run && db.s.procs[p].i == i && db.s.procs[p].answer == answer
  }

  /** A look at the row's message, taken by a reconciliation: what is gone at the server by then is gone for
      the engine, and an answer that is true is honest. */
  method Look(db: Database, p: nat, run: nat, i: nat, answer: Observation, gone: bool)
    requires db.Valid() && p in db.s.procs && db.s.procs[p].Observing? && db.s.procs[p].run == run && db.s.procs[p].i == i
    requires RowExists(db.s, run, i) && (answer == ObservedAbsent ==> gone)
    modifies db
    ensures Looked(db, p, run, i, answer) && (gone ==> RowIdentity(db.s, run, i) !in db.s.mailbox)
  {
    if gone { db.Do(MailLeaves(RowIdentity(db.s, run, i))); }
    db.Do(Observe(p, answer));
  }

  // --- The three adapters ---

  /** The answer is recorded as a confirmed failure. */
  predicate Rejects(answer: Option<MutationResult>) {
    answer.Some? && Normalize(answer.value, None).status == Failed
  }

  /** The answer of the Gmail adapter, as it will be recorded. */
  method AskGmail(adapter: Gmail.Adapter, target: Gmail.Target, lockFree: bool) returns (answer: Option<MutationResult>)
    modifies adapter`valid, adapter.server`mailbox, adapter.server`inFlight, adapter.server`events
    ensures Gmail.OnlyTouches(old(adapter.server.mailbox), adapter.server.mailbox, target.id)
    ensures Gmail.Disciplined(old(adapter.server.events), adapter.server.events, target)
    ensures answer.Some? ==> Normalize(answer.value, None).Recorded? && Normalize(answer.value, None).status in {Succeeded, Failed, Unknown}
    ensures Confirms(answer) ==> adapter.server.Gone(target)
    ensures Rejects(answer) ==> Gmail.ReadOnly(old(adapter.server.events), adapter.server.events) || adapter.server.Present(target)
    ensures (&& adapter.server.cooperative && !old(adapter.server.inFlight) && adapter.Accepts(target) && lockFree
             && (adapter.refreshable || old(adapter.valid)) && adapter.server.email == adapter.email
             && old(adapter.server.Gone(target) || adapter.server.Present(target))) ==> Confirms(answer)
  {
    answer := adapter.Delete(target, lockFree);
    if answer.Some? { NormalizeIsFaithful(answer.value); }
  }

  /** An attempt through the Gmail adapter.  A row marked succeeded names a message that is gone at the
      service, and for the engine for ever; a row marked failed names one that was not touched or was last
      seen there; a cooperative service leads to success wherever the message is gone or byte-equal. */
  method AttemptByGmail(db: Database, adapter: Gmail.Adapter, p: nat, run: nat, i: nat, target: Gmail.Target, lockFree: bool, recorded: bool)
    returns (goOn: bool)
    requires db.Valid() && p in db.s.procs && db.s.procs[p].Matched? && db.s.procs[p].run == run && db.s.procs[p].i == i
    requires Agrees(db.s, run, i, target.id !in adapter.server.mailbox)
    modifies db, adapter`valid, adapter.server`mailbox, adapter.server`inFlight, adapter.server`events
    ensures db.Valid() && old(db.states) <= db.states && OnlyRow(old(db.s), db.s, run, i)
    ensures Gmail.OnlyTouches(old(adapter.server.mailbox), adapter.server.mailbox, target.id)
    ensures Gmail.Disciplined(old(adapter.server.events), adapter.server.events, target)
    ensures var status := db.s.runs[run].rows[i].status;
            && (goOn <==> status == Succeeded)
            && (status == Succeeded ==> adapter.server.Gone(target) && old(RowIdentity(db.s, run, i)) !in db.s.mailbox)
            && (status == Failed ==> Gmail.ReadOnly(old(adapter.server.events), adapter.server.events) || adapter.server.Present(target))
            && status in {Succeeded, Failed, Unknown}
    ensures if goOn then p in db.s.procs && db.s.procs[p] == Picking(run) else p !in db.s.procs && db.s.runs[run].status == RunHalted
    ensures (&& adapter.server.cooperative && !old(adapter.server.inFlight) && recorded && adapter.Accepts(target) && lockFree
             && (adapter.refreshable || old(adapter.valid)) && adapter.server.email == adapter.email
             && old(adapter.server.Gone(target) || adapter.server.Present(target))) ==> goOn
  {
    Commit(db, p, run, i);
    ghost var started := db.s;
    if RowIdentity(db.s, run, i) !in db.s.mailbox { adapter.server.Vanish(target.id); }
    var answer := AskGmail(adapter, target, lockFree);
    goOn := Conclude(db, p, run, i, answer, target.id !in adapter.server.mailbox, recorded);
    OnlyRowTwice(old(db.s), started, db.s, run, i);
  }

  method AskImap(adapter: Imap.Adapter, target: Imap.Target, lockFree: bool) returns (answer: Option<MutationResult>)
    modifies adapter.server
    ensures Imap.Disciplined(old(adapter.server.events), adapter.server.events, target)
    ensures answer.Some? && Normalize(answer.value, None).Recorded? && Normalize(answer.value, None).status in {Succeeded, Failed, Unknown}
    ensures Confirms(answer) ==> adapter.server.Gone(target)
    ensures Rejects(answer) ==>
              Imap.Mutations(adapter.server.events) == old(Imap.Mutations(adapter.server.events)) || adapter.server.Untouched(target)
    ensures (&& adapter.server.cooperative && adapter.server.uidplus && adapter.Valid(target) && adapter.hasPassword && lockFree
             && old(adapter.server.Gone(target) || adapter.server.Untouched(target))) ==> Confirms(answer)
  {
    var result := adapter.Delete(target, lockFree);
    NormalizeIsFaithful(result);
    answer := Some(result);
  }

  /** An attempt through the IMAP adapter, on the same terms. */
  method AttemptByImap(db: Database, adapter: Imap.Adapter, p: nat, run: nat, i: nat, target: Imap.Target, lockFree: bool, recorded: bool)
    returns (goOn: bool)
    requires db.Valid() && p in db.s.procs && db.s.procs[p].Matched? && db.s.procs[p].run == run && db.s.procs[p].i == i
    requires Agrees(db.s, run, i, adapter.server.uidvalidity != target.uidvalidity || target.uid !in adapter.server.mailbox)
    modifies db, adapter.server
    ensures db.Valid() && old(db.states) <= db.states && OnlyRow(old(db.s), db.s, run, i)
    ensures Imap.Disciplined(old(adapter.server.events), adapter.server.events, target)
    ensures var status := db.s.runs[run].rows[i].status;
            && (goOn <==> status == Succeeded)
            && (status == Succeeded ==> adapter.server.Gone(target) && old(RowIdentity(db.s, run, i)) !in db.s.mailbox)
            && (status == Failed ==>
                  Imap.Mutations(adapter.server.events) == old(Imap.Mutations(adapter.server.events)) || adapter.server.Untouched(target))
            && status in {Succeeded, Failed, Unknown}
    ensures if goOn then p in db.s.procs && db.s.procs[p] == Picking(run) else p !in db.s.procs && db.s.runs[run].status == RunHalted
    ensures (&& adapter.server.cooperative && adapter.server.uidplus && recorded && adapter.Valid(target) && adapter.hasPassword && lockFree
             && old(adapter.server.Gone(target) || adapter.server.Untouched(target))) ==> goOn
  {
    Commit(db, p, run, i);
    ghost var started := db.s;
    if RowIdentity(db.s, run, i) !in db.s.mailbox { adapter.server.Vanish(target.uid); }
    var answer := AskImap(adapter, target, lockFree);
    var gone := adapter.server.uidvalidity != target.uidvalidity || target.uid !in adapter.server.mailbox;
    goOn := Conclude(db, p, run, i, answer, gone, recorded);
    OnlyRowTwice(old(db.s), started, db.s, run, i);
  }

  method AskPop3(adapter: Pop3.Adapter, target: Pop3.Target, lockFree: bool) returns (answer: Option<MutationResult>)
    requires adapter.server.Valid() && !adapter.server.inSession
    modifies adapter.server
    ensures adapter.server.Valid() && !adapter.server.inSession
    ensures Pop3.Disciplined(old(adapter.server.events), adapter.server.events, target.uidl)
    ensures answer.Some? && Normalize(answer.value, None).Recorded? && Normalize(answer.value, None).status in {Succeeded, Failed, Unknown}
    ensures Confirms(answer) ==> adapter.server.Gone(target)
    ensures Rejects(answer) ==>
              || adapter.server.events == old(adapter.server.events) || adapter.server.events == old(adapter.server.events) + [Pop3.Aborted]
              || adapter.server.Untouched(target)
    ensures (&& adapter.server.cooperative && adapter.Accepts(target) && adapter.hasPassword && lockFree
             && old(adapter.server.owed == {} && (adapter.server.Gone(target) || adapter.server.Untouched(target)))) ==> Confirms(answer)
  {
    var result := adapter.Delete(target, lockFree);
    NormalizeIsFaithful(result);
    answer := Some(result);
  }

  /** An attempt through the POP3 adapter, on the same terms. */
  method AttemptByPop3(db: Database, adapter: Pop3.Adapter, p: nat, run: nat, i: nat, target: Pop3.Target, lockFree: bool, recorded: bool)
    returns (goOn: bool)
    requires db.Valid() && p in db.s.procs && db.s.procs[p].Matched? && db.s.procs[p].run == run && db.s.procs[p].i == i
    requires adapter.server.Valid() && !adapter.server.inSession
    requires Agrees(db.s, run, i, target.uidl !in adapter.server.maildrop)
    modifies db, adapter.server
    ensures db.Valid() && old(db.states) <= db.states && OnlyRow(old(db.s), db.s, run, i) && adapter.server.Valid() && !adapter.server.inSession
    ensures Pop3.Disciplined(old(adapter.server.events), adapter.server.events, target.uidl)
    ensures var status := db.s.runs[run].rows[i].status;
            && (goOn <==> status == Succeeded)
            && (status == Succeeded ==> adapter.server.Gone(target) && old(RowIdentity(db.s, run, i)) !in db.s.mailbox)
            && (status == Failed ==>
                  || adapter.server.events == old(adapter.server.events) || adapter.server.events == old(adapter.server.events) + [Pop3.Aborted]
                  || adapter.server.Untouched(target))
            && status in {Succeeded, Failed, Unknown}
    ensures if goOn then p in db.s.procs && db.s.procs[p] == Picking(run) else p !in db.s.procs && db.s.runs[run].status == RunHalted
    ensures (&& adapter.server.cooperative && recorded && adapter.Accepts(target) && adapter.hasPassword && lockFree
             && old(adapter.server.owed == {} && (adapter.server.Gone(target) || adapter.server.Untouched(target)))) ==> goOn
  {
    Commit(db, p, run, i);
    ghost var started := db.s;
    if RowIdentity(db.s, run, i) !in db.s.mailbox { adapter.server.Vanish(target.uidl); }
    var answer := AskPop3(adapter, target, lockFree);
    goOn := Conclude(db, p, run, i, answer, target.uidl !in adapter.server.maildrop, recorded);
    OnlyRowTwice(old(db.s), started, db.s, run, i);
  }

  // --- Their observers ---

  /** An observation through the Gmail adapter; an exception counts as unknown. */
  method ObserveByGmail(db: Database, adapter: Gmail.Adapter, p: nat, run: nat, i: nat, target: Gmail.Target, lockFree: bool) returns (answer: Observation)
    requires db.Valid() && p in db.s.procs && db.s.procs[p].Observing? && db.s.procs[p].run == run && db.s.procs[p].i == i && RowExists(db.s, run, i)
    modifies db, adapter`valid, adapter.server`mailbox, adapter.server`inFlight, adapter.server`events
    ensures Looked(db, p, run, i, answer) && Gmail.ReadOnly(old(adapter.server.events), adapter.server.events)
    ensures answer == ObservedAbsent ==> adapter.server.Gone(target) && RowIdentity(db.s, run, i) !in db.s.mailbox
    ensures answer == ObservedPresentMatch ==> adapter.server.Present(target)
  {
    var seen := adapter.Observe(target, lockFree);
    answer := if seen.Some? then seen.value else ObservedUnknown;
    Look(db, p, run, i, answer, target.id !in adapter.server.mailbox);
  }

  method ObserveByImap(db: Database, adapter: Imap.Adapter, p: nat, run: nat, i: nat, target: Imap.Target, lockFree: bool) returns (answer: Observation)
    requires db.Valid() && p in db.s.procs && db.s.procs[p].Observing? && db.s.procs[p].run == run && db.s.procs[p].i == i && RowExists(db.s, run, i)
    modifies db, adapter.server
    ensures Looked(db, p, run, i, answer) && Imap.Mutations(adapter.server.events) == old(Imap.Mutations(adapter.server.events))
    ensures answer == ObservedAbsent ==> adapter.server.Gone(target) && RowIdentity(db.s, run, i) !in db.s.mailbox
    ensures answer == ObservedPresentMatch ==> adapter.server.Untouched(target)
  {
    answer := adapter.Observe(target, lockFree);
    Look(db, p, run, i, answer, adapter.server.uidvalidity != target.uidvalidity || target.uid !in adapter.server.mailbox);
  }

  method ObserveByPop3(db: Database, adapter: Pop3.Adapter, p: nat, run: nat, i: nat, target: Pop3.Target, lockFree: bool) returns (answer: Observation)
    requires db.Valid() && p in db.s.procs && db.s.procs[p].Observing? && db.s.procs[p].run == run && db.s.procs[p].i == i && RowExists(db.s, run, i)
    requires adapter.server.Valid() && !adapter.server.inSession
    modifies db, adapter.server
    ensures Looked(db, p, run, i, answer) && adapter.server.Valid() && !adapter.server.inSession
    ensures adapter.server.events == old(adapter.server.events) || adapter.server.events == old(adapter.server.events) + [Pop3.Aborted]
    ensures answer == ObservedAbsent ==> adapter.server.Gone(target) && RowIdentity(db.s, run, i) !in db.s.mailbox
    ensures answer == ObservedPresentMatch ==> adapter.server.Untouched(target)
  {
    answer := adapter.Observe(target, lockFree);
    Look(db, p, run, i, answer, target.uidl !in adapter.server.maildrop);
  }
}
