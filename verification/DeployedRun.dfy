/** A whole run carried out by one provider adapter, from its insertion to its end
    (remote_mutation.py, `execute_production_plan` and `_execute_serial`).

    The loop is the executor's; each attempt goes through the adapter, on the message that the row's own
    facts name.  The engine's mailbox and the server's are two views of one mailbox: what has left one
    between two commits has left the other.  Nothing is asked of the other processes. */
module DeployedRun {
  import opened Base
  import opened Verdicts
  import opened Targets
  import opened Engine
  import opened EngineSafety
  import opened EngineHistory
  import opened EngineTheorems
  import opened Executor
  import opened Deployment
  import Gmail = GmailMutation
  import Imap = ImapMutation
  import Pop3 = Pop3Mutation

  /** The adapter of one account.  An IMAP adapter selects the folder of the target; each configured
      folder is a server object of its own. */
  datatype Adapter =
    | ByGmail(gmail: Gmail.Adapter)
    | ByImap(folders: map<string, Imap.Adapter>)
    | ByPop3(pop3: Pop3.Adapter)

  datatype Provider = Provider(accountId: int, accountName: string, adapter: Adapter)

  function Footprint(provider: Provider): set<object> {
    match provider.adapter
    case ByGmail(gmail) => {gmail, gmail.server}
    case ByImap(folders) => set f | f in folders :: folders[f].server
    case ByPop3(pop3) => {pop3.server}
  }

  /** No POP3 session is open between two calls. */
  ghost predicate Ready(provider: Provider)
    reads Footprint(provider)
  {
    provider.adapter.ByPop3? ==> provider.adapter.pop3.server.Valid() && !provider.adapter.pop3.server.inSession
  }

  /** The target is one of this account and of a kind and folder that its adapter serves. */
  predicate Serves(provider: Provider, target: Target) {
    && target.accountId == provider.accountId && target.accountName == provider.accountName
    && match provider.adapter
       case ByGmail(_) => target.providerKind == "gmail" && target.facts.ProviderFacts?
       case ByImap(folders) =>
         && target.providerKind == "imap" && target.facts.ImapFacts? && target.facts.folder in folders
         && target.facts.uidvalidity > 0 && target.facts.uid > 0
       case ByPop3(_) => target.providerKind == "pop3" && target.facts.ProviderFacts?
  }

  /** The message that the target's facts name is not at the server. */
  predicate Lacks(provider: Provider, target: Target)
    requires Serves(provider, target)
    reads Footprint(provider)
  {
    match provider.adapter
    case ByGmail(gmail) => target.facts.messageId !in gmail.server.mailbox
    case ByImap(folders) =>
      var server := folders[target.facts.folder].server;
      server.uidvalidity != target.facts.uidvalidity || target.facts.uid !in server.mailbox
    case ByPop3(pop3) => target.facts.messageId !in pop3.server.maildrop
  }

  function GmailTarget(target: Target, digestOf: string -> Digest): Gmail.Target
    requires target.facts.ProviderFacts?
  {
    Gmail.Target(target.facts.messageId, digestOf(target.canonicalSha256))
  }

  function ImapTarget(target: Target, digestOf: string -> Digest): Imap.Target
    requires target.facts.ImapFacts? && target.facts.uidvalidity > 0 && target.facts.uid > 0
  {
    Imap.Target(target.facts.uidvalidity, target.facts.uid, digestOf(target.canonicalSha256))
  }

  function Pop3Target(target: Target, digestOf: string -> Digest): Pop3.Target
    requires target.facts.ProviderFacts?
  {
    Pop3.Target(target.facts.messageId, digestOf(target.canonicalSha256))
  }

  /** The adapter has held its permitted conversation about the message that the target's facts name, and
      has held it for the bytes with the target's digest. */
  twostate predicate Conversed(provider: Provider, target: Target, digestOf: string -> Digest)
    requires Serves(provider, target)
    reads Footprint(provider)
  {
    match provider.adapter
    case ByGmail(gmail) => Gmail.Disciplined(old(gmail.server.events), gmail.server.events, GmailTarget(target, digestOf))
    case ByImap(folders) =>
      var server := folders[target.facts.folder].server;
      Imap.Disciplined(old(server.events), server.events, ImapTarget(target, digestOf))
    case ByPop3(pop3) => Pop3.Disciplined(old(pop3.server.events), pop3.server.events, target.facts.messageId)
  }

  // --- One attempt ---

  /** What an attempt leaves behind: only its row has changed; it goes on exactly if that row succeeded,
      and then its message is gone; otherwise the run is over. */
  twostate predicate Tried(db: Database, p: nat, run: nat, i: nat, goOn: bool)
    reads db
  {
    && db.Valid() && old(db.states) <= db.states && OnlyRow(old(db.s), db.s, run, i)
    && (goOn <==> db.s.runs[run].rows[i].status == Succeeded)
    && (goOn ==> RowIdentity(db.s, run, i) !in db.s.mailbox)
    && (if goOn then p in db.s.procs && db.s.procs[p] == Picking(run) else p !in db.s.procs && db.s.runs[run].status == RunHalted)
  }

  /** What has left the server has left the engine's mailbox. */
  method Align(db: Database, id: Identity, gone: bool)
    requires db.Valid()
    modifies db
    ensures db.Valid() && old(db.states) <= db.states && db.s == old(db.s).(mailbox := db.s.mailbox)
    ensures db.s.mailbox == if gone then old(db.s.mailbox) - {id} else old(db.s.mailbox)
  {
    if gone { db.Do(MailLeaves(id)); }
  }

  /** A target that the adapter does not serve is refused before anything is sent. */
  method Refuse(db: Database, p: nat, run: nat, i: nat, recorded: bool)
    requires db.Valid() && p in db.s.procs && db.s.procs[p].Matched? && db.s.procs[p].run == run && db.s.procs[p].i == i
    modifies db
    ensures Tried(db, p, run, i, false)
  {
    Commit(db, p, run, i);
    ghost var started := db.s;
    var goOn := Conclude(db, p, run, i, Some(Failure(IdentityMismatch)), false, recorded);
    OnlyRowTwice(old(db.s), started, db.s, run, i);
  }

  method TryGmail(db: Database, adapter: Gmail.Adapter, p: nat, run: nat, i: nat, target: Gmail.Target, lockFree: bool, recorded: bool) returns (goOn: bool)
    requires db.Valid() && p in db.s.procs && db.s.procs[p].Matched? && db.s.procs[p].run == run && db.s.procs[p].i == i && RowExists(db.s, run, i)
    modifies db, adapter, adapter.server
    ensures Tried(db, p, run, i, goOn) && (goOn ==> target.id !in adapter.server.mailbox)
    ensures Gmail.Disciplined(old(adapter.server.events), adapter.server.events, target)
  {
    Align(db, RowIdentity(db.s, run, i), target.id !in adapter.server.mailbox);
    if RowIdentity(db.s, run, i) !in db.s.mailbox { adapter.server.Vanish(target.id); }
    goOn := AttemptByGmail(db, adapter, p, run, i, target, lockFree, recorded);
  }

  method TryImap(db: Database, adapter: Imap.Adapter, p: nat, run: nat, i: nat, target: Imap.Target, lockFree: bool, recorded: bool) returns (goOn: bool)
    requires db.Valid() && p in db.s.procs && db.s.procs[p].Matched? && db.s.procs[p].run == run && db.s.procs[p].i == i && RowExists(db.s, run, i)
    modifies db, adapter.server
    ensures Tried(db, p, run, i, goOn)
    ensures Imap.Disciplined(old(adapter.server.events), adapter.server.events, target)
    ensures goOn ==> adapter.server.uidvalidity != target.uidvalidity || target.uid !in adapter.server.mailbox
  {
    Align(db, RowIdentity(db.s, run, i), adapter.server.uidvalidity != target.uidvalidity || target.uid !in adapter.server.mailbox);
    if RowIdentity(db.s, run, i) !in db.s.mailbox { adapter.server.Vanish(target.uid); }
    goOn := AttemptByImap(db, adapter, p, run, i, target, lockFree, recorded);
  }

  method TryPop3(db: Database, adapter: Pop3.Adapter, p: nat, run: nat, i: nat, target: Pop3.Target, lockFree: bool, recorded: bool) returns (goOn: bool)
    requires db.Valid() && p in db.s.procs && db.s.procs[p].Matched? && db.s.procs[p].run == run && db.s.procs[p].i == i && RowExists(db.s, run, i)
    requires adapter.server.Valid() && !adapter.server.inSession
    modifies db, adapter.server
    ensures adapter.server.Valid() && !adapter.server.inSession
    ensures Tried(db, p, run, i, goOn) && (goOn ==> target.uidl !in adapter.server.maildrop)
    ensures Pop3.Disciplined(old(adapter.server.events), adapter.server.events, target.uidl)
  {
    Align(db, RowIdentity(db.s, run, i), target.uidl !in adapter.server.maildrop);
    if RowIdentity(db.s, run, i) !in db.s.mailbox { adapter.server.Vanish(target.uidl); }
    goOn := AttemptByPop3(db, adapter, p, run, i, target, lockFree, recorded);
  }

  /** The attempt on one row: the adapter is asked for the message that the row's facts name, with the
      digest that the row carries; success leaves that message absent at the server.  A target that it does
      not serve is refused with nothing sent. */
  method AttemptRow(db: Database, provider: Provider, digestOf: string -> Digest, p: nat, run: nat, i: nat) returns (goOn: bool)
    requires db.Valid() && p in db.s.procs && db.s.procs[p].Matched? && db.s.procs[p].run == run && db.s.procs[p].i == i && RowExists(db.s, run, i)
    requires Ready(provider)
    modifies db, Footprint(provider)
    ensures Tried(db, p, run, i, goOn) && Ready(provider)
    ensures var target := old(db.s.runs[run].rows[i].target);
            if Serves(provider, target) then Conversed(provider, target, digestOf) && (goOn ==> Lacks(provider, target))
            else !goOn && unchanged(Footprint(provider))
  {
    var lockFree: bool, recorded: bool := *, *;
    var target := db.s.runs[run].rows[i].target;
    if !Serves(provider, target) {
      Refuse(db, p, run, i, recorded);
      return false;
    }
    match provider.adapter
    case ByGmail(gmail) =>
      goOn := TryGmail(db, gmail, p, run, i, GmailTarget(target, digestOf), lockFree, recorded);
    case ByImap(folders) =>
      var adapter := folders[target.facts.folder];
      goOn := TryImap(db, adapter, p, run, i, ImapTarget(target, digestOf), lockFree, recorded);
    case ByPop3(pop3) =>
      goOn := TryPop3(db, pop3, p, run, i, Pop3Target(target, digestOf), lockFree, recorded);
  }

  // --- The run ---

  /** The run has the same targets as before, and a row that has succeeded since names a message that is
      gone. */
  ghost predicate Earned(before: seq<Row>, s: State, run: nat) {
    && run in s.runs && |s.runs[run].rows| == |before|
    && forall j :: 0 <= j < |before| ==> EarnedRow(before[j], s.runs[run].rows[j], s)
  }

  ghost predicate EarnedRow(before: Row, now: Row, s: State) {
    now.target == before.target && (now.status == Succeeded ==> before.status == Succeeded || Gone(s, IdentityOf(now.target)))
  }

  lemma {:induction false} OnlyRowEarns(s: State, t: State, run: nat, i: nat)
    requires OnlyRow(s, t, run, i) && Inv(t)
    requires t.runs[run].rows[i].status == Succeeded ==> RowIdentity(t, run, i) !in t.mailbox
    ensures Earned(s.runs[run].rows, t, run)
  {
    assert RowOk(t, t.runs[run].rows[i]);
  }

  lemma {:induction false} EarnedOn(states: seq<State>, actions: seq<Action>, n: nat, m: nat, before: seq<Row>, run: nat)
    requires Execution(states, actions) && n <= m < |states|
    requires Earned(before, states[n], run) && Earned(states[n].runs[run].rows, states[m], run)
    ensures Earned(before, states[m], run)
  {
    var middle, rows := states[n].runs[run].rows, states[m].runs[run].rows;
    forall j | 0 <= j < |before| ensures EarnedRow(before[j], rows[j], states[m]) {
      assert EarnedRow(before[j], middle[j], states[n]) && EarnedRow(middle[j], rows[j], states[m]);
      if Gone(states[n], IdentityOf(before[j].target)) {
        GoneIsForEver(states, actions, n, m, IdentityOf(before[j].target));
      }
    }
  }

  /** One pass over a picked row. */
  method CarryOutRow(db: Database, provider: Provider, digestOf: string -> Digest, p: nat, run: nat, i: nat) returns (goOn: bool)
    requires db.Valid() && p in db.s.procs && db.s.procs[p] == Picked(run, i) && RowExists(db.s, run, i) && Ready(provider)
    modifies db, Footprint(provider)
    ensures Tried(db, p, run, i, goOn) && Ready(provider)
  {
    goOn := db.EvaluateTarget(p, run, i);
    if goOn { goOn := db.MatchTarget(p, run, i); }
    if !goOn {
      db.Halt(p, run, i);
      return;
    }
    goOn := AttemptRow(db, provider, digestOf, p, run, i);
  }

  /** One turn of the loop. */
  method Turn(db: Database, provider: Provider, digestOf: string -> Digest, p: nat, run: nat) returns (goOn: bool, next: nat)
    requires db.Valid() && p in db.s.procs && db.s.procs[p] == Picking(run) && run in db.s.runs && Ready(provider)
    modifies db, Footprint(provider)
    ensures db.Valid() && old(db.states) <= db.states && Ready(provider) && Earned(old(db.s.runs[run].rows), db.s, run)
    ensures goOn ==> 
              && p in db.s.procs && db.s.procs[p] == Picking(run) && FirstPlanned(old(db.s.runs[run].rows), 0) == Some(next)
              && OnlyRow(old(db.s), db.s, run, next) && db.s.runs[run].rows[next].status == Succeeded
    ensures !goOn ==> p !in db.s.procs && db.s.runs[run].status in {RunCompleted, RunHalted}
  {
    FirstPlannedFinds(db.s.runs[run].rows, 0);
    next := 0;
    var picked := db.PickNext(p, run);
    if picked.None? { return false, 0; }
    next := picked.value;
    goOn := CarryOutRow(db, provider, digestOf, p, run, next);
    ExecutionKeepsInv(db.states, db.actions, |db.states| - 1);
    OnlyRowEarns(old(db.s), db.s, run, next);
  }

  /** The loop, on any run.  It ends with the run completed or halted in the proven shape, and every row
      that it marked succeeded names a message that is gone. */
  method ExecuteRun(db: Database, provider: Provider, digestOf: string -> Digest, p: nat, run: nat)
    requires db.Valid() && p in db.s.procs && db.s.procs[p] == Picking(run) && run in db.s.runs && Ready(provider)
    modifies db, Footprint(provider)
    ensures db.Valid() && old(db.states) <= db.states && p !in db.s.procs && Ready(provider)
    ensures Earned(old(db.s.runs[run].rows), db.s, run) && Shaped(db.s.runs[run]) && db.s.runs[run].status in {RunCompleted, RunHalted}
  {
    var done: nat := 0;
    ghost var before := db.s.runs[run].rows;
    var goOn := true;
    while goOn
      invariant db.Valid() && old(db.states) <= db.states && Ready(provider) && Earned(before, db.s, run) && done <= |before|
      invariant if goOn then p in db.s.procs && db.s.procs[p] == Picking(run) else p !in db.s.procs && db.s.runs[run].status in {RunCompleted, RunHalted}
      invariant goOn ==> forall j :: 0 <= j < done ==> db.s.runs[run].rows[j].status != Planned
      decreases goOn, |before| - done
    {
      FirstPlannedFinds(db.s.runs[run].rows, 0);
      ghost var n := |db.states| - 1;
      var next;
      goOn, next := Turn(db, provider, digestOf, p, run);
      EarnedOn(db.states, db.actions, n, |db.states| - 1, before, run);
      if goOn { done := next + 1; }
    }
    db.EndsShaped(run);
  }

  /** A validated plan is executed: its run is inserted and carried out.  Whatever the server does, whatever
      replies it loses, and whatever the other processes do or claim, the run ends completed or halted, and
      a row marked succeeded names a message of the plan that is gone for good.  A completed run has removed
      every message of its plan. */
  method ExecutePlan(db: Database, provider: Provider, digestOf: string -> Digest, p: nat, run: nat)
    requires db.Valid() && Enabled(db.s, InsertRun(p, run)) && Ready(provider)
    modifies db, Footprint(provider)
    ensures db.Valid() && old(db.states) <= db.states && p !in db.s.procs && Ready(provider)
    ensures run in db.s.runs && Shaped(db.s.runs[run]) && db.s.runs[run].status in {RunCompleted, RunHalted}
    ensures var plan := old(db.s.plans[db.s.procs[p].plan]);
            && |db.s.runs[run].rows| == |plan|
            && (forall j :: 0 <= j < |plan| ==> db.s.runs[run].rows[j].target == plan[j].target)
            && (forall j :: 0 <= j < |plan| && db.s.runs[run].rows[j].status == Succeeded ==> Gone(db.s, IdentityOf(plan[j].target)))
            && (db.s.runs[run].status == RunCompleted ==> forall j :: 0 <= j < |plan| ==> Gone(db.s, IdentityOf(plan[j].target)))
  {
    db.Do(InsertRun(p, run));
    ghost var rows := db.s.runs[run].rows;
    ExecuteRun(db, provider, digestOf, p, run);
    forall j | 0 <= j < |rows| ensures EarnedRow(rows[j], db.s.runs[run].rows[j], db.s) && rows[j].status == Planned {
    }
  }
}
