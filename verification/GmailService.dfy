/** The Gmail service that synchronization talks to (gmail.py, `GmailApiClient`): a mailbox that changes
    between any two requests.

    A listing page answers from the mailbox of its own moment, and a message that is there throughout a
    scan is on some page of it.  History pages replay the changes after the requested point in order,
    and the last page ends at the mailbox's current point and carries it.  Page tokens come from a
    finite set.  Every request may fail with one of the client's own errors, or with anything else,
    which like the death of the process only stops the work. */
module GmailService {
  import opened Base
  import opened GmailHistory

  /** `Failed` is an error of the client's own family, `Crashed` any other way to stop. */
  datatype Reply<+T> = Got(value: T) | Failed | Expired | Crashed

  /** What went wrong: an error of the client's own family, a point that is too old, or anything else. */
  datatype Mishap = Failure | Expiry | Crash

  function MishapOf<T>(r: Reply<T>): seq<Mishap> {
    match r
    case Got(_) => []
    case Failed => [Failure]
    case Expired => [Expiry]
    case Crashed => [Crash]
  }

  /** The outcome `r` is that of the one thing that went wrong, if anything did; work may also fail over an
      answer that makes no sense. */
  ghost predicate Told<T>(before: seq<Mishap>, r: Reply<T>, after: seq<Mishap>) {
    after == before + MishapOf(r) || (r.Failed? && after == before)
  }

  datatype Listing = Listing(entries: seq<string>, next: Option<string>)

  datatype Replay = Replay(records: seq<Change>, point: Option<nat>, next: Option<string>)

  /** A listing part way through: what was shown was there, and what was there all along has been shown
      or is still owed. */
  ghost predicate Scanning(changes: History, from: nat, shown: set<string>, owed: set<string>)
    requires from <= |changes|
  {
    && (forall id :: id in shown ==> exists k :: from <= k <= |changes| && id in BoxAt(changes, k))
    && (forall id :: id in BoxAt(changes, from) && id !in Deleted(changes, from, |changes|) ==> id in shown + owed)
  }

  lemma {:induction false} ScanningLater(before: History, after: History, from: nat, shown: set<string>, owed: set<string>)
    requires before <= after && from <= |before| && Scanning(before, from, shown, owed)
    ensures Scanning(after, from, shown, owed)
  {
    assert after[..from] == before[..from];
    assert Deleted(before, from, |before|) <= Deleted(after, from, |after|);
    forall id | id in shown ensures exists k :: from <= k <= |after| && id in BoxAt(after, k) {
      var k :| from <= k <= |before| && id in BoxAt(before, k);
      assert after[..k] == before[..k];
      assert id in BoxAt(after, k);
    }
  }

  /** Showing a page of messages that are there. */
  lemma {:induction false} ShowPage(changes: History, from: nat, shown: set<string>, owed: set<string>, page: set<string>)
    requires from <= |changes| && Scanning(changes, from, shown, owed) && page <= Box(changes)
    ensures Scanning(changes, from, shown + page, owed - page)
  {
    assert changes[..|changes|] == changes;
    forall id | id in page ensures exists k :: from <= k <= |changes| && id in BoxAt(changes, k) {
      assert id in BoxAt(changes, |changes|);
    }
  }

  /** The last page shows all that is owed and still there. */
  lemma {:induction false} LastPage(changes: History, from: nat, shown: set<string>, owed: set<string>, page: set<string>)
    requires Legal(changes) && from <= |changes| && Scanning(changes, from, shown, owed)
    requires owed * Box(changes) <= page <= Box(changes)
    ensures Scanned(changes, from, |changes|, shown + page)
  {
    ShowPage(changes, from, shown, owed, page);
    assert changes[..|changes|] == changes;
    forall id | id in BoxAt(changes, from) && id !in Deleted(changes, from, |changes|) ensures id in shown + page {
      StaysUntilRemoved(changes, from, |changes|, id);
    }
  }

  method AsSequence(s: set<string>) returns (q: seq<string>)
    ensures forall x :: x in q <==> x in s
  {
    q := [];
    var rest := s;
    while rest != {}
      invariant rest <= s && forall x :: x in q <==> x in s - rest
      decreases rest
    {
      var x :| x in rest;
      rest, q := rest - {x}, q + [x];
    }
  }

  class Service {
    /** A quiet service answers every request, repeats no page token within a listing or replay, and
        its mailbox rests during a request; and no local step fails either. */
    const quiet: bool
    const tokens: set<string>
    /** The page tokens of the current listing or replay. */
    var issued: set<string>
    var changes: History
    /** The current scan: where it started, what it has shown, and what it still has to show. */
    var scanFrom: nat
    var shown: set<string>
    var owed: set<string>
    /** How far the current replay has come. */
    var replayed: nat
    /** What has gone wrong so far. */
    ghost var mishaps: seq<Mishap>

    ghost predicate Valid()
      reads this
    {
      Legal(changes) && replayed <= |changes| && scanFrom <= |changes| && Scanning(changes, scanFrom, shown, owed)
    }

    constructor (quiet: bool, tokens: set<string>)
      ensures Valid() && changes == [] && this.quiet == quiet && this.tokens == tokens
    {
      this.quiet, this.tokens, this.issued := quiet, tokens, {};
      this.changes, this.scanFrom, this.shown, this.owed, this.replayed := [], 0, {}, {}, 0;
      this.mishaps := [];
    }

    /** The mailbox changes in any legal way. */
    method Change()
      requires Valid()
      modifies this`changes
      ensures Valid() && old(changes) <= changes
    {
      var more: seq<Change> := *;
      if Legal(changes + more) {
        ScanningLater(changes, changes + more, scanFrom, shown, owed);
        changes := changes + more;
      }
    }

    /** The mailbox changes in this one way. */
    method Happen(change: GmailHistory.Change)
      requires Valid() && Legal(changes + [change])
      modifies this`changes
      ensures Valid() && changes == old(changes) + [change]
    {
      ScanningLater(changes, changes + [change], scanFrom, shown, owed);
      changes := changes + [change];
    }

    /** Before any request is answered the mailbox may have changed. */
    method Meanwhile()
      requires Valid()
      modifies this`changes
      ensures Valid() && old(changes) <= changes && (quiet ==> changes == old(changes))
    {
      if !quiet { Change(); }
    }

    /** A page token, or none on the last page. */
    method NextToken(first: bool) returns (next: Option<string>)
      modifies this`issued
      ensures next.Some? ==> next.value in tokens
      ensures quiet && next.Some? ==> next.value != "" && next.value !in (if first then {} else old(issued))
      ensures issued == (if first then {} else old(issued)) + if next.Some? then {next.value} else {}
    {
      next := *;
      if first { issued := {}; }
      if next.Some? && (next.value !in tokens || (quiet && (next.value == "" || next.value in issued))) { next := None; }
      if next.Some? { issued := issued + {next.value}; }
    }

    /** Requests whose answers the property does not depend on: the profile and the labels. */
    method Ask() returns (r: Reply<()>)
      requires Valid()
      modifies this`changes, this`mishaps
      ensures Valid() && old(changes) <= changes && !r.Expired? && mishaps == old(mishaps) + MishapOf(r)
      ensures quiet ==> r.Got? && changes == old(changes)
    {
      Meanwhile();
      r := *;
      if r.Expired? { r := Failed; }
      if quiet { r := Got(()); }
      mishaps := mishaps + MishapOf(r);
    }

    /** A local step, of the database or the file system; its errors are not of the client's family. */
    method Local() returns (r: Reply<()>)
      modifies this`mishaps
      ensures (r.Got? || r.Crashed?) && mishaps == old(mishaps) + MishapOf(r)
      ensures quiet ==> r.Got?
    {
      var done: bool := *;
      r := if done || quiet then Got(()) else Crashed;
      mishaps := mishaps + MishapOf(r);
    }

    /** A listing of at most one message: nothing is listed exactly when the mailbox is empty. */
    method ListOne() returns (r: Reply<Option<string>>)
      requires Valid()
      modifies this`changes, this`mishaps
      ensures Valid() && old(changes) <= changes && !r.Expired? && mishaps == old(mishaps) + MishapOf(r)
      ensures r.Got? ==> if r.value.None? then Box(changes) == {} else r.value.value in Box(changes)
      ensures quiet ==> r.Got? && changes == old(changes)
    {
      Meanwhile();
      var answered: bool, outcome: Reply<Option<string>> := *, *;
      if !answered && !quiet {
        r := if outcome.Crashed? then Crashed else Failed;
      } else {
        var all := AsSequence(Box(changes));
        r := Got(if all == [] then None else Some(all[0]));
        assert Box(changes) == set x | x in all;
      }
      mishaps := mishaps + MishapOf(r);
    }

    /** A message resource, with the point of the last change it saw. */
    method Message(id: string) returns (r: Reply<nat>)
      requires Valid()
      modifies this`changes, this`mishaps
      ensures Valid() && old(changes) <= changes && !r.Expired? && mishaps == old(mishaps) + MishapOf(r)
      ensures r.Got? ==> id in Box(changes) && r.value <= |changes|
      ensures quiet ==> changes == old(changes) && (id in Box(changes) ==> r.Got?)
    {
      Meanwhile();
      var answered: bool, point: nat, crash: bool := *, *, *;
      if quiet { answered, point := true, 0; }
      r := if answered && id in Box(changes) && point <= |changes| then Got(point) else if crash then Crashed else Failed;
      mishaps := mishaps + MishapOf(r);
    }

    /** The tokens of a listing or replay, before and after one page. */
    ghost predicate Paged(token: Option<string>, before: set<string>, after: set<string>, next: Option<string>) {
      next.Some? ==>
        var earlier := if token.None? then {} else before;
        next.value in tokens && after == earlier + {next.value} && (quiet ==> next.value != "" && next.value !in earlier)
    }

    /** One page of a listing; without a token a new scan starts. */
    method List(token: Option<string>) returns (r: Reply<Listing>)
      requires Valid()
      modifies this`changes, this`scanFrom, this`shown, this`owed, this`issued, this`mishaps
      ensures Valid() && old(changes) <= changes && !r.Expired? && mishaps == old(mishaps) + MishapOf(r)
      ensures Paged(token, old(issued), issued, if r.Got? then r.value.next else None)
      ensures quiet ==> r.Got? && changes == old(changes) && forall id :: id in r.value.entries ==> id in Box(changes)
      ensures if token.None? then |old(changes)| <= scanFrom else scanFrom == old(scanFrom)
      ensures r.Got? ==> shown == (if token.None? then {} else old(shown)) + set id | id in r.value.entries
      ensures r.Got? && r.value.next.None? ==> Scanned(changes, scanFrom, |changes|, shown)
    {
      Meanwhile();
      if token.None? {
        scanFrom, shown, owed := |changes|, {}, Box(changes);
        assert changes[..scanFrom] == changes;
      }
      var answered: bool, crash: bool, some: set<string> := *, *, *;
      var next := NextToken(token.None?);
      if !answered && !quiet {
        r := if crash then Crashed else Failed;
        mishaps := mishaps + MishapOf(r);
        return;
      }
      var page := if next.None? then (some + owed) * Box(changes) else some * Box(changes);
      var entries := AsSequence(page);
      assert (set id | id in entries) == page;
      ShowPage(changes, scanFrom, shown, owed, page);
      if next.None? { LastPage(changes, scanFrom, shown, owed, page); }
      shown, owed := shown + page, owed - page;
      r := Got(Listing(entries, next));
    }

    /** One page of the replay from `start`. */
    method History(start: nat, token: Option<string>) returns (r: Reply<Replay>)
      requires Valid() && start <= |changes|
      modifies this`changes, this`replayed, this`issued, this`mishaps
      ensures Valid() && old(changes) <= changes && mishaps == old(mishaps) + MishapOf(r)
      ensures Paged(token, old(issued), issued, if r.Got? then r.value.next else None)
      ensures quiet ==> r.Got? && r.value.point.Some? && changes == old(changes)
      ensures var from := if token.None? then start else old(replayed);
              r.Got? ==> from <= replayed && r.value.records == changes[from..replayed]
      ensures r.Got? && r.value.next.None? ==> replayed == |changes| && (r.value.point.Some? ==> r.value.point.value == |changes|)
    {
      Meanwhile();
      var outcome: Reply<Option<nat>>, advance: nat := *, *;
      var next := NextToken(token.None?);
      if quiet { outcome := Got(Some(0)); }
      if !outcome.Got? {
        r := if outcome.Expired? then Expired else if outcome.Crashed? then Crashed else Failed;
        mishaps := mishaps + MishapOf(r);
        return;
      }
      var from := if token.None? then start else replayed;
      replayed := if next.None? || from + advance > |changes| then |changes| else from + advance;
      r := Got(Replay(changes[from..replayed], if outcome.value.Some? then Some(|changes|) else None, next));
    }
  }
}
