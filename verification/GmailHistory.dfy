/** A Gmail mailbox as its change history: message ids are never reused, and a history point is the
    number of changes made before it. */
module GmailHistory {

  datatype Change = Added(id: string) | Removed(id: string) | Relabeled(id: string)

  type History = seq<Change>

  /** The ids in the mailbox after all the changes. */
  function Box(changes: History): set<string> {
    if changes == [] then {}
    else
      var before, last := Box(changes[..|changes| - 1]), changes[|changes| - 1];
      match last
      case Added(id) => before + {id}
      case Removed(id) => before - {id}
      case Relabeled(_) => before
  }

  /** The ids the mailbox has ever held. */
  function Ever(changes: History): set<string> {
    if changes == [] then {}
    else Ever(changes[..|changes| - 1]) + if changes[|changes| - 1].Added? then {changes[|changes| - 1].id} else {}
  }

  /** Only new ids are added, and only messages that are there are removed or relabeled. */
  predicate Legal(changes: History) {
    changes == [] ||
    var before, last := changes[..|changes| - 1], changes[|changes| - 1];
    Legal(before) && if last.Added? then last.id !in Ever(before) else last.id in Box(before)
  }

  /** The mailbox at history point `k`. */
  ghost function BoxAt(changes: History, k: nat): set<string>
    requires k <= |changes|
  {
    Box(changes[..k])
  }

  function Touched(changes: History, from: nat, until: nat): set<string>
    requires from <= until <= |changes|
  {
    set k | from <= k < until :: changes[k].id
  }

  function Deleted(changes: History, from: nat, until: nat): set<string>
    requires from <= until <= |changes|
  {
    set k | from <= k < until && changes[k].Removed? :: changes[k].id
  }

  /** What a paged listing that ran between two history points may have shown: only messages that were
      there at some moment of the scan, and every message that was there all along. */
  ghost predicate Scanned(changes: History, from: nat, until: nat, seen: set<string>)
    requires from <= until <= |changes|
  {
    && (forall id :: id in seen ==> exists k :: from <= k <= until && id in BoxAt(changes, k))
    && (forall id :: id in BoxAt(changes, from) && id !in Deleted(changes, from, until) ==> id in seen)
  }

  // --- How the mailbox evolves ---

  lemma {:induction false} LegalPrefix(changes: History, k: nat)
    requires Legal(changes) && k <= |changes|
    ensures Legal(changes[..k])
  {
    if k < |changes| {
      var front := changes[..|changes| - 1];
      LegalPrefix(front, k);
      assert front[..k] == changes[..k];
    } else {
      assert changes[..k] == changes;
    }
  }

  lemma {:induction false} BoxWithinEver(changes: History)
    ensures Box(changes) <= Ever(changes)
  {
    if changes != [] { BoxWithinEver(changes[..|changes| - 1]); }
  }

  /** One change, seen from the point before it. */
  lemma {:induction false} OneChange(changes: History, k: nat)
    requires Legal(changes) && k < |changes|
    ensures Legal(changes[..k])
    ensures BoxAt(changes, k + 1) == match changes[k]
                                     case Added(id) => BoxAt(changes, k) + {id}
                                     case Removed(id) => BoxAt(changes, k) - {id}
                                     case Relabeled(_) => BoxAt(changes, k)
    ensures Ever(changes[..k + 1]) == Ever(changes[..k]) + if changes[k].Added? then {changes[k].id} else {}
    ensures if changes[k].Added? then changes[k].id !in Ever(changes[..k]) else changes[k].id in BoxAt(changes, k)
  {
    LegalPrefix(changes, k);
    LegalPrefix(changes, k + 1);
    assert changes[..k + 1][..k] == changes[..k];
  }

  /** A message that nothing touches neither comes nor goes. */
  lemma {:induction false} UntouchedStays(changes: History, from: nat, until: nat, id: string)
    requires Legal(changes) && from <= until <= |changes| && id !in Touched(changes, from, until)
    ensures id in BoxAt(changes, from) <==> id in BoxAt(changes, until)
    decreases until
  {
    if from < until {
      assert changes[until - 1].id in Touched(changes, from, until);
      assert Touched(changes, from, until - 1) <= Touched(changes, from, until);
      UntouchedStays(changes, from, until - 1, id);
      OneChange(changes, until - 1);
    }
  }

  /** A message that is there stays until it is removed. */
  lemma {:induction false} StaysUntilRemoved(changes: History, from: nat, until: nat, id: string)
    requires Legal(changes) && from <= until <= |changes|
    requires id in BoxAt(changes, from) && id !in Deleted(changes, from, until)
    ensures id in BoxAt(changes, until)
    decreases until
  {
    if from < until {
      assert Deleted(changes, from, until - 1) <= Deleted(changes, from, until);
      assert changes[until - 1].Removed? ==> changes[until - 1].id in Deleted(changes, from, until);
      StaysUntilRemoved(changes, from, until - 1, id);
      OneChange(changes, until - 1);
    }
  }

  /** A message that has been there and is gone never comes back. */
  lemma {:induction false} GoneForGood(changes: History, from: nat, until: nat, id: string)
    requires Legal(changes) && from <= until <= |changes|
    requires id in Ever(changes[..from]) && id !in BoxAt(changes, from)
    ensures id in Ever(changes[..until]) && id !in BoxAt(changes, until)
    decreases until
  {
    if from < until {
      GoneForGood(changes, from, until - 1, id);
      OneChange(changes, until - 1);
    }
  }

  /** A removal recorded in a stretch of history is still in force at its end. */
  lemma {:induction false} DeletedIsGone(changes: History, from: nat, until: nat, id: string)
    requires Legal(changes) && from <= until <= |changes| && id in Deleted(changes, from, until)
    ensures id in Ever(changes[..until]) && id !in BoxAt(changes, until)
  {
    var k :| from <= k < until && changes[k].Removed? && changes[k].id == id;
    OneChange(changes, k);
    BoxWithinEver(changes[..k]);
    GoneForGood(changes, k + 1, until, id);
  }

  /** A change that is not a removal leaves its message in the mailbox. */
  lemma {:induction false} TouchedIsPresent(changes: History, from: nat, until: nat, id: string)
    requires Legal(changes) && from <= until <= |changes|
    requires id in Touched(changes, from, until) && id !in Deleted(changes, from, until)
    ensures id in BoxAt(changes, until)
  {
    var k :| from <= k < until && changes[k].id == id;
    OneChange(changes, k);
    assert Deleted(changes, k + 1, until) <= Deleted(changes, from, until);
    StaysUntilRemoved(changes, k + 1, until, id);
  }

  // --- Catching up ---

  /** Replaying the history from any anchor no later than the start of a scan repairs every race of the
      scan with the mailbox: the outcome is exactly the mailbox where the replay ended. */
  lemma {:induction false} CatchUpIsExact(changes: History, anchor: nat, from: nat, until: nat, end: nat, seen: set<string>)
    requires Legal(changes) && anchor <= from <= until <= end <= |changes|
    requires Scanned(changes, from, until, seen)
    ensures (seen + Touched(changes, anchor, end)) - Deleted(changes, anchor, end) == BoxAt(changes, end)
  {
    var result := (seen + Touched(changes, anchor, end)) - Deleted(changes, anchor, end);
    forall id | id in result ensures id in BoxAt(changes, end) {
      if id in Touched(changes, anchor, end) {
        TouchedIsPresent(changes, anchor, end, id);
      } else {
        var k :| from <= k <= until && id in BoxAt(changes, k);
        assert Deleted(changes, k, end) <= Deleted(changes, anchor, end);
        StaysUntilRemoved(changes, k, end, id);
      }
    }
    forall id | id in BoxAt(changes, end) ensures id in result {
      if id in Deleted(changes, anchor, end) { DeletedIsGone(changes, anchor, end, id); }
      if id !in Touched(changes, anchor, end) {
        assert Touched(changes, from, end) <= Touched(changes, anchor, end);
        UntouchedStays(changes, from, end, id);
        assert Deleted(changes, from, until) <= Deleted(changes, anchor, end);
        assert id in seen;
      }
    }
  }

  /** The anchor must not be later than the scan: here the message listed first is removed before the
      anchor is taken, and the replay never learns of it. */
  lemma {:induction false} LateAnchorMissesARemoval()
    ensures exists changes: History, seen: set<string> ::
              && Legal(changes) && |changes| == 2 && Scanned(changes, 1, 2, seen)
              && (seen + Touched(changes, 2, 2)) - Deleted(changes, 2, 2) != BoxAt(changes, 2)
  {
    var changes := [Added("a"), Removed("a")];
    assert changes[..1] == [Added("a")] && changes[..2] == changes && changes[..0] == [];
    assert [Added("a")][..0] == [];
    assert Box(changes[..1]) == {"a"} && Ever(changes[..1]) == {"a"};
    assert Legal(changes[..1]);
    assert BoxAt(changes, 1) == {"a"} && BoxAt(changes, 2) == {};
    assert Scanned(changes, 1, 2, {"a"});
    assert ({"a"} + Touched(changes, 2, 2)) - Deleted(changes, 2, 2) == {"a"};
  }

  /** Replaying a stretch of history over a presence that was right at its start makes it right at its
      end: removed messages out, touched ones in, the rest as they were. */
  lemma {:induction false} ReplayIsExact(changes: History, start: nat, end: nat, present: set<string>, after: set<string>)
    requires Legal(changes) && start <= end <= |changes|
    requires forall id :: id !in Touched(changes, start, end) ==> (id in present <==> id in BoxAt(changes, start))
    requires after == (present + Touched(changes, start, end)) - Deleted(changes, start, end)
    ensures after == BoxAt(changes, end)
  {
    forall id ensures id in after <==> id in BoxAt(changes, end) {
      if id in Deleted(changes, start, end) {
        DeletedIsGone(changes, start, end, id);
      } else if id in Touched(changes, start, end) {
        TouchedIsPresent(changes, start, end, id);
      } else {
        UntouchedStays(changes, start, end, id);
      }
    }
  }
}
