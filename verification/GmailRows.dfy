/** What the presence rows of a Gmail account say of its mailbox, while synchronization and reconciled
    deletions write them side by side (gmail.py, `GmailAdapter`; remote_mutation.py,
    `_update_current_presence_if_historical_identity_matches`).

    A write is true if it agrees with the mailbox of some moment in the stretch of history it falls into.
    The one write that need not be true is that of an earlier sighting, recorded as present after the
    message was removed: such a row is called stale until it is written again. */
module GmailRows {
  import opened Base
  import opened GmailHistory

  /** The ids whose rows say present; those a reconciliation has written since the last synchronization
      began; and those that are stale. */
  datatype Rows = Rows(present: set<string>, recorded: set<string>, stale: set<string>)

  /** Rows of messages untouched since point `p`, stale ones apart, say whether the message was there at `p`. */
  ghost predicate Faithful(changes: History, p: nat, rows: Rows)
    requires p <= |changes|
  {
    forall id :: id !in Touched(changes, p, |changes|) && id !in rows.stale ==> (id in rows.present <==> id in BoxAt(changes, p))
  }

  /** The message has been there and is gone, for good. */
  ghost predicate Gone(changes: History, id: string) {
    id in Ever(changes) && id !in Box(changes)
  }

  lemma {:induction false} GoneLater(before: History, after: History, id: string)
    requires Legal(after) && before <= after && Gone(before, id)
    ensures Gone(after, id)
  {
    assert after[..|before|] == before && after[..|after|] == after;
    GoneForGood(after, |before|, |after|, id);
  }

  /** What holds of the rows with the point they may be replayed from, if there is one. */
  ghost predicate Sound(changes: History, usable: Option<nat>, rows: Rows) {
    && (forall id :: id in rows.stale ==> Gone(changes, id))
    && (usable.Some? ==> usable.value <= |changes| && Faithful(changes, usable.value, rows))
  }

  ghost predicate AsBefore(a: Rows, b: Rows, id: string) {
    (id in b.present <==> id in a.present) && (id in b.stale <==> id in a.stale)
  }

  /** The last write to a row between two points was true, or left it stale. */
  ghost predicate WrittenTruly(changes: History, from: nat, b: Rows, id: string) {
    if id in b.stale then id in b.recorded && Gone(changes, id)
    else exists k :: from <= k <= |changes| && (id in b.present <==> id in BoxAt(changes, k)) && id in Ever(changes[..k])
  }

  /** From point `from` on, rows were only written truly, or by a reconciliation; `own` are those that the
      synchronization wrote itself. */
  ghost predicate Evolves(changes: History, from: nat, a: Rows, b: Rows, own: set<string>) {
    && from <= |changes| && a.recorded <= b.recorded
    && forall id :: AsBefore(a, b, id) || (id in b.recorded + own && WrittenTruly(changes, from, b, id))
  }

  lemma {:induction false} WrittenLater(before: History, after: History, from: nat, early: nat, b: Rows, c: Rows, id: string)
    requires Legal(after) && before <= after && early <= from && WrittenTruly(before, from, b, id)
    requires AsBefore(b, c, id) && b.recorded <= c.recorded
    ensures WrittenTruly(after, early, c, id)
  {
    if id in b.stale {
      GoneLater(before, after, id);
    } else {
      var k :| from <= k <= |before| && (id in b.present <==> id in BoxAt(before, k)) && id in Ever(before[..k]);
      assert after[..k] == before[..k];
      assert id in c.present <==> id in BoxAt(after, k);
    }
  }

  lemma {:induction false} WrittenSooner(changes: History, from: nat, early: nat, b: Rows, id: string)
    requires early <= from && WrittenTruly(changes, from, b, id)
    ensures WrittenTruly(changes, early, b, id)
  {
    if id !in b.stale {
      var k :| from <= k <= |changes| && (id in b.present <==> id in BoxAt(changes, k)) && id in Ever(changes[..k]);
      assert id in b.present <==> id in BoxAt(changes, k);
    }
  }

  /** Stretches of writing follow each other. */
  lemma {:induction false} EvolvesOn(before: History, after: History, from: nat, middle: nat, a: Rows, b: Rows, c: Rows, own: set<string>, more: set<string>)
    requires Legal(after) && before <= after && from <= middle && Evolves(before, from, a, b, own) && Evolves(after, middle, b, c, more)
    ensures Evolves(after, from, a, c, own + more)
  {
    forall id ensures AsBefore(a, c, id) || (id in c.recorded + (own + more) && WrittenTruly(after, from, c, id)) {
      if AsBefore(b, c, id) {
        if !AsBefore(a, b, id) { WrittenLater(before, after, from, from, b, c, id); }
      } else {
        WrittenSooner(after, middle, from, c, id);
      }
    }
  }

  // --- Between synchronizations ---

  /** True writes keep what holds of the rows, whatever happens to the mailbox meanwhile. */
  lemma {:induction false} SoundEvolves(before: History, after: History, usable: Option<nat>, a: Rows, b: Rows, own: set<string>)
    requires Legal(after) && before <= after && Sound(before, usable, a) && Evolves(after, |before|, a, b, own)
    ensures Sound(after, usable, b)
  {
    forall id | id in b.stale ensures Gone(after, id) {
      if AsBefore(a, b, id) { GoneLater(before, after, id); }
    }
    if usable.Some? {
      var p := usable.value;
      assert after[..p] == before[..p] && Touched(before, p, |before|) <= Touched(after, p, |after|);
      forall id | id !in Touched(after, p, |after|) && id !in b.stale ensures id in b.present <==> id in BoxAt(after, p) {
        if !AsBefore(a, b, id) { TrueIfUntouched(after, p, |before|, b, id); }
      }
    }
  }

  /** A row written truly since a point says how it was at that point, if nothing touched its message. */
  lemma {:induction false} TrueIfUntouched(changes: History, p: nat, from: nat, b: Rows, id: string)
    requires Legal(changes) && p <= from <= |changes| && id !in Touched(changes, p, |changes|)
    requires WrittenTruly(changes, from, b, id) && id !in b.stale
    ensures id in b.present <==> id in BoxAt(changes, p)
  {
    var k :| from <= k <= |changes| && (id in b.present <==> id in BoxAt(changes, k)) && id in Ever(changes[..k]);
    assert Touched(changes, p, k) <= Touched(changes, p, |changes|);
    UntouchedStays(changes, p, k, id);
  }

  lemma {:induction false} SoundLater(before: History, after: History, usable: Option<nat>, rows: Rows)
    requires Legal(after) && before <= after && Sound(before, usable, rows)
    ensures Sound(after, usable, rows)
  {
    SoundEvolves(before, after, usable, rows, rows, {});
  }

  /** Recording a sighting as present spoils the promise exactly if it is stale and nobody can tell: the
      row was not present, the message was gone at the stored point, and nothing has touched it since. */
  lemma {:induction false} PresenceIsFaithfulIff(changes: History, p: nat, rows: Rows, id: string)
    requires p <= |changes| && Faithful(changes, p, rows)
    ensures Faithful(changes, p, rows.(present := rows.present + {id})) <==>
            id in BoxAt(changes, p) + Touched(changes, p, |changes|) + rows.stale
  {
    var after := rows.(present := rows.present + {id});
    if Faithful(changes, p, after) {
      assert id in after.present;
    }
  }

  // --- Catching up ---

  /** Rows that no reconciliation has written are exactly the mailbox at `p`. */
  ghost predicate Agree(changes: History, p: nat, rows: Rows)
    requires p <= |changes|
  {
    forall id :: id !in rows.recorded && id !in rows.stale ==> (id in rows.present <==> id in BoxAt(changes, p))
  }

  /** Every affected row has been written, and says what the history said unless a reconciliation has
      written it too. */
  ghost predicate Settled(changes: History, from: nat, affected: set<string>, deleted: set<string>, rows: Rows) {
    forall id :: id in affected ==>
      WrittenTruly(changes, from, rows, id) && (id !in rows.recorded ==> (id in rows.present <==> id !in deleted))
  }

  /** A replay over rows that were right at its start, side by side with reconciliations and with changes
      to the mailbox, leaves them right at its end. */
  lemma {:induction false} ReplayCatchesUp(known: History, changes: History, start: nat, a: Rows, b: Rows, affected: set<string>, deleted: set<string>)
    requires Legal(changes) && known <= changes && start <= |known| && Faithful(known, start, a)
    requires affected == Touched(known, start, |known|) && deleted == Deleted(known, start, |known|)
    requires Evolves(changes, |known|, a, b, affected) && Settled(changes, |known|, affected, deleted, b)
    ensures Faithful(changes, |known|, b) && Agree(changes, |known|, b)
  {
    var end := |known|;
    assert changes[..start] == known[..start] && affected == Touched(changes, start, end) && deleted == Deleted(changes, start, end);
    forall id | id !in b.stale
      ensures id !in Touched(changes, end, |changes|) || id !in b.recorded ==> (id in b.present <==> id in BoxAt(changes, end))
    {
      if id in affected && id !in b.recorded {
        if id in deleted { DeletedIsGone(changes, start, end, id); } else { TouchedIsPresent(changes, start, end, id); }
      } else if id !in affected && AsBefore(a, b, id) {
        UntouchedStays(changes, start, end, id);
      } else if id !in Touched(changes, end, |changes|) {
        TrueIfUntouched(changes, end, end, b, id);
      }
    }
  }

  /** A row that says how its message is now counts as written truly. */
  lemma {:induction false} TrueNow(changes: History, from: nat, rows: Rows, id: string)
    requires from <= |changes| && id !in rows.stale && id in Ever(changes) && (id in rows.present <==> id in Box(changes))
    ensures WrittenTruly(changes, from, rows, id)
  {
    assert changes[..|changes|] == changes;
    assert id in rows.present <==> id in BoxAt(changes, |changes|);
  }

  lemma {:induction false} SettledLater(before: History, after: History, from: nat, middle: nat, a: Rows, b: Rows, own: set<string>, affected: set<string>, deleted: set<string>)
    requires Legal(after) && before <= after && from <= middle && affected !! own
    requires Settled(before, from, affected, deleted, a) && Evolves(after, middle, a, b, own)
    ensures Settled(after, from, affected, deleted, b)
  {
    forall id | id in affected ensures WrittenTruly(after, from, b, id) && (id !in b.recorded ==> (id in b.present <==> id !in deleted)) {
      if AsBefore(a, b, id) {
        WrittenLater(before, after, from, from, a, b, id);
      } else {
        WrittenSooner(after, middle, from, b, id);
      }
    }
  }

  lemma {:induction false} LostAreRecorded(changes: History, from: nat, a: Rows, b: Rows)
    requires Evolves(changes, from, a, b, {})
    ensures a.present <= b.present + b.recorded
  {
    forall id | id in a.present ensures id in b.present + b.recorded {
      assert AsBefore(a, b, id) || id in b.recorded + {};
    }
  }

  /** Only a reconciliation leaves a row stale. */
  lemma {:induction false} StaleAreRecorded(changes: History, from: nat, a: Rows, b: Rows, own: set<string>)
    requires Evolves(changes, from, a, b, own)
    ensures a.recorded <= b.recorded && b.stale <= a.stale + b.recorded
  {
    forall id | id in b.stale ensures id in a.stale + b.recorded {
      assert AsBefore(a, b, id) || WrittenTruly(changes, from, b, id);
    }
  }

  /** Only a reconciliation leaves a row stale, and a replay that reaches its message repairs it. */
  lemma {:induction false} StaleAfterReplay(changes: History, from: nat, end: nat, a: Rows, b: Rows, affected: set<string>, deleted: set<string>)
    requires Evolves(changes, from, a, b, affected) && Settled(changes, end, affected, deleted, b)
    ensures b.stale <= (a.stale - affected) + b.recorded
  {
    forall id | id in b.stale ensures id in (a.stale - affected) + b.recorded {
      assert AsBefore(a, b, id) || WrittenTruly(changes, from, b, id);
    }
  }

  /** Rows present, or rightly recorded as absent since. */
  ghost predicate Kept(changes: History, keep: set<string>, rows: Rows) {
    forall id :: id in keep ==> id in rows.present || (id in rows.recorded && Gone(changes, id))
  }

  lemma {:induction false} RecordedIsKept(changes: History, from: nat, rows: Rows, id: string)
    requires Legal(changes) && WrittenTruly(changes, from, rows, id)
    ensures id in rows.present || Gone(changes, id)
  {
    if id !in rows.stale && id !in rows.present {
      var k :| from <= k <= |changes| && (id in rows.present <==> id in BoxAt(changes, k)) && id in Ever(changes[..k]);
      assert changes[..|changes|] == changes;
      GoneForGood(changes, k, |changes|, id);
    }
  }

  lemma {:induction false} KeptLater(before: History, after: History, from: nat, a: Rows, b: Rows, own: set<string>, keep: set<string>)
    requires Legal(after) && before <= after && Kept(before, keep, a) && Evolves(after, from, a, b, own) && keep !! own
    ensures Kept(after, keep, b)
  {
    forall id | id in keep ensures id in b.present || (id in b.recorded && Gone(after, id)) {
      if AsBefore(a, b, id) {
        if id !in a.present { GoneLater(before, after, id); }
      } else {
        RecordedIsKept(after, from, b, id);
      }
    }
  }

  /** What a scan has seen and the replay after it has not removed is still kept. */
  lemma {:induction false} InventoryIsKept(before: History, after: History, from: nat, end: nat, a: Rows, b: Rows, seen: set<string>, affected: set<string>, deleted: set<string>)
    requires Legal(after) && before <= after && Kept(before, seen, a)
    requires Evolves(after, from, a, b, affected) && Settled(after, end, affected, deleted, b)
    ensures Kept(after, (seen + affected) - deleted, b)
  {
    KeptLater(before, after, from, a, b, affected, seen - affected);
    forall id | id in affected - deleted ensures id in b.present || (id in b.recorded && Gone(after, id)) {
      RecordedIsKept(after, end, b, id);
    }
  }

  /** Making everything absent that is not in the mailbox at `p` makes the rows right at `p`, and none stale. */
  lemma {:induction false} InventoryCatchesUp(changes: History, p: nat, rows: Rows)
    requires Legal(changes) && p <= |changes| && Kept(changes, BoxAt(changes, p), rows)
    ensures var after := Rows(rows.present * BoxAt(changes, p), rows.recorded, {});
            Sound(changes, Some(p), after) && Agree(changes, p, after)
  {
    assert changes[..|changes|] == changes;
    forall id | id in BoxAt(changes, p) && id !in Touched(changes, p, |changes|) ensures id in rows.present {
      UntouchedStays(changes, p, |changes|, id);
    }
  }
}
