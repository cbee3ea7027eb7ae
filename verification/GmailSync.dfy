/** Full and incremental Gmail synchronization (gmail.py, `GmailAdapter.sync` and below), beside which
    reconciliations of deletions may record what they have observed at any time: they observe under the
    account's lock, but record after it is released. */
module GmailSync {
  import opened Base
  import opened GmailHistory
  import opened GmailService
  import opened GmailRows

  /** What a replay reported: the ids it touched, those it deleted, and where it ended. */
  datatype Outcome = Outcome(affected: set<string>, deleted: set<string>, end: nat)

  /** The history has turned out to have expired before anything else went wrong. */
  predicate HistoryExpired(before: seq<Mishap>, after: seq<Mishap>) {
    |before| < |after| && after[|before|] == Expiry
  }

  /** The outcome is that of the last thing that went wrong; an expired history alone does not stop a
      synchronization. */
  ghost predicate Accounted(before: seq<Mishap>, r: Reply<Option<nat>>, after: seq<Mishap>) {
    || Told(before, r, after) || Told(before + [Expiry], r, after)
    || (r.Failed? && after == before + [Expiry, Expiry])
  }

  class Account {
    const service: Service
    /** No reconciliation records anything while a synchronization runs. */
    const solitary: bool
    /** Rows of known messages and whether each is believed to be in the mailbox. */
    var rows: map<string, bool>
    var point: Option<nat>
    var fullRequired: bool
    ghost var recorded: set<string>
    ghost var stale: set<string>

    ghost function Present(): set<string>
      reads this
    {
      set id | id in rows && rows[id]
    }

    ghost function State(): Rows
      reads this
    {
      Rows(Present(), recorded, stale)
    }

    /** The point the next replay may start from. */
    function Usable(): Option<nat>
      reads this
    {
      if fullRequired then None else point
    }

    ghost predicate Valid()
      reads this, service
    {
      && service.Valid() && (point.Some? ==> point.value <= |service.changes|)
      && Sound(service.changes, Usable(), State())
    }

    /** The promise of a usable point, stale rows included. */
    ghost predicate Honest()
      reads this, service
    {
      Usable().Some? && Usable().value <= |service.changes| ==> Faithful(service.changes, Usable().value, State().(stale := {}))
    }

    /** The rows are the mailbox at the stored point, those apart that a reconciliation has written since
        the synchronization began or left stale before. */
    ghost predicate Exact()
      reads this, service
    {
      point.Some? && !fullRequired && point.value <= |service.changes| && Agree(service.changes, point.value, State())
    }

    constructor (service: Service, solitary: bool)
      requires service.Valid()
      ensures this.service == service && this.solitary == solitary && Valid()
      ensures rows == map[] && point == None && fullRequired && recorded == {} && stale == {}
    {
      this.service, this.solitary, this.rows, this.point, this.fullRequired := service, solitary, map[], None, true;
      this.recorded, this.stale := {}, {};
    }

    /** The mailbox has changed and rows have been written truly since the method began. */
    twostate predicate Proceeds(own: set<string>)
      reads this, service
    {
      && service.Valid() && old(service.changes) <= service.changes && old(rows.Keys) <= rows.Keys
      && Evolves(service.changes, |old(service.changes)|, old(State()), State(), own)
      && (solitary ==> recorded == old(recorded))
    }

    /** No row has become stale but by a reconciliation that wrote it meanwhile. */
    twostate predicate NoneSpoilt()
      reads this
    {
      old(recorded) <= recorded && stale <= old(stale) + recorded
    }

    // --- Reconciliations ---

    /** The write of one reconciliation, of a message that was seen at some time: nothing but the row, if
        there is one. */
    method Record(id: string, present: bool)
      requires service.Valid() && id in Ever(service.changes) && (present || id !in Box(service.changes))
      modifies this`rows, this`recorded, this`stale
      ensures Evolves(service.changes, |service.changes|, old(State()), State(), {}) && rows.Keys == old(rows.Keys)
      ensures Present() == if id !in old(rows) then old(Present()) else if present then old(Present()) + {id} else old(Present()) - {id}
      ensures stale == if id !in old(rows) then old(stale) else if id in Box(service.changes) || !present then old(stale) - {id} else old(stale) + {id}
    {
      if id in rows {
        ghost var before := Present();
        rows, recorded := rows[id := present], recorded + {id};
        assert Present() == if present then before + {id} else before - {id};
        stale := if present && id !in Box(service.changes) then stale + {id} else stale - {id};
        assert service.changes[..|service.changes|] == service.changes;
        assert id in Present() <==> present;
        assert id !in stale ==> (id in Present() <==> id in BoxAt(service.changes, |service.changes|));
      }
    }

    /** Whatever reconciliations record between two steps of a synchronization. */
    method Elsewhere()
      requires service.Valid()
      modifies this`rows, this`recorded, this`stale
      ensures Proceeds({}) && old(Present()) <= Present() + recorded && (solitary ==> rows == old(rows) && stale == old(stale))
    {
      var n: nat := *;
      if solitary { n := 0; }
      ghost var at := |service.changes|;
      while n > 0
        invariant Evolves(service.changes, at, old(State()), State(), {}) && old(rows.Keys) <= rows.Keys
        invariant solitary ==> rows == old(rows) && stale == old(stale) && recorded == old(recorded)
        decreases n
      {
        n := n - 1;
        var id: string, present: bool := *, *;
        if id in Ever(service.changes) && (present || id !in Box(service.changes)) {
          ghost var middle := State();
          Record(id, present);
          EvolvesOn(service.changes, service.changes, at, at, old(State()), middle, State(), {}, {});
        }
      }
      LostAreRecorded(service.changes, at, old(State()), State());
    }

    /** A reconciled deletion records the absence of a message that had been in the mailbox. */
    method RecordAbsence(id: string)
      requires Valid() && id in Ever(service.changes) && id !in Box(service.changes)
      modifies this`rows, this`recorded, this`stale
      ensures Valid() && Present() == old(Present()) - {id}
      ensures old(Honest()) ==> Honest()
    {
      ghost var before := State();
      Record(id, false);
      SoundEvolves(service.changes, service.changes, Usable(), before, State(), {});
      if Usable().Some? && id !in Touched(service.changes, Usable().value, |service.changes|) {
        UntouchedStays(service.changes, Usable().value, |service.changes|, id);
        assert service.changes[..|service.changes|] == service.changes;
      }
    }

    /** Recording that a message was seen.  It spoils what the rows promise of a usable point exactly if
        its row exists, it was gone at that point, and nothing has touched it since. */
    method RecordPresence(id: string)
      requires Valid() && id in Ever(service.changes)
      modifies this`rows, this`recorded, this`stale
      ensures Valid() && Present() == old(Present()) + if id in old(rows) then {id} else {}
      ensures old(Honest()) ==>
                (Honest() <==>
                   || id !in old(rows) || Usable().None?
                   || id in BoxAt(service.changes, Usable().value) + Touched(service.changes, Usable().value, |service.changes|))
    {
      ghost var before := State();
      Record(id, true);
      SoundEvolves(service.changes, service.changes, Usable(), before, State(), {});
      if Usable().Some? && Faithful(service.changes, Usable().value, before.(stale := {})) && id in rows {
        PresenceIsFaithfulIff(service.changes, Usable().value, before.(stale := {}), id);
      }
    }

    // --- Synchronization ---

    /** A service request leaves the rows alone. */
    lemma {:induction false} Waited(before: History, after: History, rows: Rows)
      requires before <= after
      ensures Evolves(after, |before|, rows, rows, {})
    {
    }

    /** Reads one message and registers it as present; nothing else is ever written. */
    method Reconcile(id: string) returns (r: Reply<()>)
      requires service.Valid()
      modifies this`rows, this`recorded, this`stale, service`changes, service`mishaps
      ensures Told(old(service.mishaps), r, service.mishaps)
      ensures Proceeds({id}) && !r.Expired? && old(Present()) <= Present() + recorded
      ensures r.Got? ==> id in Present() && id in Box(service.changes) && id !in stale
      ensures service.quiet ==> service.changes == old(service.changes) && (id in Box(service.changes) ==> r.Got?)
    {
      ghost var first, before := service.changes, State();
      var message := service.Message(id);
      Waited(first, service.changes, State());
      if !message.Got? { return if message.Crashed? then Crashed else Failed; }
      ghost var known := service.changes;
      Elsewhere();
      EvolvesOn(known, known, |first|, |known|, before, before, State(), {}, {});
      var readable: bool := *;
      if !readable && !service.quiet { return Failed; }
      r := service.Local();
      if !r.Got? { return; }
      ghost var middle := State();
      Register(id);
      EvolvesOn(known, known, |first|, |known|, before, middle, State(), {}, {id});
      r := service.Local();
    }

    /** The row of a message that is there. */
    method Register(id: string)
      requires service.Valid() && id in Box(service.changes)
      modifies this`rows, this`stale
      ensures Present() == old(Present()) + {id} && stale == old(stale) - {id} && old(rows.Keys) <= rows.Keys
      ensures Evolves(service.changes, |service.changes|, old(State()), State(), {id})
    {
      ghost var before := Present();
      rows, stale := rows[id := true], stale - {id};
      assert Present() == before + {id};
      assert service.changes[..|service.changes|] == service.changes;
      BoxWithinEver(service.changes);
      assert id in BoxAt(service.changes, |service.changes|);
    }

    /** An anchor taken before the scan, from a message resource; none for an empty mailbox. */
    method PreScanAnchor() returns (r: Reply<Option<nat>>)
      requires service.Valid()
      modifies service`changes, service`mishaps
      ensures Told(old(service.mishaps), r, service.mishaps)
      ensures service.Valid() && old(service.changes) <= service.changes && !r.Expired?
      ensures r.Got? ==> (r.value.None? <==> Box(service.changes) == {}) && (r.value.Some? ==> r.value.value <= |service.changes|)
      ensures service.quiet ==> r.Got? && service.changes == old(service.changes)
    {
      var first := service.ListOne();
      if !first.Got? { return if first.Crashed? then Crashed else Failed; }
      if first.value.None? { return Got(None); }
      var message := service.Message(first.value.value);
      if !message.Got? { return if message.Crashed? then Crashed else Failed; }
      r := Got(Some(message.value));
    }

    static lemma {:induction false} ScannedLater(before: History, after: History, from: nat, until: nat, seen: set<string>)
      requires before <= after && from <= until <= |before| && Scanned(before, from, until, seen)
      ensures Scanned(after, from, until, seen)
    {
      assert forall k :: 0 <= k <= |before| ==> after[..k] == before[..k];
      forall id | id in seen ensures exists k :: from <= k <= until && id in BoxAt(after, k) {
        var k :| from <= k <= until && id in BoxAt(before, k);
        assert id in BoxAt(after, k);
      }
      assert Deleted(before, from, until) == Deleted(after, from, until);
      assert BoxAt(after, from) == BoxAt(before, from);
    }

    /** The paged replay: exactly the changes between `start` and the point the last page carries. */
    method CollectHistory(start: nat) returns (r: Reply<Outcome>)
      requires service.Valid() && start <= |service.changes|
      modifies service`changes, service`mishaps, service`replayed, service`issued
      ensures Told(old(service.mishaps), r, service.mishaps)
      ensures service.Valid() && old(service.changes) <= service.changes
      ensures service.quiet ==> r.Got? && service.changes == old(service.changes)
      ensures r.Got? ==>
                && start <= r.value.end == |service.changes|
                && r.value.affected == Touched(service.changes, start, r.value.end)
                && r.value.deleted == Deleted(service.changes, start, r.value.end)
    {
      var affected: set<string>, deleted: set<string> := {}, {};
      var token: Option<string>, tokens: set<string> := None, {};
      ghost var at := start;
      while true
        invariant service.Valid() && old(service.changes) <= service.changes
        invariant tokens <= service.tokens && tokens == if token.None? then {} else service.issued
        invariant service.mishaps == old(service.mishaps)
        invariant service.quiet ==> service.changes == old(service.changes)
        invariant start <= at <= |service.changes| && at == if token.None? then start else service.replayed
        invariant affected == Touched(service.changes, start, at) && deleted == Deleted(service.changes, start, at)
        decreases service.tokens - tokens
      {
        ghost var known := service.changes;
        var page := service.History(start, token);
        if !page.Got? { return if page.Crashed? then Crashed else if page.Expired? then Expired else Failed; }
        var records := page.value.records;
        assert records == service.changes[at..service.replayed];
        assert Touched(service.changes, start, at) == Touched(known, start, at) && Deleted(service.changes, start, at) == Deleted(known, start, at);
        Continue(service.changes, start, at, service.replayed);
        affected, deleted := CollectPage(records, affected, deleted);
        at := service.replayed;
        token := page.value.next;
        if token.None? {
          if page.value.point.None? { return Failed; }
          return Got(Outcome(affected, deleted, page.value.point.value));
        }
        if token.value == "" || token.value in tokens { return Failed; }
        tokens := tokens + {token.value};
      }
    }

    /** The records of one page, collected. */
    static method CollectPage(records: seq<Change>, affected: set<string>, deleted: set<string>) returns (a: set<string>, d: set<string>)
      ensures a == affected + Touched(records, 0, |records|)
      ensures d == deleted + Deleted(records, 0, |records|)
    {
      a, d := affected, deleted;
      for i := 0 to |records|
        invariant a == affected + Touched(records, 0, i) && d == deleted + Deleted(records, 0, i)
      {
        assert Touched(records, 0, i + 1) == Touched(records, 0, i) + {records[i].id};
        assert Deleted(records, 0, i + 1) == Deleted(records, 0, i) + if records[i].Removed? then {records[i].id} else {};
        a := a + {records[i].id};
        if records[i].Removed? { d := d + {records[i].id}; }
      }
    }

    static lemma {:induction false} Continue(changes: History, start: nat, at: nat, until: nat)
      requires start <= at <= until <= |changes|
      ensures var records := changes[at..until];
              && Touched(changes, start, until) == Touched(changes, start, at) + Touched(records, 0, |records|)
              && Deleted(changes, start, until) == Deleted(changes, start, at) + Deleted(records, 0, |records|)
    {
    }

    /** The row of a message that the history says is gone, if there is one. */
    method Unregister(id: string)
      requires service.Valid() && Gone(service.changes, id)
      modifies this`rows, this`stale
      ensures Present() == old(Present()) - {id} && stale == old(stale) - {id} && rows.Keys == old(rows.Keys)
      ensures Evolves(service.changes, |service.changes|, old(State()), State(), {id})
    {
      ghost var before := Present();
      if id in rows { rows := rows[id := false]; }
      stale := stale - {id};
      assert Present() == before - {id};
      TrueNow(service.changes, |service.changes|, State(), id);
    }

    /** One affected row, brought up to date. */
    method Apply(id: string, gone: bool) returns (r: Reply<()>)
      requires service.Valid() && (gone ==> Gone(service.changes, id))
      modifies this`rows, this`recorded, this`stale, service`changes, service`mishaps
      ensures Told(old(service.mishaps), r, service.mishaps)
      ensures Proceeds({id}) && !r.Expired?
      ensures r.Got? ==> WrittenTruly(service.changes, |old(service.changes)|, State(), id) && (id in Present() <==> !gone)
      ensures service.quiet ==> service.changes == old(service.changes) && (gone || id in Box(service.changes) ==> r.Got?)
    {
      if gone {
        ghost var before, known := State(), service.changes;
        Elsewhere();
        ghost var middle := State();
        Unregister(id);
        EvolvesOn(known, known, |known|, |known|, before, middle, State(), {}, {id});
        r := Got(());
      } else {
        r := Reconcile(id);
        if r.Got? { BoxWithinEver(service.changes); }
      }
      if r.Got? { TrueNow(service.changes, |old(service.changes)|, State(), id); }
    }

    /** Brings the affected rows up to date, one commit each. */
    method ApplyHistory(affected: set<string>, deleted: set<string>) returns (r: Reply<()>)
      requires service.Valid() && forall id :: id in deleted ==> Gone(service.changes, id)
      modifies this`rows, this`recorded, this`stale, service`changes, service`mishaps
      ensures Told(old(service.mishaps), r, service.mishaps)
      ensures Proceeds(affected) && !r.Expired?
      ensures r.Got? ==> Settled(service.changes, |old(service.changes)|, affected, deleted, State())
      ensures service.quiet ==> service.changes == old(service.changes) && (affected - deleted <= Box(service.changes) ==> r.Got?)
    {
      var rest := affected;
      ghost var at := |service.changes|;
      while rest != {}
        invariant rest <= affected && Proceeds(affected)
        invariant forall id :: id in deleted ==> Gone(service.changes, id)
        invariant Settled(service.changes, at, affected - rest, deleted, State())
        invariant service.mishaps == old(service.mishaps)
        invariant service.quiet ==> service.changes == old(service.changes)
        decreases rest
      {
        var id :| id in rest;
        ghost var known, before := service.changes, State();
        r := Apply(id, id in deleted);
        EvolvesOn(known, service.changes, at, |known|, old(State()), before, State(), affected, {id});
        assert affected + {id} == affected;
        if !r.Got? { return; }
        SettledLater(known, service.changes, at, |known|, before, State(), {id}, affected - rest, deleted);
        WrittenSooner(service.changes, |known|, at, State(), id);
        forall d | d in deleted ensures Gone(service.changes, d) { GoneLater(known, service.changes, d); }
        rest := rest - {id};
      }
      r := Got(());
    }

    /** The history from `start` on, collected and applied to the rows it affects. */
    method Replay(start: nat) returns (r: Reply<Outcome>, ghost known: History)
      requires Valid() && start <= |service.changes|
      modifies this`rows, this`recorded, this`stale, service`changes, service`mishaps, service`replayed, service`issued
      ensures Told(old(service.mishaps), r, service.mishaps)
      ensures Valid() && old(service.changes) <= service.changes && old(rows.Keys) <= rows.Keys && NoneSpoilt()
      ensures solitary ==> recorded == old(recorded)
      ensures r.Got? ==>
                && var o := r.value;
                && start <= o.end == |known| && old(service.changes) <= known <= service.changes && Legal(known)
                && o.affected == Touched(known, start, o.end) && o.deleted == Deleted(known, start, o.end)
                && Evolves(service.changes, o.end, old(State()), State(), o.affected)
                && Proceeds(o.affected)
                && Settled(service.changes, o.end, o.affected, o.deleted, State())
      ensures r.Got? ==> stale <= (old(stale) - Touched(service.changes, start, r.value.end)) + recorded
      ensures r.Expired? ==> State() == old(State())
      ensures service.quiet ==> r.Got? && service.changes == old(service.changes)
    {
      ghost var first, before := service.changes, State();
      known := service.changes;
      r := CollectHistory(start);
      SoundLater(first, service.changes, Usable(), before);
      if !r.Got? { return; }
      var o := r.value;
      known := service.changes;
      Remaining(known, start);
      var applied := ApplyHistory(o.affected, o.deleted);
      Longer(known, service.changes, start, o.end);
      SoundEvolves(known, service.changes, Usable(), before, State(), o.affected);
      StaleAreRecorded(service.changes, |known|, before, State(), o.affected);
      if !applied.Got? { return if applied.Crashed? then Crashed else Failed, known; }
      ghost var settled := State();
      Elsewhere();
      EvolvesOn(service.changes, service.changes, |known|, |service.changes|, before, settled, State(), o.affected, {});
      SettledLater(service.changes, service.changes, |known|, |service.changes|, settled, State(), {}, o.affected, o.deleted);
      assert o.affected + {} == o.affected;
      Waited(first, known, before);
      EvolvesOn(known, service.changes, |first|, |known|, before, before, State(), {}, o.affected);
      assert {} + o.affected == o.affected;
      SoundEvolves(known, service.changes, Usable(), before, State(), o.affected);
      StaleAfterReplay(service.changes, |first|, o.end, before, State(), o.affected, o.deleted);
    }

    /** A replay from `start`, which is the stored point when the outcome is to be committed.  Rows are
        only written truly, so a replay that stops anywhere leaves the stored point's promise intact, and no
        row stale that was not, unless a reconciliation wrote it. */
    method Partial(start: nat, commit: bool) returns (r: Reply<Outcome>)
      requires Valid() && start <= |service.changes|
      requires if commit then point == Some(start) && !fullRequired else fullRequired || point.None?
      modifies this`rows, this`recorded, this`stale, this`point, this`fullRequired, service`changes, service`mishaps, service`replayed, service`issued
      ensures Told(old(service.mishaps), r, service.mishaps)
      ensures Valid() && old(service.changes) <= service.changes && old(rows.Keys) <= rows.Keys && NoneSpoilt()
      ensures solitary ==> recorded == old(recorded)
      ensures r.Got? ==>
                && var o := r.value;
                && start <= o.end <= |service.changes| && |old(service.changes)| <= o.end
                && o.affected == Touched(service.changes, start, o.end) && o.deleted == Deleted(service.changes, start, o.end)
                && Proceeds(o.affected)
                && Settled(service.changes, o.end, o.affected, o.deleted, State())
      ensures r.Got? ==> stale <= (old(stale) - Touched(service.changes, start, r.value.end)) + recorded
      ensures r.Got? && commit ==> Exact() && point == Some(r.value.end)
      ensures !commit || r.Failed? || r.Expired? ==> point == old(point) && fullRequired == old(fullRequired)
      ensures r.Crashed? ==> point == old(point) && fullRequired == old(fullRequired)
      ensures r.Expired? ==> State() == old(State())
      ensures service.quiet ==> r.Got? && service.changes == old(service.changes)
    {
      ghost var before, known := State(), service.changes;
      r, known := Replay(start);
      if !r.Got? { return; }
      Longer(known, service.changes, start, r.value.end);
      if commit {
        var written := service.Local();
        if !written.Got? { return Crashed; }
        SoundLater(old(service.changes), known, Some(start), before);
        ReplayCatchesUp(known, service.changes, start, before, State(), r.value.affected, r.value.deleted);
        point, fullRequired := Some(r.value.end), false;
      }
    }

    /** What a replay leaves to be looked at is there, and what it deletes is gone. */
    static lemma {:induction false} Remaining(changes: History, start: nat)
      requires Legal(changes) && start <= |changes|
      ensures Touched(changes, start, |changes|) - Deleted(changes, start, |changes|) <= Box(changes)
      ensures forall id :: id in Deleted(changes, start, |changes|) ==> Gone(changes, id)
    {
      assert changes[..|changes|] == changes;
      forall id | id in Touched(changes, start, |changes|) - Deleted(changes, start, |changes|) ensures id in Box(changes) {
        TouchedIsPresent(changes, start, |changes|, id);
      }
      forall id | id in Deleted(changes, start, |changes|) ensures Gone(changes, id) {
        DeletedIsGone(changes, start, |changes|, id);
      }
    }

    static lemma {:induction false} Longer(before: History, after: History, start: nat, end: nat)
      requires before <= after && start <= end <= |before|
      ensures Touched(before, start, end) == Touched(after, start, end)
      ensures Deleted(before, start, end) == Deleted(after, start, end)
    {
    }

    /** Reconciles the entries of one page, collecting them. */
    method ReconcileAll(entries: seq<string>, sofar: set<string>) returns (r: Reply<()>, seen: set<string>)
      requires service.Valid() && Kept(service.changes, sofar, State())
      modifies this`rows, this`recorded, this`stale, service`changes, service`mishaps
      ensures Told(old(service.mishaps), r, service.mishaps)
      ensures Proceeds(set id | id in entries) && !r.Expired? && old(Present()) <= Present() + recorded
      ensures r.Got? ==> seen == sofar + (set id | id in entries) && Kept(service.changes, seen, State())
      ensures service.quiet ==> service.changes == old(service.changes)
      ensures service.quiet && (forall id :: id in entries ==> id in Box(service.changes)) ==> r.Got?
    {
      seen := sofar;
      ghost var own, at := set id | id in entries, |service.changes|;
      for i := 0 to |entries|
        invariant Proceeds(own) && old(Present()) <= Present() + recorded
        invariant seen == (sofar + set id | id in entries[..i]) && Kept(service.changes, seen, State())
        invariant service.mishaps == old(service.mishaps)
        invariant service.quiet ==> service.changes == old(service.changes)
      {
        assert entries[..i + 1] == entries[..i] + [entries[i]];
        ghost var known, before, id := service.changes, State(), entries[i];
        seen := seen + {entries[i]};
        r := Reconcile(entries[i]);
        EvolvesOn(known, service.changes, at, |known|, old(State()), before, State(), own, {id});
        assert own + {id} == own;
        if !r.Got? { return; }
        KeptLater(known, service.changes, |known|, before, State(), {id}, seen - {id});
      }
      assert entries[..|entries|] == entries;
      r := Got(());
    }

    /** One page of the inventory, reconciled. */
    method ScanPage(token: Option<string>, sofar: set<string>) returns (r: Reply<Option<string>>, seen: set<string>, ghost own: set<string>)
      requires service.Valid() && Kept(service.changes, sofar, State())
      requires if token.None? then sofar == {} else sofar == service.shown
      modifies this`rows, this`recorded, this`stale, service`changes, service`mishaps, service`scanFrom, service`shown, service`owed, service`issued
      ensures Told(old(service.mishaps), r, service.mishaps)
      ensures Proceeds(own) && !r.Expired? && old(Present()) <= Present() + recorded
      ensures if token.None? then |old(service.changes)| <= service.scanFrom else service.scanFrom == old(service.scanFrom)
      ensures service.Paged(token, old(service.issued), service.issued, if r.Got? then r.value else None)
      ensures r.Got? ==> seen == service.shown && Kept(service.changes, seen, State())
      ensures r == Got(None) ==> exists until :: service.scanFrom <= until <= |service.changes| && Scanned(service.changes, service.scanFrom, until, seen)
      ensures service.quiet ==> r.Got? && service.changes == old(service.changes)
    {
      ghost var known, before := service.changes, State();
      own, seen := {}, sofar;
      var page := service.List(token);
      Waited(known, service.changes, before);
      if !page.Got? { return if page.Crashed? then Crashed else Failed, seen, own; }
      KeptLater(known, service.changes, |known|, before, before, {}, sofar);
      ghost var moment, from, until := service.changes, service.scanFrom, |service.changes|;
      own := set id | id in page.value.entries;
      var done: Reply<()>;
      done, seen := ReconcileAll(page.value.entries, sofar);
      EvolvesOn(moment, service.changes, |known|, |moment|, before, before, State(), {}, own);
      assert {} + own == own;
      if !done.Got? { return if done.Crashed? then Crashed else Failed, seen, own; }
      if page.value.next.None? { ScannedLater(moment, service.changes, from, until, seen); }
      r := Got(page.value.next);
    }

    /** The paged inventory: every listed message is reconciled. */
    method ScanAll() returns (r: Reply<set<string>>, ghost own: set<string>, ghost from: nat, ghost until: nat)
      requires service.Valid()
      modifies this`rows, this`recorded, this`stale, service`changes, service`mishaps, service`scanFrom, service`shown, service`owed, service`issued
      ensures Told(old(service.mishaps), r, service.mishaps)
      ensures Proceeds(own) && !r.Expired? && old(Present()) <= Present() + recorded
      ensures r.Got? ==>
                && |old(service.changes)| <= from <= until <= |service.changes| && Kept(service.changes, r.value, State())
                && Scanned(service.changes, from, until, r.value)
      ensures service.quiet ==> r.Got? && service.changes == old(service.changes)
    {
      own, from, until := {}, 0, 0;
      var token: Option<string>, tokens: set<string>, seen: set<string> := None, {}, {};
      ghost var at := |service.changes|;
      while true
        invariant Proceeds(own) && old(Present()) <= Present() + recorded
        invariant tokens <= service.tokens && (token.None? ==> seen == {} && tokens == {})
        invariant token.Some? ==> seen == service.shown && at <= service.scanFrom && tokens == service.issued
        invariant service.mishaps == old(service.mishaps)
        invariant service.quiet ==> service.changes == old(service.changes)
        invariant Kept(service.changes, seen, State())
        decreases service.tokens - tokens
      {
        ghost var known, before, mine, its := service.changes, State(), own, {};
        var page;
        page, seen, its := ScanPage(token, seen);
        own := mine + its;
        EvolvesOn(known, service.changes, at, |known|, old(State()), before, State(), mine, its);
        if !page.Got? { return if page.Crashed? then Crashed else Failed, own, 0, 0; }
        if page.value.None? {
          from := service.scanFrom;
          until :| from <= until <= |service.changes| && Scanned(service.changes, from, until, seen);
          return Got(seen), own, from, until;
        }
        token := page.value;
        if token.value == "" || token.value in tokens { return Failed, own, 0, 0; }
        tokens := tokens + {token.value};
      }
    }

    /** A full synchronization.  It ends with the rows exactly the mailbox at the new point and none stale,
        except that an empty mailbox ends it early: the rows are then left as they are, so they match that
        mailbox if and only if none was present. */
    method Full() returns (r: Reply<Option<nat>>)
      requires Valid() && Usable().None?
      modifies this`rows, this`recorded, this`stale, this`point, this`fullRequired
      modifies service`changes, service`mishaps, service`scanFrom, service`shown, service`owed, service`replayed, service`issued
      ensures Told(old(service.mishaps), r, service.mishaps)
      ensures Valid() && old(service.changes) <= service.changes && old(rows.Keys) <= rows.Keys && NoneSpoilt()
      ensures solitary ==> recorded == old(recorded)
      ensures r.Got? && r.value.Some? ==> Exact() && stale == {} && point == r.value && point.value >= |old(service.changes)|
      ensures r == Got(None) ==>
                && fullRequired && point == None && State() == old(State()) && Box(service.changes) == {}
                && (Present() == Box(service.changes) <==> old(Present()) == {})
      ensures r.Failed? || r.Expired? ==> point == old(point) && fullRequired == old(fullRequired)
      ensures r.Crashed? ==> (point == old(point) && fullRequired == old(fullRequired)) || Exact()
      ensures r.Expired? ==> old(Present()) <= Present() + recorded
      ensures service.quiet ==> r.Got? && service.changes == old(service.changes) && (r == Got(None) <==> Box(service.changes) == {})
    {
      ghost var first := service.changes;
      var anchor := PreScanAnchor();
      SoundLater(first, service.changes, None, State());
      if !anchor.Got? { return if anchor.Crashed? then Crashed else Failed; }
      if anchor.value.None? {
        point, fullRequired := None, true;
        return Got(None);
      }
      ghost var known, before := service.changes, State();
      var seen, own, from, until := ScanAll();
      SoundEvolves(known, service.changes, None, before, State(), own);
      StaleAreRecorded(service.changes, |known|, before, State(), own);
      if !seen.Got? { return if seen.Crashed? then Crashed else Failed; }
      r := CatchUp(anchor.value.value, seen.value, from, until);
    }

    /** The second half of a full synchronization, after the scan: replay from the anchor, then settle
        what is absent together with the new point. */
    method CatchUp(anchor: nat, seen: set<string>, ghost from: nat, ghost until: nat) returns (r: Reply<Option<nat>>)
      requires Valid() && Usable().None? && Kept(service.changes, seen, State())
      requires anchor <= from <= until <= |service.changes| && Scanned(service.changes, from, until, seen)
      modifies this`rows, this`recorded, this`stale, this`point, this`fullRequired, service`changes, service`mishaps, service`replayed, service`issued
      ensures Told(old(service.mishaps), r, service.mishaps)
      ensures Valid() && old(service.changes) <= service.changes && old(rows.Keys) <= rows.Keys && NoneSpoilt()
      ensures solitary ==> recorded == old(recorded)
      ensures r.Got? ==> Exact() && stale == {} && r.value == point && point.value >= |old(service.changes)|
      ensures r.Failed? || r.Expired? ==> point == old(point) && fullRequired == old(fullRequired)
      ensures r.Crashed? ==> (point == old(point) && fullRequired == old(fullRequired)) || Exact()
      ensures r.Expired? ==> State() == old(State())
      ensures service.quiet ==> r.Got? && service.changes == old(service.changes)
    {
      ghost var scanned, before := service.changes, State();
      var catchup := Partial(anchor, false);
      if !catchup.Got? { return if catchup.Crashed? then Crashed else if catchup.Expired? then Expired else Failed; }
      var o := catchup.value;
      ScannedLater(scanned, service.changes, from, until, seen);
      CatchUpIsExact(service.changes, anchor, from, until, o.end, seen);
      InventoryIsKept(scanned, service.changes, |scanned|, o.end, before, State(), seen, o.affected, o.deleted);
      var finalPresent := (seen + (o.affected - o.deleted)) - o.deleted;
      assert finalPresent == (seen + o.affected) - o.deleted;
      ghost var replayed := State();
      Elsewhere();
      KeptLater(service.changes, service.changes, |service.changes|, replayed, State(), {}, finalPresent);
      CommitInventory(finalPresent, o.end);
      var audited := service.Local();
      r := if audited.Got? then Got(point) else Crashed;
    }

    /** One transaction: everything not in the inventory becomes absent, and the new point is stored. */
    method CommitInventory(finalPresent: set<string>, end: nat)
      requires service.Valid() && end <= |service.changes| && finalPresent == BoxAt(service.changes, end)
      requires Kept(service.changes, finalPresent, State())
      modifies this`rows, this`stale, this`point, this`fullRequired
      ensures Valid() && Exact() && stale == {} && point == Some(end) && rows.Keys == old(rows.Keys)
    {
      ghost var before := State();
      rows := map id | id in rows :: rows[id] && id in finalPresent;
      stale := {};
      assert Present() == before.present * finalPresent;
      InventoryCatchesUp(service.changes, end, before);
      point, fullRequired := Some(end), false;
    }

    /** A failed full synchronization is repeated in full; a failed replay is simply repeated. */
    method RecordFailure(requireFull: bool)
      requires Valid()
      modifies this`fullRequired
      ensures Valid() && fullRequired == (old(fullRequired) || requireFull)
    {
      fullRequired := fullRequired || requireFull;
    }

    /** The profile and the labels, which come before any message is looked at. */
    method Preamble() returns (r: Reply<()>)
      requires Valid()
      modifies service`changes, service`mishaps
      ensures Told(old(service.mishaps), r, service.mishaps)
      ensures Valid() && old(service.changes) <= service.changes && !r.Expired?
      ensures service.quiet ==> r.Got? && service.changes == old(service.changes)
    {
      ghost var first := service.changes;
      r := service.Ask();
      if r.Got? { r := service.Ask(); }
      SoundLater(first, service.changes, Usable(), State());
    }

    /** What a success that stored a point leaves: rows that match it but for those reconciliations have
        written, and of the stale ones those that nothing in the replay touched, or none after a scan. */
    twostate predicate CaughtUp()
      reads this, service
    {
      && Exact() && point.value >= |old(service.changes)|
      && if old(Usable()).None? then stale == {}
         else && old(point.value) <= point.value
              && stale <= (old(stale) - Touched(service.changes, old(point.value), point.value)) + recorded
    }

    /** The full synchronization or the replay from the stored point. */
    method Attempt(full: bool) returns (r: Reply<Option<nat>>)
      requires Valid() && full == Usable().None?
      modifies this`rows, this`recorded, this`stale, this`point, this`fullRequired
      modifies service`changes, service`mishaps, service`scanFrom, service`shown, service`owed, service`replayed, service`issued
      ensures Told(old(service.mishaps), r, service.mishaps)
      ensures Valid() && old(service.changes) <= service.changes && old(rows.Keys) <= rows.Keys && NoneSpoilt()
      ensures (solitary ==> recorded == old(recorded)) && (r.Got? && r.value.Some? ==> point == r.value && CaughtUp())
      ensures r == Got(None) ==> full && fullRequired && point == None && State() == old(State()) && Box(service.changes) == {}
      ensures r.Failed? || r.Expired? ==> point == old(point) && fullRequired == old(fullRequired)
      ensures r.Crashed? ==> (point == old(point) && fullRequired == old(fullRequired)) || Exact()
      ensures r.Expired? ==> old(Present()) <= Present() + recorded
      ensures service.quiet ==> r.Got? && service.changes == old(service.changes) && (r == Got(None) <==> full && Box(service.changes) == {})
    {
      if full {
        r := Full();
      } else {
        var replay := Partial(point.value, true);
        r := match replay
          case Got(o) => Got(Some(o.end))
          case Failed => Failed
          case Expired => Expired
          case Crashed => Crashed;
      }
    }

    /** The full synchronization after the stored point has turned out to be too old, or to fail. */
    method Restart() returns (r: Reply<Option<nat>>)
      requires Valid()
      modifies this`rows, this`recorded, this`stale, this`point, this`fullRequired
      modifies service`changes, service`mishaps, service`scanFrom, service`shown, service`owed, service`replayed, service`issued
      ensures Valid() && old(service.changes) <= service.changes && old(rows.Keys) <= rows.Keys && NoneSpoilt() && !r.Expired?
      ensures solitary ==> recorded == old(recorded)
      ensures r.Got? && r.value.Some? ==> Exact() && stale == {} && point == r.value && point.value >= |old(service.changes)|
      ensures r == Got(None) ==> fullRequired && point == None && State() == old(State()) && Box(service.changes) == {}
      ensures Told(old(service.mishaps), r, service.mishaps) || (r.Failed? && service.mishaps == old(service.mishaps) + [Expiry])
      ensures r.Failed? ==> point == old(point) && fullRequired
      ensures r.Crashed? ==> (point == old(point) && fullRequired) || Exact()
    {
      fullRequired := true;
      r := Full();
      if r.Failed? || r.Expired? {
        RecordFailure(true);
        r := Failed;
      }
    }

    /** The attempt, started over if the stored point has expired, and the record of its failure. */
    method Work(full: bool) returns (r: Reply<Option<nat>>)
      requires Valid() && full == Usable().None?
      modifies this`rows, this`recorded, this`stale, this`point, this`fullRequired
      modifies service`changes, service`mishaps, service`scanFrom, service`shown, service`owed, service`replayed, service`issued
      ensures Accounted(old(service.mishaps), r, service.mishaps)
      ensures Valid() && old(service.changes) <= service.changes && old(rows.Keys) <= rows.Keys && NoneSpoilt() && !r.Expired?
      ensures (solitary ==> recorded == old(recorded)) && (r.Got? && r.value.Some? ==> point == r.value && CaughtUp())
      ensures r == Got(None) ==> fullRequired && point == None && old(Present()) <= Present() + recorded && Box(service.changes) == {}
      ensures r.Failed? ==> point == old(point) && (fullRequired <==> full || HistoryExpired(old(service.mishaps), service.mishaps))
      ensures r.Crashed? ==> (point == old(point) && (fullRequired <==> old(fullRequired) || HistoryExpired(old(service.mishaps), service.mishaps))) || Exact()
      ensures service.quiet ==> r.Got? && service.changes == old(service.changes) && (r == Got(None) <==> full && Box(service.changes) == {})
    {
      r := Attempt(full);
      if r.Expired? {
        r := Restart();
      } else if r.Failed? {
        RecordFailure(full);
      }
    }

    /** One synchronization.  Whatever happens, and whatever reconciliations record meanwhile, rows of
        messages untouched since a stored point that may be replayed from stay right, stale ones apart.  A
        success that stores a point makes the rows exactly the mailbox at that point, which is no earlier
        than the start of the synchronization, but for those written by reconciliations, and repairs every
        stale row it comes across.  A success without a point makes no row absent and leaves a full
        synchronization due.  A quiet service gets a success, without a point exactly if a
        full synchronization was due and the mailbox is empty.

        A failure keeps the stored point, and it may be replayed from again exactly if it could before and
        the service has not called it too old; a crash leaves it so too, or has stored the new one.

        In every case, failures and crashes included, a row can only have become stale by a reconciliation
        that wrote it meanwhile; so where none is at work a promise without stale rows is kept whole. */
    method Sync() returns (r: Reply<Option<nat>>)
      requires Valid()
      modifies this
      modifies service`changes, service`mishaps, service`scanFrom, service`shown, service`owed, service`replayed, service`issued
      ensures Accounted(old(service.mishaps), r, service.mishaps)
      ensures Valid() && old(service.changes) <= service.changes && old(rows.Keys) <= rows.Keys && !r.Expired?
      ensures (solitary ==> recorded == {}) && (r.Got? && r.value.Some? ==> point == r.value && CaughtUp())
      ensures r == Got(None) ==> fullRequired && point == None && old(Present()) <= Present() + recorded && Box(service.changes) == {}
      ensures r.Failed? ==> point == old(point) && (fullRequired <==> old(Usable()).None? || HistoryExpired(old(service.mishaps), service.mishaps))
      ensures r.Crashed? ==> (point == old(point) && (fullRequired <==> old(fullRequired) || HistoryExpired(old(service.mishaps), service.mishaps))) || Exact()
      ensures stale <= old(stale) + recorded
      ensures solitary && old(stale) == {} ==> stale == {} && Honest()
      ensures service.quiet ==> r.Got? && service.changes == old(service.changes) && (r == Got(None) <==> old(Usable()).None? && Box(service.changes) == {})
    {
      recorded := {};
      var full := fullRequired || point.None?;
      var verified := Preamble();
      if verified.Crashed? { return Crashed; }
      if !verified.Got? {
        RecordFailure(full);
        return Failed;
      }
      r := Work(full);
    }

    /** The mailbox changes between synchronizations. */
    method MailboxChanges()
      requires Valid()
      modifies service`changes, service`mishaps
      ensures Valid() && old(service.changes) <= service.changes
    {
      ghost var before := service.changes;
      service.Change();
      SoundLater(before, service.changes, Usable(), State());
    }
  }

  /** Adding a message no one has had, or removing one that is there. */
  lemma {:induction false} OneMoreChange(changes: History, change: GmailHistory.Change)
    requires Legal(changes) && if change.Added? then change.id !in Ever(changes) else change.id in Box(changes)
    ensures var more := changes + [change]; Legal(more) && BoxAt(more, |more|) == Box(more)
    ensures Box(changes + [change]) == (match change
                                        case Added(id) => Box(changes) + {id}
                                        case Removed(id) => Box(changes) - {id}
                                        case Relabeled(_) => Box(changes))
    ensures Ever(changes + [change]) == Ever(changes) + if change.Added? then {change.id} else {}
  {
    var more := changes + [change];
    assert more[..|changes|] == changes && more[..|more|] == more;
  }

  /** Two messages arrive and are synchronized. */
  method TwoArrive(service: Service, account: Account, x: string, y: string)
    requires account.service == service && account.Valid() && service.quiet && account.solitary
    requires service.changes == [] && account.fullRequired && x != y
    modifies service, account
    ensures account.Valid() && account.Honest() && account.stale == {} && account.Usable() == Some(2) && x in account.Present()
    ensures service.changes == [Added(x), Added(y)] && Box(service.changes) == {x, y}
  {
    OneMoreChange([], Added(x));
    service.Happen(Added(x));
    OneMoreChange([Added(x)], Added(y));
    service.Happen(Added(y));
    assert Box(service.changes) == {x, y};
    var done := account.Sync();
    assert service.changes[..2] == service.changes;
  }

  /** The promise can fail although nothing ever goes wrong: two messages arrive and are synchronized; one
      is seen by a reconciliation, then removed, and the removal is synchronized as well; when the
      sighting is recorded after that, the row says present and no replay will ever touch it again. */
  method LateSightingMisleads(service: Service, account: Account, x: string, y: string)
    requires account.service == service && account.Valid() && service.quiet && account.solitary
    requires service.changes == [] && account.fullRequired && x != y
    modifies service, account
    ensures account.Valid() && !account.Honest() && x in account.Present() && Gone(service.changes, x)
  {
    TwoArrive(service, account, x, y);
    ghost var known := service.changes;
    OneMoreChange(known, Removed(x));
    service.Happen(Removed(x));
    SoundLater(known, service.changes, account.Usable(), account.State());
    var done := account.Sync();
    assert service.changes[..3] == service.changes;
    account.RecordPresence(x);
  }

  /** A message that is gone is never touched again, so only a full synchronization repairs its row. */
  lemma {:induction false} GoneIsNeverTouched(before: History, after: History, id: string)
    requires Legal(after) && before <= after && Gone(before, id)
    ensures id !in Touched(after, |before|, |after|)
  {
    assert after[..|before|] == before;
    forall k | |before| <= k < |after| ensures after[k].id != id {
      OneChange(after, k);
      GoneForGood(after, |before|, k, id);
    }
  }
}
