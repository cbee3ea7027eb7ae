/** Verdicts and the lifecycle they drive (classification.py, `apply_classification`,
    `effective_classification`, `classify_pending`). */
module Lifecycle {
  import opened Base
  import opened MoveExact

  datatype Class = Ham | Suspect | Spam

  datatype State = Pending | Archived | Quarantined

  datatype Verdict = Verdict(class_: Class, manual: bool, at: int)

  /** One row of the message table. */
  datatype Row = Row(state: State, path: Path, archivedAt: Option<int>, quarantinedAt: Option<int>)

  datatype Outcome = Applied | Refused(error: Result) | NotCommitted

  // --- The append-only verdict history ---

  /** The latest manual verdict, which binds later automatic ones. */
  function LatestManual(log: seq<Verdict>): Option<Class> {
    if log == [] then None
    else if log[|log| - 1].manual then Some(log[|log| - 1].class_)
    else LatestManual(log[..|log| - 1])
  }

  /** What a new verdict makes effective, as it is decided before the verdict is appended. */
  function Next(log: seq<Verdict>, verdict: Class, manual: bool): Class {
    if manual || LatestManual(log).None? then verdict else LatestManual(log).value
  }

  /** The effective verdict as it is read back: manual ones first, then the latest. */
  ghost predicate IsEffective(log: seq<Verdict>, k: nat) {
    && k < |log|
    && forall j :: 0 <= j < |log| && j != k ==>
         (log[k].manual && !log[j].manual) || (log[k].manual == log[j].manual && j < k)
  }

  function Effective(log: seq<Verdict>): Option<Class> {
    if log == [] then None
    else Some(Next(log[..|log| - 1], log[|log| - 1].class_, log[|log| - 1].manual))
  }

  lemma {:induction false} LatestManualIs(log: seq<Verdict>)
    ensures LatestManual(log).None? <==> forall k :: 0 <= k < |log| ==> !log[k].manual
    ensures LatestManual(log).Some? ==>
              exists k :: 0 <= k < |log| && log[k].manual && log[k].class_ == LatestManual(log).value
                          && forall j :: k < j < |log| ==> !log[j].manual
  {
    if log != [] {
      var front := log[..|log| - 1];
      if !log[|log| - 1].manual {
        LatestManualIs(front);
        if LatestManual(front).Some? {
          var k :| 0 <= k < |front| && front[k].manual && front[k].class_ == LatestManual(front).value
                   && forall j :: k < j < |front| ==> !front[j].manual;
          assert log[k] == front[k];
          assert forall j :: k < j < |front| ==> log[j] == front[j];
        } else {
          assert forall k :: 0 <= k < |front| ==> log[k] == front[k];
        }
      }
    }
  }

  /** What is decided before appending a verdict is what is read back afterwards: the one row that the
      ordering (manual first, then latest) puts on top has the decided class. */
  lemma {:induction false} DecidedIsEffective(log: seq<Verdict>)
    requires log != []
    ensures exists k: nat :: IsEffective(log, k) && log[k].class_ == Effective(log).value
    ensures forall i: nat, k: nat :: IsEffective(log, i) && IsEffective(log, k) ==> i == k
  {
    var n, front := |log| - 1, log[..|log| - 1];
    LatestManualIs(front);
    if log[n].manual || LatestManual(front).None? {
      assert forall k :: 0 <= k < n ==> log[k] == front[k];
      assert IsEffective(log, n);
    } else {
      var k :| 0 <= k < n && front[k].manual && front[k].class_ == LatestManual(front).value
               && forall j :: k < j < n ==> !front[j].manual;
      assert forall j :: 0 <= j < n ==> log[j] == front[j];
      assert IsEffective(log, k);
    }
  }

  /** The state a history calls for. */
  function StateFor(log: seq<Verdict>): State {
    if log == [] then Pending else if Effective(log) == Some(Ham) then Archived else Quarantined
  }

  /** When the message was first promoted. */
  function FirstHam(log: seq<Verdict>): Option<int> {
    if log == [] then None
    else if FirstHam(log[..|log| - 1]).Some? then FirstHam(log[..|log| - 1])
    else if Effective(log) == Some(Ham) then Some(log[|log| - 1].at)
    else None
  }

  /** When the message last entered or stayed in quarantine. */
  function LastQuarantine(log: seq<Verdict>): Option<int> {
    if log == [] then None
    else if Effective(log) != Some(Ham) then Some(log[|log| - 1].at)
    else LastQuarantine(log[..|log| - 1])
  }

  /** The promotion time is that of the first verdict that made ham effective, and no later verdict,
      manual or automatic, changes it. */
  lemma {:induction false} FirstHamIsFirst(log: seq<Verdict>)
    ensures FirstHam(log).Some? <==> exists k :: 0 < k <= |log| && StateFor(log[..k]) == Archived
    ensures FirstHam(log).Some? ==>
              exists k :: 0 < k <= |log| && StateFor(log[..k]) == Archived && FirstHam(log) == Some(log[k - 1].at)
                          && forall j :: 0 < j < k ==> StateFor(log[..j]) != Archived
  {
    if log != [] {
      var n, front := |log|, log[..|log| - 1];
      FirstHamIsFirst(front);
      assert forall k :: 0 <= k < n ==> front[..k] == log[..k];
      assert log[..n] == log;
      if FirstHam(front).Some? {
        var k :| 0 < k <= |front| && StateFor(front[..k]) == Archived && FirstHam(front) == Some(front[k - 1].at)
                 && forall j :: 0 < j < k ==> StateFor(front[..j]) != Archived;
        assert StateFor(log[..k]) == Archived && log[k - 1] == front[k - 1];
        assert forall j :: 0 < j < k ==> front[..j] == log[..j];
      } else if Effective(log) == Some(Ham) {
        assert StateFor(log[..n]) == Archived;
        assert forall j :: 0 < j < n ==> front[..j] == log[..j];
      } else {
        assert StateFor(log[..n]) != Archived;
      }
    }
  }

  /** The quarantine time is that of the last verdict that left ham ineffective: after the first `k` verdicts
      the message is in quarantine, and after every one that follows it is archived; with `k` none, there
      was no such verdict. */
  lemma {:induction false} LastQuarantineIsLast(log: seq<Verdict>) returns (k: nat)
    ensures k <= |log| && (LastQuarantine(log).None? <==> k == 0)
    ensures k > 0 ==> StateFor(log[..k]) == Quarantined && LastQuarantine(log) == Some(log[k - 1].at)
    ensures forall j :: k < j <= |log| ==> StateFor(log[..j]) == Archived
  {
    k := 0;
    if log != [] {
      var n, front := |log|, log[..|log| - 1];
      assert log[..n] == log;
      if Effective(log) != Some(Ham) {
        k := n;
      } else {
        k := LastQuarantineIsLast(front);
        assert log[..k] == front[..k];
        forall j | k < j <= n ensures StateFor(log[..j]) == Archived {
          if j < n { assert log[..j] == front[..j]; }
        }
      }
    }
  }

  lemma {:induction false} FirstHamNeverChanges(log: seq<Verdict>, more: seq<Verdict>)
    requires FirstHam(log).Some?
    ensures FirstHam(log + more) == FirstHam(log)
  {
    if more == [] {
      assert log + more == log;
    } else {
      FirstHamNeverChanges(log, more[..|more| - 1]);
      assert (log + more)[..|log + more| - 1] == log + more[..|more| - 1];
    }
  }

  // --- Rows and files ---

  function PathOf(state: State): Path {
    match state
    case Pending => At("staging")
    case Archived => At("mail")
    case Quarantined => At("quarantine")
  }

  class Message {
    const disk: Disk
    const digest: Digest
    /** Row and verdict log change together, in one transaction. */
    var row: Row
    var log: seq<Verdict>

    /** The row says what the verdict history calls for. */
    ghost predicate Logged()
      reads this
    {
      && row.state == StateFor(log) && row.path == PathOf(row.state)
      && row.archivedAt == FirstHam(log) && row.quarantinedAt == LastQuarantine(log)
    }

    /** The canonical bytes are where `state` keeps them. */
    ghost predicate KeptIn(state: State)
      reads disk
    {
      Holds(disk.files, PathOf(state), digest)
    }

    /** Nobody else uses the disk, the bytes are somewhere, and nothing else is at any of the places. */
    ghost predicate Safe()
      reads disk
    {
      && disk.Valid() && disk.alone
      && (exists state :: KeptIn(state))
      && (forall state :: PathOf(state) in disk.files ==> KeptIn(state))
    }

    ghost predicate Valid()
      reads this, disk
    {
      Safe() && Logged()
    }

    /** The bytes are where the row says they are. */
    ghost predicate AtHome()
      reads this, disk
    {
      Valid() && KeptIn(row.state)
    }

    /** ... and nowhere else. */
    ghost predicate Settled()
      reads this, disk
    {
      AtHome() && forall state :: KeptIn(state) ==> state == row.state
    }

    /** A newly ingested message: staged, without verdicts. */
    constructor (disk: Disk, digest: Digest)
      requires disk.Valid() && disk.alone && Holds(disk.files, PathOf(Pending), digest)
      requires PathOf(Archived) !in disk.files && PathOf(Quarantined) !in disk.files
      ensures this.disk == disk && this.digest == digest && Settled() && log == [] && row.state == Pending
    {
      this.disk, this.digest := disk, digest;
      this.row, this.log := Row(Pending, PathOf(Pending), None, None), [];
      new;
      assert KeptIn(Pending);
    }

    /** Applies one verdict to a freshly read message: moves the file to the place of the decided state,
        then appends the verdict and rewrites the row in one transaction.  The move may fail, and the
        work may stop between the move and the transaction; the row and the log then stay as they were
        and the bytes are safe.  Undisturbed, it succeeds exactly when the bytes are at the place the row
        names or at the one they should go to. */
    method Apply(verdict: Class, manual: bool, now: int) returns (r: Outcome)
      requires Valid()
      modifies this`row, this`log, disk
      ensures Valid()
      ensures r.Applied? ==> AtHome() && log == old(log) + [Verdict(verdict, manual, now)]
      ensures !r.Applied? ==> row == old(row) && log == old(log)
      ensures disk.reliable ==>
                var target := StateFor(old(log) + [Verdict(verdict, manual, now)]);
                && (r.Applied? <==> old(KeptIn(row.state)) || old(KeptIn(target)))
                && (r.Applied? && old(Settled()) ==> Settled())
      ensures !r.Applied? && old(AtHome()) ==>
                AtHome() || KeptIn(StateFor(old(log) + [Verdict(verdict, manual, now)]))
    {
      ghost var entry := Verdict(verdict, manual, now);
      assert (log + [entry])[..|log|] == log;
      var next := Next(log, verdict, manual);
      var target := if next == Ham then Archived else Quarantined;
      var moved := Relocate(target);
      if !moved.Done? { return Refused(moved); }
      var committed: bool := *;
      if !committed && !disk.reliable { return NotCommitted; }
      row := Row(target, PathOf(target),
                 if target == Archived && row.archivedAt.None? then Some(now) else row.archivedAt,
                 if target == Quarantined then Some(now) else row.quarantinedAt);
      log := log + [Verdict(verdict, manual, now)];
      r := Applied;
    }

    /** The move behind one transition. */
    method Relocate(target: State) returns (r: Result)
      requires Safe() && row.path == PathOf(row.state)
      modifies disk
      ensures Safe()
      ensures r.Done? ==> KeptIn(target) && (forall state :: KeptIn(state) ==> old(KeptIn(state)) || state == target)
      ensures r.Done? && row.state != target ==> !KeptIn(row.state)
      ensures disk.reliable ==> (r.Done? <==> old(KeptIn(row.state)) || old(KeptIn(target)))
      ensures old(KeptIn(row.state)) ==> KeptIn(row.state) || KeptIn(target)
    {
      ghost var before := disk.files;
      ghost var home :| KeptIn(home);
      r := Move(disk, row.path, PathOf(target), digest);
      SafeKeepsTheBytes(before, disk.files, row.path, PathOf(target), digest);
      assert KeptIn(home) || KeptIn(target);
    }

    /** Classifies a message that is still pending; anything else is left alone.  A message whose bytes
        are no longer in staging is refused before the classifier is asked. */
    method ClassifyPending(verdict: Class, now: int) returns (r: Option<Outcome>)
      requires Valid()
      modifies this`row, this`log, disk
      ensures Valid()
      ensures r == None <==> old(row).state != Pending
      ensures r.Some? && !old(KeptIn(Pending)) ==> r == Some(Refused(IngestError))
      ensures r == None || !old(KeptIn(Pending)) ==> row == old(row) && log == old(log) && disk.files == old(disk.files)
      ensures r.Some? && r.value.Applied? ==> AtHome() && log == old(log) + [Verdict(verdict, false, now)]
      ensures r.Some? && !r.value.Applied? ==> row == old(row) && log == old(log)
      ensures disk.reliable && r.Some? ==> (r.value.Applied? <==> old(KeptIn(Pending)))
    {
      if row.state != Pending { return None; }
      if row.path !in disk.files || !disk.files[row.path].File? || Sha256(disk.files[row.path].bytes) != digest { return Some(Refused(IngestError)); }
      var outcome := Apply(verdict, false, now);
      r := Some(outcome);
    }
  }

  /** A crash of a classification run: the file has been moved to the place of `verdict`, and the
      transaction was never committed. */
  method CrashAfterMove(message: Message, verdict: Class)
    requires message.Settled() && message.row.state == Pending && message.log == []
    modifies message.disk
    ensures message.Valid() && message.row == old(message.row) && message.log == []
    ensures message.disk.reliable ==> !message.KeptIn(Pending) && message.KeptIn(StateFor([Verdict(verdict, false, 0)]))
  {
    assert [Verdict(verdict, false, 0)][..0] == [];
    var moved := message.Relocate(if verdict == Ham then Archived else Quarantined);
  }

  /** After such a crash, pending recovery never succeeds, however often it runs; applying a verdict
      directly succeeds exactly when it calls for the place the bytes have reached. */
  method PendingRecoveryFails(message: Message, verdicts: seq<Class>)
    requires message.Valid() && message.disk.reliable && message.row.state == Pending && !message.KeptIn(Pending)
    modifies message`row, message`log, message.disk
    ensures message.Valid() && message.row == old(message.row) && message.log == old(message.log)
    ensures message.disk.files == old(message.disk.files)
  {
    for i := 0 to |verdicts|
      invariant message.Valid() && message.row == old(message.row) && message.log == old(message.log)
      invariant message.disk.files == old(message.disk.files)
    {
      var outcome := message.ClassifyPending(verdicts[i], i);
      assert outcome.value == Refused(IngestError);
    }
  }
}
