/** The crash-safe move of a canonical file (classification.py, `_move_exact`).

    The disk keeps a trace of every state it has been in, so what holds in all of them holds wherever a
    crash may strike.  File contents are never changed in place by anyone. */
module MoveExact {
  import opened Base

  datatype Path = At(name: string) | Temp(n: nat)

  datatype Node = File(bytes: Bytes) | NotAFile

  type Files = map<Path, Node>

  datatype Result = Done | IngestError | OsError

  datatype LinkResult = Linked | AlreadyThere | LinkError

  ghost predicate Holds(files: Files, path: Path, digest: Digest) {
    path in files && files[path].File? && Sha256(files[path].bytes) == digest
  }

  /** Nothing but the bytes is at either place. */
  ghost predicate Clean(files: Files, source: Path, destination: Path, digest: Digest) {
    && (destination in files ==> Holds(files, destination, digest))
    && (source in files ==> Holds(files, source, digest))
  }

  /** And one of the places does hold them: the condition for the move to be possible at all. */
  ghost predicate Ready(files: Files, source: Path, destination: Path, digest: Digest) {
    Clean(files, source, destination, digest) && (source in files || destination in files)
  }

  /** No file of `before` is missing or different. */
  ghost predicate Intact(before: Files, files: Files) {
    forall p :: p in before ==> p in files && files[p] == before[p]
  }

  /** A state a move may pass through: nothing that was there has been touched, or only the source is
      gone and the destination holds the bytes. */
  ghost predicate Safe(before: Files, files: Files, source: Path, destination: Path, digest: Digest) {
    || Intact(before, files)
    || (source != destination && source !in files && Intact(before - {source}, files) && Holds(files, destination, digest))
  }

  /** In a safe state the bytes are at one of the two places if they were before, and no file that was
      there has other contents. */
  lemma {:induction false} SafeKeepsTheBytes(before: Files, files: Files, source: Path, destination: Path, digest: Digest)
    requires Safe(before, files, source, destination, digest)
    ensures Holds(before, source, digest) || Holds(before, destination, digest) ==>
              Holds(files, source, digest) || Holds(files, destination, digest)
    ensures forall p :: p in before && p in files ==> files[p] == before[p]
    ensures forall p :: p in before && p !in files ==> p == source && Holds(files, destination, digest)
  {
  }

  ghost predicate AllSafe(before: Files, trace: seq<Files>, from: nat, source: Path, destination: Path, digest: Digest) {
    forall k :: from <= k < |trace| ==> Safe(before, trace[k], source, destination, digest)
  }

  /** On a disk of our own no name but the destination's and temporary ones comes into use, and clean
      places stay clean. */
  ghost predicate Tidy(before: Files, files: Files, source: Path, destination: Path, digest: Digest) {
    && (forall p :: p in files && p.At? ==> p in before || p == destination)
    && (Clean(before, source, destination, digest) ==> Clean(files, source, destination, digest))
  }

  ghost predicate AllTidy(before: Files, trace: seq<Files>, from: nat, source: Path, destination: Path, digest: Digest) {
    forall k :: from <= k < |trace| ==> Tidy(before, trace[k], source, destination, digest)
  }

  /** Every temporary name in use is an old one. */
  ghost predicate Below(files: Files, nextTemp: nat) {
    forall p :: p in files && p.Temp? ==> p.n < nextTemp
  }

  class Disk {
    /** No other process creates files here. */
    const alone: bool
    /** No call fails for a reason of its own.  Linking across directories may still be unsupported. */
    const reliable: bool
    var files: Files
    /** Every state so far; the last one is the present. */
    var trace: seq<Files>
    var nextTemp: nat
    /** Calls that have failed; that a link across directories is not supported is no failure. */
    ghost var faults: nat
    /** The states, by their place in the trace, whose directory entries have been made durable. */
    ghost var synced: seq<nat>

    ghost predicate Valid()
      reads this
    {
      && trace != [] && trace[|trace| - 1] == files
      && (forall k :: 0 <= k < |trace| ==> Below(trace[k], nextTemp))
    }

    constructor (alone: bool, reliable: bool, files: Files, nextTemp: nat)
      requires Below(files, nextTemp)
      ensures Valid() && this.alone == alone && this.reliable == reliable && this.files == files && trace == [files]
    {
      this.alone, this.reliable, this.files, this.trace, this.nextTemp := alone, reliable, files, [files], nextTemp;
      this.faults, this.synced := 0, [];
    }

    method Become(next: Files)
      requires Valid() && Below(next, nextTemp)
      modifies this`files, this`trace
      ensures Valid() && files == next && trace == old(trace) + [next]
    {
      files, trace := next, trace + [next];
    }

    /** Another process may create a file where there is none. */
    method Others()
      requires Valid()
      modifies this`files, this`trace
      ensures Valid()
      ensures Intact(old(files), files) && forall p :: p in files && p.Temp? ==> p in old(files)
      ensures if files == old(files) then trace == old(trace) || trace == old(trace) + [files]
              else !alone && trace == old(trace) + [files]
      ensures alone ==> files == old(files) && trace == old(trace)
    {
      var name: string, node: Node := *, *;
      if !alone && At(name) !in files { Become(files[At(name) := node]); }
    }

    method Fails() returns (failed: bool)
      modifies this`faults
      ensures (reliable ==> !failed) && faults == old(faults) + if failed then 1 else 0
    {
      failed := *;
      if reliable { failed := false; }
      if failed { faults := faults + 1; }
    }

    /** Makes the present directory entries durable. */
    method Sync() returns (failed: bool)
      requires Valid()
      modifies this`faults, this`synced
      ensures (reliable ==> !failed) && faults == old(faults) + if failed then 1 else 0
      ensures synced == if failed then old(synced) else old(synced) + [|trace| - 1]
    {
      failed := Fails();
      if !failed { synced := synced + [|trace| - 1]; }
    }

    method Link(source: Path, destination: Path) returns (r: LinkResult)
      requires Valid() && source in files && files[source].File? && destination.At?
      modifies this`files, this`trace, this`faults
      ensures Valid() && faults == old(faults) + if r.LinkError? && source.Temp? then 1 else 0
      ensures r.AlreadyThere? ==> destination in files
      ensures reliable && source.Temp? ==> !r.LinkError?
      ensures if r.Linked? then destination !in old(files) && files == old(files)[destination := old(files)[source]] && trace == old(trace) + [files]
              else files == old(files) && trace == old(trace)
    {
      var supported: bool := *;
      if !supported && !(reliable && source.Temp?) {
        if source.Temp? { faults := faults + 1; }
        return LinkError;
      }
      if destination in files { return AlreadyThere; }
      Become(files[destination := files[source]]);
      r := Linked;
    }

    method Unlink(path: Path) returns (failed: bool)
      requires Valid()
      modifies this`files, this`trace, this`faults
      ensures Valid() && (reliable ==> !failed) && faults == old(faults) + if failed then 1 else 0
      ensures if failed then files == old(files) && trace == old(trace)
              else files == old(files) - {path} && trace == old(trace) + [files]
    {
      failed := Fails();
      if !failed { Become(files - {path}); }
    }

    /** A new empty file under a name nobody uses. */
    method MakeTemp() returns (path: Path)
      requires Valid()
      modifies this`files, this`trace, this`nextTemp
      ensures Valid() && path.Temp? && path !in old(files)
      ensures files == old(files)[path := File([])] && trace == old(trace) + [files]
    {
      path := Temp(nextTemp);
      nextTemp := nextTemp + 1;
      Become(files[path := File([])]);
    }

    /** Appends one piece to a temporary file; a faulty disk may write something else. */
    method Append(path: Path, piece: Bytes)
      requires Valid() && path.Temp? && path in files && files[path].File?
      modifies this`files, this`trace
      ensures Valid() && path in files && files[path].File? && (reliable ==> files[path].bytes == old(files)[path].bytes + piece)
      ensures files == old(files)[path := files[path]] && trace == old(trace) + [files]
    {
      var written: Bytes := *;
      Become(files[path := File(files[path].bytes + if reliable then piece else written)]);
    }
  }

  /** What every piece of a move keeps: relative to the state `before` it, all new states are safe, and
      tidy if the disk is ours alone. */
  ghost predicate Kept(alone: bool, before: Files, trace: seq<Files>, from: nat, source: Path, destination: Path, digest: Digest) {
    && AllSafe(before, trace, from, source, destination, digest)
    && (alone ==> AllTidy(before, trace, from, source, destination, digest))
  }

  /** In some state made durable the destination held the bytes and the source was still there. */
  ghost predicate DurableFirst(trace: seq<Files>, synced: seq<nat>, source: Path, destination: Path, digest: Digest) {
    exists k :: k in synced && k < |trace| && Holds(trace[k], destination, digest) && source in trace[k]
  }

  /** The last state has been made durable. */
  ghost predicate AllDurable(trace: seq<Files>, synced: seq<nat>) {
    synced != [] && synced[|synced| - 1] == |trace| - 1
  }

  class Mover {
    const disk: Disk
    const source: Path
    const destination: Path
    const digest: Digest
    /** The state the move started from, and where in the trace it stands. */
    ghost const before: Files
    ghost const start: nat
    ghost const past: seq<Files>

    ghost predicate Valid()
      reads disk
    {
      && disk.Valid() && source.At? && destination.At? && |past| == start + 1 && past <= disk.trace
      && Kept(disk.alone, before, disk.trace, start, source, destination, digest)
    }

    constructor (disk: Disk, source: Path, destination: Path, digest: Digest)
      requires disk.Valid() && source.At? && destination.At?
      ensures this.disk == disk && this.source == source && this.destination == destination && this.digest == digest
      ensures before == disk.files && past == disk.trace && Valid()
    {
      this.disk, this.source, this.destination, this.digest := disk, source, destination, digest;
      this.before, this.start, this.past := disk.files, |disk.trace| - 1, disk.trace;
    }

    /** One more state of the disk is kept if it is safe and, where that matters, tidy. */
    lemma {:induction false} Grows(trace: seq<Files>, now: Files)
      requires Kept(disk.alone, before, trace, start, source, destination, digest)
      requires Safe(before, now, source, destination, digest)
      requires disk.alone ==> Tidy(before, now, source, destination, digest)
      ensures Kept(disk.alone, before, trace + [now], start, source, destination, digest)
    {
    }

    /** Still before any removal: everything is as it was. */
    ghost predicate Installing()
      reads disk
    {
      && Valid() && Intact(before, disk.files)
      && (disk.alone ==> Tidy(before, disk.files, source, destination, digest))
    }

    method Others()
      requires Installing()
      modifies disk`files, disk`trace
      ensures Installing() && Intact(old(disk.files), disk.files)
      ensures forall p :: p in disk.files && p.Temp? ==> p in old(disk.files)
      ensures disk.alone ==> disk.files == old(disk.files)
    {
      ghost var trace := disk.trace;
      disk.Others();
      Grows(trace, disk.files);
    }

    /** Reads a file and compares its digest. */
    method Check(path: Path) returns (ok: bool)
      ensures ok <==> Holds(disk.files, path, digest)
    {
      ok := path in disk.files && disk.files[path].File? && Sha256(disk.files[path].bytes) == digest;
    }

    /** Links a file with the right bytes to the destination. */
    method LinkFrom(from: Path) returns (r: LinkResult)
      requires Installing() && Holds(disk.files, from, digest)
      modifies disk`files, disk`trace, disk`faults
      ensures disk.faults == old(disk.faults) + if r.LinkError? && from.Temp? then 1 else 0
      ensures Installing()
      ensures r.AlreadyThere? ==> destination in disk.files
      ensures disk.reliable && from.Temp? ==> !r.LinkError?
      ensures if r.Linked? then destination !in old(disk.files) && disk.files == old(disk.files)[destination := old(disk.files)[from]]
              else disk.files == old(disk.files)
    {
      ghost var trace := disk.trace;
      r := disk.Link(from, destination);
      if r.Linked? { Grows(trace, disk.files); }
    }

    /** The temporary file of one copy. */
    ghost predicate Copying(temporary: Path)
      reads disk
    {
      Installing() && temporary.Temp? && temporary !in before && temporary in disk.files && disk.files[temporary].File?
    }

    method MakeTemp() returns (temporary: Path)
      requires Installing()
      modifies disk
      ensures Copying(temporary) && temporary !in old(disk.files) && disk.files == old(disk.files)[temporary := File([])]
      ensures disk.faults == old(disk.faults)
    {
      ghost var trace := disk.trace;
      temporary := disk.MakeTemp();
      Grows(trace, disk.files);
    }

    method Append(temporary: Path, piece: Bytes)
      requires Copying(temporary)
      modifies disk`files, disk`trace
      ensures Copying(temporary) && disk.files == old(disk.files)[temporary := disk.files[temporary]]
      ensures disk.reliable ==> disk.files[temporary].bytes == old(disk.files)[temporary].bytes + piece
    {
      ghost var trace := disk.trace;
      disk.Append(temporary, piece);
      Grows(trace, disk.files);
    }

    method Discard(temporary: Path) returns (failed: bool)
      requires Copying(temporary)
      modifies disk`files, disk`trace, disk`faults
      ensures disk.faults == old(disk.faults) + if failed then 1 else 0
      ensures Installing() && (disk.reliable ==> !failed)
      ensures disk.files == if failed then old(disk.files) else old(disk.files) - {temporary}
    {
      ghost var trace := disk.trace;
      failed := disk.Unlink(temporary);
      if !failed { Grows(trace, disk.files); }
    }

    /** Copies the source into a fresh temporary file, piece by piece. */
    method Fill(temporary: Path) returns (failed: bool)
      requires Copying(temporary) && disk.files[temporary] == File([]) && Holds(disk.files, source, digest)
      modifies disk`files, disk`trace, disk`faults
      ensures (failed <==> disk.faults > old(disk.faults)) && disk.faults >= old(disk.faults)
      ensures Copying(temporary) && disk.files == old(disk.files)[temporary := disk.files[temporary]]
      ensures disk.reliable ==> !failed && disk.files[temporary] == disk.files[source]
    {
      var raw, done := disk.files[source].bytes, 0;
      while done < |raw|
        invariant Copying(temporary) && done <= |raw| && disk.faults == old(disk.faults)
        invariant disk.files == old(disk.files)[temporary := disk.files[temporary]]
        invariant disk.reliable ==> disk.files[temporary].bytes == raw[..done]
      {
        failed := disk.Fails();
        if failed { return; }
        var size: nat := *;
        var next := if 0 < size <= |raw| - done then done + size else |raw|;
        assert raw[..done] + raw[done..next] == raw[..next];
        Append(temporary, raw[done..next]);
        done := next;
      }
      assert raw[..|raw|] == raw;
      failed := false;
    }

    /** Copy, check, link; the guarded part of the fallback. */
    method FillAndLink(temporary: Path) returns (r: Result)
      requires Copying(temporary) && disk.files[temporary] == File([]) && Holds(disk.files, source, digest)
      modifies disk`files, disk`trace, disk`faults
      ensures (r == OsError <==> disk.faults > old(disk.faults)) && disk.faults >= old(disk.faults)
      ensures Copying(temporary) && Intact(old(disk.files) - {temporary}, disk.files)
      ensures r.Done? ==> Holds(disk.files, destination, digest)
      ensures disk.alone && destination !in old(disk.files) ==>
                if r.Done? then disk.files == old(disk.files)[temporary := disk.files[temporary]][destination := disk.files[temporary]]
                else disk.files == old(disk.files)[temporary := disk.files[temporary]]
      ensures disk.reliable && disk.alone && destination !in old(disk.files) ==> r.Done?
    {
      var failed := Fill(temporary);
      if failed { return OsError; }
      var same := Check(temporary);
      if !same { return IngestError; }
      Others();
      var linked := LinkFrom(temporary);
      if linked.LinkError? { return OsError; }
      same := Check(destination);
      r := if same then Done else IngestError;
    }

    /** The fallback where linking is not supported: a verified copy, installed by a link of its own. */
    method CopyInstall() returns (r: Result)
      requires Installing() && Holds(disk.files, source, digest)
      modifies disk
      ensures (r == OsError <==> disk.faults > old(disk.faults)) && disk.faults >= old(disk.faults)
      ensures Installing() && Intact(old(disk.files), disk.files)
      ensures r.Done? ==> Holds(disk.files, destination, digest)
      ensures disk.reliable && disk.alone && destination !in old(disk.files) ==>
                r.Done? && disk.files == old(disk.files)[destination := disk.files[destination]]
    {
      var failed := disk.Fails();
      if failed { return OsError; }
      var temporary := MakeTemp();
      r := FillAndLink(temporary);
      var kept := Discard(temporary);
      if kept { r := OsError; }
    }

    /** Makes sure the destination holds the bytes, without overwriting anything. */
    method Install() returns (r: Result)
      requires Installing()
      modifies disk
      ensures (r == OsError <==> disk.faults > old(disk.faults)) && disk.faults >= old(disk.faults)
      ensures Installing() && Intact(old(disk.files), disk.files)
      ensures r.Done? ==> Holds(disk.files, destination, digest)
      ensures disk.reliable && disk.alone ==>
                && (r.Done? <==> Holds(old(disk.files), destination, digest) || (destination !in old(disk.files) && Holds(old(disk.files), source, digest)))
                && disk.files == if r.Done? then old(disk.files)[destination := disk.files[destination]] else old(disk.files)
    {
      var same := Check(destination);
      if destination in disk.files { return if same then Done else IngestError; }
      same := Check(source);
      if !same { return IngestError; }
      ghost var first := disk.files;
      Others();
      var linked := LinkFrom(source);
      if linked.LinkError? {
        r := CopyInstall();
      } else {
        same := Check(destination);
        r := if same then Done else IngestError;
      }
    }

    /** Removes the source, once its bytes are durable at the destination. */
    method Remove() returns (r: Result)
      requires Installing() && Holds(disk.files, destination, digest) && AllDurable(disk.trace, disk.synced)
      requires source != destination && source in disk.files
      modifies disk
      ensures Valid() && (r == OsError <==> disk.faults > old(disk.faults)) && disk.faults >= old(disk.faults)
      ensures r == IngestError <==> !Holds(old(disk.files), source, digest)
      ensures r.Done? ==> AllDurable(disk.trace, disk.synced) && source !in disk.files
      ensures disk.files == old(disk.files) || disk.files == old(disk.files) - {source}
      ensures source !in disk.files ==> DurableFirst(disk.trace, disk.synced, source, destination, digest)
      ensures disk.reliable && Holds(old(disk.files), source, digest) ==> r.Done?
    {
      ghost var k := |disk.trace| - 1;
      var same := Check(source);
      if !same { return IngestError; }
      ghost var trace := disk.trace;
      var failed := disk.Unlink(source);
      if failed { return OsError; }
      Grows(trace, disk.files);
      assert k in disk.synced && disk.trace[k] == trace[k];
      failed := disk.Sync();
      if failed { return OsError; }
      r := Done;
    }

    /** The whole move.  Every state the disk passes through is safe; on a disk of our own every state is
        one from which the move can be run again.  The source is removed only after a state with the bytes at
        the destination has been made durable, and success makes the last one so.  A move that is not
        disturbed succeeds exactly when it was ready, and then all it changed is the bytes' place. */
    method Move() returns (r: Result)
      requires Valid() && disk.files == before
      modifies disk
      ensures (r == OsError <==> disk.faults > old(disk.faults)) && disk.faults >= old(disk.faults)
      ensures Valid()
      ensures r.Done? ==> Holds(disk.files, destination, digest) && (source != destination ==> source !in disk.files)
      ensures r.Done? ==> AllDurable(disk.trace, disk.synced)
      ensures source in before && source !in disk.files ==> DurableFirst(disk.trace, disk.synced, source, destination, digest)
      ensures disk.reliable && disk.alone ==>
                && (r.Done? <==> Ready(before, source, destination, digest))
                && (r.Done? ==>
                      var installed := before[destination := disk.files[destination]];
                      disk.files == if source != destination then installed - {source} else installed)
    {
      var failed := disk.Fails();
      if failed { return OsError; }
      r := Install();
      if !r.Done? { return; }
      failed := disk.Sync();
      if failed { return OsError; }
      if source != destination && source in disk.files { r := Remove(); }
    }
  }

  /** One move on a disk. */
  method Move(disk: Disk, source: Path, destination: Path, digest: Digest) returns (r: Result)
    requires disk.Valid() && source.At? && destination.At?
    modifies disk
    ensures disk.Valid() && old(disk.trace) <= disk.trace
    ensures (r == OsError <==> disk.faults > old(disk.faults)) && disk.faults >= old(disk.faults)
    ensures Kept(disk.alone, old(disk.files), disk.trace, |old(disk.trace)| - 1, source, destination, digest)
    ensures r.Done? ==> Holds(disk.files, destination, digest) && (source != destination ==> source !in disk.files)
    ensures r.Done? ==> AllDurable(disk.trace, disk.synced)
    ensures source in old(disk.files) && source !in disk.files ==> DurableFirst(disk.trace, disk.synced, source, destination, digest)
    ensures disk.reliable && disk.alone ==>
              && (r.Done? <==> Ready(old(disk.files), source, destination, digest))
              && (r.Done? ==>
                    var installed := old(disk.files)[destination := disk.files[destination]];
                    disk.files == if source != destination then installed - {source} else installed)
  {
    var mover := new Mover(disk, source, destination, digest);
    r := mover.Move();
  }

  /** A move that any failure or crash may have stopped in any of its states is completed by running it
      again undisturbed: the bytes are at the destination, the source is gone, and every other file is
      still what it was. */
  method CrashAndRerun(first: Disk, source: Path, destination: Path, digest: Digest, crash: nat) returns (second: Disk, r: Result)
    requires first.Valid() && first.alone && source.At? && destination.At? && Ready(first.files, source, destination, digest)
    modifies first
    ensures fresh(second) && r.Done? && Holds(second.files, destination, digest) && (source != destination ==> source !in second.files)
    ensures forall p :: p in old(first.files) && p != source ==> p in second.files && second.files[p] == old(first.files)[p]
  {
    ghost var before := first.files;
    var start := |first.trace| - 1;
    var disturbed := Move(first, source, destination, digest);
    var k := if start <= crash < |first.trace| then crash else |first.trace| - 1;
    SafeKeepsTheBytes(before, first.trace[k], source, destination, digest);
    second := new Disk(true, true, first.trace[k], first.nextTemp);
    r := Move(second, source, destination, digest);
  }
}
