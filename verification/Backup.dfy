/** Backup runs, their verification and the evidence they leave (borg.py, `backup_run`, `verify_run`,
    `_fail_verification`; retention.py, the count of verified repositories).

    The archives are kept by an external program.  Its answers are true, but any command may fail, and
    between commands of this program an archive may be damaged, lost or replaced. */
module Backup {
  import opened Base
  import opened Manifest

  datatype Status = Running | Succeeded | Failed

  datatype Verification = Unverified | Verified | NotVerified

  datatype Run = Run(repository: string, status: Status, verification: Verification, manifest: Option<ContentDigest>)

  /** One evidence row, for a canonical object and a run. */
  datatype Evidence = Evidence(id: string, run: nat)

  datatype Outcome = Done | Refused | Stopped

  /** What is in an archive, and whether its data chunks read back. */
  datatype Archive = Archive(files: Files, sound: bool)

  /** What the repositories held at the moment a command ran. */
  datatype Moment = Moment(identities: map<string, string>, archives: map<nat, Archive>)

  class Borg {
    /** No command fails for a reason of its own, and nothing is damaged. */
    const reliable: bool
    /** The identity of the repository now behind each configured name, and its archives by run. */
    var identities: map<string, string>
    var archives: map<nat, Archive>
    /** The moments of the commands so far. */
    var log: seq<Moment>

    function Now(): Moment
      reads this
    {
      Moment(identities, archives)
    }

    /** Damage, loss or replacement, at any time. */
    method Decay()
      modifies this`identities, this`archives
      ensures reliable ==> Now() == old(Now())
    {
      if !reliable { identities, archives := *, *; }
    }

    method Identity(name: string) returns (r: Option<string>)
      modifies this
      ensures log == old(log) + [Now()] && (reliable ==> Now() == old(Now()))
      ensures r.Some? ==> name in identities && identities[name] == r.value
      ensures reliable && name in identities ==> r.Some?
    {
      Decay();
      log := log + [Now()];
      var answered: bool := *;
      r := if (answered || reliable) && name in identities then Some(identities[name]) else None;
    }

    /** Storing an archive; it may have been stored even if the answer is lost. */
    method Create(run: nat, files: Files) returns (ok: bool)
      modifies this
      ensures log == old(log) + [Now()] && (reliable ==> Now() == old(Now()).(archives := old(archives)[run := Archive(files, true)]))
      ensures ok ==> run in archives && archives[run] == Archive(files, true)
      ensures reliable ==> ok
    {
      Decay();
      var stored: bool, answered: bool := *, *;
      if stored || reliable { archives := archives[run := Archive(files, true)]; }
      log := log + [Now()];
      ok := (stored && answered) || reliable;
    }

    method Extract(run: nat, path: Text) returns (r: Option<Content>)
      modifies this
      ensures log == old(log) + [Now()] && (reliable ==> Now() == old(Now()))
      ensures r.Some? ==> run in archives && path in archives[run].files && archives[run].files[path] == r.value
      ensures reliable && run in archives && path in archives[run].files ==> r.Some?
    {
      Decay();
      log := log + [Now()];
      var answered: bool := *;
      r := if (answered || reliable) && run in archives && path in archives[run].files then Some(archives[run].files[path]) else None;
    }

    method Inventory(run: nat) returns (r: Option<Listing>)
      modifies this
      ensures log == old(log) + [Now()] && (reliable ==> Now() == old(Now()))
      ensures r.Some? ==> run in archives && r.value == ListingOf(archives[run].files)
      ensures reliable && run in archives ==> r.Some?
    {
      Decay();
      log := log + [Now()];
      var answered: bool := *;
      r := if (answered || reliable) && run in archives then Some(ListingOf(archives[run].files)) else None;
    }

    method VerifyData(run: nat) returns (ok: bool)
      modifies this
      ensures log == old(log) + [Now()] && (reliable ==> Now() == old(Now()))
      ensures ok ==> run in archives && archives[run].sound
      ensures reliable && run in archives ==> ok == archives[run].sound
    {
      Decay();
      log := log + [Now()];
      var answered: bool := *;
      ok := (answered || reliable) && run in archives && archives[run].sound;
    }
  }

  /** The entries of a manifest, as a verification reads them. */
  ghost predicate Readable(manifest: Content, entries: seq<Fields>) {
    && manifest.ManifestText? && manifest.lines == Written(entries) && entries != []
    && (forall k :: 0 <= k < |entries| ==> WellFormed(entries[k])) && DistinctPaths(entries)
  }

  /** An archive holds exactly the files its manifest lists, one path each, and the manifest, which is the
      one on record. */
  ghost predicate Complete(files: Files, digest: ContentDigest) {
    && MANIFEST in files && DigestOf(files[MANIFEST]) == digest
    && exists entries, listing :: Readable(files[MANIFEST], entries) && Reads(entries, listing) && ListingOf(files) == Expected(listing, files[MANIFEST])
  }

  /** And all of it reads back. */
  ghost predicate Proven(archive: Archive, digest: ContentDigest) {
    Complete(archive.files, digest) && archive.sound
  }

  ghost predicate IsBehind(now: Moment, name: string, identity: string) {
    name in now.identities && now.identities[name] == identity
  }

  /** The identity behind the name, the manifest, the listing and the data check of one verification, each
      true when it was given. */
  ghost predicate Answered(asked: seq<Moment>, run: nat, name: string, identity: string, digest: ContentDigest) {
    && |asked| == 4
    && IsBehind(asked[0], name, identity)
    && Shown(asked[2], asked[3], run, digest)
  }

  /** A complete archive was listed and a sound one checked. */
  ghost predicate Shown(listed: Moment, checked: Moment, run: nat, digest: ContentDigest) {
    && run in listed.archives && Complete(listed.archives[run].files, digest)
    && run in checked.archives && checked.archives[run].sound
  }

  /** The run's archive can be proven as things stand. */
  ghost predicate Provable(now: Moment, run: nat, name: string, identity: string, digest: ContentDigest) {
    && run in now.archives && Proven(now.archives[run], digest)
    && IsBehind(now, name, identity)
  }

  /** Which files a complete archive holds is settled by the digest of its manifest. */
  lemma {:induction false} CompleteOnce(a: Files, b: Files, digest: ContentDigest)
    requires Complete(a, digest) && Complete(b, digest)
    ensures a == b
  {
    var es, l :| Readable(a[MANIFEST], es) && Reads(es, l) && ListingOf(a) == Expected(l, a[MANIFEST]);
    var fs, m :| Readable(b[MANIFEST], fs) && Reads(fs, m) && ListingOf(b) == Expected(m, b[MANIFEST]);
    WrittenOnce(es, fs);
    ReadsOnce(es, l, m);
    SameListing(a, b);
  }

  lemma {:induction false} SameListing(a: Files, b: Files)
    requires ListingOf(a) == ListingOf(b)
    ensures a == b
  {
    assert a.Keys == ListingOf(a).Keys && b.Keys == ListingOf(b).Keys;
    forall p | p in a ensures a[p] == b[p] {
      assert ListingOf(a)[p].sha256 == ListingOf(b)[p].sha256;
    }
  }

  /** The archive a verification accepts is proven at its last answer if and only if it then still holds the
      files that were listed. */
  lemma {:induction false} AcceptedIsProvenIff(asked: seq<Moment>, run: nat, name: string, identity: string, digest: ContentDigest)
    requires Answered(asked, run, name, identity, digest)
    ensures Proven(asked[3].archives[run], digest) <==> asked[3].archives[run].files == asked[2].archives[run].files
  {
    if Proven(asked[3].archives[run], digest) {
      CompleteOnce(asked[2].archives[run].files, asked[3].archives[run].files, digest);
    }
  }

  type Runs = map<nat, Run>

  /** Evidence rows and their verified flag; every row is a covered one. */
  type Flags = map<Evidence, bool>

  /** Evidence is of succeeded runs, and its flag is exactly that its run is verified. */
  ghost predicate Truthful(runs: Runs, evidence: Flags) {
    forall e :: e in evidence ==>
      e.run in runs && runs[e.run].status == Succeeded && (evidence[e] <==> runs[e.run].verification == Verified)
  }

  /** Only succeeded runs are verified, they have a manifest on record, and no repository has two runs
      under way. */
  ghost predicate Orderly(runs: Runs, bound: map<string, string>) {
    && (forall r :: r in runs ==> runs[r].repository in bound)
    && (forall r :: r in runs && runs[r].verification == Verified ==> runs[r].status == Succeeded)
    && (forall r :: r in runs && runs[r].status == Succeeded ==> runs[r].manifest.Some?)
    && (forall r, s :: r in runs && s in runs && runs[r].status == Running && runs[s].status == Running ==>
          r == s || runs[r].repository != runs[s].repository)
  }

  /** What retention counts for one object: distinct identities of repositories with a verified run that
      covers it. */
  ghost function Counted(id: string, runs: Runs, evidence: Flags, bound: map<string, string>): set<string>
    requires Truthful(runs, evidence) && Orderly(runs, bound)
  {
    set e | e in evidence && e.id == id && evidence[e] && runs[e.run].status == Succeeded && runs[e.run].verification == Verified
      :: bound[runs[e.run].repository]
  }

  /** An identity is counted once, however many verified runs its repositories have: it is counted if
      and only if at least one does. */
  lemma {:induction false} CountsRepositoriesNotRuns(id: string, runs: Runs, evidence: Flags, bound: map<string, string>, identity: string)
    requires Truthful(runs, evidence) && Orderly(runs, bound)
    ensures identity in Counted(id, runs, evidence, bound) <==>
            exists r :: r in runs && runs[r].verification == Verified && Evidence(id, r) in evidence && bound[runs[r].repository] == identity
    ensures |Counted(id, runs, evidence, bound)| <= |bound|
  {
    var counted := Counted(id, runs, evidence, bound);
    if r :| r in runs && runs[r].verification == Verified && Evidence(id, r) in evidence && bound[runs[r].repository] == identity {
      var e := Evidence(id, r);
      assert evidence[e];
    }
    if identity in counted {
      var e :| e in evidence && e.id == id && evidence[e] && bound[runs[e.run].repository] == identity;
      assert e == Evidence(id, e.run);
    }
    WithinImage(counted, bound);
  }

  lemma {:induction false} WithinImage(s: set<string>, m: map<string, string>)
    requires forall x :: x in s ==> exists k :: k in m && m[k] == x
    ensures |s| <= |m|
    decreases |m|
  {
    if s != {} {
      var x :| x in s;
      var k :| k in m && m[k] == x;
      var rest := m - {k};
      forall y | y in s - {x} ensures exists j :: j in rest && rest[j] == y {
        var j :| j in m && m[j] == y;
        assert j in rest;
      }
      assert rest.Keys == m.Keys - {k};
      WithinImage(s - {x}, rest);
    }
  }

  /** Starting a run on a repository shows that whatever was under way there was interrupted. */
  function Interrupted(runs: Runs, name: string): Runs {
    map r | r in runs :: if runs[r].repository == name && runs[r].status == Running then runs[r].(status := Failed, verification := NotVerified) else runs[r]
  }

  function Started(runs: Runs, name: string, run: nat): Runs {
    Interrupted(runs, name)[run := Run(name, Running, Unverified, None)]
  }

  /** Starting a run touches no run of another repository and none that has ended, fails those left under
      way, and leaves the new one the only one under way on its repository. */
  lemma {:induction false} StartedInterrupts(runs: Runs, name: string, run: nat)
    requires run !in runs
    ensures var after := Started(runs, name, run);
            && after.Keys == runs.Keys + {run} && after[run] == Run(name, Running, Unverified, None)
            && (forall r :: r in runs && (runs[r].repository != name || runs[r].status != Running) ==> after[r] == runs[r])
            && (forall r :: r in runs && runs[r].repository == name && runs[r].status == Running ==>
                  after[r] == Run(name, Failed, NotVerified, runs[r].manifest))
            && (forall r :: r in after && after[r].repository == name && after[r].status == Running ==> r == run)
  {
    var earlier := Interrupted(runs, name);
    assert forall r :: r in runs ==> Started(runs, name, run)[r] == earlier[r];
  }

  lemma {:induction false} StartedIsOrderly(runs: Runs, evidence: Flags, bound: map<string, string>, name: string, run: nat)
    requires Truthful(runs, evidence) && Orderly(runs, bound) && name in bound && run !in runs
    ensures var after := Started(runs, name, run);
            && Truthful(after, evidence) && Orderly(after, bound)
            && forall id :: Counted(id, after, evidence, bound) == Counted(id, runs, evidence, bound)
  {
    var after := Started(runs, name, run);
    assert forall e :: e in evidence ==> e.run in runs && after[e.run] == runs[e.run];
    assert Orderly(after, bound);
    forall id ensures Counted(id, after, evidence, bound) == Counted(id, runs, evidence, bound) {
    }
  }

  function Flagged(evidence: Flags, run: nat, flag: bool): Flags {
    map e | e in evidence :: if e.run == run then flag else evidence[e]
  }

  /** The run carries the mark, its evidence the flag that goes with it, and nothing else changed. */
  ghost predicate Marked(runs: Runs, evidence: Flags, after: Runs, flags: Flags, run: nat, mark: Verification)
    requires run in runs
  {
    after == runs[run := runs[run].(verification := mark)] && flags == Flagged(evidence, run, mark == Verified)
  }

  lemma {:induction false} MarkedIsOrderly(runs: Runs, evidence: Flags, bound: map<string, string>, run: nat, mark: Verification)
    requires Truthful(runs, evidence) && Orderly(runs, bound) && run in runs && runs[run].status == Succeeded
    ensures var after := runs[run := runs[run].(verification := mark)];
            Truthful(after, Flagged(evidence, run, mark == Verified)) && Orderly(after, bound)
  {
  }

  /** One identity, before and after a run is marked. */
  lemma {:induction false} MarkingCountsOne(runs: Runs, evidence: Flags, bound: map<string, string>, run: nat, mark: Verification, id: string, x: string)
    requires Truthful(runs, evidence) && Orderly(runs, bound) && run in runs && runs[run].status == Succeeded && mark != Unverified
    requires var after, flags := runs[run := runs[run].(verification := mark)], Flagged(evidence, run, mark == Verified);
             Truthful(after, flags) && Orderly(after, bound)
    ensures var after, flags := runs[run := runs[run].(verification := mark)], Flagged(evidence, run, mark == Verified);
            var was, now := x in Counted(id, runs, evidence, bound), x in Counted(id, after, flags, bound);
            if mark == Verified then now <==> was || (Evidence(id, run) in evidence && x == bound[runs[run].repository]) else now ==> was
  {
  }

  /** Verifying a run adds its repository to what is counted for the objects it covers and changes
      nothing for others; a failed verification never adds anything. */
  lemma {:induction false} MarkingCounts(runs: Runs, evidence: Flags, bound: map<string, string>, run: nat, mark: Verification, id: string)
    requires Truthful(runs, evidence) && Orderly(runs, bound) && run in runs && runs[run].status == Succeeded && mark != Unverified
    ensures var after, flags := runs[run := runs[run].(verification := mark)], Flagged(evidence, run, mark == Verified);
            && Truthful(after, flags) && Orderly(after, bound)
            && var was, now := Counted(id, runs, evidence, bound), Counted(id, after, flags, bound);
               if mark == Verified then now == was + (if Evidence(id, run) in evidence then {bound[runs[run].repository]} else {}) else now <= was
  {
    MarkedIsOrderly(runs, evidence, bound, run, mark);
    forall x: string {
      MarkingCountsOne(runs, evidence, bound, run, mark, id, x);
    }
  }

  ghost predicate Fitting(runs: Runs, run: nat) {
    run in runs && runs[run].status == Succeeded && runs[run].manifest.Some?
  }

  /** A manifest with this digest describes exactly this listing. */
  ghost predicate Describes(digest: ContentDigest, whole: Listing) {
    exists entries, listing :: Readable(digest.content, entries) && Reads(entries, listing) && whole == Expected(listing, digest.content)
  }

  /** An archive is complete exactly if it lists what the manifest on record describes: a listing with the
      digest of that manifest is of an archive that holds it. */
  lemma {:induction false} CompleteIff(files: Files, digest: ContentDigest, whole: Listing)
    requires Describes(digest, whole)
    ensures Complete(files, digest) <==> ListingOf(files) == whole
  {
    var entries, listing :| Readable(digest.content, entries) && Reads(entries, listing) && whole == Expected(listing, digest.content);
    if ListingOf(files) == whole {
      assert MANIFEST in ListingOf(files) && ListingOf(files)[MANIFEST].sha256 == Sha(digest.content);
    }
    if Complete(files, digest) {
      var es, l :| Readable(files[MANIFEST], es) && Reads(es, l) && ListingOf(files) == Expected(l, files[MANIFEST]);
      WrittenOnce(es, entries);
      ReadsOnce(entries, l, listing);
    }
  }

  /** Entries that some reader accepts are those that the parser delivers, and it accepts them. */
  lemma {:induction false} ParsedOnce(manifest: Content)
    ensures forall entries :: Readable(manifest, entries) ==>
              && manifest.lines != [] && (forall k :: 0 <= k < |manifest.lines| ==> manifest.lines[k].Object? && WellFormed(manifest.lines[k].fields))
              && (forall es :: Written(es) == manifest.lines ==> es == entries)
  {
    forall entries | Readable(manifest, entries)
      ensures manifest.lines != [] && forall k :: 0 <= k < |manifest.lines| ==> manifest.lines[k].Object? && WellFormed(manifest.lines[k].fields)
      ensures forall es :: Written(es) == manifest.lines ==> es == entries
    {
      assert forall k :: 0 <= k < |entries| ==> manifest.lines[k] == Object(entries[k]);
      forall es | Written(es) == manifest.lines ensures es == entries {
        WrittenOnce(es, entries);
      }
    }
  }

  class Store {
    const borg: Borg
    /** The identity each repository name was bound to. */
    const bound: map<string, string>
    var runs: Runs
    var evidence: Flags
    var nextRun: nat

    constructor (borg: Borg, bound: map<string, string>)
      ensures this.borg == borg && this.bound == bound && runs == map[] && evidence == map[] && Valid()
    {
      this.borg, this.bound, this.runs, this.evidence, this.nextRun := borg, bound, map[], map[], 0;
    }

    ghost predicate Valid()
      reads this
    {
      Truthful(runs, evidence) && Orderly(runs, bound) && forall r :: r in runs ==> r < nextRun
    }

    ghost function Repositories(id: string): set<string>
      requires Valid()
      reads this
    {
      Counted(id, runs, evidence, bound)
    }

    method Begin(name: string) returns (run: nat)
      requires Valid() && name in bound
      modifies this`runs, this`nextRun
      ensures Valid() && run !in old(runs) && runs == Started(old(runs), name, run)
      ensures forall id :: Repositories(id) == old(Repositories(id))
    {
      run := nextRun;
      StartedIsOrderly(runs, evidence, bound, name, run);
      runs := Started(runs, name, run);
      nextRun := nextRun + 1;
    }

    method FailRun(run: nat)
      requires Valid() && run in runs && runs[run].status == Running
      modifies this`runs
      ensures Valid() && runs == old(runs)[run := old(runs)[run].(status := Failed, verification := NotVerified)]
    {
      runs := runs[run := runs[run].(status := Failed, verification := NotVerified)];
    }

    /** Success: the run and the evidence for every object it covers, in one transaction. */
    method SucceedRun(run: nat, ids: seq<string>, manifest: ContentDigest)
      requires Valid() && run in runs && runs[run].status == Running && runs[run].verification == Unverified
      modifies this`runs, this`evidence
      ensures Valid() && runs == old(runs)[run := old(runs)[run].(status := Succeeded, manifest := Some(manifest))]
      ensures evidence == old(evidence) + map id | id in ids :: Evidence(id, run) := false
    {
      runs := runs[run := runs[run].(status := Succeeded, manifest := Some(manifest))];
      evidence := evidence + map id | id in ids :: Evidence(id, run) := false;
    }

    /** The last command stored the snapshot's files as the run's archive. */
    ghost predicate Stored(before: seq<Moment>, after: seq<Moment>, run: nat, stored: Snapshot) {
      && |after| > |before| && var held := after[|after| - 1].archives;
         run in held && held[run] == Archive(stored.files, true)
    }

    /** Whether the repository now behind the name is the one it is bound to. */
    method Identify(name: string) returns (ok: bool)
      requires name in bound
      modifies borg
      ensures |borg.log| == |old(borg.log)| + 1 && old(borg.log) <= borg.log
      ensures ok ==> IsBehind(borg.log[|old(borg.log)|], name, bound[name])
      ensures borg.reliable ==> borg.Now() == old(borg.Now()) && (name in borg.identities ==> (ok <==> borg.identities[name] == bound[name]))
    {
      var identity := borg.Identity(name);
      ok := identity == Some(bound[name]);
    }

    /** The work of a run that is under way: snapshot, archive, record. */
    method Perform(run: nat, sources: seq<Source>, disk: Files, database: Content, length: nat, spell: Text -> string) returns (r: Outcome, ghost stored: Snapshot)
      requires Valid() && run in runs && runs[run].status == Running && runs[run].verification == Unverified && Keyed(sources)
      modifies this`runs, this`evidence, borg
      ensures Valid() && old(borg.log) <= borg.log
      ensures r == Done ==>
                && Healthy(sources, disk) && IsSnapshot(sources, disk, database, length, spell, stored)
                && Stored(old(borg.log), borg.log, run, stored)
                && runs == old(runs)[run := old(runs)[run].(status := Succeeded, manifest := Some(DigestOf(stored.manifest)))]
                && evidence == old(evidence) + map id | id in Ids(sources) :: Evidence(id, run) := false
      ensures r == Refused ==> runs == old(runs)[run := old(runs)[run].(status := Failed, verification := NotVerified)]
      ensures r == Stopped ==> runs == old(runs)
      ensures r != Done ==> evidence == old(evidence)
      ensures borg.reliable ==>
                && (r == Done <==> Healthy(sources, disk))
                && (r == Done ==> borg.Now() == old(borg.Now()).(archives := old(borg.archives)[run := Archive(stored.files, true)]))
    {
      var snapshot := Materialize(sources, disk, database, length, spell);
      stored := if snapshot.Some? then snapshot.value else Snapshot([], map[], Plain([]), []);
      var stops: bool := *;
      if stops && !borg.reliable { return Stopped, stored; }
      if snapshot.None? {
        FailRun(run);
        return Refused, stored;
      }
      var created := borg.Create(run, snapshot.value.files);
      stops := *;
      if stops && !borg.reliable { return Stopped, stored; }
      if !created {
        FailRun(run);
        return Refused, stored;
      }
      borg.Decay();
      SucceedRun(run, snapshot.value.ids, DigestOf(snapshot.value.manifest));
      r := Done;
    }

    /** One backup run.  Whatever happens it is recorded as what it was: succeeded, with unverified
        evidence for exactly the objects of the snapshot, or failed, or still under way if the work
        stopped.  Nothing is recorded unless the repository now behind the name was found to be the one it is
        bound to.  Evidence of earlier runs and what retention counts are untouched. */
    method BackupRun(name: string, sources: seq<Source>, disk: Files, database: Content, length: nat, spell: Text -> string)
      returns (r: Outcome, run: nat, ghost stored: Snapshot)
      requires Valid() && Keyed(sources)
      modifies this`runs, this`evidence, this`nextRun, borg
      ensures Valid()
      ensures r == Done ==>
                && Healthy(sources, disk) && IsSnapshot(sources, disk, database, length, spell, stored)
                && Stored(old(borg.log), borg.log, run, stored) && run !in old(runs)
                && runs == Started(old(runs), name, run)[run := Run(name, Succeeded, Unverified, Some(DigestOf(stored.manifest)))]
                && evidence == old(evidence) + map id | id in Ids(sources) :: Evidence(id, run) := false
      ensures r == Refused ==> runs == old(runs) || (run !in old(runs) && runs == Started(old(runs), name, run)[run := Run(name, Failed, NotVerified, None)])
      ensures r == Stopped ==> run !in old(runs) && runs == Started(old(runs), name, run)
      ensures r != Done ==> evidence == old(evidence)
      ensures runs != old(runs) ==>
                && name in bound && |borg.log| > |old(borg.log)|
                && IsBehind(borg.log[|old(borg.log)|], name, bound[name])
      ensures borg.reliable && name in bound && name in old(borg.identities) && old(borg.identities)[name] == bound[name] ==>
                && (r == Done <==> Healthy(sources, disk))
                && (r == Done ==> borg.Now() == old(borg.Now()).(archives := old(borg.archives)[run := Archive(stored.files, true)]))
    {
      run, stored := nextRun, Snapshot([], map[], Plain([]), []);
      if name !in bound { return Refused, run, stored; }
      var identified := Identify(name);
      if !identified { return Refused, run, stored; }
      run := Begin(name);
      r, stored := Perform(run, sources, disk, database, length, spell);
    }

    /** Re-reads the archive of a succeeded run.  A run is verified only if four answers, each true when it
        was given, prove its archive; a run about which something was asked and that could not be proven is
        marked as not verified, its evidence with it; a run that is not fit to be verified is left alone.  Nothing holds the archive still,
        neither between the answers nor until the mark is committed. */
    method VerifyRun(run: nat) returns (r: Outcome, ghost asked: seq<Moment>)
      requires Valid()
      modifies this`runs, this`evidence, borg
      ensures Valid() && borg.log == old(borg.log) + asked
      ensures r == Done ==>
                && Fitting(old(runs), run)
                && Answered(asked, run, old(runs)[run].repository, bound[old(runs)[run].repository], old(runs)[run].manifest.value)
                && Marked(old(runs), old(evidence), runs, evidence, run, Verified)
      ensures r == Refused ==>
                if Fitting(old(runs), run) then Marked(old(runs), old(evidence), runs, evidence, run, NotVerified)
                else runs == old(runs) && evidence == old(evidence)
      ensures r == Stopped ==> runs == old(runs) && evidence == old(evidence) && Fitting(old(runs), run)
      ensures r == Refused && Fitting(old(runs), run) ==> asked != []
      ensures borg.reliable ==>
                && borg.Now() == old(borg.Now())
                && (Fitting(old(runs), run) ==>
                      (r == Done <==> Provable(borg.Now(), run, old(runs)[run].repository, bound[old(runs)[run].repository], old(runs)[run].manifest.value)))
    {
      asked := [];
      if run !in runs || runs[run].status != Succeeded || runs[run].manifest.None? { return Refused, asked; }
      var proven, stops;
      proven, stops, asked := Examine(run, runs[run].repository, bound[runs[run].repository], runs[run].manifest.value);
      if stops { return Stopped, asked; }
      borg.Decay();
      Mark(run, if proven then Verified else NotVerified);
      r := if proven then Done else Refused;
    }

    method Mark(run: nat, mark: Verification)
      requires Valid() && run in runs && runs[run].status == Succeeded && mark != Unverified
      modifies this`runs, this`evidence
      ensures Valid() && Marked(old(runs), old(evidence), runs, evidence, run, mark)
    {
      MarkedIsOrderly(runs, evidence, bound, run, mark);
      runs, evidence := runs[run := runs[run].(verification := mark)], Flagged(evidence, run, mark == Verified);
    }

    /** The questions of a verification, in order. */
    method Examine(run: nat, name: string, identity: string, digest: ContentDigest) returns (proven: bool, stops: bool, ghost asked: seq<Moment>)
      modifies borg
      ensures borg.log == old(borg.log) + asked
      ensures proven ==> Answered(asked, run, name, identity, digest)
      ensures !stops ==> asked != []
      ensures borg.reliable ==> !stops && borg.Now() == old(borg.Now()) && (proven <==> Provable(borg.Now(), run, name, identity, digest))
    {
      stops, asked := *, [];
      if stops && !borg.reliable { return false, true, asked; }
      stops := false;
      var known := borg.Identity(name);
      asked := [borg.Now()];
      if known != Some(identity) { return false, stops, asked; }
      ghost var more;
      proven, more := Check(run, digest);
      asked := asked + more;
    }

    /** The three questions about the archive. */
    method Check(run: nat, digest: ContentDigest) returns (proven: bool, ghost asked: seq<Moment>)
      modifies borg
      ensures borg.log == old(borg.log) + asked
      ensures proven ==> |asked| == 3 && Shown(asked[1], asked[2], run, digest)
      ensures borg.reliable ==>
                && borg.Now() == old(borg.Now())
                && (proven <==> run in borg.archives && Proven(borg.archives[run], digest))
    {
      var expected := Expectation(run, digest);
      asked := [borg.Now()];
      if expected.None? { return false, asked; }
      ghost var more;
      proven, more := Compare(run, digest, expected.value);
      asked := asked + more;
    }

    /** The listing that the archive's manifest, which must be the one on record, leads to expect. */
    method Expectation(run: nat, digest: ContentDigest) returns (expected: Option<Listing>)
      modifies borg
      ensures borg.log == old(borg.log) + [borg.Now()] && (borg.reliable ==> borg.Now() == old(borg.Now()))
      ensures expected.Some? ==> Describes(digest, expected.value)
      ensures borg.reliable && run in borg.archives && Complete(borg.archives[run].files, digest) ==> expected.Some?
    {
      var manifest := borg.Extract(run, MANIFEST);
      if manifest.None? || DigestOf(manifest.value) != digest || !manifest.value.ManifestText? { return None; }
      var entries := ParseManifest(manifest.value.lines);
      ParsedOnce(manifest.value);
      if entries.None? { return None; }
      var listing := ExpectedInventory(entries.value);
      if listing.None? { return None; }
      assert Readable(manifest.value, entries.value);
      expected := Some(Expected(listing.value, manifest.value));
    }

    /** The listing against what is expected, and the check of the data. */
    method Compare(run: nat, digest: ContentDigest, whole: Listing) returns (proven: bool, ghost asked: seq<Moment>)
      requires Describes(digest, whole)
      modifies borg
      ensures borg.log == old(borg.log) + asked
      ensures proven ==> |asked| == 2 && Shown(asked[0], asked[1], run, digest)
      ensures borg.reliable ==>
                && borg.Now() == old(borg.Now())
                && (proven <==> run in borg.archives && Proven(borg.archives[run], digest))
    {
      var listing := borg.Inventory(run);
      asked := [borg.Now()];
      if run in borg.archives { CompleteIff(borg.archives[run].files, digest, whole); }
      if listing.None? || listing.value != whole { return false, asked; }
      proven := borg.VerifyData(run);
      asked := asked + [borg.Now()];
    }
  }

  /** Fit rows with true sizes make well-formed entries. */
  lemma {:induction false} RowsReadBack(sources: seq<Source>, disk: Files, database: Content)
    requires Healthy(sources, disk) && TrueSizes(sources, disk)
    ensures forall e :: e in AllEntries(sources, database) ==> WellFormed(e)
  {
    EntriesAre(sources);
    forall e | e in AllEntries(sources, database) ensures WellFormed(e) {
      if e != DatabaseEntry(database) {
        var k :| 0 <= k < |sources| && Entries(sources)[k] == e;
        assert sources[k] in sources && Fit(sources[k], disk);
      }
    }
  }

  lemma {:induction false} DatabaseIsApart(sources: seq<Source>, disk: Files)
    requires Healthy(sources, disk)
    ensures DATABASE !in SourcePaths(sources)
  {
    SourcesAreOnDisk(sources, disk);
    CopiesAreApart(sources, disk, map p | p in SourcePaths(sources) :: disk[p]);
  }

  /** The paths of the entries are distinct exactly if those of the rows are. */
  lemma {:induction false} RowPathsDistinct(sources: seq<Source>, disk: Files, database: Content)
    requires Healthy(sources, disk)
    ensures DistinctPaths(AllEntries(sources, database)) <==> DistinctRows(sources)
  {
    EntriesAre(sources);
    EntriesSay(sources);
    DatabaseIsApart(sources, disk);
    DistinctNext(Entries(sources), DatabaseEntry(database));
    SameDistinctness(Entries(sources), sources);
  }

  lemma {:induction false} SameDistinctness(rows: seq<Fields>, sources: seq<Source>)
    requires |rows| == |sources| && forall k :: 0 <= k < |sources| ==> PathOf(rows[k]) == sources[k].path
    ensures DistinctPaths(rows) <==> DistinctRows(sources)
  {
    if DistinctPaths(rows) {
      forall j, k | 0 <= j < k < |sources| ensures sources[j].path != sources[k].path {
        assert PathOf(rows[j]) != PathOf(rows[k]);
      }
    }
  }

  lemma {:induction false} EntriesAre(sources: seq<Source>)
    ensures |Entries(sources)| == |sources|
    ensures forall k :: 0 <= k < |sources| ==> Entries(sources)[k] == EntryOf(sources[k])
  {
    if sources != [] { EntriesAre(sources[..|sources| - 1]); }
  }

  /** The archive of an intact snapshot can be proven exactly when the sizes on record are true. */
  lemma {:induction false} ProvenIffTrueSizes(sources: seq<Source>, disk: Files, database: Content, length: nat, spell: Text -> string, s: Snapshot)
    requires Keyed(sources) && Healthy(sources, disk) && IsSnapshot(sources, disk, database, length, spell, s)
    ensures Proven(Archive(s.files, true), DigestOf(s.manifest)) <==> TrueSizes(sources, disk)
  {
    var all := AllEntries(sources, database);
    KeyedIsDistinct(sources, disk);
    RowPathsDistinct(sources, disk, database);
    if TrueSizes(sources, disk) {
      RowsReadBack(sources, disk, database);
      ReorderingKeepsDistinctness(all, s.entries);
      SnapshotReads(s.entries, all);
      var listing := SomeListing(s.entries);
      FaithfulStorageVerifies(sources, disk, database, length, spell, s, listing);
      assert Readable(s.manifest, s.entries);
    }
    if Complete(s.files, DigestOf(s.manifest)) {
      var es, listing :| Readable(s.manifest, es) && Reads(es, listing) && ListingOf(s.files) == Expected(listing, s.manifest);
      WrittenOnce(es, s.entries);
      ReorderingKeepsDistinctness(s.entries, all);
      FaithfulStorageVerifies(sources, disk, database, length, spell, s, listing);
    }
  }

  lemma {:induction false} SnapshotReads(entries: seq<Fields>, all: seq<Fields>)
    requires multiset(entries) == multiset(all) && all != [] && forall e :: e in all ==> WellFormed(e)
    ensures entries != [] && forall k :: 0 <= k < |entries| ==> WellFormed(entries[k])
  {
    assert |multiset(entries)| == |multiset(all)|;
    forall k | 0 <= k < |entries| ensures WellFormed(entries[k]) {
      assert entries[k] in multiset(all);
    }
  }

  /** Distinct entries are read by some listing. */
  lemma {:induction false} SomeListing(entries: seq<Fields>) returns (listing: Listing)
    requires DistinctPaths(entries)
    ensures Reads(entries, listing)
  {
    if entries == [] {
      listing := map[];
    } else {
      var front, e := entries[..|entries| - 1], entries[|entries| - 1];
      assert entries == front + [e];
      DistinctNext(front, e);
      listing := SomeListing(front);
      ReadsNext(front, listing, e);
      listing := listing[PathOf(e) := ListedOf(e)];
    }
  }

  /** Undisturbed, a backup of healthy files succeeds, and its archive can be proven exactly if the
      sizes on record are true. */
  method UndisturbedBackup(store: Store, name: string, sources: seq<Source>, disk: Files, database: Content, length: nat, spell: Text -> string)
      returns (run: nat)
    requires store.Valid() && store.borg.reliable && Keyed(sources) && Healthy(sources, disk)
    requires name in store.bound && name in store.borg.identities && store.borg.identities[name] == store.bound[name]
    modifies store, store.borg
    ensures store.Valid() && Fitting(store.runs, run) && store.runs[run].repository == name
    ensures Provable(store.borg.Now(), run, name, store.bound[name], store.runs[run].manifest.value) <==> TrueSizes(sources, disk)
    ensures forall id :: id in Ids(sources) ==> Evidence(id, run) in store.evidence && !store.evidence[Evidence(id, run)]
  {
    var outcome;
    ghost var stored;
    outcome, run, stored := store.BackupRun(name, sources, disk, database, length, spell);
    ProvenIffTrueSizes(sources, disk, database, length, spell, stored);
  }

  /** Undisturbed, a backup of healthy files verifies exactly when the sizes on record are true; either
      way its evidence says so. */
  method BackupThenVerify(store: Store, name: string, sources: seq<Source>, disk: Files, database: Content, length: nat, spell: Text -> string)
      returns (r: Outcome, run: nat)
    requires store.Valid() && store.borg.reliable && Keyed(sources) && Healthy(sources, disk)
    requires name in store.bound && name in store.borg.identities && store.borg.identities[name] == store.bound[name]
    modifies store, store.borg
    ensures store.Valid()
    ensures r == Done <==> TrueSizes(sources, disk)
    ensures forall id :: id in Ids(sources) ==> Evidence(id, run) in store.evidence && (store.evidence[Evidence(id, run)] <==> r == Done)
  {
    run := UndisturbedBackup(store, name, sources, disk, database, length, spell);
    ghost var asked;
    r, asked := store.VerifyRun(run);
  }
}
