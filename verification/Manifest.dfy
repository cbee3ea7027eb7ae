/** Backup snapshots, their manifests and the listing a verification expects (borg.py,
    `_materialize_snapshot`, `_parse_manifest`, `_expected_inventory`). */
module Manifest {
  import opened Base

  /** A file is plain bytes or a manifest, whose text is kept as its lines and its length. */
  datatype Content = Plain(bytes: Bytes) | ManifestText(lines: seq<Line>, length: nat)

  /** Collision free, like every digest here. */
  datatype ContentDigest = DigestOf(content: Content)

  /** The strings the program spells out itself. */
  datatype Word = CanonicalWord | AttachmentWord | SqliteWord | ArchivedWord | QuarantinedWord | ManifestPath | DatabasePath

  /** A string.  Those words, the 64 hexadecimal digits of a digest, and the path of the attachment object
      a digest names (attachments/sha256/..) are told apart from all others by what they spell. */
  datatype Text = Known(word: Word) | HexOf(digest: ContentDigest) | ObjectPath(digest: ContentDigest) | Chars(chars: string)

  const MANIFEST := Known(ManifestPath)
  const DATABASE := Known(DatabasePath)

  /** A JSON value; `OtherValue` is anything but a string, an integer or a boolean. */
  datatype Value = Str(text: Text) | Number(n: int) | Flag(b: bool) | OtherValue

  /** The names of fields: those a manifest is read by, those only written, and any other. */
  datatype Key = KIND | PATH | SHA256 | SIZE | CANONICAL_ID | ATTACHMENT_ID | STORAGE_STATE | OtherKey(name: string)

  type Fields = map<Key, Value>

  /** One line of a manifest, as its JSON decoder takes it. */
  datatype Line = NotJson | NotObject | Object(fields: Fields)

  /** What a listing says about one file. */
  datatype Listed = Listed(size: int, sha256: Text)

  /** Files by their path below the archive root, and what a listing says of them. */
  type Files = map<Text, Content>
  type Listing = map<Text, Listed>

  function Size(content: Content): nat {
    match content
    case Plain(bytes) => |bytes|
    case ManifestText(_, length) => length
  }

  function Sha(content: Content): Text {
    HexOf(DigestOf(content))
  }

  /** The true listing of a set of files. */
  function ListingOf(files: Files): Listing {
    map p | p in files :: Listed(Size(files[p]), Sha(files[p]))
  }

  // --- Reading a manifest ---

  ghost predicate WellFormed(f: Fields) {
    && KIND in f && f[KIND] in {Str(Known(CanonicalWord)), Str(Known(AttachmentWord)), Str(Known(SqliteWord))}
    && PATH in f && f[PATH].Str? && f[PATH].text != Chars("")
    && SHA256 in f && f[SHA256].Str? && f[SHA256].text.HexOf?
    && SIZE in f && f[SIZE].Number? && f[SIZE].n >= 0
  }

  /** Accepts exactly the manifests with at least one line, each an object with a known kind, a path, a
      digest and a size that is a natural number and not a boolean. */
  method ParseManifest(lines: seq<Line>) returns (entries: Option<seq<Fields>>)
    ensures entries.Some? <==> lines != [] && forall k :: 0 <= k < |lines| ==> lines[k].Object? && WellFormed(lines[k].fields)
    ensures entries.Some? ==> lines == Written(entries.value)
  {
    var result: seq<Fields> := [];
    for k := 0 to |lines|
      invariant Written(result) == lines[..k]
      invariant forall j :: 0 <= j < k ==> lines[j].Object? && WellFormed(lines[j].fields)
    {
      if !lines[k].Object? { return None; }
      var entry := lines[k].fields;
      if KIND !in entry || entry[KIND] !in {Str(Known(CanonicalWord)), Str(Known(AttachmentWord)), Str(Known(SqliteWord))} { return None; }
      if PATH !in entry || !entry[PATH].Str? || entry[PATH].text == Chars("") { return None; }
      if SHA256 !in entry || !entry[SHA256].Str? || !entry[SHA256].text.HexOf? { return None; }
      if SIZE !in entry || !entry[SIZE].Number? || entry[SIZE].n < 0 { return None; }
      WrittenStep(result, entry);
      result := result + [entry];
    }
    entries := if result == [] then None else Some(result);
  }

  /** The lines that are written for entries. */
  function Written(entries: seq<Fields>): (lines: seq<Line>)
    ensures |lines| == |entries| && forall k :: 0 <= k < |lines| ==> lines[k] == Object(entries[k])
  {
    if entries == [] then [] else Written(entries[..|entries| - 1]) + [Object(entries[|entries| - 1])]
  }

  lemma {:induction false} WrittenStep(entries: seq<Fields>, entry: Fields)
    ensures Written(entries + [entry]) == Written(entries) + [Object(entry)]
  {
    assert (entries + [entry])[..|entries|] == entries;
  }

  lemma {:induction false} WrittenOnce(a: seq<Fields>, b: seq<Fields>)
    requires Written(a) == Written(b)
    ensures a == b
  {
    assert forall k :: 0 <= k < |a| ==> Written(a)[k] == Written(b)[k];
  }

  // --- The listing a manifest describes ---

  /** The three fields are of usable types; a boolean passes for a size here. */
  ghost predicate Typed(f: Fields) {
    && PATH in f && f[PATH].Str?
    && SIZE in f && (f[SIZE].Number? || f[SIZE].Flag?)
    && SHA256 in f && f[SHA256].Str?
  }

  function PathOf(f: Fields): Text {
    if PATH in f && f[PATH].Str? then f[PATH].text else Chars("")
  }

  function ListedOf(f: Fields): Listed {
    var size := if SIZE !in f then 0 else match f[SIZE] case Number(n) => n case Flag(b) => (if b then 1 else 0) case _ => 0;
    Listed(size, if SHA256 in f && f[SHA256].Str? then f[SHA256].text else Chars(""))
  }

  ghost predicate AllTyped(entries: seq<Fields>) {
    forall k :: 0 <= k < |entries| ==> Typed(entries[k])
  }

  ghost predicate DistinctPaths(entries: seq<Fields>) {
    forall j, k :: 0 <= j < k < |entries| ==> PathOf(entries[j]) != PathOf(entries[k])
  }

  function Paths(entries: seq<Fields>): set<Text> {
    if entries == [] then {} else Paths(entries[..|entries| - 1]) + {PathOf(entries[|entries| - 1])}
  }

  lemma {:induction false} PathsAre(entries: seq<Fields>, p: Text)
    ensures p in Paths(entries) <==> exists k :: 0 <= k < |entries| && PathOf(entries[k]) == p
  {
    if entries != [] {
      var n := |entries| - 1;
      PathsAre(entries[..n], p);
      if k :| 0 <= k < n && PathOf(entries[..n][k]) == p {
        assert PathOf(entries[k]) == p;
      }
      if k :| 0 <= k < |entries| && PathOf(entries[k]) == p {
        assert k < n ==> PathOf(entries[..n][k]) == p;
      }
    }
  }

  lemma {:induction false} PathsStep(entries: seq<Fields>, e: Fields)
    ensures Paths(entries + [e]) == Paths(entries) + {PathOf(e)}
  {
    assert (entries + [e])[..|entries|] == entries;
  }

  /** A listing says exactly what the entries say, and nothing of other paths. */
  ghost predicate Reads(entries: seq<Fields>, listing: Listing) {
    && listing.Keys == Paths(entries)
    && forall e :: e in entries ==> PathOf(e) in listing && listing[PathOf(e)] == ListedOf(e)
  }

  /** Paths stay distinct exactly if the new one is new. */
  lemma {:induction false} DistinctNext(entries: seq<Fields>, e: Fields)
    ensures DistinctPaths(entries + [e]) <==> DistinctPaths(entries) && PathOf(e) !in Paths(entries)
  {
    var more := entries + [e];
    PathsAre(entries, PathOf(e));
    assert forall k :: 0 <= k < |entries| ==> more[k] == entries[k];
    if k :| 0 <= k < |entries| && PathOf(entries[k]) == PathOf(e) {
      assert PathOf(more[k]) == PathOf(more[|entries|]);
    }
    if DistinctPaths(more) {
      forall j, k | 0 <= j < k < |entries| ensures PathOf(entries[j]) != PathOf(entries[k]) {
        assert PathOf(more[j]) != PathOf(more[k]);
      }
    }
  }

  lemma {:induction false} ReadsNext(entries: seq<Fields>, listing: Listing, e: Fields)
    requires Reads(entries, listing) && PathOf(e) !in listing
    ensures Reads(entries + [e], listing[PathOf(e) := ListedOf(e)])
  {
    PathsStep(entries, e);
  }

  /** These entries have been collected: as many paths as entries exactly if none is repeated, and then the
      listing reads them. */
  ghost predicate Collected(entries: seq<Fields>, listing: Listing) {
    && listing.Keys == Paths(entries)
    && |listing| <= |entries| && (|listing| == |entries| <==> DistinctPaths(entries))
    && (DistinctPaths(entries) ==> Reads(entries, listing))
  }

  lemma {:induction false} SizeOfUpdate(listing: Listing, path: Text, listed: Listed)
    ensures |listing[path := listed]| == if path in listing then |listing| else |listing| + 1
  {
  }

  lemma {:induction false} CollectedNext(entries: seq<Fields>, listing: Listing, e: Fields)
    requires Collected(entries, listing)
    ensures Collected(entries + [e], listing[PathOf(e) := ListedOf(e)])
  {
    SizeOfUpdate(listing, PathOf(e), ListedOf(e));
    PathsStep(entries, e);
    DistinctNext(entries, e);
    if DistinctPaths(entries + [e]) { ReadsNext(entries, listing, e); }
  }

  /** The first `k` entries are of usable types and have been collected. */
  ghost predicate Progress(entries: seq<Fields>, k: nat, listing: Listing)
    requires k <= |entries|
  {
    AllTyped(entries[..k]) && Collected(entries[..k], listing)
  }

  lemma {:induction false} ProgressNext(entries: seq<Fields>, k: nat, listing: Listing)
    requires k < |entries| && Progress(entries, k, listing) && Typed(entries[k])
    ensures Progress(entries, k + 1, listing[PathOf(entries[k]) := ListedOf(entries[k])])
  {
    CollectedNext(entries[..k], listing, entries[k]);
    assert entries[..k + 1] == entries[..k] + [entries[k]];
  }

  lemma {:induction false} ProgressDone(entries: seq<Fields>, listing: Listing)
    requires Progress(entries, |entries|, listing)
    ensures AllTyped(entries) && (|listing| == |entries| <==> DistinctPaths(entries)) && (DistinctPaths(entries) ==> Reads(entries, listing))
  {
    assert entries[..|entries|] == entries;
  }

  /** Builds the expected listing; comparing counts afterwards tells whether a path was repeated. */
  method ExpectedInventory(entries: seq<Fields>) returns (expected: Option<Listing>)
    ensures expected.Some? <==> AllTyped(entries) && DistinctPaths(entries)
    ensures expected.Some? ==> Reads(entries, expected.value)
  {
    var listing: Listing := map[];
    var k := 0;
    while k < |entries|
      invariant k <= |entries| && Progress(entries, k, listing)
    {
      var e := entries[k];
      if PATH !in e || !e[PATH].Str? || SHA256 !in e || !e[SHA256].Str? { return None; }
      if SIZE !in e || !(e[SIZE].Number? || e[SIZE].Flag?) { return None; }
      ProgressNext(entries, k, listing);
      listing := listing[PathOf(entries[k]) := ListedOf(entries[k])];
      k := k + 1;
    }
    ProgressDone(entries, listing);
    expected := if |listing| != |entries| then None else Some(listing);
  }

  // --- The order of a manifest ---

  predicate StringLeq(a: string, b: string) {
    a == [] || (b != [] && (a[0] < b[0] || (a[0] == b[0] && StringLeq(a[1..], b[1..]))))
  }

  lemma {:induction false} StringOrder(a: string, b: string, c: string)
    ensures StringLeq(a, b) || StringLeq(b, a)
    ensures StringLeq(a, b) && StringLeq(b, a) ==> a == b
    ensures StringLeq(a, b) && StringLeq(b, c) ==> StringLeq(a, c)
  {
    if a != [] && b != [] {
      if c != [] { StringOrder(a[1..], b[1..], c[1..]); } else { StringOrder(a[1..], b[1..], []); }
      assert a == [a[0]] + a[1..] && b == [b[0]] + b[1..];
    }
  }

  /** The order is that of the first character in which two strings differ; a string comes after its
      beginnings. */
  lemma {:induction false} FirstDifferenceDecides(a: string, b: string)
    ensures a <= b ==> StringLeq(a, b)
    ensures forall n: nat :: n < |a| && n < |b| && a[..n] == b[..n] && a[n] != b[n] ==> (StringLeq(a, b) <==> a[n] < b[n])
    ensures b < a ==> !StringLeq(a, b)
  {
    assert forall n: nat :: 0 < n <= |a| ==> a[..n][0] == a[0];
    assert forall n: nat :: 0 < n <= |b| ==> b[..n][0] == b[0];
    if a != [] && b != [] && a[0] == b[0] {
      var x, y := a[1..], b[1..];
      FirstDifferenceDecides(x, y);
      assert a == [a[0]] + x && b == [b[0]] + y;
      if a <= b { assert x == b[..|a|][1..]; }
      if b < a { assert y == a[..|b|][1..]; }
      forall n: nat | n < |a| && n < |b| && a[..n] == b[..n] && a[n] != b[n] ensures StringLeq(a, b) <==> a[n] < b[n] {
        assert x[..n - 1] == a[..n][1..] && y[..n - 1] == b[..n][1..];
        assert x[n - 1] == a[n] && y[n - 1] == b[n];
      }
    }
  }

  /** Entries are ordered by kind and then by path, as those are spelled. */
  predicate EntryLeq(a: Fields, b: Fields, spell: Text -> string) {
    var k, l := Spelled(a, KIND, spell), Spelled(b, KIND, spell);
    if k == l then StringLeq(Spelled(a, PATH, spell), Spelled(b, PATH, spell)) else StringLeq(k, l)
  }

  function Spelled(f: Fields, key: Key, spell: Text -> string): string {
    if key in f && f[key].Str? then spell(f[key].text) else ""
  }

  lemma {:induction false} EntryOrder(a: Fields, b: Fields, c: Fields, spell: Text -> string)
    ensures EntryLeq(a, b, spell) || EntryLeq(b, a, spell)
    ensures EntryLeq(a, b, spell) && EntryLeq(b, c, spell) ==> EntryLeq(a, c, spell)
  {
    StringOrder(Spelled(a, KIND, spell), Spelled(b, KIND, spell), Spelled(c, KIND, spell));
    StringOrder(Spelled(a, PATH, spell), Spelled(b, PATH, spell), Spelled(c, PATH, spell));
  }

  ghost predicate Ordered(entries: seq<Fields>, spell: Text -> string) {
    forall j, k :: 0 <= j < k < |entries| ==> EntryLeq(entries[j], entries[k], spell)
  }

  function Insert(sorted: seq<Fields>, e: Fields, spell: Text -> string): (r: seq<Fields>)
    ensures multiset(r) == multiset(sorted) + multiset{e}
  {
    if sorted == [] then [e]
    else if EntryLeq(sorted[0], e, spell) then
      assert sorted == [sorted[0]] + sorted[1..];
      [sorted[0]] + Insert(sorted[1..], e, spell)
    else [e] + sorted
  }

  function Sort(entries: seq<Fields>, spell: Text -> string): (r: seq<Fields>)
    ensures multiset(r) == multiset(entries)
  {
    if entries == [] then []
    else
      assert entries == entries[..|entries| - 1] + [entries[|entries| - 1]];
      Insert(Sort(entries[..|entries| - 1], spell), entries[|entries| - 1], spell)
  }

  lemma {:induction false} Prepend(first: Fields, rest: seq<Fields>, spell: Text -> string)
    requires Ordered(rest, spell) && forall e :: e in rest ==> EntryLeq(first, e, spell)
    ensures Ordered([first] + rest, spell)
  {
  }

  lemma {:induction false} InsertKeepsOrder(sorted: seq<Fields>, e: Fields, spell: Text -> string)
    requires Ordered(sorted, spell)
    ensures Ordered(Insert(sorted, e, spell), spell)
  {
    if sorted != [] {
      var first, rest := sorted[0], sorted[1..];
      assert forall f :: f in rest ==> EntryLeq(first, f, spell);
      if EntryLeq(first, e, spell) {
        InsertKeepsOrder(rest, e, spell);
        var more := Insert(rest, e, spell);
        forall f | f in more ensures EntryLeq(first, f, spell) {
          assert f in multiset(more);
          assert f == e || f in multiset(rest);
        }
        Prepend(first, more, spell);
      } else {
        forall f | f in sorted ensures EntryLeq(e, f, spell) {
          EntryOrder(first, e, f, spell);
          EntryOrder(e, first, f, spell);
        }
        Prepend(e, sorted, spell);
      }
    }
  }

  lemma {:induction false} SortOrders(entries: seq<Fields>, spell: Text -> string)
    ensures Ordered(Sort(entries, spell), spell)
  {
    if entries != [] {
      var n := |entries| - 1;
      SortOrders(entries[..n], spell);
      InsertKeepsOrder(Sort(entries[..n], spell), entries[n], spell);
    }
  }

  // --- Taking a snapshot ---

  datatype Place = Mail | Quarantine | Attachments

  /** A row of the message or attachment table: where its file belongs, the path on record, which is below
      the archive root or empty, and the recorded digest and size. */
  datatype Source = Source(id: string, place: Place, path: Text, sha256: Text, size: int)

  /** What one backup run puts into the archive. */
  datatype Snapshot = Snapshot(entries: seq<Fields>, files: Files, manifest: Content, ids: seq<string>)

  ghost predicate Below(path: Text, folder: string) {
    path.Chars? && |folder| < |path.chars| && path.chars[..|folder|] == folder
  }

  ghost predicate InPlace(s: Source) {
    match s.place
    case Mail => Below(s.path, "mail/")
    case Quarantine => Below(s.path, "quarantine/")
    case Attachments => s.sha256.HexOf? && s.path == ObjectPath(s.sha256.digest)
  }

  /** Where it belongs, there, and with the bytes of its row. */
  ghost predicate Fit(s: Source, disk: Files) {
    InPlace(s) && s.path in disk && Sha(disk[s.path]) == s.sha256
  }

  ghost predicate IsMessage(s: Source) {
    s.place != Attachments
  }

  /** Each of the two tables keeps its paths unique. */
  ghost predicate Keyed(sources: seq<Source>) {
    forall j, k :: 0 <= j < k < |sources| && IsMessage(sources[j]) == IsMessage(sources[k]) && InPlace(sources[j]) ==>
      sources[j].path != sources[k].path
  }

  ghost predicate DistinctRows(sources: seq<Source>) {
    forall j, k :: 0 <= j < k < |sources| ==> sources[j].path != sources[k].path
  }

  /** Messages and attachments are kept apart, so rows that are in place share no path at all. */
  lemma {:induction false} KeyedIsDistinct(sources: seq<Source>, disk: Files)
    requires Keyed(sources) && Healthy(sources, disk)
    ensures DistinctRows(sources)
  {
    forall j, k | 0 <= j < k < |sources| ensures sources[j].path != sources[k].path {
      assert Fit(sources[j], disk) && Fit(sources[k], disk);
    }
  }

  ghost predicate Healthy(sources: seq<Source>, disk: Files) {
    forall k :: 0 <= k < |sources| ==> Fit(sources[k], disk)
  }

  /** The entry a row becomes. */
  function EntryOf(s: Source): (f: Fields)
    ensures Typed(f) && PathOf(f) == s.path && ListedOf(f) == Listed(s.size, s.sha256)
    ensures WellFormed(f) <==> s.path != Chars("") && s.sha256.HexOf? && s.size >= 0
  {
    var common := map[PATH := Str(s.path), SHA256 := Str(s.sha256), SIZE := Number(s.size)];
    match s.place
    case Attachments => common[KIND := Str(Known(AttachmentWord))][ATTACHMENT_ID := Str(Chars(s.id))]
    case _ =>
      common[KIND := Str(Known(CanonicalWord))][CANONICAL_ID := Str(Chars(s.id))]
        [STORAGE_STATE := Str(Known(if s.place == Mail then ArchivedWord else QuarantinedWord))]
  }

  /** Every field of the entry a row becomes, by the table and the place it is from. */
  lemma {:induction false} EntryFields(s: Source)
    ensures EntryOf(s) ==
            match s.place
            case Mail => map[KIND := Str(Known(CanonicalWord)), CANONICAL_ID := Str(Chars(s.id)), SHA256 := Str(s.sha256), SIZE := Number(s.size),
                             STORAGE_STATE := Str(Known(ArchivedWord)), PATH := Str(s.path)]
            case Quarantine => map[KIND := Str(Known(CanonicalWord)), CANONICAL_ID := Str(Chars(s.id)), SHA256 := Str(s.sha256), SIZE := Number(s.size),
                                   STORAGE_STATE := Str(Known(QuarantinedWord)), PATH := Str(s.path)]
            case Attachments => map[KIND := Str(Known(AttachmentWord)), ATTACHMENT_ID := Str(Chars(s.id)), SHA256 := Str(s.sha256),
                                    SIZE := Number(s.size), PATH := Str(s.path)]
  {
  }

  function DatabaseEntry(database: Content): (f: Fields)
    ensures Typed(f) && WellFormed(f) && PathOf(f) == DATABASE && ListedOf(f) == Listed(Size(database), Sha(database))
  {
    map[KIND := Str(Known(SqliteWord)), PATH := Str(DATABASE), SHA256 := Str(Sha(database)), SIZE := Number(Size(database))]
  }

  function Entries(sources: seq<Source>): seq<Fields> {
    if sources == [] then [] else Entries(sources[..|sources| - 1]) + [EntryOf(sources[|sources| - 1])]
  }

  function SourcePaths(sources: seq<Source>): set<Text> {
    if sources == [] then {} else SourcePaths(sources[..|sources| - 1]) + {sources[|sources| - 1].path}
  }

  /** What the entries say of each row. */
  lemma {:induction false} EntriesSay(sources: seq<Source>)
    ensures Paths(Entries(sources)) == SourcePaths(sources)
    ensures forall s :: s in sources ==> EntryOf(s) in Entries(sources)
  {
    if sources != [] {
      var n := |sources| - 1;
      EntriesSay(sources[..n]);
      PathsStep(Entries(sources[..n]), EntryOf(sources[n]));
      assert sources == sources[..n] + [sources[n]];
    }
  }

  /** The manifest's entries, before they are put in order. */
  function AllEntries(sources: seq<Source>, database: Content): seq<Fields> {
    Entries(sources) + [DatabaseEntry(database)]
  }

  /** The messages among the rows. */
  ghost function Ids(sources: seq<Source>): seq<string> {
    if sources == [] then []
    else Ids(sources[..|sources| - 1]) + if IsMessage(sources[|sources| - 1]) then [sources[|sources| - 1].id] else []
  }

  /** Exact copies of the files of all the rows, and nothing else. */
  ghost predicate Copied(sources: seq<Source>, disk: Files, files: Files) {
    files.Keys == SourcePaths(sources) && forall p :: p in files ==> p in disk && files[p] == disk[p]
  }

  lemma {:induction false} TakenNext(taken: seq<Source>, disk: Files, files: Files, s: Source)
    requires Healthy(taken, disk) && Copied(taken, disk, files) && Fit(s, disk)
    ensures Healthy(taken + [s], disk) && Copied(taken + [s], disk, files[s.path := disk[s.path]])
  {
    assert (taken + [s])[..|taken|] == taken;
  }

  lemma {:induction false} EntriesStep(taken: seq<Source>, s: Source)
    ensures Entries(taken + [s]) == Entries(taken) + [EntryOf(s)]
    ensures Ids(taken + [s]) == Ids(taken) + if IsMessage(s) then [s.id] else []
  {
    assert (taken + [s])[..|taken|] == taken;
  }

  /** Whether one row's file is where it belongs and has the bytes of its row. */
  method CheckSource(s: Source, disk: Files) returns (ok: bool)
    ensures ok <==> Fit(s, disk)
  {
    match s.place {
    case Mail =>
      if !s.path.Chars? || |s.path.chars| <= |"mail/"| || s.path.chars[..|"mail/"|] != "mail/" { return false; }
    case Quarantine =>
      if !s.path.Chars? || |s.path.chars| <= |"quarantine/"| || s.path.chars[..|"quarantine/"|] != "quarantine/" { return false; }
    case Attachments =>
      if !s.sha256.HexOf? || s.path != ObjectPath(s.sha256.digest) { return false; }
    }
    ok := s.path in disk && Sha(disk[s.path]) == s.sha256;
  }

  /** Copies every file whose bytes are still those of its row; one file that is missing, misplaced or
      different refuses the whole snapshot. */
  method CopyAll(sources: seq<Source>, disk: Files) returns (ok: bool, entries: seq<Fields>, files: Files, ids: seq<string>)
    requires Keyed(sources)
    ensures ok <==> Healthy(sources, disk)
    ensures ok ==> entries == Entries(sources) && ids == Ids(sources) && Copied(sources, disk, files)
  {
    ok, entries, files, ids := true, [], map[], [];
    ghost var taken: seq<Source> := [];
    for k := 0 to |sources|
      invariant taken == sources[..k] && Healthy(taken, disk)
      invariant entries == Entries(taken) && ids == Ids(taken)
      invariant Copied(taken, disk, files)
    {
      var s := sources[k];
      var fit := CheckSource(s, disk);
      if !fit { return false, [], map[], []; }
      TakenNext(taken, disk, files, s);
      EntriesStep(taken, s);
      files := files[s.path := disk[s.path]];
      entries := entries + [EntryOf(s)];
      if s.place == Mail || s.place == Quarantine { ids := ids + [s.id]; }
      taken := taken + [s];
    }
    assert taken == sources;
  }

  /** The whole snapshot: the copies, the database, and the manifest that lists them in order. */
  ghost predicate IsSnapshot(sources: seq<Source>, disk: Files, database: Content, length: nat, spell: Text -> string, s: Snapshot) {
    && multiset(s.entries) == multiset(AllEntries(sources, database)) && Ordered(s.entries, spell)
    && s.ids == Ids(sources) && s.manifest == ManifestText(Written(s.entries), length)
    && Copied(sources, disk, s.files - {DATABASE, MANIFEST})
    && DATABASE in s.files && s.files[DATABASE] == database && MANIFEST in s.files && s.files[MANIFEST] == s.manifest
  }

  lemma {:induction false} CopiesAreApart(sources: seq<Source>, disk: Files, files: Files)
    requires Healthy(sources, disk) && Copied(sources, disk, files)
    ensures DATABASE !in files && MANIFEST !in files
  {
    if sources != [] {
      var n := |sources| - 1;
      assert Fit(sources[n], disk);
      CopiesAreApart(sources[..n], disk, map p | p in SourcePaths(sources[..n]) :: disk[p]);
    }
  }

  lemma {:induction false} AddsTwoFiles(files: Files, database: Content, manifest: Content)
    requires DATABASE !in files && MANIFEST !in files
    ensures var all := files[DATABASE := database][MANIFEST := manifest];
            all - {DATABASE, MANIFEST} == files && DATABASE in all && all[DATABASE] == database && MANIFEST in all && all[MANIFEST] == manifest
  {
    assert files[DATABASE := database][MANIFEST := manifest] - {DATABASE, MANIFEST} == files;
  }

  /** The kinds and paths of the entries are spelled by strings. */
  lemma {:induction false} EntriesAreSpelled(sources: seq<Source>, database: Content)
    ensures forall e: Fields :: e in AllEntries(sources, database) ==> KIND in e && e[KIND].Str? && PATH in e && e[PATH].Str?
  {
    if sources != [] {
      var n := |sources| - 1;
      EntriesAreSpelled(sources[..n], database);
      assert forall e :: e in Entries(sources[..n]) ==> e in AllEntries(sources[..n], database);
    }
  }

  /** In a snapshot's manifest the kinds ascend, and the paths within a kind. */
  lemma {:induction false} ManifestOrder(sources: seq<Source>, disk: Files, database: Content, length: nat, spell: Text -> string, s: Snapshot, j: nat, k: nat)
    requires IsSnapshot(sources, disk, database, length, spell, s) && j < k < |s.entries|
    ensures var a, b := s.entries[j], s.entries[k];
            && KIND in a && KIND in b && PATH in a && PATH in b && a[KIND].Str? && b[KIND].Str? && a[PATH].Str? && b[PATH].Str?
            && StringLeq(spell(a[KIND].text), spell(b[KIND].text))
            && (spell(a[KIND].text) == spell(b[KIND].text) ==> StringLeq(spell(a[PATH].text), spell(b[PATH].text)))
  {
    EntriesAreSpelled(sources, database);
    assert s.entries[j] in multiset(s.entries) && s.entries[k] in multiset(s.entries);
    assert EntryLeq(s.entries[j], s.entries[k], spell);
    StringOrder(spell(s.entries[j][KIND].text), spell(s.entries[k][KIND].text), "");
  }

  method Materialize(sources: seq<Source>, disk: Files, database: Content, length: nat, spell: Text -> string) returns (r: Option<Snapshot>)
    requires Keyed(sources)
    ensures r.Some? <==> Healthy(sources, disk)
    ensures r.Some? ==> IsSnapshot(sources, disk, database, length, spell, r.value)
  {
    var ok, entries, files, ids := CopyAll(sources, disk);
    if !ok { return None; }
    CopiesAreApart(sources, disk, files);
    entries := entries + [DatabaseEntry(database)];
    assert entries == AllEntries(sources, database);
    SortOrders(entries, spell);
    var sorted := Sort(entries, spell);
    var manifest := ManifestText(Written(sorted), length);
    AddsTwoFiles(files, database, manifest);
    r := Some(Snapshot(sorted, files[DATABASE := database][MANIFEST := manifest], manifest, ids));
  }

  // --- A snapshot against its manifest ---

  /** The sizes on record are those of the files. */
  ghost predicate TrueSizes(sources: seq<Source>, disk: Files) {
    forall s :: s in sources ==> s.path in disk && s.size == Size(disk[s.path])
  }

  lemma {:induction false} SourcesAreOnDisk(sources: seq<Source>, disk: Files)
    requires Healthy(sources, disk)
    ensures forall s :: s in sources ==> Fit(s, disk) && s.path in SourcePaths(sources)
    ensures forall p :: p in SourcePaths(sources) ==> exists s :: s in sources && s.path == p
  {
    if sources != [] {
      var n := |sources| - 1;
      SourcesAreOnDisk(sources[..n], disk);
      assert sources == sources[..n] + [sources[n]];
      forall p | p in SourcePaths(sources) ensures exists s :: s in sources && s.path == p {
        if p == sources[n].path {
          assert sources[n] in sources;
        } else {
          assert p in SourcePaths(sources[..n]);
          var s :| s in sources[..n] && s.path == p;
          assert s in sources;
        }
      }
    }
  }

  /** The listing a verification compares with: what the manifest says, plus the manifest. */
  function Expected(listing: Listing, manifest: Content): Listing {
    listing[MANIFEST := Listed(Size(manifest), Sha(manifest))]
  }

  /** Something is repeated exactly if it is counted twice. */
  lemma {:induction false} CountedTwice(s: seq<Fields>, x: Fields)
    ensures multiset(s)[x] >= 2 <==> exists j, k :: 0 <= j < k < |s| && s[j] == x && s[k] == x
  {
    if s != [] {
      var n, front := |s| - 1, s[..|s| - 1];
      assert s == front + [s[n]];
      CountedTwice(front, x);
      if s[n] == x && x in multiset(front) {
        var j :| 0 <= j < n && front[j] == x;
        assert s[j] == x && s[n] == x;
      }
      if j, k :| 0 <= j < k < |s| && s[j] == x && s[k] == x {
        if k == n {
          assert front[j] == x && x in multiset(front);
        } else {
          assert front[j] == x && front[k] == x;
        }
      }
      if j, k :| 0 <= j < k < |front| && front[j] == x && front[k] == x {
        assert s[j] == x && s[k] == x;
      }
    }
  }

  /** The order of entries plays no part in whether their paths are distinct ... */
  lemma {:induction false} ReorderingKeepsDistinctness(a: seq<Fields>, b: seq<Fields>)
    requires multiset(a) == multiset(b) && DistinctPaths(a)
    ensures DistinctPaths(b)
  {
    forall j, k | 0 <= j < k < |b| ensures PathOf(b[j]) != PathOf(b[k]) {
      if PathOf(b[j]) == PathOf(b[k]) {
        assert b[j] in multiset(a) && b[k] in multiset(a);
        if b[j] == b[k] {
          CountedTwice(b, b[j]);
          CountedTwice(a, b[j]);
        }
        assert false;
      }
    }
  }

  /** ... nor in what listing reads them. */
  lemma {:induction false} ReorderingKeepsReading(a: seq<Fields>, b: seq<Fields>, listing: Listing)
    requires multiset(a) == multiset(b) && Reads(a, listing)
    ensures Reads(b, listing)
  {
    assert forall e :: e in b <==> e in multiset(b);
    assert forall e :: e in a <==> e in multiset(a);
    forall p ensures p in Paths(a) <==> p in Paths(b) {
      SamePathsOf(a, b, p);
      SamePathsOf(b, a, p);
    }
  }

  lemma {:induction false} SamePathsOf(a: seq<Fields>, b: seq<Fields>, p: Text)
    requires forall e :: e in a ==> e in b
    ensures p in Paths(a) ==> p in Paths(b)
  {
    PathsAre(a, p);
    PathsAre(b, p);
    if k :| 0 <= k < |a| && PathOf(a[k]) == p {
      assert a[k] in b;
    }
  }

  /** A listing is determined by the entries it reads. */
  lemma {:induction false} ReadsOnce(entries: seq<Fields>, a: Listing, b: Listing)
    requires Reads(entries, a) && Reads(entries, b)
    ensures a == b
  {
    forall p | p in a ensures a[p] == b[p] {
      PathsAre(entries, p);
      var k :| 0 <= k < |entries| && PathOf(entries[k]) == p;
      assert entries[k] in entries;
    }
  }

  lemma {:induction false} RowsAreListed(sources: seq<Source>, database: Content, listing: Listing)
    requires Reads(AllEntries(sources, database), listing)
    ensures listing.Keys == SourcePaths(sources) + {DATABASE} && listing[DATABASE] == Listed(Size(database), Sha(database))
    ensures forall s :: s in sources ==> s.path in listing && listing[s.path] == Listed(s.size, s.sha256)
  {
    EntriesSay(sources);
    PathsStep(Entries(sources), DatabaseEntry(database));
    assert DatabaseEntry(database) in AllEntries(sources, database);
    forall s | s in sources ensures s.path in listing && listing[s.path] == Listed(s.size, s.sha256) {
      assert EntryOf(s) in AllEntries(sources, database);
    }
  }

  /** A snapshot of healthy files that is stored faithfully lists exactly what a verification expects
      if and only if the sizes on record are those of the files. */
  lemma {:induction false} FaithfulStorageVerifies(sources: seq<Source>, disk: Files, database: Content, length: nat,
                                                   spell: Text -> string, s: Snapshot, listing: Listing)
    requires Healthy(sources, disk) && IsSnapshot(sources, disk, database, length, spell, s)
    requires Reads(s.entries, listing)
    ensures ListingOf(s.files) == Expected(listing, s.manifest) <==> TrueSizes(sources, disk)
  {
    ReorderingKeepsReading(s.entries, AllEntries(sources, database), listing);
    StoredListing(sources, disk, database, s.files, listing);
  }

  lemma {:induction false} StoredListing(sources: seq<Source>, disk: Files, database: Content, files: Files, listing: Listing)
    requires Healthy(sources, disk) && Copied(sources, disk, files - {DATABASE, MANIFEST})
    requires DATABASE in files && files[DATABASE] == database && MANIFEST in files
    requires Reads(AllEntries(sources, database), listing)
    ensures ListingOf(files) == Expected(listing, files[MANIFEST]) <==> TrueSizes(sources, disk)
  {
    RowsAreListed(sources, database, listing);
    CopiesAreApart(sources, disk, files - {DATABASE, MANIFEST});
    ListingsAgree(sources, disk, files - {DATABASE, MANIFEST}, files, Expected(listing, files[MANIFEST]));
  }

  lemma {:induction false} ListingsAgree(sources: seq<Source>, disk: Files, copies: Files, files: Files, whole: Listing)
    requires Healthy(sources, disk) && Copied(sources, disk, copies) && copies == files - {DATABASE, MANIFEST}
    requires whole.Keys == files.Keys && DATABASE in files && MANIFEST in files
    requires whole[DATABASE] == Listed(Size(files[DATABASE]), Sha(files[DATABASE])) && whole[MANIFEST] == Listed(Size(files[MANIFEST]), Sha(files[MANIFEST]))
    requires forall s :: s in sources ==> s.path in whole && whole[s.path] == Listed(s.size, s.sha256)
    ensures ListingOf(files) == whole <==> TrueSizes(sources, disk)
  {
    SourcesAreOnDisk(sources, disk);
    forall s | s in sources
      ensures whole[s.path] == ListingOf(files)[s.path] <==> s.size == Size(disk[s.path])
    {
      assert copies[s.path] == disk[s.path];
    }
    if TrueSizes(sources, disk) {
      forall p | p in whole ensures whole[p] == ListingOf(files)[p] {
        if p != DATABASE && p != MANIFEST {
          assert p in copies;
          var s :| s in sources && s.path == p;
        }
      }
    }
  }
}
