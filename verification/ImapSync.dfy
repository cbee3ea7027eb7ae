/** IMAP acquisition and linking (imap.py, `ImapAdapter.sync` and below; ingest.py, `ingest_bytes`) for
    one account and folder.

    A UID names one message for ever under its UIDVALIDITY, and its bytes never change (RFC 3501,
    section 2.3.1.1).  Anything may fail at any point; whatever was committed before stays. */
module ImapSync {
  import opened Base

  datatype Identity = Identity(uidvalidity: nat, uid: nat)

  /** A row of the remote message table; only proven identities are trusted, and the table holds no others. */
  datatype Remote = Remote(lastSeen: int, present: bool, proven: bool)

  /** One item of a FETCH response: the closing parenthesis, another bare fragment, something that is no
      pair of byte strings, or a literal with what its metadata declares. */
  datatype Part = Closing | Fragment | Shapeless | Literal(lengths: seq<nat>, uids: seq<nat>, bytes: Bytes)

  /** `Conflict` is a link to a different canonical object. */
  datatype Reply<+T> = Got(value: T) | Failed | Conflict

  // --- FETCH responses ---

  ghost predicate Declares(part: Part, uid: nat) {
    part.Literal? && part.lengths == [|part.bytes|] && part.uids == [uid]
  }

  /** The one literal of a response that holds nothing else. */
  ghost predicate IsTheLiteral(data: seq<Part>, uid: nat, k: nat) {
    k < |data| && Declares(data[k], uid) && forall j :: 0 <= j < |data| && j != k ==> data[j] == Closing
  }

  /** Accepts exactly the responses made of one literal of the declared length for the requested UID and
      closing parentheses, and returns that literal. */
  method ParseFetch(uid: nat, data: seq<Part>) returns (r: Reply<Bytes>)
    ensures r.Got? <==> exists k: nat :: IsTheLiteral(data, uid, k)
    ensures forall k: nat :: IsTheLiteral(data, uid, k) ==> r == Got(data[k].bytes)
    ensures !r.Conflict?
  {
    var matches: seq<nat> := [];
    for i := 0 to |data|
      invariant forall a :: 0 <= a < |matches| ==> matches[a] < i && Declares(data[matches[a]], uid)
      invariant forall a, b :: 0 <= a < b < |matches| ==> matches[a] < matches[b]
      invariant forall j :: 0 <= j < i && j !in matches ==> data[j] == Closing
    {
      if data[i] == Closing { continue; }
      if !data[i].Literal? { return Failed; }
      if |data[i].lengths| != 1 || |data[i].bytes| != data[i].lengths[0] { return Failed; }
      if |data[i].uids| != 1 || data[i].uids[0] != uid { return Failed; }
      matches := matches + [i];
    }
    if |matches| != 1 {
      if |matches| > 1 {
        assert matches[0] < matches[1] && data[matches[0]] != Closing && data[matches[1]] != Closing;
      }
      return Failed;
    }
    assert IsTheLiteral(data, uid, matches[0]);
    r := Got(data[matches[0]].bytes);
  }

  // --- Last-seen times ---

  const CHUNK: nat := 500

  /** One UPDATE over the rows of one UIDVALIDITY whose UID is listed. */
  function Seen(rows: map<Identity, Remote>, uidvalidity: nat, uids: seq<nat>, at: int): map<Identity, Remote> {
    map i | i in rows :: if i.uidvalidity == uidvalidity && rows[i].proven && i.uid in uids then rows[i].(lastSeen := at) else rows[i]
  }

  /** Updating in chunks touches exactly the rows one update would. */
  method RefreshLastSeen(rows: map<Identity, Remote>, uidvalidity: nat, uids: seq<nat>, at: int) returns (r: map<Identity, Remote>)
    ensures r == Seen(rows, uidvalidity, uids, at)
  {
    r := rows;
    var start := 0;
    assert uids[..0] == [];
    while start < |uids|
      invariant 0 <= start
      invariant r == Seen(rows, uidvalidity, uids[..if start < |uids| then start else |uids|], at)
    {
      var end := if start + CHUNK < |uids| then start + CHUNK else |uids|;
      TwoChunks(rows, uidvalidity, uids[..start], uids[start..end], at);
      assert uids[..start] + uids[start..end] == uids[..end];
      r := Seen(r, uidvalidity, uids[start..end], at);
      start := start + CHUNK;
    }
    assert uids[..|uids|] == uids;
  }

  lemma {:induction false} TwoChunks(rows: map<Identity, Remote>, uidvalidity: nat, a: seq<nat>, b: seq<nat>, at: int)
    ensures Seen(Seen(rows, uidvalidity, a, at), uidvalidity, b, at) == Seen(rows, uidvalidity, a + b, at)
  {
  }

  // --- The server ---

  method Sorted(s: set<nat>) returns (q: seq<nat>)
    ensures forall x :: x in q <==> x in s
    ensures forall i, j :: 0 <= i < j < |q| ==> q[i] < q[j]
  {
    q := [];
    var rest, n := s, 0;
    while rest != {}
      invariant rest <= s && forall x :: x in q <==> x in s && x !in rest
      invariant forall x :: x in rest ==> x >= n
      invariant forall i :: 0 <= i < |q| ==> q[i] < n
      invariant forall i, j :: 0 <= i < j < |q| ==> q[i] < q[j]
      decreases rest, Largest(rest) - n
    {
      LargestIn(rest);
      if n in rest { q, rest := q + [n], rest - {n}; }
      n := n + 1;
    }
  }

  ghost function Largest(s: set<nat>): nat {
    if s == {} then 0
    else
      var x :| x in s;
      if x > Largest(s - {x}) then x else Largest(s - {x})
  }

  lemma {:induction false} LargestIn(s: set<nat>)
    ensures forall x :: x in s ==> x <= Largest(s)
  {
    if s != {} {
      var y: nat :| y in s && Largest(s) == if y > Largest(s - {y}) then y else Largest(s - {y});
      LargestIn(s - {y});
      assert forall x :: x in s ==> x == y || x in s - {y};
    }
  }

  class Server {
    /** A quiet server answers every command, and nothing local fails during its sessions. */
    const quiet: bool
    /** Every message the folder has ever held. */
    var messages: map<Identity, Bytes>
    var uidvalidity: nat
    var uids: set<nat>
    /** UIDs whose bodies have been asked for. */
    var fetched: seq<nat>

    ghost predicate Valid()
      reads this
    {
      forall uid :: uid in uids ==> Identity(uidvalidity, uid) in messages
    }

    /** A read-only session on whatever the folder is by then: mail may have come and gone, or the
        folder may have been recreated under a UIDVALIDITY never used before. */
    method Open() returns (r: Reply<nat>)
      requires Valid()
      modifies this`messages, this`uidvalidity, this`uids
      ensures Valid() && forall i :: i in old(messages) ==> i in messages && messages[i] == old(messages)[i]
      ensures r.Got? ==> r.value == uidvalidity
      ensures quiet ==> r.Got?
    {
      var answered: bool, next: map<Identity, Bytes>, v: nat := *, *, *;
      var gone: set<nat>, arrived: set<nat>, recreated: bool := *, *, *;
      ghost var before := messages;
      if recreated && v > uidvalidity { uidvalidity, uids := v, {}; }
      uids := (uids - gone) + set u | u in arrived && Identity(uidvalidity, u) in next && Identity(uidvalidity, u) !in messages;
      messages := next + messages;
      r := if answered || quiet then Got(uidvalidity) else Failed;
    }

    method Search() returns (r: Reply<set<nat>>)
      requires Valid()
      ensures r.Got? ==> r.value == uids
      ensures quiet ==> r.Got?
    {
      var answered: bool := *;
      r := if answered || quiet then Got(uids) else Failed;
    }

    /** A body: whatever else the response holds, a literal declared whole for the UID is its message. */
    method Fetch(uid: nat) returns (r: Reply<seq<Part>>)
      requires Valid() && uid in uids
      modifies this`fetched
      ensures fetched == old(fetched) + [uid]
      ensures r.Got? ==> forall p :: p in r.value && Declares(p, uid) ==> p.bytes == messages[Identity(uidvalidity, uid)]
      ensures quiet ==> r.Got? && IsTheLiteral(r.value, uid, 0)
    {
      fetched := fetched + [uid];
      var answered: bool, odd: Part, bytes := *, *, messages[Identity(uidvalidity, uid)];
      if quiet { return Got([Literal([|bytes|], [uid], bytes), Closing]); }
      if !answered { return Failed; }
      if odd.Literal? && odd.uids == [uid] { odd := Closing; }
      r := Got([odd, Literal([|bytes|], [uid], bytes), Closing]);
    }
  }

  // --- The archive ---

  /** No link is lost or changed. */
  ghost predicate Extends(before: map<Identity, Digest>, after: map<Identity, Digest>) {
    forall i :: i in before ==> i in after && after[i] == before[i]
  }

  /** How one synchronization may leave a row: as it was, or seen now in the snapshot, and then still
      present if it was present before. */
  ghost predicate RowAfter(before: Remote, after: Remote, i: Identity, uidvalidity: nat, uids: set<nat>, at: int) {
    || after == before
    || (i.uidvalidity == uidvalidity && i.uid in uids && after.proven == before.proven && after.lastSeen == at
        && (before.present ==> after.present))
  }

  /** No row is lost, and new ones are of the snapshot. */
  ghost predicate RowsAfter(before: map<Identity, Remote>, after: map<Identity, Remote>, uidvalidity: nat, uids: set<nat>, at: int) {
    && (forall i :: i in before ==> i in after && RowAfter(before[i], after[i], i, uidvalidity, uids, at))
    && (forall i :: i in after && i !in before ==> i.uidvalidity == uidvalidity && i.uid in uids)
  }

  lemma {:induction false} OneMoreRow(before: map<Identity, Remote>, middle: map<Identity, Remote>, uidvalidity: nat, uid: nat, uids: set<nat>, at: int)
    requires RowsAfter(before, middle, uidvalidity, uids, at) && uid in uids && forall i :: i in before ==> before[i].proven
    ensures RowsAfter(before, middle[Identity(uidvalidity, uid) := Remote(at, true, true)], uidvalidity, uids, at)
  {
  }

  lemma {:induction false} RowsAfterBoth(a: map<Identity, Remote>, b: map<Identity, Remote>, c: map<Identity, Remote>, uidvalidity: nat, uids: set<nat>, at: int)
    requires RowsAfter(a, b, uidvalidity, uids, at) && RowsAfter(b, c, uidvalidity, uids, at) && a.Keys == b.Keys
    ensures RowsAfter(a, c, uidvalidity, uids, at)
  {
    forall i | i in a ensures i in c && RowAfter(a[i], c[i], i, uidvalidity, uids, at) {
      assert RowAfter(a[i], b[i], i, uidvalidity, uids, at) && RowAfter(b[i], c[i], i, uidvalidity, uids, at);
    }
  }

  ghost predicate SeenAt(remotes: map<Identity, Remote>, i: Identity, at: int) {
    i in remotes && remotes[i].lastSeen == at
  }

  ghost predicate Ascending(q: seq<nat>) {
    forall j, k :: 0 <= j < k < |q| ==> q[j] < q[k]
  }

  /** The canonical file is there with the digest on record. */
  ghost predicate Verifies(files: map<Digest, Bytes>, d: Digest) {
    d in files && Sha256(files[d]) == d
  }

  class Archive {
    const server: Server
    /** Registered canonical objects, and the canonical files there are; an object's id is its digest. */
    var objects: set<Digest>
    var files: map<Digest, Bytes>
    var remotes: map<Identity, Remote>
    var links: map<Identity, Digest>

    /** Rows are of proven identities; links are of known rows to registered objects, and say which bytes
        the message has. */
    ghost predicate Valid()
      reads this, server
    {
      && server.Valid()
      && (forall i :: i in remotes ==> remotes[i].proven)
      && (forall i :: i in links ==> i in remotes && links[i] in objects)
      && (forall i :: i in links ==> i in server.messages && links[i] == Sha256(server.messages[i]))
    }

    /** No canonical file has been damaged or lost. */
    ghost predicate Undamaged()
      reads this
    {
      && (forall d :: d in objects ==> d in files)
      && (forall d :: d in files ==> Sha256(files[d]) == d)
    }

    constructor (server: Server)
      requires server.Valid()
      ensures this.server == server && Valid() && Undamaged() && links == map[] && remotes == map[] && objects == {} && files == map[]
    {
      this.server, this.objects, this.files, this.remotes, this.links := server, {}, map[], map[], map[];
    }

    /** Admits exact bytes: one file and one object per digest, the file never overwritten, the object
        registered only after the file, and success only if the file then holds exactly these bytes.  A
        registered object whose file is missing or damaged is neither accepted nor restored. */
    method Ingest(raw: Bytes) returns (r: Reply<Digest>)
      modifies this`objects, this`files
      ensures forall d :: d in old(files) ==> d in files && files[d] == old(files)[d]
      ensures objects == old(objects) || objects == old(objects) + {Sha256(raw)}
      ensures r.Got? ==> r.value == Sha256(raw) && r.value in objects && files == old(files)[r.value := raw]
      ensures !r.Conflict?
      ensures Sha256(raw) in old(objects) && !r.Got? ==> files == old(files)
      ensures r.Got? ==> if Sha256(raw) in old(objects) then Verifies(old(files), Sha256(raw)) else Sha256(raw) in old(files) ==> Verifies(old(files), Sha256(raw))
      ensures old(Undamaged()) ==> Undamaged()
      ensures old(Undamaged()) && server.quiet ==> r.Got?
    {
      var d := Sha256(raw);
      if d in objects {
        if d !in files || Sha256(files[d]) != d { return Failed; }
        return Got(d);
      }
      if d in files {
        if Sha256(files[d]) != d { return Failed; }
      } else {
        var written: bool := *;
        if !written && !server.quiet { return Failed; }
        files := files[d := raw];
      }
      var registered: bool := *;
      if !registered && !server.quiet { return Failed; }
      objects := objects + {d};
      r := Got(d);
    }

    /** Binds one identity to one canonical object, once and for all. */
    method Register(i: Identity, d: Digest, at: int) returns (r: Reply<()>)
      requires d in objects
      modifies this`remotes, this`links
      ensures remotes == old(remotes) || (i in remotes && remotes == old(remotes)[i := remotes[i]])
      ensures i in remotes && remotes != old(remotes) ==> remotes[i] == Remote(at, true, if i in old(remotes) then old(remotes)[i].proven else true)
      ensures links == old(links) || (i !in old(links) && links == old(links)[i := d])
      ensures links != old(links) ==> i in remotes
      ensures r.Got? ==> i in links && links[i] == d && i in remotes && remotes[i].lastSeen == at && remotes[i].present
      ensures r.Conflict? ==> i in old(links) && old(links)[i] != d
      ensures i in old(links) && old(links)[i] != d ==> !r.Got?
      ensures server.quiet ==> !r.Failed?
    {
      var committed: bool := *;
      if !committed && !server.quiet { return Failed; }
      remotes := remotes[i := if i in remotes then remotes[i].(lastSeen := at, present := true) else Remote(at, true, true)];
      if i in links && links[i] != d { return Conflict; }
      if i !in links { links := links[i := d]; }
      r := Got(());
    }

    /** Fetches, admits and links one message. */
    method Acquire(v: nat, uid: nat, at: int) returns (r: Reply<()>)
      requires Valid() && v == server.uidvalidity && uid in server.uids
      modifies this, server`fetched
      ensures Valid() && server.fetched == old(server.fetched) + [uid]
      ensures links == old(links) || (Identity(v, uid) !in old(links) && links == old(links)[Identity(v, uid) := Sha256(server.messages[Identity(v, uid)])])
      ensures remotes == old(remotes) || remotes == old(remotes)[Identity(v, uid) := Remote(at, true, true)]
      ensures r.Got? ==> Identity(v, uid) in remotes && remotes[Identity(v, uid)] == Remote(at, true, true)
      ensures r.Got? ==> Identity(v, uid) in links && files == old(files)[links[Identity(v, uid)] := server.messages[Identity(v, uid)]]
      ensures !r.Conflict?
      ensures forall d :: d in old(files) ==> d in files && files[d] == old(files)[d]
      ensures old(Undamaged()) ==> Undamaged() && (server.quiet ==> r.Got?)
    {
      var i := Identity(v, uid);
      var response := server.Fetch(uid);
      if !response.Got? { return Failed; }
      var raw := ParseFetch(uid, response.value);
      if !raw.Got? { return Failed; }
      assert raw.value == server.messages[i] by {
        var k: nat :| IsTheLiteral(response.value, uid, k);
        assert response.value[k] in response.value;
      }
      var canonical := Ingest(raw.value);
      if !canonical.Got? { return Failed; }
      r := Register(i, canonical.value, at);
      if r.Got? {
        var classified: bool := *;
        if !classified && !server.quiet { r := Failed; }
      }
    }

    /** Acquires the listed messages in order, stopping at the first failure after `n` fetches. */
    method AcquireAll(v: nat, todo: seq<nat>, at: int) returns (r: Reply<()>, ghost n: nat)
      requires Valid() && v == server.uidvalidity && forall k :: 0 <= k < |todo| ==> todo[k] in server.uids
      modifies this, server`fetched
      ensures Valid() && !r.Conflict? && Extends(old(links), links)
      ensures n <= |todo| && server.fetched == old(server.fetched) + todo[..n]
      ensures forall i :: i in links && i !in old(links) ==> i.uidvalidity == v && i.uid in todo
      ensures r.Got? ==> n == |todo| && forall k :: 0 <= k < |todo| ==> Identity(v, todo[k]) in links
      ensures r.Got? ==> forall uid :: uid in todo ==> Identity(v, uid) in remotes && remotes[Identity(v, uid)] == Remote(at, true, true)
      ensures RowsAfter(old(remotes), remotes, v, server.uids, at)
      ensures old(Undamaged()) ==> Undamaged() && (server.quiet ==> r.Got?)
    {
      for k := 0 to |todo|
        invariant Valid() && Extends(old(links), links) && server.fetched == old(server.fetched) + todo[..k]
        invariant forall i :: i in links && i !in old(links) ==> i.uidvalidity == v && i.uid in todo
        invariant forall j :: 0 <= j < k ==> Identity(v, todo[j]) in links
        invariant forall j :: 0 <= j < k ==> Identity(v, todo[j]) in remotes && remotes[Identity(v, todo[j])] == Remote(at, true, true)
        invariant RowsAfter(old(remotes), remotes, v, server.uids, at)
        invariant old(Undamaged()) ==> Undamaged()
      {
        assert todo[..k + 1] == todo[..k] + [todo[k]];
        OneMoreRow(old(remotes), remotes, v, todo[k], server.uids, at);
        r := Acquire(v, todo[k], at);
        if !r.Got? { return r, k + 1; }
      }
      assert todo[..|todo|] == todo;
      return Got(()), |todo|;
    }

    /** The opening of a session: what is there, and what of it is to be fetched. */
    method Discover(at: int) returns (r: Reply<set<nat>>, todo: seq<nat>)
      requires Valid()
      modifies this`remotes, server`messages, server`uidvalidity, server`uids
      ensures Valid() && !r.Conflict? && (server.quiet ==> r.Got?)
      ensures r.Got? ==> r.value == server.uids && Ascending(todo)
      ensures r.Got? ==> forall uid :: uid in server.uids && uid !in todo ==> SeenAt(remotes, Identity(server.uidvalidity, uid), at)
      ensures r.Got? ==> forall uid :: uid in todo <==> uid in server.uids && Identity(server.uidvalidity, uid) !in links
      ensures remotes.Keys == old(remotes).Keys && RowsAfter(old(remotes), remotes, server.uidvalidity, server.uids, at)
      ensures !r.Got? ==> remotes == old(remotes)
    {
      todo := [];
      var session := server.Open();
      if !session.Got? { return Failed, todo; }
      var listed := server.Search();
      if !listed.Got? { return Failed, todo; }
      var snapshot := Sorted(listed.value);
      ghost var before := remotes;
      remotes := RefreshLastSeen(remotes, session.value, snapshot, at);
      assert forall i :: i in before <==> i in remotes;
      assert forall i :: i in before ==> remotes[i].proven == before[i].proven;
      var known := set i | i in links && i in remotes && i.uidvalidity == session.value && remotes[i].proven :: i.uid;
      todo := Sorted(listed.value - known);
      assert forall uid :: uid in known <==> Identity(session.value, uid) in links;
      r := Got(listed.value);
    }

    /** One synchronization.  Links are only added, never changed; what is fetched is a first part of
        the snapshot's UIDs that were not linked, each once and in order; no row outside the snapshot
        changes, and no row loses its presence; and a success has fetched all that were not linked, so that every UID of the snapshot is linked to the object whose bytes are the message's and
        has been seen now.  A quiet server gets a success. */
    method Sync(at: int) returns (r: Reply<set<nat>>, ghost todo: seq<nat>, ghost n: nat)
      requires Valid()
      modifies this, server
      ensures Valid() && !r.Conflict? && Extends(old(links), links)
      ensures n <= |todo| && server.fetched == old(server.fetched) + todo[..n] && Ascending(todo)
      ensures forall uid :: uid in todo ==> uid in server.uids && Identity(server.uidvalidity, uid) !in old(links)
      ensures (forall uid :: uid in server.uids ==> Identity(server.uidvalidity, uid) in old(links)) ==> server.fetched == old(server.fetched)
      ensures RowsAfter(old(remotes), remotes, server.uidvalidity, server.uids, at)
      ensures forall i :: i in links && i !in old(links) ==> i.uidvalidity == server.uidvalidity && i.uid in todo
      ensures r.Got? ==> r.value == server.uids && n == |todo|
      ensures r.Got? ==> forall uid :: uid in todo ==> Identity(server.uidvalidity, uid) in remotes && remotes[Identity(server.uidvalidity, uid)].present
      ensures r.Got? ==> forall uid :: uid in r.value ==>
                var i := Identity(server.uidvalidity, uid);
                i in links && i in server.messages && links[i] == Sha256(server.messages[i]) && SeenAt(remotes, i, at)
      ensures old(Undamaged()) ==> Undamaged() && (server.quiet ==> r.Got?)
    {
      ghost var fetched := server.fetched;
      var plan: seq<nat>;
      r, plan := Discover(at);
      if !r.Got? {
        assert fetched + [] == fetched;
        return Failed, [], 0;
      }
      assert plan != [] ==> plan[0] in plan;
      ghost var seen := remotes;
      var done;
      done, n := AcquireAll(server.uidvalidity, plan, at);
      todo := plan;
      RowsAfterBoth(old(remotes), seen, remotes, server.uidvalidity, server.uids, at);
      if !done.Got? { r := Failed; }
    }
  }

  /** A second synchronization of a folder in which nothing new has arrived fetches no body. */
  method SyncTwice(archive: Archive, first: int, second: int) returns (r: Reply<set<nat>>, ghost v: nat, ghost fetched: seq<nat>)
    requires archive.Valid()
    modifies archive, archive.server
    ensures archive.Valid()
    ensures r.Got? && archive.server.uidvalidity == v && archive.server.uids <= r.value ==> archive.server.fetched == fetched
  {
    ghost var todo, n;
    r, todo, n := archive.Sync(first);
    v, fetched := archive.server.uidvalidity, archive.server.fetched;
    var again;
    again, todo, n := archive.Sync(second);
  }

  /** The check made of an object's file finds exactly whether the file of a linked message holds the
      message's bytes, as it does where nothing has been damaged. */
  lemma {:induction false} LinkedFilesHoldTheMessage(archive: Archive, i: Identity)
    requires archive.Valid() && i in archive.links
    ensures i in archive.server.messages
    ensures var d := archive.links[i];
            && (Verifies(archive.files, d) <==> d in archive.files && archive.files[d] == archive.server.messages[i])
            && (archive.Undamaged() ==> Verifies(archive.files, d))
  {
  }
}
