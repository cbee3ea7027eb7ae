/** The POP3 deletion adapter (pop3_mutation.py) against a server that deletes only in UPDATE.

    The server follows RFC 1939: a session holds the maildrop exclusively and works on a fixed numbering
    (sections 4 and 5), DELE only marks (section 5), marked messages are removed after QUIT and never
    when a session ends without it (section 6), and unique-ids are unique and never reused (section 7).
    Any reply may be lost.  After QUIT the removal may happen at once, later, partly or not at all, but
    it is settled before the next session can begin. */
module Pop3Mutation {
  import opened Base
  import opened Verdicts

  datatype Entry = Entry(number: nat, uidl: string)

  /** A line of a listing, split at line breaks: empty, two fields of which the first is a number, or
      anything else. */
  datatype Line = Blank | Listed(entry: Entry) | Garbage

  /** `Refused` and `Lost` are the two ways a command raises; `Conflict` is an ambiguous listing. */
  datatype Reply<+T> = Got(value: T) | Refused | Lost | Conflict

  datatype Event = Deled(uidl: string, accepted: bool) | Quitted | Aborted

  datatype Target = Target(uidl: string, digest: Digest)

  type Maildrop = map<string, Bytes>

  // --- The UIDL listing ---

  ghost predicate Numbering(entries: seq<Entry>) {
    && (forall i :: 0 <= i < |entries| ==> entries[i].number > 0)
    && (forall i, j :: 0 <= i < j < |entries| ==> entries[i].number != entries[j].number && entries[i].uidl != entries[j].uidl)
  }

  /** White space as the program's language understands it. */
  predicate IsSpace(c: char) {
    var n := c as int;
    || 9 <= n <= 13 || 28 <= n <= 32 || n in {0x85, 0xA0, 0x1680, 0x2028, 0x2029, 0x202F, 0x205F, 0x3000}
    || 0x2000 <= n <= 0x200A
  }

  lemma {:induction false} SpacesAre(c: char)
    ensures IsSpace(c) <==> c as int in {
              9, 10, 11, 12, 13, 28, 29, 30, 31, 32, 0x85, 0xA0, 0x1680, 0x2000, 0x2001, 0x2002, 0x2003, 0x2004, 0x2005, 0x2006, 0x2007,
              0x2008, 0x2009, 0x200A, 0x2028, 0x2029, 0x202F, 0x205F, 0x3000}
  {
  }

  ghost predicate Spaced(uidl: string) {
    exists i :: 0 <= i < |uidl| && IsSpace(uidl[i])
  }

  predicate HasSpace(uidl: string)
    ensures HasSpace(uidl) <==> Spaced(uidl)
  {
    uidl != "" && (IsSpace(uidl[0]) || HasSpace(uidl[1..]))
  }

  /** The entries of a listing, in order. */
  function Listing(lines: seq<Line>): seq<Entry> {
    if lines == [] then []
    else Listing(lines[..|lines| - 1]) + if lines[|lines| - 1].Listed? then [lines[|lines| - 1].entry] else []
  }

  /** A line that repeats a number or a unique-id of an earlier one, or whose unique-id has white space. */
  ghost predicate Ambiguous(lines: seq<Line>, k: nat)
    requires k < |lines|
  {
    && lines[k].Listed?
    && (|| Spaced(lines[k].entry.uidl)
        || exists i :: 0 <= i < k && lines[i].Listed? && (lines[i].entry.number == lines[k].entry.number || lines[i].entry.uidl == lines[k].entry.uidl))
  }

  ghost predicate WellFormed(line: Line) {
    line.Blank? || (line.Listed? && line.entry.number > 0)
  }

  ghost predicate Fine(lines: seq<Line>, k: nat)
    requires k < |lines|
  {
    WellFormed(lines[k]) && !Ambiguous(lines, k)
  }

  /** The first `k` lines have been accepted: they list `result`, whose numbers and unique-ids are collected. */
  ghost predicate Parsed(lines: seq<Line>, k: nat, result: seq<Entry>, numbers: set<nat>, seen: set<string>) {
    && k <= |lines| && result == Listing(lines[..k]) && Numbering(result)
    && (forall i :: 0 <= i < k ==> Fine(lines, i))
    && (forall e :: e in result ==> e.number in numbers && e.uidl in seen)
    && (forall n :: n in numbers ==> exists i :: 0 <= i < k && lines[i].Listed? && lines[i].entry.number == n)
    && (forall u :: u in seen ==> exists i :: 0 <= i < k && lines[i].Listed? && lines[i].entry.uidl == u)
  }

  lemma {:induction false} ListingHasEntries(lines: seq<Line>, i: nat)
    requires i < |lines| && lines[i].Listed?
    ensures lines[i].entry in Listing(lines)
  {
    var n := |lines| - 1;
    if i < n {
      assert lines[..n][i] == lines[i];
      ListingHasEntries(lines[..n], i);
    }
  }

  lemma {:induction false} AmbiguousIsSeen(lines: seq<Line>, k: nat, result: seq<Entry>, numbers: set<nat>, seen: set<string>)
    requires Parsed(lines, k, result, numbers, seen) && k < |lines| && lines[k].Listed?
    ensures Ambiguous(lines, k) <==> Spaced(lines[k].entry.uidl) || lines[k].entry.number in numbers || lines[k].entry.uidl in seen
  {
    forall i | 0 <= i < k && lines[i].Listed? ensures lines[i].entry.number in numbers && lines[i].entry.uidl in seen {
      assert lines[..k][i] == lines[i];
      ListingHasEntries(lines[..k], i);
    }
  }

  lemma {:induction false} ParsedGrows(lines: seq<Line>, k: nat, result: seq<Entry>, numbers: set<nat>, seen: set<string>)
    requires Parsed(lines, k, result, numbers, seen) && k < |lines| && Fine(lines, k)
    ensures var e := lines[k];
            if e.Blank? then Parsed(lines, k + 1, result, numbers, seen)
            else Parsed(lines, k + 1, result + [e.entry], numbers + {e.entry.number}, seen + {e.entry.uidl})
  {
    assert lines[..k + 1][..k] == lines[..k];
    if lines[k].Listed? {
      AmbiguousIsSeen(lines, k, result, numbers, seen);
      forall i | 0 <= i < |result| ensures result[i].number != lines[k].entry.number && result[i].uidl != lines[k].entry.uidl {
        assert result[i] in result;
      }
    }
  }

  /** The line at which an ambiguous listing is given up. */
  ghost predicate ConflictAt(lines: seq<Line>, k: nat) {
    k < |lines| && WellFormed(lines[k]) && Ambiguous(lines, k) && forall i :: 0 <= i < k ==> Fine(lines, i)
  }

  ghost predicate AllFine(lines: seq<Line>) {
    forall k :: 0 <= k < |lines| ==> Fine(lines, k)
  }

  lemma {:induction false} FirstFaultDecides(lines: seq<Line>, k: nat)
    requires k < |lines| && !Fine(lines, k) && forall i :: 0 <= i < k ==> Fine(lines, i)
    ensures !AllFine(lines)
    ensures (exists i :: ConflictAt(lines, i)) <==> WellFormed(lines[k])
  {
    if WellFormed(lines[k]) {
      assert ConflictAt(lines, k);
    } else {
      forall i: nat ensures !ConflictAt(lines, i) {
        assert i < k ==> Fine(lines, i);
      }
    }
  }

  lemma {:induction false} AllFineIsNoConflict(lines: seq<Line>, i: nat)
    requires AllFine(lines)
    ensures !ConflictAt(lines, i)
  {
    assert i < |lines| ==> Fine(lines, i);
  }

  /** The parsing loop: it accepts exactly the unambiguous listings, and tells an ambiguous one (a
      repeated number, or a repeated or impossible unique-id, before anything malformed) from a malformed
      one.  A response that is not empty has to list something. */
  method ParseUidls(lines: seq<Line>) returns (r: Reply<seq<Entry>>)
    ensures r.Got? <==> AllFine(lines) && (Listing(lines) == [] ==> |lines| <= 1)
    ensures r.Got? ==> r.value == Listing(lines) && Numbering(r.value)
    ensures r.Conflict? <==> exists k :: ConflictAt(lines, k)
    ensures !r.Lost?
  {
    var numbers: set<nat>, seen: set<string>, result: seq<Entry> := {}, {}, [];
    var k := 0;
    while k < |lines|
      invariant Parsed(lines, k, result, numbers, seen)
    {
      if lines[k].Listed? { AmbiguousIsSeen(lines, k, result, numbers, seen); }
      if lines[k].Garbage? || (lines[k].Listed? && lines[k].entry.number == 0) {
        FirstFaultDecides(lines, k);
        return Refused;
      }
      if lines[k].Listed? {
        var entry := lines[k].entry;
        if HasSpace(entry.uidl) || entry.number in numbers || entry.uidl in seen {
          FirstFaultDecides(lines, k);
          return Conflict;
        }
        ParsedGrows(lines, k, result, numbers, seen);
        result := result + [entry];
        numbers, seen := numbers + {entry.number}, seen + {entry.uidl};
      } else {
        ParsedGrows(lines, k, result, numbers, seen);
      }
      k := k + 1;
    }
    assert lines[..k] == lines;
    forall i: nat ensures !ConflictAt(lines, i) { AllFineIsNoConflict(lines, i); }
    r := if result == [] && |lines| > 1 then Refused else Got(result);
  }

  /** The session-local number of a unique-id. */
  function NumberOf(entries: seq<Entry>, uidl: string): (n: Option<nat>)
    ensures n.None? <==> forall i :: 0 <= i < |entries| ==> entries[i].uidl != uidl
    ensures n.Some? ==> Entry(n.value, uidl) in entries
  {
    if entries == [] then None
    else if entries[0].uidl == uidl then Some(entries[0].number)
    else
      var rest := NumberOf(entries[1..], uidl);
      assert forall i :: 0 < i < |entries| ==> entries[i] == entries[1..][i - 1];
      rest
  }

  // --- The server ---

  /** How a maildrop may change while only the `touched` messages are being deleted: mail may arrive
      under unique-ids not in `ever` used before, other messages stay, bytes never change, and what was
      removed never comes back. */
  ghost predicate OnlyTouches(before: Maildrop, ever: set<string>, after: Maildrop, touched: set<string>) {
    && (forall u :: u in before && u !in touched ==> u in after && after[u] == before[u])
    && (forall u :: u in after && u in ever ==> u in before && after[u] == before[u])
  }

  lemma {:induction false} OnlyTouchesTransitive(a: Maildrop, e: set<string>, b: Maildrop, f: set<string>, c: Maildrop, inner: set<string>, touched: set<string>)
    requires e <= f && inner <= touched && OnlyTouches(a, e, b, touched) && OnlyTouches(b, f, c, inner)
    ensures OnlyTouches(a, e, c, touched)
  {
  }

  /** A session's numbering lists every message of the maildrop once. */
  ghost predicate Lists(entries: seq<Entry>, maildrop: Maildrop) {
    && Numbering(entries)
    && (forall e :: e in entries ==> e.uidl in maildrop && !Spaced(e.uidl))
    && (forall u :: u in maildrop ==> exists e :: e in entries && e.uidl == u)
  }

  function Lines(entries: seq<Entry>): (lines: seq<Line>)
    ensures |lines| == |entries| && forall k :: 0 <= k < |lines| ==> lines[k] == Listed(entries[k])
    ensures Listing(lines) == entries
  {
    if entries == [] then []
    else
      var rest := Lines(entries[..|entries| - 1]);
      var all := rest + [Listed(entries[|entries| - 1])];
      assert all[..|all| - 1] == rest;
      all
  }

  /** The listings a server may send: the session's numbering, ended by a line break; the same with a
      line too many; or nothing but line breaks. */
  predicate Listable(numbering: seq<Entry>, lines: seq<Line>) {
    || lines == Lines(numbering) + [Blank]
    || lines == Lines(numbering) + [Garbage, Blank]
    || (numbering != [] && lines == Lines(numbering) + [Listed(numbering[0]), Blank])
    || lines == [Blank, Blank]
  }

  lemma {:induction false} ListingStep(lines: seq<Line>, line: Line)
    ensures Listing(lines + [line]) == Listing(lines) + if line.Listed? then [line.entry] else []
  {
  }

  lemma {:induction false} EntryIsFine(numbering: seq<Entry>, lines: seq<Line>, k: nat)
    requires Numbering(numbering) && k < |numbering| <= |lines| && !Spaced(numbering[k].uidl)
    requires forall i :: 0 <= i < |numbering| ==> lines[i] == Listed(numbering[i])
    ensures Fine(lines, k)
  {
  }

  lemma {:induction false} TrueListingIsFine(numbering: seq<Entry>, lines: seq<Line>)
    requires Numbering(numbering) && (forall e :: e in numbering ==> !Spaced(e.uidl)) && lines == Lines(numbering) + [Blank]
    ensures AllFine(lines)
  {
    forall k | 0 <= k < |lines| ensures Fine(lines, k) {
      if k < |numbering| {
        assert numbering[k] in numbering;
        EntryIsFine(numbering, lines, k);
      }
    }
  }

  lemma {:induction false} OtherListingsFail(numbering: seq<Entry>, lines: seq<Line>)
    requires Listable(numbering, lines) && lines != Lines(numbering) + [Blank]
    ensures lines == [Blank, Blank] || (|numbering| < |lines| && !Fine(lines, |numbering|))
  {
    var n := |numbering|;
    if lines != [Blank, Blank] && lines[n] != Garbage {
      assert lines[0] == lines[n] && lines[0].Listed?;
    }
  }

  /** Of the answers a server may give, only the true listing parses, and it gives the numbering. */
  lemma {:induction false} TrueListingParses(numbering: seq<Entry>, lines: seq<Line>)
    requires Numbering(numbering) && (forall e :: e in numbering ==> !Spaced(e.uidl)) && Listable(numbering, lines)
    ensures AllFine(lines) && (Listing(lines) == [] ==> |lines| <= 1) <==> lines == Lines(numbering) + [Blank]
    ensures lines == Lines(numbering) + [Blank] ==> Listing(lines) == numbering
  {
    if lines == Lines(numbering) + [Blank] {
      TrueListingIsFine(numbering, lines);
      ListingStep(Lines(numbering), Blank);
    } else {
      OtherListingsFail(numbering, lines);
      ListingStep([], Blank);
      ListingStep([Blank], Blank);
      assert [Blank] + [Blank] == [Blank, Blank] && [] + [Blank] == [Blank];
    }
  }

  /** The numbering lists every message outside `rest` once. */
  ghost predicate ListsBut(entries: seq<Entry>, maildrop: Maildrop, rest: set<string>) {
    && Numbering(entries) && rest <= maildrop.Keys
    && (forall e :: e in entries ==> e.uidl in maildrop && e.uidl !in rest && e.number <= |entries|)
    && (forall u :: u in maildrop && u !in rest ==> exists e :: e in entries && e.uidl == u)
  }

  lemma {:induction false} ListsOneMore(entries: seq<Entry>, maildrop: Maildrop, rest: set<string>, u: string)
    requires ListsBut(entries, maildrop, rest) && u in rest
    ensures ListsBut(entries + [Entry(|entries| + 1, u)], maildrop, rest - {u})
  {
    var next := entries + [Entry(|entries| + 1, u)];
    forall i | 0 <= i < |entries| ensures next[i].number <= |entries| && next[i].uidl != u {
      assert entries[i] in entries;
    }
    forall v | v in maildrop && v !in rest - {u} ensures exists e :: e in next && e.uidl == v {
      if v == u {
        assert next[|entries|] in next;
      } else {
        var e :| e in entries && e.uidl == v;
        assert e in next;
      }
    }
  }

  method NumberMessages(maildrop: Maildrop) returns (entries: seq<Entry>)
    requires forall u :: u in maildrop ==> !Spaced(u)
    ensures Lists(entries, maildrop)
  {
    entries := [];
    var rest := maildrop.Keys;
    while rest != {}
      invariant ListsBut(entries, maildrop, rest)
      decreases rest
    {
      var u :| u in rest;
      ListsOneMore(entries, maildrop, rest, u);
      entries := entries + [Entry(|entries| + 1, u)];
      rest := rest - {u};
    }
  }

  class Server {
    /** A cooperative server answers every command, carries it out at once, and has no other clients. */
    const cooperative: bool
    var maildrop: Maildrop
    /** Every unique-id the maildrop has ever used. */
    var ever: set<string>
    /** A session is open; its numbering and what it has marked. */
    var inSession: bool
    var numbering: seq<Entry>
    var marked: set<string>
    /** Removals an UPDATE state still owes. */
    var owed: set<string>
    var events: seq<Event>

    /** Unique-ids are printable, and the numbering of a session lists the maildrop it holds. */
    ghost predicate Valid()
      reads this
    {
      && maildrop.Keys <= ever && (forall u :: u in ever ==> !Spaced(u))
      && (inSession ==> Lists(numbering, maildrop) && owed == {})
    }

    /** Another client has removed the message. */
    method Vanish(uidl: string)
      requires Valid() && !inSession
      modifies this`maildrop
      ensures Valid() && maildrop == old(maildrop) - {uidl}
    {
      maildrop := maildrop - {uidl};
    }

    /** Between sessions the removals still owed may be carried out, mail may arrive, and another client
        may remove the target. */
    method Between(uidl: string)
      requires Valid() && !inSession
      modifies this`maildrop, this`ever
      ensures Valid() && OnlyTouches(old(maildrop), old(ever), maildrop, owed + {uidl}) && old(ever) <= ever
      ensures cooperative && owed == {} ==> maildrop == old(maildrop)
    {
      var applied: bool, arrival: string, message: Bytes, remove: bool := *, *, *, *;
      if applied { maildrop := maildrop - owed; }
      if !cooperative && arrival !in ever && !HasSpace(arrival) {
        maildrop, ever := maildrop[arrival := message], ever + {arrival};
      }
      if !cooperative && remove { maildrop := maildrop - {uidl}; }
    }

    /** Greeting and authentication: needs the maildrop, so an earlier UPDATE has been settled. */
    method Open(uidl: string) returns (r: Reply<()>)
      requires Valid() && !inSession
      modifies this`maildrop, this`ever, this`inSession, this`numbering, this`marked, this`owed
      ensures Valid() && OnlyTouches(old(maildrop), old(ever), maildrop, old(owed) + {uidl}) && owed <= old(owed) && old(ever) <= ever
      ensures r.Got? <==> inSession
      ensures r.Got? ==> owed == {} && marked == {}
      ensures cooperative ==> r.Got? && (old(owed) == {} ==> maildrop == old(maildrop))
    {
      Between(uidl);
      var answered: bool := *;
      if answered || cooperative {
        inSession, marked, owed := true, {}, {};
        numbering := NumberMessages(maildrop);
        r := Got(());
      } else {
        r := Lost;
      }
    }

    /** The UIDL listing, or no answer. */
    method UidlLines() returns (r: Reply<seq<Line>>)
      requires Valid() && inSession
      ensures r.Got? ==> Listable(numbering, r.value)
      ensures cooperative ==> r == Got(Lines(numbering) + [Blank])
    {
      r := *;
      if cooperative {
        r := Got(Lines(numbering) + [Blank]);
      } else if r.Got? && !Listable(numbering, r.value) {
        r := Lost;
      }
    }

    method Retr(entry: Entry) returns (r: Reply<Bytes>)
      requires Valid() && inSession && entry in numbering
      ensures r.Got? ==> r.value == maildrop[entry.uidl]
      ensures cooperative ==> r.Got?
    {
      var answered: bool := *;
      r := if answered || cooperative then Got(maildrop[entry.uidl]) else Lost;
    }

    /** DELE marks; an acceptance means the mark is set, anything else leaves it open. */
    method Dele(entry: Entry) returns (r: Reply<()>)
      requires Valid() && inSession && entry in numbering
      modifies this`marked, this`events
      ensures Valid() && old(marked) <= marked <= old(marked) + {entry.uidl}
      ensures r.Got? ==> entry.uidl in marked
      ensures events == old(events) + [Deled(entry.uidl, r.Got?)]
      ensures cooperative ==> r.Got?
    {
      var outcome: Reply<()>, marks: bool := *, *;
      r := if cooperative then Got(()) else outcome;
      if marks || r.Got? { marked := marked + {entry.uidl}; }
      events := events + [Deled(entry.uidl, r.Got?)];
    }

    /** QUIT enters UPDATE.  Whatever the reply, the marks may be carried out now, owed, or dropped. */
    method Quit() returns (r: Reply<()>)
      requires Valid() && inSession
      modifies this`maildrop, this`inSession, this`marked, this`owed, this`events
      ensures Valid() && !inSession && OnlyTouches(old(maildrop), ever, maildrop, old(marked)) && owed <= old(marked)
      ensures events == old(events) + [Quitted]
      ensures cooperative ==> r.Got? && owed == {} && maildrop == old(maildrop) - old(marked)
    {
      var outcome: Reply<()>, now: bool, later: bool := *, *, *;
      if now || cooperative { maildrop := maildrop - marked; }
      owed := if later && !cooperative then marked else {};
      inSession, marked := false, {};
      events := events + [Quitted];
      r := if cooperative then Got(()) else outcome;
    }

    /** Closing the transport without QUIT: marks are forgotten and nothing is removed, now or later. */
    method Abort()
      requires Valid() && inSession
      modifies this`inSession, this`marked, this`events
      ensures Valid() && !inSession && owed == {} && events == old(events) + [Aborted]
    {
      inSession, marked := false, {};
      events := events + [Aborted];
    }

    /** The message is gone for good. */
    ghost predicate Gone(target: Target)
      reads this
    {
      target.uidl !in maildrop
    }

    /** The message is there byte for byte, and no removal of it is outstanding. */
    ghost predicate Untouched(target: Target)
      reads this
    {
      target.uidl in maildrop && Sha256(maildrop[target.uidl]) == target.digest && target.uidl !in owed
    }
  }

  /** The whole permitted conversation about one unique-id, as what one call appends to the events: no
      session, or a session closed without QUIT; or one DELE that was not accepted, closed without QUIT;
      or one accepted DELE and then QUIT.  After either DELE at most one read-only session follows,
      closed without QUIT. */
  ghost predicate Disciplined(before: seq<Event>, after: seq<Event>, uidl: string) {
    || after == before || after == before + [Aborted]
    || after == before + [Deled(uidl, false), Aborted] || after == before + [Deled(uidl, false), Aborted, Aborted]
    || after == before + [Deled(uidl, true), Quitted] || after == before + [Deled(uidl, true), Quitted, Aborted]
  }

  /** A DELE, its end, and a look, put together. */
  lemma {:induction false} OneDeleIsDisciplined(before: seq<Event>, uidl: string, accepted: bool, after: seq<Event>)
    requires var ended := before + [Deled(uidl, accepted)] + [if accepted then Quitted else Aborted];
             after == ended || after == ended + [Aborted]
    ensures Disciplined(before, after, uidl)
    ensures accepted && |after| == |before| + 3 ==> after == before + [Deled(uidl, true), Quitted, Aborted]
  {
  }

  class Adapter {
    const server: Server
    /** The account is enabled and this adapter's. */
    const configured: bool
    const hasPassword: bool

    constructor (server: Server, configured: bool, hasPassword: bool)
      ensures this.server == server && this.configured == configured && this.hasPassword == hasPassword
    {
      this.server, this.configured, this.hasPassword := server, configured, hasPassword;
    }

    ghost predicate Accepts(target: Target) {
      configured && target.uidl != "" && !Spaced(target.uidl)
    }

    /** The parsed listing of the open session. */
    method Uidls() returns (r: Reply<seq<Entry>>)
      requires server.Valid() && server.inSession
      ensures r.Got? ==> r.value == server.numbering
      ensures server.cooperative ==> r.Got?
    {
      var lines := server.UidlLines();
      if !lines.Got? { return Lost; }
      r := ParseUidls(lines.value);
      TrueListingParses(server.numbering, lines.value);
    }

    /** A fresh session that looks and closes without QUIT. */
    method ObserveUnlocked(target: Target) returns (state: Observation)
      requires server.Valid() && !server.inSession
      modifies server
      ensures server.Valid() && !server.inSession && server.owed <= old(server.owed)
      ensures OnlyTouches(old(server.maildrop), old(server.ever), server.maildrop, old(server.owed) + {target.uidl}) && old(server.ever) <= server.ever
      ensures server.events == old(server.events) || server.events == old(server.events) + [Aborted]
      ensures state == ObservedAbsent ==> server.Gone(target)
      ensures state == ObservedPresentMatch ==> server.Untouched(target)
      ensures server.cooperative && old(server.owed) == {} ==>
                && server.maildrop == old(server.maildrop) && server.owed == {} && server.events == old(server.events) + [Aborted]
                && state == if target.uidl !in server.maildrop then ObservedAbsent
                            else if Sha256(server.maildrop[target.uidl]) == target.digest then ObservedPresentMatch
                            else ObservedConflict
    {
      var session := server.Open(target.uidl);
      if !session.Got? { return ObservedUnknown; }
      var listing := Uidls();
      if listing.Conflict? {
        state := ObservedConflict;
      } else if !listing.Got? {
        state := ObservedUnknown;
      } else {
        var number := NumberOf(listing.value, target.uidl);
        if number.None? {
          state := ObservedAbsent;
        } else {
          var raw := server.Retr(Entry(number.value, target.uidl));
          state := if !raw.Got? then ObservedUnknown
                   else if Sha256(raw.value) == target.digest then ObservedPresentMatch else ObservedConflict;
        }
      }
      server.Abort();
    }

    /** The look that decides an attempt. */
    method Resolve(target: Target) returns (result: MutationResult)
      requires server.Valid() && !server.inSession
      modifies server
      ensures server.Valid() && !server.inSession && server.owed <= old(server.owed)
      ensures OnlyTouches(old(server.maildrop), old(server.ever), server.maildrop, old(server.owed) + {target.uidl}) && old(server.ever) <= server.ever
      ensures server.events == old(server.events) || server.events == old(server.events) + [Aborted]
      ensures || result == Uncertain()
              || (result == Success() && server.Gone(target))
              || (result == Failure(ProviderRejected) && server.Untouched(target))
      ensures server.cooperative && old(server.owed) == {} ==>
                && server.maildrop == old(server.maildrop) && server.owed == {} && server.events == old(server.events) + [Aborted]
                && (target.uidl !in server.maildrop ==> result == Success())
    {
      var state := ObserveUnlocked(target);
      result := match state
        case ObservedAbsent => Success()
        case ObservedPresentMatch => Failure(ProviderRejected)
        case _ => Uncertain();
    }

    /** Everything before the DELE, in an open session: a verdict, or the entry to delete. */
    method Inspect(target: Target) returns (verdict: Option<MutationResult>, entry: Entry)
      requires server.Valid() && server.inSession
      ensures verdict.Some? ==> verdict.value in {Success(), Failure(ProviderRejected), Failure(IdentityMismatch)}
      ensures verdict == Some(Failure(IdentityMismatch)) ==> target.uidl in server.maildrop && Sha256(server.maildrop[target.uidl]) != target.digest
      ensures verdict.Some? && verdict.value.outcome == SuccessConfirmed ==> server.Gone(target)
      ensures verdict.None? ==> entry in server.numbering && entry.uidl == target.uidl && Sha256(server.maildrop[target.uidl]) == target.digest
      ensures server.cooperative ==>
                verdict == if target.uidl !in server.maildrop then Some(Success())
                           else if Sha256(server.maildrop[target.uidl]) != target.digest then Some(Failure(IdentityMismatch))
                           else None
    {
      entry := Entry(0, target.uidl);
      var listing := Uidls();
      if !listing.Got? { return Some(Failure(ProviderRejected)), entry; }
      var number := NumberOf(listing.value, target.uidl);
      if number.None? { return Some(Success()), entry; }
      entry := Entry(number.value, target.uidl);
      var raw := server.Retr(entry);
      if !raw.Got? { return Some(Failure(ProviderRejected)), entry; }
      if Sha256(raw.value) != target.digest { return Some(Failure(IdentityMismatch)), entry; }
      return None, entry;
    }

    /** The DELE and, only if it was accepted, the QUIT; then the look that decides. */
    method DeleteAndCommit(target: Target, entry: Entry) returns (result: MutationResult)
      requires server.Valid() && server.inSession && server.marked == {}
      requires entry in server.numbering && entry.uidl == target.uidl
      modifies server
      ensures server.Valid() && !server.inSession
      ensures OnlyTouches(old(server.maildrop), old(server.ever), server.maildrop, {target.uidl}) && old(server.ever) <= server.ever
      ensures Disciplined(old(server.events), server.events, target.uidl) && |server.events| >= |old(server.events)| + 2
      ensures || result == Uncertain()
              || (result == Success() && server.Gone(target))
              || (result == Failure(ProviderRejected) && server.Untouched(target))
      ensures server.cooperative ==>
                && result == Success() && server.maildrop == old(server.maildrop) - {target.uidl}
                && server.events == old(server.events) + [Deled(target.uidl, true), Quitted, Aborted]
    {
      var accepted := server.Dele(entry);
      if !accepted.Got? {
        server.Abort();
      } else {
        var committed := server.Quit();
      }
      ghost var middle, ever, owed := server.maildrop, server.ever, server.owed;
      result := Resolve(target);
      OneDeleIsDisciplined(old(server.events), target.uidl, accepted.Got?, server.events);
      OnlyTouchesTransitive(old(server.maildrop), old(server.ever), middle, ever, server.maildrop, owed + {target.uidl}, {target.uidl});
    }

    /** One deletion attempt.  Success means the message is gone; a confirmed failure means that no DELE
        was sent, or that the message is there byte for byte with no removal outstanding; the outcome is
        unknown only if a DELE was sent.  QUIT is sent only after an accepted DELE.  A cooperative server carries the deletion out exactly when the
        message is there and byte-equal. */
    method Delete(target: Target, lockFree: bool) returns (result: MutationResult)
      requires server.Valid() && !server.inSession
      modifies server
      ensures server.Valid() && !server.inSession
      ensures OnlyTouches(old(server.maildrop), old(server.ever), server.maildrop, old(server.owed) + {target.uidl}) && old(server.ever) <= server.ever
      ensures Disciplined(old(server.events), server.events, target.uidl)
      ensures result.outcome == SuccessConfirmed ==> server.Gone(target)
      ensures result.outcome == FailureConfirmedNoMutation ==>
                || server.events == old(server.events) || server.events == old(server.events) + [Aborted]
                || server.Untouched(target)
      ensures server.events == old(server.events) || server.events == old(server.events) + [Aborted] ==> result.outcome != OutcomeUnknown
      ensures Coherent(result)
      ensures !Accepts(target) || !hasPassword ==> server.events == old(server.events) && result == Failure(IdentityMismatch)
      ensures Accepts(target) && hasPassword && !lockFree ==> server.events == old(server.events) && result == Failure(RemoteStateConflict)
      ensures Accepts(target) && hasPassword && lockFree ==>
                result in {Success(), Failure(ProviderRejected), Failure(IdentityMismatch), Uncertain()}
      ensures Accepts(target) && hasPassword && lockFree && result == Failure(IdentityMismatch) ==>
                target.uidl in server.maildrop && Sha256(server.maildrop[target.uidl]) != target.digest
      ensures server.cooperative && Accepts(target) && hasPassword && lockFree && old(server.owed) == {} ==>
                var m := old(server.maildrop);
                if target.uidl in m && Sha256(m[target.uidl]) == target.digest then
                  && result == Success() && server.maildrop == m - {target.uidl}
                  && server.events == old(server.events) + [Deled(target.uidl, true), Quitted, Aborted]
                else
                  && result == (if target.uidl in m then Failure(IdentityMismatch) else Success())
                  && server.maildrop == m && server.events == old(server.events) + [Aborted]
    {
      if !configured || target.uidl == "" || HasSpace(target.uidl) || !hasPassword { return Failure(IdentityMismatch); }
      if !lockFree { return Failure(RemoteStateConflict); }
      var session := server.Open(target.uidl);
      if !session.Got? { return Failure(ProviderRejected); }
      var verdict, entry := Inspect(target);
      if verdict.Some? {
        server.Abort();
        return verdict.value;
      }
      ghost var middle, ever := server.maildrop, server.ever;
      result := DeleteAndCommit(target, entry);
      OnlyTouchesTransitive(old(server.maildrop), old(server.ever), middle, ever, server.maildrop, {target.uidl}, old(server.owed) + {target.uidl});
    }

    /** Read-only proof about one unique-id. */
    method Observe(target: Target, lockFree: bool) returns (state: Observation)
      requires server.Valid() && !server.inSession
      modifies server
      ensures server.Valid() && !server.inSession
      ensures OnlyTouches(old(server.maildrop), old(server.ever), server.maildrop, old(server.owed) + {target.uidl}) && old(server.ever) <= server.ever
      ensures server.events == old(server.events) || server.events == old(server.events) + [Aborted]
      ensures state == ObservedAbsent ==> server.Gone(target)
      ensures state == ObservedPresentMatch ==> server.Untouched(target)
      ensures !Accepts(target) ==> state == ObservedConflict && server.events == old(server.events)
      ensures Accepts(target) && (!hasPassword || !lockFree) ==> state == ObservedUnknown && server.events == old(server.events)
      ensures server.cooperative && Accepts(target) && hasPassword && lockFree && old(server.owed) == {} ==>
                && server.maildrop == old(server.maildrop) && server.owed == {} && server.events == old(server.events) + [Aborted]
                && state == if target.uidl !in server.maildrop then ObservedAbsent
                            else if Sha256(server.maildrop[target.uidl]) == target.digest then ObservedPresentMatch
                            else ObservedConflict
    {
      if !configured || target.uidl == "" || HasSpace(target.uidl) { return ObservedConflict; }
      if !hasPassword || !lockFree { return ObservedUnknown; }
      state := ObserveUnlocked(target);
    }
  }
}
