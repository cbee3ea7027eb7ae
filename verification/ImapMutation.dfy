/** The IMAP deletion adapter (imap_mutation.py) against a UIDPLUS server that may lose any reply.

    The server follows RFC 3501 section 2.3.1.1 (UIDs are never reused under one UIDVALIDITY, and a
    message's bytes never change) and RFC 4315 section 2.1 (UID EXPUNGE removes only messages in the
    set that carry \Deleted).  A command may or may not take effect whatever its reply says, other
    clients may flag, unflag or remove the target at any time, and between sessions the mailbox may be
    recreated under a new UIDVALIDITY. */
module ImapMutation {
  import opened Base
  import opened Verdicts

  datatype Message = Message(raw: Bytes, deleted: bool)

  /** `Lost` stands for every exception a command can raise, including an unusable response. */
  datatype Reply<+T> = Got(value: T) | Refused | Lost

  datatype Event =
    | Fetched(uid: nat, found: Option<Message>)
    | Stored(uid: nat)
    | Expunged(uid: nat)

  datatype Target = Target(uidvalidity: nat, uid: nat, digest: Digest)

  type Mailbox = map<nat, Message>

  function Lookup(mailbox: Mailbox, uid: nat): Option<Message> {
    if uid in mailbox then Some(mailbox[uid]) else None
  }

  /** Bytes are those of the archived object and nobody has marked the message for deletion. */
  ghost predicate Clean(found: Option<Message>, digest: Digest) {
    found.Some? && Sha256(found.value.raw) == digest && !found.value.deleted
  }

  /** How a mailbox may change under commands and clients that touch only `uid`: mail may arrive, other
      messages keep their bytes and flags, and `uid` keeps its bytes and never comes back. */
  ghost predicate OnlyTouches(before: Mailbox, after: Mailbox, uid: nat) {
    && (forall u :: u in before && u != uid ==> u in after && after[u] == before[u])
    && (uid in after ==> uid in before && after[uid].raw == before[uid].raw)
  }

  lemma {:induction false} OnlyTouchesTransitive(a: Mailbox, b: Mailbox, c: Mailbox, uid: nat)
    requires OnlyTouches(a, b, uid) && OnlyTouches(b, c, uid)
    ensures OnlyTouches(a, c, uid)
  {
  }

  /** The mutating commands of an event log, in order. */
  function Mutations(events: seq<Event>): seq<Event> {
    if events == [] then []
    else Mutations(events[..|events| - 1]) + if events[|events| - 1].Fetched? then [] else [events[|events| - 1]]
  }

  lemma {:induction false} MutationsStep(events: seq<Event>, e: Event)
    ensures Mutations(events + [e]) == Mutations(events) + if e.Fetched? then [] else [e]
  {
  }

  /** The whole permitted conversation about one target, from log `before` to log `after`: nothing
      mutating; or one STORE, sent directly after a fetch that showed the archived bytes unflagged; or
      that STORE and then one EXPUNGE. */
  ghost predicate Disciplined(before: seq<Event>, after: seq<Event>, target: Target) {
    && before <= after
    && (|| Mutations(after) == Mutations(before)
        || Mutations(after) == Mutations(before) + [Stored(target.uid)]
        || Mutations(after) == Mutations(before) + [Stored(target.uid), Expunged(target.uid)])
    && (forall k :: |before| <= k < |after| && after[k].Stored? ==>
          k > |before| && after[k - 1].Fetched? && after[k - 1].uid == target.uid && Clean(after[k - 1].found, target.digest))
  }

  /** A STORE straight after a clean sighting, followed by fetches and at most one EXPUNGE. */
  lemma {:induction false} OneStoreIsDisciplined(before: seq<Event>, sighted: seq<Event>, after: seq<Event>, target: Target)
    requires before <= sighted && |sighted| == |before| + 1 && Mutations(sighted) == Mutations(before)
    requires sighted[|before|].Fetched? && sighted[|before|].uid == target.uid && Clean(sighted[|before|].found, target.digest)
    requires sighted + [Stored(target.uid)] <= after
    requires forall k :: |sighted| < k < |after| ==> !after[k].Stored?
    requires || Mutations(after) == Mutations(before) + [Stored(target.uid)]
             || Mutations(after) == Mutations(before) + [Stored(target.uid), Expunged(target.uid)]
    ensures Disciplined(before, after, target)
  {
    assert after[|before|] == sighted[|before|];
  }

  class Server {
    /** A cooperative server answers every command, carries it out, and has no other clients.  Only the
        second request for the UIDVALIDITY of one session may still go unanswered. */
    const cooperative: bool
    /** UID EXPUNGE is supported. */
    const uidplus: bool
    var uidvalidity: nat
    var mailbox: Mailbox
    var events: seq<Event>
    /** SELECT has delivered a UIDVALIDITY that has not been read yet. */
    var announced: bool
    /** A session is logged in, and has a folder open; nothing can be looked at or changed without one. */
    var connected: bool
    var selected: bool

    constructor (cooperative: bool, uidplus: bool, uidvalidity: nat, mailbox: Mailbox)
      ensures this.cooperative == cooperative && this.uidplus == uidplus && this.uidvalidity == uidvalidity && this.mailbox == mailbox && events == []
    {
      this.cooperative, this.uidplus, this.uidvalidity, this.mailbox := cooperative, uidplus, uidvalidity, mailbox;
      this.events, this.announced, this.connected, this.selected := [], false, false, false;
    }

    /** Other clients, at any moment: mail may arrive, and the target may be flagged, unflagged or removed. */
    method Others(uid: nat)
      modifies this`mailbox
      ensures OnlyTouches(old(mailbox), mailbox, uid)
      ensures cooperative ==> mailbox == old(mailbox)
    {
      var arrival: nat, message: Message, remove: bool, flag: bool := *, *, *, *;
      if !cooperative {
        if arrival !in mailbox && arrival != uid {
          mailbox := mailbox[arrival := message];
        }
        if uid in mailbox {
          mailbox := if remove then mailbox - {uid} else mailbox[uid := mailbox[uid].(deleted := flag)];
        }
      }
    }

    /** Another client has removed the message. */
    method Vanish(uid: nat)
      modifies this`mailbox
      ensures mailbox == old(mailbox) - {uid}
    {
      mailbox := mailbox - {uid};
    }

    /** Connection and login. */
    method Connect() returns (r: Reply<()>)
      modifies this`connected, this`selected
      ensures cooperative ==> r == Got(())
      ensures !selected && (connected <==> r.Got?)
    {
      r, selected := *, false;
      if cooperative { r := Got(()); }
      connected := r.Got?;
    }

    /** SELECT, which fixes the namespace of the session.  Before it the mailbox may have been
        recreated, which a server has to show by a larger UIDVALIDITY. */
    method Select(uid: nat) returns (r: Reply<()>)
      requires connected
      modifies this`mailbox, this`uidvalidity, this`announced, this`selected
      ensures selected <==> r.Got?
      ensures uidvalidity >= old(uidvalidity)
      ensures uidvalidity == old(uidvalidity) ==> OnlyTouches(old(mailbox), mailbox, uid)
      ensures cooperative ==> r == Got(()) && announced && mailbox == old(mailbox) && uidvalidity == old(uidvalidity)
    {
      var recreated: bool, jump: nat, replacement: Mailbox, outcome: Reply<()> := *, *, *, *;
      if recreated && !cooperative {
        uidvalidity, mailbox := uidvalidity + jump + 1, replacement;
      } else {
        Others(uid);
      }
      r, announced := if cooperative then Got(()) else outcome, true;
      selected := r.Got?;
    }

    method Capability() returns (r: Reply<bool>)
      requires connected
      ensures r.Got? ==> r.value == uidplus
      ensures cooperative ==> r.Got?
    {
      r := *;
      if cooperative || r.Got? { r := Got(uidplus); }
    }

    /** The UIDVALIDITY of the selected mailbox; the response may be unavailable on a later ask. */
    method AskUidValidity() returns (r: Reply<nat>)
      requires selected
      modifies this`announced
      ensures r.Got? ==> r.value == uidvalidity
      ensures cooperative && old(announced) ==> r.Got?
    {
      var answered: bool := *;
      r := if answered || (cooperative && announced) then Got(uidvalidity) else Lost;
      announced := false;
    }

    /** UID FETCH of one message: what is answered is what was there. */
    method Fetch(uid: nat) returns (r: Reply<Option<Message>>)
      requires selected
      modifies this`mailbox, this`events
      ensures OnlyTouches(old(mailbox), mailbox, uid)
      ensures events == old(events) + [Fetched(uid, Lookup(mailbox, uid))]
      ensures r.Got? ==> r.value == Lookup(mailbox, uid)
      ensures cooperative ==> r.Got? && mailbox == old(mailbox)
    {
      Others(uid);
      events := events + [Fetched(uid, Lookup(mailbox, uid))];
      var answered: bool := *;
      r := if answered || cooperative then Got(Lookup(mailbox, uid)) else Lost;
    }

    /** UID STORE +FLAGS.SILENT (\Deleted): reply and effect are independent. */
    method Store(uid: nat) returns (r: Reply<()>)
      requires selected
      modifies this`mailbox, this`events
      ensures OnlyTouches(old(mailbox), mailbox, uid)
      ensures events == old(events) + [Stored(uid)]
      ensures cooperative && uid in old(mailbox) ==>
                r == Got(()) && mailbox == old(mailbox)[uid := old(mailbox)[uid].(deleted := true)]
    {
      Others(uid);
      events := events + [Stored(uid)];
      var applied: bool, outcome: Reply<()> := *, *;
      if (applied || cooperative) && uid in mailbox {
        mailbox := mailbox[uid := mailbox[uid].(deleted := true)];
      }
      r := if cooperative then Got(()) else outcome;
    }

    /** UID EXPUNGE: removes the message only if it is flagged; reply and effect are independent. */
    method Expunge(uid: nat) returns (r: Reply<()>)
      requires selected
      modifies this`mailbox, this`events
      ensures OnlyTouches(old(mailbox), mailbox, uid)
      ensures events == old(events) + [Expunged(uid)]
      ensures cooperative && uid in old(mailbox) && old(mailbox)[uid].deleted ==> r == Got(()) && mailbox == old(mailbox) - {uid}
    {
      Others(uid);
      events := events + [Expunged(uid)];
      var applied: bool, outcome: Reply<()> := *, *;
      if (applied || cooperative) && uid in mailbox && mailbox[uid].deleted {
        mailbox := mailbox - {uid};
      }
      r := if cooperative then Got(()) else outcome;
    }

    /** The target's namespace is still the folder's, and its UID is unused there, for ever. */
    ghost predicate Gone(target: Target)
      reads this
    {
      uidvalidity == target.uidvalidity && target.uid !in mailbox
    }

    /** The target is there, byte for byte, and unflagged. */
    ghost predicate Untouched(target: Target)
      reads this
    {
      uidvalidity == target.uidvalidity && Clean(Lookup(mailbox, target.uid), target.digest)
    }
  }

  /** What comes of the events before a STORE: a verdict on what the one look showed in the target's own
      namespace `v`, or none if it showed the archived bytes unflagged; whatever fails is a rejection. */
  ghost predicate Judged(shown: seq<Event>, v: nat, target: Target, verdict: Option<MutationResult>) {
    && (shown == [] || (|shown| == 1 && shown[0].Fetched? && shown[0].uid == target.uid && v == target.uidvalidity))
    && (verdict == Some(Failure(ProviderRejected))
        || if shown == [] then v != target.uidvalidity && verdict == Some(Failure(IdentityMismatch))
           else
             verdict == match shown[0].found
                        case None => Some(Success())
                        case Some(message) =>
                          if Sha256(message.raw) != target.digest then Some(Failure(IdentityMismatch))
                          else if message.deleted then Some(Failure(RemoteStateConflict))
                          else None)
  }

  class Adapter {
    const server: Server
    /** The account is enabled, is this adapter's, and has the folder configured. */
    const configured: bool
    const hasPassword: bool

    constructor (server: Server, configured: bool, hasPassword: bool)
      ensures this.server == server && this.configured == configured && this.hasPassword == hasPassword
    {
      this.server, this.configured, this.hasPassword := server, configured, hasPassword;
    }

    ghost predicate Valid(target: Target) {
      configured && target.uidvalidity > 0 && target.uid > 0
    }

    /** Everything a call may have done to the server: only the target was touched, and it keeps its bytes. */
    twostate predicate Respectful(target: Target)
      reads server
    {
      && server.uidvalidity >= old(server.uidvalidity)
      && (server.uidvalidity == old(server.uidvalidity) ==> OnlyTouches(old(server.mailbox), server.mailbox, target.uid))
    }

    method SameNamespace(target: Target) returns (r: Reply<bool>)
      requires server.selected
      modifies server`announced
      ensures server.cooperative && old(server.announced) ==> r.Got?
      ensures r.Got? ==> r.value == (server.uidvalidity == target.uidvalidity)
    {
      var asked := server.AskUidValidity();
      r := match asked case Got(v) => Got(v == target.uidvalidity) case _ => Lost;
    }

    /** After a STORE without a usable answer: only a clean sighting proves that nothing happened, and on
        a cooperative server that still names the namespace it is made and reported. */
    method CleanOrUnknown(target: Target) returns (result: MutationResult)
      requires server.selected
      modifies server`mailbox, server`events, server`announced
      ensures OnlyTouches(old(server.mailbox), server.mailbox, target.uid)
      ensures old(server.events) <= server.events && Mutations(server.events) == old(Mutations(server.events))
      ensures forall k :: |old(server.events)| <= k < |server.events| ==> server.events[k].Fetched?
      ensures result == Uncertain() || (result == Failure(ProviderRejected) && server.Untouched(target))
      ensures server.cooperative ==>
                && server.mailbox == old(server.mailbox)
                && (old(server.announced) && server.uidvalidity == target.uidvalidity ==> server.events != old(server.events))
                && (server.events != old(server.events) ==>
                      result == if server.Untouched(target) then Failure(ProviderRejected) else Uncertain())
    {
      result := Uncertain();
      var same := SameNamespace(target);
      if same == Got(true) {
        var observed := server.Fetch(target.uid);
        MutationsStep(old(server.events), Fetched(target.uid, Lookup(server.mailbox, target.uid)));
        if observed.Got? && observed.value.Some? && Sha256(observed.value.value.raw) == target.digest && !observed.value.value.deleted {
          result := Failure(ProviderRejected);
        }
      }
    }

    /** One look at the target in an open session, as a verdict; `Lost` if it could not be made. */
    method Look(target: Target) returns (verdict: Reply<MutationResult>)
      requires server.selected
      modifies server`mailbox, server`events, server`announced
      ensures OnlyTouches(old(server.mailbox), server.mailbox, target.uid)
      ensures old(server.events) <= server.events && Mutations(server.events) == old(Mutations(server.events))
      ensures forall k :: |old(server.events)| <= k < |server.events| ==> server.events[k].Fetched?
      ensures verdict.Got? ==>
                || verdict.value == Uncertain()
                || (verdict.value == Success() && server.Gone(target))
                || (verdict.value == Failure(ProviderRejected) && server.Untouched(target))
      ensures server.cooperative ==> server.mailbox == old(server.mailbox) && (old(server.announced) ==> verdict.Got?)
      ensures server.cooperative && server.uidvalidity == target.uidvalidity && target.uid !in server.mailbox && verdict.Got? ==>
                verdict.value == Success()
    {
      var same := SameNamespace(target);
      if !same.Got? { return Lost; }
      if !same.value { return Got(Uncertain()); }
      var observed := server.Fetch(target.uid);
      MutationsStep(old(server.events), Fetched(target.uid, Lookup(server.mailbox, target.uid)));
      if !observed.Got? { return Lost; }
      if observed.value.None? { return Got(Success()); }
      var found := observed.value.value;
      return Got(if Sha256(found.raw) == target.digest && !found.deleted then Failure(ProviderRejected) else Uncertain());
    }

    /** Resolves an EXPUNGE without ever sending a second one: the same session first, then, if that
        session cannot answer, a fresh read-only one. */
    method AfterExpunge(target: Target) returns (result: MutationResult)
      requires server.selected
      modifies server
      ensures Respectful(target)
      ensures old(server.events) <= server.events && Mutations(server.events) == old(Mutations(server.events))
      ensures forall k :: |old(server.events)| <= k < |server.events| ==> server.events[k].Fetched?
      ensures || result == Uncertain()
              || (result == Success() && server.Gone(target))
              || (result == Failure(ProviderRejected) && server.Untouched(target))
      ensures server.cooperative && old(server.uidvalidity) == target.uidvalidity && target.uid !in old(server.mailbox) ==>
                result == Success() && server.mailbox == old(server.mailbox) && server.uidvalidity == old(server.uidvalidity)
    {
      var verdict := Look(target);
      if verdict.Got? { return verdict.value; }
      ghost var middle := server.mailbox;
      var session := server.Connect();
      if !session.Got? { return Uncertain(); }
      session := server.Select(target.uid);
      if server.uidvalidity == old(server.uidvalidity) {
        OnlyTouchesTransitive(old(server.mailbox), middle, server.mailbox, target.uid);
      }
      if !session.Got? { return Uncertain(); }
      middle := server.mailbox;
      verdict := Look(target);
      if server.uidvalidity == old(server.uidvalidity) {
        OnlyTouchesTransitive(old(server.mailbox), middle, server.mailbox, target.uid);
      }
      return if verdict.Got? then verdict.value else Uncertain();
    }

    /** Composes the opening of a session, which may change the namespace, with later touches. */
    lemma {:induction false} AfterSelect(v: nat, a: Mailbox, b: Mailbox, w: nat, c: Mailbox, uid: nat)
      requires w == v ==> OnlyTouches(a, b, uid)
      requires OnlyTouches(b, c, uid)
      ensures w == v ==> OnlyTouches(a, c, uid)
    {
    }

    /** The look that follows an acknowledged EXPUNGE. */
    method ConfirmGone(target: Target) returns (gone: bool)
      requires server.selected
      modifies server`mailbox, server`events, server`announced
      ensures OnlyTouches(old(server.mailbox), server.mailbox, target.uid)
      ensures old(server.events) <= server.events && Mutations(server.events) == old(Mutations(server.events))
      ensures forall k :: |old(server.events)| <= k < |server.events| ==> server.events[k].Fetched?
      ensures gone ==> server.Gone(target)
      ensures server.cooperative ==> server.mailbox == old(server.mailbox)
    {
      var same := SameNamespace(target);
      if same != Got(true) { return false; }
      var observed := server.Fetch(target.uid);
      MutationsStep(old(server.events), Fetched(target.uid, Lookup(server.mailbox, target.uid)));
      gone := observed.Got? && observed.value.None?;
    }

    /** The EXPUNGE and its confirmation, after a STORE the server acknowledged. */
    method ExpungeAndConfirm(target: Target) returns (result: MutationResult)
      requires server.selected
      modifies server
      ensures Respectful(target)
      ensures old(server.events) + [Expunged(target.uid)] <= server.events
      ensures Mutations(server.events) == old(Mutations(server.events)) + [Expunged(target.uid)]
      ensures forall k :: |old(server.events)| < k < |server.events| ==> server.events[k].Fetched?
      ensures result == Uncertain() || (result == Success() && server.Gone(target)) || (result == Failure(ProviderRejected) && server.Untouched(target))
      ensures server.cooperative && old(server.uidvalidity) == target.uidvalidity
                && target.uid in old(server.mailbox) && old(server.mailbox)[target.uid].deleted ==>
                  result == Success() && server.mailbox == old(server.mailbox) - {target.uid} && server.uidvalidity == old(server.uidvalidity)
    {
      var expunged := server.Expunge(target.uid);
      MutationsStep(old(server.events), Expunged(target.uid));
      ghost var removed := server.mailbox;
      if expunged.Got? {
        var gone := ConfirmGone(target);
        OnlyTouchesTransitive(old(server.mailbox), removed, server.mailbox, target.uid);
        if gone { return Success(); }
        removed := server.mailbox;
      }
      result := AfterExpunge(target);
      ThenLater(server.uidvalidity == old(server.uidvalidity), old(server.mailbox), removed, server.mailbox, target.uid);
    }

    lemma {:induction false} ThenLater(sameNamespace: bool, a: Mailbox, b: Mailbox, c: Mailbox, uid: nat)
      requires OnlyTouches(a, b, uid)
      requires sameNamespace ==> OnlyTouches(b, c, uid)
      ensures sameNamespace ==> OnlyTouches(a, c, uid)
    {
    }

    /** The two mutating commands, reached only from a clean sighting. */
    method StoreAndExpunge(target: Target, ghost before: seq<Event>) returns (result: MutationResult)
      requires server.selected
      requires before <= server.events && |server.events| == |before| + 1
      requires server.events[|before|].Fetched? && server.events[|before|].uid == target.uid
      requires Clean(server.events[|before|].found, target.digest)
      requires Mutations(server.events) == Mutations(before)
      modifies server
      ensures Respectful(target)
      ensures Disciplined(before, server.events, target) && |Mutations(server.events)| > |Mutations(before)|
      ensures result == Uncertain() || (result == Success() && server.Gone(target)) || (result == Failure(ProviderRejected) && server.Untouched(target))
      ensures server.cooperative && old(server.uidvalidity) == target.uidvalidity && target.uid in old(server.mailbox) ==>
                && result == Success() && server.uidvalidity == old(server.uidvalidity)
                && server.mailbox == old(server.mailbox) - {target.uid}
                && Mutations(server.events) == old(Mutations(server.events)) + [Stored(target.uid), Expunged(target.uid)]
    {
      var stored := server.Store(target.uid);
      MutationsStep(old(server.events), Stored(target.uid));
      ghost var flagged := server.mailbox;
      if !stored.Got? {
        result := CleanOrUnknown(target);
      } else {
        result := ExpungeAndConfirm(target);
      }
      ThenLater(server.uidvalidity == old(server.uidvalidity), old(server.mailbox), flagged, server.mailbox, target.uid);
      OneStoreIsDisciplined(before, old(server.events), server.events, target);
    }

    /** Read-only proof about one UID. */
    method Observe(target: Target, lockFree: bool) returns (state: Observation)
      modifies server
      ensures Respectful(target) && Mutations(server.events) == old(Mutations(server.events))
      ensures state == ObservedAbsent ==> server.Gone(target)
      ensures state == ObservedPresentMatch ==> server.Untouched(target)
      ensures !Valid(target) ==> state == ObservedConflict && server.events == old(server.events)
      ensures Valid(target) && (!hasPassword || !lockFree) ==> state == ObservedUnknown && server.events == old(server.events)
      ensures server.cooperative && Valid(target) && hasPassword && lockFree ==>
                && server.mailbox == old(server.mailbox) && server.uidvalidity == old(server.uidvalidity)
                && state == if server.uidvalidity != target.uidvalidity then ObservedConflict
                            else if target.uid !in server.mailbox then ObservedAbsent
                            else if server.Untouched(target) then ObservedPresentMatch else ObservedConflict
    {
      if !configured || target.uidvalidity == 0 || target.uid == 0 { return ObservedConflict; }
      if !hasPassword || !lockFree { return ObservedUnknown; }
      var session := server.Connect();
      if !session.Got? { return ObservedUnknown; }
      session := server.Select(target.uid);
      if !session.Got? { return ObservedUnknown; }
      ghost var selected := server.mailbox;
      var same := SameNamespace(target);
      if !same.Got? { return ObservedUnknown; }
      if !same.value { return ObservedConflict; }
      var observed := server.Fetch(target.uid);
      MutationsStep(old(server.events), Fetched(target.uid, Lookup(server.mailbox, target.uid)));
      AfterSelect(old(server.uidvalidity), old(server.mailbox), selected, server.uidvalidity, server.mailbox, target.uid);
      if !observed.Got? { return ObservedUnknown; }
      if observed.value.None? { return ObservedAbsent; }
      if observed.value.value.deleted { return ObservedConflict; }
      return if Sha256(observed.value.value.raw) == target.digest then ObservedPresentMatch else ObservedConflict;
    }

    /** The look before the STORE, in a session with the folder open. */
    method Examine(target: Target) returns (verdict: Option<MutationResult>)
      requires server.selected
      modifies server`mailbox, server`events, server`announced
      ensures OnlyTouches(old(server.mailbox), server.mailbox, target.uid)
      ensures old(server.events) <= server.events && Mutations(server.events) == old(Mutations(server.events))
      ensures Judged(server.events[|old(server.events)|..], server.uidvalidity, target, verdict)
      ensures verdict == Some(Success()) ==> server.Gone(target)
      ensures server.cooperative ==>
                && server.mailbox == old(server.mailbox)
                && (old(server.announced) ==>
                      server.events[|old(server.events)|..] ==
                      if server.uidvalidity != target.uidvalidity then [] else [Fetched(target.uid, Lookup(server.mailbox, target.uid))])
                && (old(server.announced) ==> verdict != Some(Failure(ProviderRejected)))
    {
      var same := SameNamespace(target);
      if !same.Got? { return Some(Failure(ProviderRejected)); }
      if !same.value { return Some(Failure(IdentityMismatch)); }
      var observed := server.Fetch(target.uid);
      MutationsStep(old(server.events), Fetched(target.uid, Lookup(server.mailbox, target.uid)));
      if !observed.Got? { return Some(Failure(ProviderRejected)); }
      if observed.value.None? { return Some(Success()); }
      if Sha256(observed.value.value.raw) != target.digest { return Some(Failure(IdentityMismatch)); }
      if observed.value.value.deleted { return Some(Failure(RemoteStateConflict)); }
      return None;
    }

    /** Everything before the STORE: a verdict, or none if the archived bytes were seen unflagged. */
    method Inspect(target: Target, lockFree: bool) returns (verdict: Option<MutationResult>)
      modifies server
      ensures Respectful(target)
      ensures old(server.events) <= server.events && Mutations(server.events) == old(Mutations(server.events))
      ensures if !Valid(target) then verdict == Some(Failure(IdentityMismatch)) && server.events == old(server.events)
              else if !hasPassword || !lockFree then verdict == Some(Failure(ProviderRejected)) && server.events == old(server.events)
              else if verdict == Some(Failure(SafeDeleteUnsupported)) || !server.uidplus then
                verdict in {Some(Failure(SafeDeleteUnsupported)), Some(Failure(ProviderRejected))} && server.events == old(server.events)
              else Judged(server.events[|old(server.events)|..], server.uidvalidity, target, verdict)
      ensures verdict.None? ==> server.selected
      ensures verdict == Some(Success()) ==> server.Gone(target)
      ensures server.cooperative && Valid(target) && hasPassword && lockFree ==> Foreseen(target, verdict)
    {
      if !configured || target.uidvalidity == 0 || target.uid == 0 { return Some(Failure(IdentityMismatch)); }
      if !hasPassword || !lockFree { return Some(Failure(ProviderRejected)); }
      var session := server.Connect();
      if !session.Got? { return Some(Failure(ProviderRejected)); }
      var supported := server.Capability();
      if supported == Got(false) || supported.Refused? { return Some(Failure(SafeDeleteUnsupported)); }
      if supported.Lost? { return Some(Failure(ProviderRejected)); }
      session := server.Select(target.uid);
      if !session.Got? { return Some(Failure(ProviderRejected)); }
      ghost var selected := server.mailbox;
      verdict := Examine(target);
      AfterSelect(old(server.uidvalidity), old(server.mailbox), selected, server.uidvalidity, server.mailbox, target.uid);
    }

    /** What the inspection of a cooperative server finds. */
    twostate predicate Foreseen(target: Target, verdict: Option<MutationResult>)
      reads server
    {
      var found := Lookup(old(server.mailbox), target.uid);
      && server.mailbox == old(server.mailbox) && server.uidvalidity == old(server.uidvalidity)
      && verdict ==
         if !server.uidplus then Some(Failure(SafeDeleteUnsupported))
         else if old(server.uidvalidity) != target.uidvalidity then Some(Failure(IdentityMismatch))
         else if found.None? then Some(Success())
         else if Sha256(found.value.raw) != target.digest then Some(Failure(IdentityMismatch))
         else if found.value.deleted then Some(Failure(RemoteStateConflict))
         else None
    }

    /** One deletion attempt.  Success means the message is gone.  A confirmed failure means that either
        no STORE was sent or the target is there, byte-equal and unflagged, and the outcome is unknown only
        if a STORE was sent.  In every case at most one
        STORE and one EXPUNGE were sent, both for the target's UID, the STORE straight after a sighting
        of the archived bytes, and no other message was touched; nothing is sent for a target, a
        configuration or a server that cannot be deleted from safely.  A cooperative server carries the
        deletion out exactly when the target is there under its own namespace, byte-equal and unflagged. */
    method Delete(target: Target, lockFree: bool) returns (result: MutationResult)
      modifies server
      ensures Respectful(target)
      ensures Disciplined(old(server.events), server.events, target)
      ensures result.outcome == SuccessConfirmed ==> server.Gone(target)
      ensures result.outcome == FailureConfirmedNoMutation ==>
                Mutations(server.events) == old(Mutations(server.events)) || server.Untouched(target)
      ensures Mutations(server.events) == old(Mutations(server.events)) ==> result.outcome != OutcomeUnknown
      ensures Coherent(result)
      ensures !configured || target.uidvalidity == 0 || target.uid == 0 || !hasPassword || !lockFree || !server.uidplus ==>
                server.events == old(server.events) && result.outcome == FailureConfirmedNoMutation
      ensures !Valid(target) ==> result == Failure(IdentityMismatch)
      ensures Valid(target) && (!hasPassword || !lockFree) ==> result == Failure(ProviderRejected)
      ensures server.cooperative && Valid(target) && hasPassword && lockFree ==>
                && (old(server.Untouched(target)) && server.uidplus ==>
                      && result == Success() && server.mailbox == old(server.mailbox) - {target.uid}
                      && Mutations(server.events) == old(Mutations(server.events)) + [Stored(target.uid), Expunged(target.uid)])
                && (!old(server.Untouched(target)) || !server.uidplus ==>
                      && Foreseen(target, Some(result)) && Mutations(server.events) == old(Mutations(server.events)))
    {
      var verdict := Inspect(target, lockFree);
      if verdict.Some? { return verdict.value; }
      ghost var inspected, v := server.mailbox, server.uidvalidity;
      result := StoreAndExpunge(target, old(server.events));
      if server.uidvalidity == old(server.uidvalidity) {
        assert v == server.uidvalidity;
        OnlyTouchesTransitive(old(server.mailbox), inspected, server.mailbox, target.uid);
      }
    }
  }
}
