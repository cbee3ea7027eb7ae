/** The Gmail permanent-delete adapter (gmail_mutation.py) against a service that may lose any reply.

    Message ids are never reused and a message's bytes never change.  A DELETE is carried out at once,
    later, or never, whatever its answer says; a service called `prompt` has settled it by the time the
    request has been answered or has timed out.  Access may be denied at any moment, and a refresh of the
    credentials may succeed, fail, or raise an exception the adapter does not handle. */
module GmailMutation {
  import opened Base
  import opened Verdicts

  type Mailbox = map<string, Bytes>

  /** A message resource; the id may be left out, and the raw field may not decode. */
  datatype Item = Item(id: Option<string>, raw: Option<Bytes>)

  datatype Answer = Found(item: Item) | NotFound | Denied | Lost

  /** What one look at the target showed. */
  datatype Sight = Absent | Match | Different | Unauthorized | Unobservable

  datatype ProfileAnswer = Profile(email: string) | ProfileDenied | ProfileLost

  datatype Refresh = Refreshed | RefreshFailed | RefreshRaised

  /** What was asked and answered; a look also shows what was there. */
  datatype Event =
    | AskedProfile(profile: ProfileAnswer)
    | Looked(id: string, found: Option<Bytes>, answer: Answer)
    | Deleted(id: string)
    | Renewed(outcome: Refresh)

  datatype Target = Target(id: string, digest: Digest)

  function Lookup(mailbox: Mailbox, id: string): Option<Bytes> {
    if id in mailbox then Some(mailbox[id]) else None
  }

  ghost predicate Matches(found: Option<Bytes>, digest: Digest) {
    found.Some? && Sha256(found.value) == digest
  }

  /** The mailbox, and whether a DELETE of the target has been sent and neither carried out nor dropped. */
  datatype World = World(mailbox: Mailbox, inFlight: bool)

  /** How the mailbox may change while only `id` is being deleted: mail may arrive, other messages stay
      as they are, and `id` keeps its bytes and never comes back. */
  predicate OnlyTouches(before: Mailbox, after: Mailbox, id: string) {
    && (forall m :: m in before && m != id ==> m in after && after[m] == before[m])
    && (id in after ==> id in before && after[id] == before[id])
  }

  /** What time alone may do: an outstanding DELETE is carried out or dropped, mail arrives, and, in a
      mailbox `shared` with other clients, one of them removes the target. */
  predicate Settles(before: World, after: World, id: string, shared: bool) {
    && OnlyTouches(before.mailbox, after.mailbox, id)
    && (after.inFlight ==> before.inFlight)
    && (id in before.mailbox && id !in after.mailbox ==> shared || (before.inFlight && !after.inFlight))
  }

  /** What a DELETE request may do when it is sent: it is carried out, dropped, or left for later. */
  predicate Sends(before: World, after: World, id: string, prompt: bool) {
    || after == World(before.mailbox - {id}, before.inFlight)
    || after == before
    || (!prompt && after == World(before.mailbox, true))
  }

  /** The answers a GET may be given.  An absence is true, and so is an item that carries the id asked
      for or none at all; an item under some other id may hold anything. */
  predicate Answers(mailbox: Mailbox, id: string, answer: Answer) {
    && (answer.NotFound? ==> id !in mailbox)
    && (answer.Found? && (answer.item.id.None? || answer.item.id.value == id) ==>
          id in mailbox && answer.item.raw in {None, Lookup(mailbox, id)})
  }

  ghost predicate PresentIn(mailbox: Mailbox, target: Target) {
    Matches(Lookup(mailbox, target.id), target.digest)
  }

  /** What an answer shows of the target. */
  function SightOf(answer: Answer, target: Target): Sight {
    match answer
    case NotFound => Absent
    case Denied => Unauthorized
    case Lost => Unobservable
    case Found(item) =>
      if item.id.Some? && item.id.value != target.id then Different
      else if item.raw.None? then Unobservable
      else if Sha256(item.raw.value) == target.digest then Match
      else Different
  }

  /** The verdict on a sent DELETE after the last look. */
  function VerdictOn(sight: Sight): MutationResult {
    match sight
    case Absent => Success()
    case Match => Failure(ProviderRejected)
    case _ => Uncertain()
  }

  /** The message is there and stays there byte for byte, as far as this program's own requests go. */
  ghost predicate Stands(now: World, target: Target) {
    forall later :: Settles(now, later, target.id, false) ==> PresentIn(later.mailbox, target)
  }

  /** A confirmed failure is final exactly when no DELETE is in flight any more. */
  lemma {:induction false} StandsIffSettled(now: World, target: Target)
    requires PresentIn(now.mailbox, target)
    ensures Stands(now, target) <==> !now.inFlight
  {
    if now.inFlight {
      var carriedOut := World(now.mailbox - {target.id}, false);
      assert Settles(now, carriedOut, target.id, false) && !PresentIn(carriedOut.mailbox, target);
    }
  }

  /** Every "provider rejected" that follows a DELETE sent now will stand. */
  ghost predicate RejectionsStand(now: World, target: Target, prompt: bool) {
    forall sent, looked, answer ::
      && Sends(now, sent, target.id, prompt) && Settles(sent, looked, target.id, false)
      && Answers(looked.mailbox, target.id, answer) && VerdictOn(SightOf(answer, target)) == Failure(ProviderRejected)
      ==> Stands(looked, target)
  }

  /** A DELETE sent to a service that is not prompt, or behind an earlier one, can be answered by a
      confirmed failure and be carried out afterwards. */
  lemma {:induction false} RejectedThenCarriedOut(now: World, target: Target, prompt: bool)
      returns (sent: World, looked: World, answer: Answer, later: World)
    requires PresentIn(now.mailbox, target) && (now.inFlight || !prompt)
    ensures Sends(now, sent, target.id, prompt) && Settles(sent, looked, target.id, false)
    ensures Answers(looked.mailbox, target.id, answer) && VerdictOn(SightOf(answer, target)) == Failure(ProviderRejected)
    ensures Settles(looked, later, target.id, false) && target.id !in later.mailbox
  {
    sent := World(now.mailbox, true);
    looked := sent;
    answer := Found(Item(Some(target.id), Some(now.mailbox[target.id])));
    later := World(now.mailbox - {target.id}, false);
  }

  /** Exactly a prompt service with nothing in flight makes every confirmed failure final. */
  lemma {:induction false} RejectionsStandIff(now: World, target: Target, prompt: bool)
    requires PresentIn(now.mailbox, target)
    ensures RejectionsStand(now, target, prompt) <==> prompt && !now.inFlight
  {
    if prompt && !now.inFlight {
      forall sent, looked, answer |
        && Sends(now, sent, target.id, prompt) && Settles(sent, looked, target.id, false)
        && Answers(looked.mailbox, target.id, answer) && VerdictOn(SightOf(answer, target)) == Failure(ProviderRejected)
        ensures Stands(looked, target)
      {
        StandsIffSettled(looked, target);
      }
    } else {
      var sent, looked, answer, later := RejectedThenCarriedOut(now, target, prompt);
      assert !PresentIn(later.mailbox, target) && !Stands(looked, target);
    }
  }

  lemma {:induction false} SettlesTransitive(a: World, b: World, c: World, id: string, shared: bool)
    requires Settles(a, b, id, shared) && Settles(b, c, id, shared)
    ensures Settles(a, c, id, shared)
  {
  }

  class Server {
    /** A cooperative service answers every request, carries it out at once, and has no other clients. */
    const cooperative: bool
    const prompt: bool
    /** Other clients may delete the target. */
    const shared: bool
    const email: string
    var mailbox: Mailbox
    var inFlight: bool
    var events: seq<Event>

    constructor (cooperative: bool, prompt: bool, shared: bool, email: string, mailbox: Mailbox)
      ensures this.cooperative == cooperative && this.prompt == prompt && this.shared == shared
      ensures this.email == email && this.mailbox == mailbox && !inFlight && events == []
    {
      this.cooperative, this.prompt, this.shared, this.email := cooperative, prompt, shared, email;
      this.mailbox, this.inFlight, this.events := mailbox, false, [];
    }

    function Now(): World
      reads this
    {
      World(mailbox, inFlight)
    }

    /** Anything that time allows may happen between two requests. */
    method Meanwhile(id: string)
      modifies this`mailbox, this`inFlight
      ensures Settles(old(Now()), Now(), id, shared)
      ensures cooperative && !old(inFlight) ==> Now() == old(Now())
    {
      var next: World := *;
      if Settles(Now(), next, id, shared) && (cooperative && !inFlight ==> next == Now()) {
        mailbox, inFlight := next.mailbox, next.inFlight;
      }
    }

    /** Another client has removed the message. */
    method Vanish(id: string)
      modifies this`mailbox
      ensures mailbox == old(mailbox) - {id}
    {
      mailbox := mailbox - {id};
    }

    method GetProfile() returns (r: ProfileAnswer)
      modifies this`events
      ensures events == old(events) + [AskedProfile(r)]
      ensures r.Profile? ==> r.email == email
      ensures cooperative ==> r.Profile?
    {
      var outcome: ProfileAnswer := *;
      r := if cooperative || outcome.Profile? then Profile(email) else outcome;
      events := events + [AskedProfile(r)];
    }

    method GetRaw(id: string) returns (r: Answer)
      modifies this`mailbox, this`inFlight, this`events
      ensures Settles(old(Now()), Now(), id, shared)
      ensures events == old(events) + [Looked(id, Lookup(mailbox, id), r)]
      ensures Answers(mailbox, id, r)
      ensures cooperative && !old(inFlight) ==>
                Now() == old(Now()) && r == if id in mailbox then Found(Item(Some(id), Some(mailbox[id]))) else NotFound
    {
      Meanwhile(id);
      r := *;
      if cooperative {
        r := if id in mailbox then Found(Item(Some(id), Some(mailbox[id]))) else NotFound;
      } else if !Answers(mailbox, id, r) {
        r := Lost;
      }
      events := events + [Looked(id, Lookup(mailbox, id), r)];
    }

    /** The one DELETE request.  Its answer is not looked at by anyone. */
    method Delete(id: string)
      modifies this`mailbox, this`inFlight, this`events
      ensures exists sent :: Settles(old(Now()), sent, id, shared) && Sends(sent, Now(), id, prompt)
      ensures events == old(events) + [Deleted(id)]
      ensures cooperative && !old(inFlight) ==> Now() == World(old(mailbox) - {id}, false)
    {
      Meanwhile(id);
      ghost var sent := Now();
      events := events + [Deleted(id)];
      var next: World := *;
      if cooperative || !Sends(Now(), next, id, prompt) { next := World(mailbox - {id}, inFlight); }
      mailbox, inFlight := next.mailbox, next.inFlight;
      assert Settles(old(Now()), sent, id, shared) && Sends(sent, Now(), id, prompt);
    }

    /** The message is gone for good. */
    ghost predicate Gone(target: Target)
      reads this
    {
      target.id !in mailbox
    }

    /** The message is there byte for byte. */
    ghost predicate Present(target: Target)
      reads this
    {
      PresentIn(mailbox, target)
    }
  }

  /** The log has only grown, and by nothing that deletes. */
  ghost predicate ReadOnly(before: seq<Event>, after: seq<Event>) {
    before <= after && forall k :: |before| <= k < |after| ==> !after[k].Deleted?
  }

  /** The whole permitted conversation of one deletion, from log `before` to log `after`: nothing is
      deleted; or, directly after a look that showed the archived bytes, one DELETE of the target, then
      one look, and if that is denied a renewal of the credentials and, if that works, one more look. */
  ghost predicate Disciplined(before: seq<Event>, after: seq<Event>, target: Target) {
    || ReadOnly(before, after)
    || exists n: nat :: SentAt(before, after, n, target) && Aftermath(after, n + 1, target.id)
  }

  ghost predicate SentAt(before: seq<Event>, after: seq<Event>, n: nat, target: Target) {
    && |before| < n < |after| && ReadOnly(before, after[..n])
    && after[n - 1].Looked? && after[n - 1].id == target.id && Matches(after[n - 1].found, target.digest)
    && after[n] == Deleted(target.id)
  }

  ghost predicate Aftermath(log: seq<Event>, from: nat, id: string) {
    && from < |log| && log[from].Looked? && log[from].id == id
    && if !log[from].answer.Denied? then |log| == from + 1
       else
         && from + 1 < |log| && log[from + 1].Renewed?
         && if log[from + 1].outcome != Refreshed then |log| == from + 2
            else |log| == from + 3 && log[from + 2].Looked? && log[from + 2].id == id
  }

  /** What is said of a deletion after the last event of its aftermath: the verdict on the last look, or on
      credentials that could not be renewed. */
  ghost predicate Decided(last: Event, target: Target, result: Option<MutationResult>) {
    match last
    case Looked(_, _, answer) => result == Some(VerdictOn(SightOf(answer, target)))
    case Renewed(outcome) => result == if outcome == RefreshRaised then None else Some(Uncertain())
    case _ => false
  }

  /** The profile and, if it is the account's, the look before a DELETE, and what comes of them. */
  ghost predicate Reviewed(before: seq<Event>, after: seq<Event>, email: string, target: Target, verdict: Option<Option<MutationResult>>) {
    && before < after && after[|before|].AskedProfile?
    && if after[|before|].profile != Profile(email) then |after| == |before| + 1 && verdict == Some(Some(Failure(AuthorizationFailed)))
       else
         && |after| == |before| + 2 && after[|before| + 1].Looked? && after[|before| + 1].id == target.id
         && verdict == match SightOf(after[|before| + 1].answer, target)
                       case Absent => Some(Some(Success()))
                       case Match => None
                       case Different => Some(Some(Failure(IdentityMismatch)))
                       case _ => Some(Some(Failure(ProviderRejected)))
  }

  /** Everything before a DELETE, from log `before` to log `after`, and what comes of it: credentials that are
      not valid are renewed first, and whatever goes wrong ends it. */
  ghost predicate Inspected(before: seq<Event>, after: seq<Event>, valid: bool, email: string, target: Target, verdict: Option<Option<MutationResult>>) {
    if valid then Reviewed(before, after, email, target, verdict)
    else
      && before < after && after[|before|].Renewed?
      && match after[|before|].outcome
         case Refreshed => Reviewed(after[..|before| + 1], after, email, target, verdict)
         case RefreshFailed => |after| == |before| + 1 && verdict == Some(Some(Failure(AuthorizationFailed)))
         case RefreshRaised => |after| == |before| + 1 && verdict == Some(None)
  }

  // --- The conversation of an observation ---

  /** The last event of a session was turned away for want of authorization. */
  ghost predicate Turned(e: Event) {
    e == AskedProfile(ProfileDenied) || (e.Looked? && e.answer == Denied)
  }

  /** What the last event of a session shows. */
  ghost function StateOf(e: Event, email: string, target: Target): Observation {
    match e
    case AskedProfile(Profile(other)) => if other != email then ObservedConflict else ObservedUnknown
    case Looked(_, _, answer) =>
      (match SightOf(answer, target)
       case Absent => ObservedAbsent
       case Match => ObservedPresentMatch
       case Different => ObservedConflict
       case _ => ObservedUnknown)
    case _ => ObservedUnknown
  }

  /** The profile, and if it is the account's one look at the target. */
  ghost predicate Session(before: seq<Event>, after: seq<Event>, email: string, id: string) {
    && before < after && after[|before|].AskedProfile?
    && if after[|before|].profile == Profile(email) then |after| == |before| + 2 && after[|before| + 1].Looked? && after[|before| + 1].id == id
       else |after| == |before| + 1
  }

  /** A renewal of the credentials and, if it works, one session. */
  ghost predicate Renewing(before: seq<Event>, after: seq<Event>, email: string, target: Target, state: Option<Observation>) {
    && before < after && after[|before|].Renewed?
    && if after[|before|].outcome == Refreshed then
         Session(after[..|before| + 1], after, email, target.id) && state == Some(StateOf(after[|after| - 1], email, target))
       else
         |after| == |before| + 1 && state == if after[|before|].outcome == RefreshRaised then None else Some(ObservedUnknown)
  }

  /** A whole observation: credentials that are not valid are renewed first; otherwise they are renewed once
      if, and only if, the first session was turned away. */
  ghost predicate Watched(before: seq<Event>, after: seq<Event>, valid: bool, email: string, target: Target, state: Option<Observation>) {
    if !valid then Renewing(before, after, email, target, state)
    else exists k: nat ::
      && |before| < k <= |after| && Session(before, after[..k], email, target.id)
      && if Turned(after[k - 1]) then Renewing(after[..k], after, email, target, state)
         else k == |after| && state == Some(StateOf(after[k - 1], email, target))
  }

  class Adapter {
    const server: Server
    /** The account is enabled, is a Gmail account and is this adapter's. */
    const configured: bool
    /** The configured address, case-folded like the one the profile reports. */
    const email: string
    /** The refresh endpoint and the token file work. */
    const refreshable: bool
    /** The access token in hand is believed to be valid. */
    var valid: bool

    constructor (server: Server, configured: bool, email: string, refreshable: bool, valid: bool)
      ensures this.server == server && this.configured == configured && this.email == email
      ensures this.refreshable == refreshable && this.valid == valid
    {
      this.server, this.configured, this.email, this.refreshable, this.valid := server, configured, email, refreshable, valid;
    }

    ghost predicate Accepts(target: Target) {
      configured && target.id != ""
    }

    method RefreshIfNeeded(force: bool) returns (r: Refresh)
      modifies this`valid, server`events
      ensures server.events == if force || !old(valid) then old(server.events) + [Renewed(r)] else old(server.events)
      ensures !force && old(valid) ==> r == Refreshed
      ensures refreshable || (!force && old(valid)) ==> r == Refreshed
    {
      if !force && valid { return Refreshed; }
      r, valid := *, *;
      if refreshable { r := Refreshed; }
      server.events := server.events + [Renewed(r)];
    }

    /** One GET of the target. */
    method Look(target: Target) returns (sight: Sight)
      modifies server`mailbox, server`inFlight, server`events
      ensures Settles(old(server.Now()), server.Now(), target.id, server.shared)
      ensures |server.events| == |old(server.events)| + 1 && old(server.events) <= server.events
      ensures var last := server.events[|old(server.events)|];
              last.Looked? && last == Looked(target.id, Lookup(server.mailbox, target.id), last.answer) && sight == SightOf(last.answer, target)
      ensures sight == Absent ==> server.Gone(target)
      ensures sight == Match ==> server.Present(target)
      ensures server.cooperative && !old(server.inFlight) ==>
                && server.mailbox == old(server.mailbox)
                && sight == (if target.id !in server.mailbox then Absent else if server.Present(target) then Match else Different)
    {
      var answer := server.GetRaw(target.id);
      sight := SightOf(answer, target);
    }

    /** The looks that decide an attempt whose DELETE has been sent.  `None` is an escaping exception. */
    method Confirmation(target: Target) returns (result: Option<MutationResult>)
      modifies this`valid, server`mailbox, server`inFlight, server`events
      ensures Settles(old(server.Now()), server.Now(), target.id, server.shared)
      ensures old(server.events) <= server.events && Aftermath(server.events, |old(server.events)|, target.id)
      ensures Decided(server.events[|server.events| - 1], target, result)
      ensures || result == None || result == Some(Uncertain())
              || (result == Some(Success()) && server.Gone(target))
              || (result == Some(Failure(ProviderRejected)) && server.Present(target))
      ensures server.cooperative && !old(server.inFlight) && target.id !in old(server.mailbox) ==>
                result == Some(Success()) && server.mailbox == old(server.mailbox)
    {
      var sight := Look(target);
      ghost var seen := server.Now();
      if sight == Unauthorized {
        var renewed := RefreshIfNeeded(true);
        if renewed == RefreshRaised { return None; }
        if renewed == RefreshFailed { return Some(Uncertain()); }
        sight := Look(target);
        SettlesTransitive(old(server.Now()), seen, server.Now(), target.id, server.shared);
      }
      result := Some(VerdictOn(sight));
    }

    /** The profile and the look before the DELETE. */
    method Review(target: Target) returns (verdict: Option<Option<MutationResult>>)
      modifies server`mailbox, server`inFlight, server`events
      ensures Settles(old(server.Now()), server.Now(), target.id, server.shared)
      ensures Reviewed(old(server.events), server.events, email, target, verdict)
      ensures verdict == Some(Some(Success())) ==> server.Gone(target)
      ensures server.email != email ==> verdict == Some(Some(Failure(AuthorizationFailed)))
      ensures verdict.None? ==> server.events[|server.events| - 1].found == Lookup(server.mailbox, target.id) && server.Present(target)
      ensures server.cooperative && !old(server.inFlight) && server.email == email ==>
                && server.mailbox == old(server.mailbox)
                && verdict == if target.id !in server.mailbox then Some(Some(Success()))
                              else if server.Present(target) then None else Some(Some(Failure(IdentityMismatch)))
    {
      var profile := server.GetProfile();
      if !profile.Profile? || profile.email != email { return Some(Some(Failure(AuthorizationFailed))); }
      var sight := Look(target);
      verdict := match sight
        case Absent => Some(Some(Success()))
        case Match => None
        case Different => Some(Some(Failure(IdentityMismatch)))
        case _ => Some(Some(Failure(ProviderRejected)));
    }

    /** Everything before the DELETE: an answer, or leave to delete. */
    method Inspect(target: Target) returns (verdict: Option<Option<MutationResult>>)
      modifies this`valid, server`mailbox, server`inFlight, server`events
      ensures Settles(old(server.Now()), server.Now(), target.id, server.shared)
      ensures Inspected(old(server.events), server.events, old(valid), email, target, verdict) && ReadOnly(old(server.events), server.events)
      ensures verdict.Some? && verdict.value.Some? ==> verdict.value.value.outcome != OutcomeUnknown && Coherent(verdict.value.value)
      ensures verdict == Some(Some(Success())) ==> server.Gone(target)
      ensures server.email != email ==> verdict in {Some(None), Some(Some(Failure(AuthorizationFailed)))}
      ensures verdict.None? ==>
                && server.Present(target) && |server.events| > |old(server.events)|
                && server.events[|server.events| - 1].Looked? && server.events[|server.events| - 1].id == target.id
                && server.events[|server.events| - 1].found == Lookup(server.mailbox, target.id)
      ensures server.cooperative && !old(server.inFlight) && (refreshable || old(valid)) && server.email == email ==>
                && server.mailbox == old(server.mailbox)
                && verdict == if target.id !in server.mailbox then Some(Some(Success()))
                              else if server.Present(target) then None else Some(Some(Failure(IdentityMismatch)))
    {
      var renewed := RefreshIfNeeded(false);
      if renewed == RefreshRaised { return Some(None); }
      if renewed == RefreshFailed { return Some(Some(Failure(AuthorizationFailed))); }
      ghost var log := server.events;
      verdict := Review(target);
      assert server.events[..|log|] == log;
    }

    /** The DELETE and the looks that decide it, after a look that showed the archived bytes. */
    method DeleteAndConfirm(target: Target, ghost before: seq<Event>) returns (result: Option<MutationResult>)
      requires before < server.events && ReadOnly(before, server.events)
      requires var last := server.events[|server.events| - 1]; last.Looked? && last.id == target.id && Matches(last.found, target.digest)
      modifies this`valid, server`mailbox, server`inFlight, server`events
      ensures OnlyTouches(old(server.mailbox), server.mailbox, target.id)
      ensures before <= server.events && Disciplined(before, server.events, target) && !ReadOnly(before, server.events)
      ensures Decided(server.events[|server.events| - 1], target, result)
      ensures || result == None || result == Some(Uncertain())
              || (result == Some(Success()) && server.Gone(target))
              || (result == Some(Failure(ProviderRejected)) && server.Present(target))
      ensures server.prompt && !old(server.inFlight) ==> !server.inFlight
      ensures server.cooperative && !old(server.inFlight) ==>
                result == Some(Success()) && server.mailbox == old(server.mailbox) - {target.id}
    {
      ghost var log := server.events;
      server.Delete(target.id);
      result := Confirmation(target);
      OneDeleteIsDisciplined(before, log, server.events, target);
    }

    /** One deletion attempt; `None` is an exception that reaches the executor.  Success means the
        message is gone.  A confirmed failure means that no DELETE was sent, or that the message was
        there byte for byte at the last look; it then stays, as far as this program's requests go,
        exactly when no DELETE is in flight any more, as after any attempt on a prompt service.  Where no
        DELETE was sent the outcome is unknown only because the lock was taken or renewing the credentials
        raised an exception.  At most one DELETE is sent, directly after a look that showed the archived bytes.  A cooperative service
        with working credentials carries the deletion out exactly when the message is there and
        byte-equal. */
    method Delete(target: Target, lockFree: bool) returns (result: Option<MutationResult>)
      modifies this`valid, server`mailbox, server`inFlight, server`events
      ensures OnlyTouches(old(server.mailbox), server.mailbox, target.id)
      ensures old(server.events) <= server.events && Disciplined(old(server.events), server.events, target)
      ensures result.Some? ==> Coherent(result.value)
      ensures result.Some? && result.value.outcome == SuccessConfirmed ==> server.Gone(target)
      ensures result.Some? && result.value.outcome == FailureConfirmedNoMutation ==>
                || ReadOnly(old(server.events), server.events)
                || (server.Present(target) && (Stands(server.Now(), target) <==> !server.inFlight))
      ensures ReadOnly(old(server.events), server.events) ==>
                && result != Some(Uncertain())
                && (result.None? && lockFree ==> server.events == old(server.events) + [Renewed(RefreshRaised)])
      ensures server.prompt && !old(server.inFlight) ==> !server.inFlight
      ensures !Accepts(target) ==> server.events == old(server.events) && result == Some(Failure(IdentityMismatch))
      ensures Accepts(target) && !lockFree ==> server.events == old(server.events) && result == None
      ensures Accepts(target) && lockFree && ReadOnly(old(server.events), server.events) ==>
                Inspected(old(server.events), server.events, old(valid), email, target, Some(result))
      ensures !ReadOnly(old(server.events), server.events) ==> Decided(server.events[|server.events| - 1], target, result)
      ensures server.email != email || !Accepts(target) || !lockFree ==>
                ReadOnly(old(server.events), server.events) && result != Some(Success())
      ensures server.cooperative && !old(server.inFlight) && Accepts(target) && lockFree && (refreshable || old(valid)) && server.email == email ==>
                var m := old(server.mailbox);
                if Matches(Lookup(m, target.id), target.digest) then
                  result == Some(Success()) && server.mailbox == m - {target.id}
                else
                  && server.mailbox == m && ReadOnly(old(server.events), server.events)
                  && result == Some(if target.id in m then Failure(IdentityMismatch) else Success())
    {
      if !configured || target.id == "" { return Some(Failure(IdentityMismatch)); }
      if !lockFree { return None; }
      var verdict := Inspect(target);
      if verdict.Some? { return verdict.value; }
      result := DeleteAndConfirm(target, old(server.events));
      if server.Present(target) { StandsIffSettled(server.Now(), target); }
    }

    /** Profile and one look; what the retry policy needs to know. */
    method ObserveReadOnly(target: Target) returns (state: Observation, denied: bool)
      modifies server`mailbox, server`inFlight, server`events
      ensures Settles(old(server.Now()), server.Now(), target.id, server.shared)
      ensures Session(old(server.events), server.events, email, target.id)
      ensures state == StateOf(server.events[|server.events| - 1], email, target) && denied == Turned(server.events[|server.events| - 1])
      ensures state == ObservedAbsent ==> server.Gone(target)
      ensures state == ObservedPresentMatch ==> server.Present(target)
      ensures server.cooperative && !old(server.inFlight) ==>
                && !denied && server.mailbox == old(server.mailbox)
                && state == (if server.email != email then ObservedConflict
                             else if target.id !in server.mailbox then ObservedAbsent
                             else if server.Present(target) then ObservedPresentMatch else ObservedConflict)
    {
      var profile := server.GetProfile();
      if !profile.Profile? { return ObservedUnknown, profile.ProfileDenied?; }
      if profile.email != email { return ObservedConflict, false; }
      var sight := Look(target);
      denied := sight == Unauthorized;
      state := match sight
        case Absent => ObservedAbsent
        case Match => ObservedPresentMatch
        case Different => ObservedConflict
        case _ => ObservedUnknown;
    }

    /** One observation after a renewal of the credentials. */
    method ObserveRenewed(target: Target) returns (state: Option<Observation>)
      modifies this`valid, server`mailbox, server`inFlight, server`events
      ensures Settles(old(server.Now()), server.Now(), target.id, server.shared)
      ensures Renewing(old(server.events), server.events, email, target, state)
      ensures state == Some(ObservedAbsent) ==> server.Gone(target)
      ensures state == Some(ObservedPresentMatch) ==> server.Present(target)
      ensures server.cooperative && !old(server.inFlight) && refreshable && server.email == email ==>
                && server.mailbox == old(server.mailbox)
                && state == Some(if target.id !in server.mailbox then ObservedAbsent
                                 else if server.Present(target) then ObservedPresentMatch else ObservedConflict)
    {
      var renewed := RefreshIfNeeded(true);
      if renewed == RefreshRaised { return None; }
      if renewed == RefreshFailed { return Some(ObservedUnknown); }
      ghost var log := server.events;
      var seen, denied := ObserveReadOnly(target);
      assert server.events[..|log|] == log;
      state := Some(seen);
    }

    /** Read-only proof about one message id, with at most one renewal of the credentials. */
    method Observe(target: Target, lockFree: bool) returns (state: Option<Observation>)
      modifies this`valid, server`mailbox, server`inFlight, server`events
      ensures Settles(old(server.Now()), server.Now(), target.id, server.shared)
      ensures ReadOnly(old(server.events), server.events)
      ensures !Accepts(target) ==> state == Some(ObservedConflict) && server.events == old(server.events)
      ensures Accepts(target) && !lockFree ==> state == None && server.events == old(server.events)
      ensures Accepts(target) && lockFree ==> Watched(old(server.events), server.events, old(valid), email, target, state)
      ensures state == Some(ObservedAbsent) ==> server.Gone(target)
      ensures state == Some(ObservedPresentMatch) ==> server.Present(target)
      ensures server.cooperative && !old(server.inFlight) && Accepts(target) && lockFree && (refreshable || old(valid)) && server.email == email ==>
                && server.mailbox == old(server.mailbox)
                && state == Some(if target.id !in server.mailbox then ObservedAbsent
                                 else if server.Present(target) then ObservedPresentMatch else ObservedConflict)
    {
      if !configured || target.id == "" { return Some(ObservedConflict); }
      if !lockFree { return None; }
      if !valid {
        state := ObserveRenewed(target);
        return;
      }
      var seen, denied := ObserveReadOnly(target);
      state := Some(seen);
      ghost var log, now := server.events, server.Now();
      if denied {
        state := ObserveRenewed(target);
        SettlesTransitive(old(server.Now()), now, server.Now(), target.id, server.shared);
      }
      assert server.events[..|log|] == log;
    }
  }

  lemma {:induction false} OneDeleteIsDisciplined(before: seq<Event>, inspected: seq<Event>, after: seq<Event>, target: Target)
    requires before < inspected && ReadOnly(before, inspected)
    requires inspected[|inspected| - 1].Looked? && inspected[|inspected| - 1].id == target.id
    requires Matches(inspected[|inspected| - 1].found, target.digest)
    requires inspected + [Deleted(target.id)] <= after && Aftermath(after, |inspected| + 1, target.id)
    ensures Disciplined(before, after, target) && !ReadOnly(before, after)
  {
    assert after[..|inspected|] == inspected;
    assert after[|inspected|] == Deleted(target.id);
    assert SentAt(before, after, |inspected|, target);
  }
}
