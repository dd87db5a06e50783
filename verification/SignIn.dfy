/** Parked logins and consents: the locked sections of the sign-in handlers, and runs that interleave them freely. */
module SignIn {
  import opened Prelude
  import opened OAuthTables

  const MAX_PENDING := 100
  const LOGIN_TTL: Time := 600

  type Ar = int   // one authorization request

  datatype Login = Login(ar: Ar, created: Time)

  /** An allowlisted user and the generation that was read for the session, in step `at` of a run. */
  datatype Reading = Reading(user: string, gen: int, at: nat)

  /** What one sign-in has gathered so far. */
  datatype Ticket = Ticket(login: Login, takenAt: Option<Time>, reading: Option<Reading>, askedAt: Option<Time>,
                           approvedAt: Option<Time>, checkedAt: Option<nat>)

  datatype Consent = Consent(ticket: Ticket, csrf: string, created: Time)

  predicate Expired(created: Time, now: Time) { now - created > LOGIN_TTL }

  function FreshLogins(pending: map<string, Login>, now: Time): map<string, Login> {
    map k | k in pending && !Expired(pending[k].created, now) :: pending[k]
  }

  function FreshConsents(consents: map<string, Consent>, now: Time): map<string, Consent> {
    map k | k in consents && !Expired(consents[k].created, now) :: consents[k]
  }

  predicate Full(pending: map<string, Login>, consents: map<string, Consent>, now: Time) {
    |FreshLogins(pending, now)| + |FreshConsents(consents, now)| >= MAX_PENDING
  }

  class Server {
    var pending: map<string, Login>
    var consents: map<string, Consent>

    constructor ()
      ensures pending == map[] && consents == map[]
    {
      pending, consents := map[], map[];
    }

    /** Deletes expired entries, one key at a time. */
    method DropExpired(now: Time)
      modifies this
      ensures pending == FreshLogins(old(pending), now) && consents == FreshConsents(old(consents), now)
    {
      var todo := pending.Keys;
      while todo != {}
        invariant todo <= old(pending).Keys && consents == old(consents)
        invariant pending ==
                map k | k in old(pending) && (k in todo || !Expired(old(pending)[k].created, now)) :: old(pending)[k]
        decreases todo
      {
        var k :| k in todo;
        if Expired(pending[k].created, now) { pending := pending - {k}; }
        todo := todo - {k};
      }
      var rest := consents.Keys;
      while rest != {}
        invariant rest <= old(consents).Keys && pending == FreshLogins(old(pending), now)
        invariant consents ==
                map k | k in old(consents) && (k in rest || !Expired(old(consents)[k].created, now)) :: old(consents)[k]
        decreases rest
      {
        var k :| k in rest;
        if Expired(consents[k].created, now) { consents := consents - {k}; }
        rest := rest - {k};
      }
    }

    /** Parks an authorization request unless the server is at capacity. */
    method ParkLogin(state: string, login: Login, now: Time) returns (ok: bool)
      modifies this
      ensures ok <==> !Full(old(pending), old(consents), now)
      ensures consents == FreshConsents(old(consents), now)
      ensures pending == if ok then FreshLogins(old(pending), now)[state := login] else FreshLogins(old(pending), now)
    {
      DropExpired(now);
      if |pending| + |consents| >= MAX_PENDING { return false; }
      pending := pending[state := login];
      return true;
    }

    method ParkConsent(id: string, c: Consent, now: Time) returns (ok: bool)
      modifies this
      ensures ok <==> !Full(old(pending), old(consents), now)
      ensures pending == FreshLogins(old(pending), now)
      ensures consents == if ok then FreshConsents(old(consents), now)[id := c] else FreshConsents(old(consents), now)
    {
      DropExpired(now);
      if |pending| + |consents| >= MAX_PENDING { return false; }
      consents := consents[id := c];
      return true;
    }

    /** Consumes a state whatever comes of it; an expired login is not returned. */
    method TakeLogin(state: string, now: Time) returns (r: Option<Login>)
      modifies this
      ensures consents == old(consents) && pending == old(pending) - {state}
      ensures r == if state in old(pending) && !Expired(old(pending)[state].created, now)
                   then Some(old(pending)[state]) else None
    {
      r := None;
      if state in pending {
        if !Expired(pending[state].created, now) { r := Some(pending[state]); }
      }
      pending := pending - {state};
    }

    /** Consumes a consent whatever comes of it; both csrf values must match. */
    method TakeConsent(id: string, now: Time, form: string, cookie: Option<string>) returns (r: Option<Consent>)
      modifies this
      ensures pending == old(pending) && consents == old(consents) - {id}
      ensures r == Usable(old(consents), id, now, form, cookie)
    {
      r := None;
      if id in consents {
        var c := consents[id];
        if !Expired(c.created, now) && cookie.Some? && form == c.csrf && cookie.value == c.csrf { r := Some(c); }
      }
      consents := consents - {id};
    }
  }

  function Usable(consents: map<string, Consent>, id: string, now: Time, form: string,
          cookie: Option<string>): Option<Consent> {
    if id in consents && !Expired(consents[id].created, now) && cookie == Some(form) && form == consents[id].csrf
    then Some(consents[id]) else None
  }

  // ---- Runs

  /** Parked logins and consents, the handlers between two of their locked sections or reads, the codes, the
      generations, and every authorization request and key ever used. step counts the actions so far. */
  datatype World = World(
    pending: map<string, Login>, callbacks: map<nat, Ticket>,
    consents: map<string, Consent>, approvals: map<nat, Ticket>, cleared: map<nat, Ticket>,
    issued: seq<Ticket>,
    allowlist: set<string>, gens: map<string, int>, step: nat,
    arsSeen: set<Ar>, statesSeen: set<string>, consentsSeen: set<string>)

  datatype Action =
    | Authorize(ar: Ar, state: string, now: Time)
    | TakeLogin(state: string, now: Time, thread: nat)
    | DropCallback(thread: nat)
    | Identify(thread: nat, user: string)
    | FinishCallback(thread: nat, id: string, csrf: string, now: Time)
    | TakeConsent(id: string, now: Time, form: string, cookie: Option<string>, approve: bool, thread: nat)
    | Check(thread: nat)
    | Issue(thread: nat, ok: bool)
    | Bump(user: string)

  function NewTicket(login: Login): Ticket { Ticket(login, None, None, None, None, None) }

  function SessionOf(r: Reading): Session { Session(r.user, GenInt(r.gen)) }

  /** CheckSession on what the callback read. */
  predicate Passes(w: World, t: Ticket) { t.reading.Some? && Accepts(w.gens, SessionOf(t.reading.value)) }

  function Step(w: World, a: Action): World { Acted(w, a).(step := w.step + 1) }

  /** A user who is not allowlisted is dropped; for any other the generation is read. */
  function Identified(w: World, thread: nat, user: string): map<nat, Ticket> {
    if thread !in w.callbacks then w.callbacks
    else if user !in w.allowlist then w.callbacks - {thread}
    else
      var r := Reading(user, CurrentGen(w.gens, user), w.step);
      w.callbacks[thread := w.callbacks[thread].(reading := Some(r))]
  }

  function Acted(w: World, a: Action): World {
    match a
    case Authorize(ar, state, now) =>
      var live, kept := FreshLogins(w.pending, now), FreshConsents(w.consents, now);
      w.(pending := if Full(w.pending, w.consents, now) then live else live[state := Login(ar, now)],
         consents := kept, arsSeen := w.arsSeen + {ar}, statesSeen := w.statesSeen + {state})
    case TakeLogin(state, now, thread) =>
      w.(pending := w.pending - {state},
         callbacks := if state in w.pending && !Expired(w.pending[state].created, now)
                      then w.callbacks[thread := NewTicket(w.pending[state]).(takenAt := Some(now))] else w.callbacks)
    case DropCallback(thread) => w.(callbacks := w.callbacks - {thread})
    case Identify(thread, user) => w.(callbacks := Identified(w, thread, user))
    case FinishCallback(thread, id, csrf, now) =>
      if thread !in w.callbacks || w.callbacks[thread].reading.None? then w
      else
        var live, kept := FreshLogins(w.pending, now), FreshConsents(w.consents, now);
        w.(callbacks := w.callbacks - {thread}, pending := live, consentsSeen := w.consentsSeen + {id},
           consents := if Full(w.pending, w.consents, now) then kept
                       else kept[id := Consent(w.callbacks[thread], csrf, now)])
    case TakeConsent(id, now, form, cookie, approve, thread) =>
      var c := Usable(w.consents, id, now, form, cookie);
      w.(consents := w.consents - {id},
         approvals := if c.Some? && approve
                      then w.approvals[thread :=
                             c.value.ticket.(askedAt := Some(c.value.created), approvedAt := Some(now))]
                      else w.approvals)
    case Check(thread) =>
      if thread !in w.approvals then w
      else
        var t := w.approvals[thread];
        w.(approvals := w.approvals - {thread},
           cleared := if Passes(w, t) then w.cleared[thread := t.(checkedAt := Some(w.step))] else w.cleared)
    case Issue(thread, ok) =>
      if thread !in w.cleared then w
      else w.(cleared := w.cleared - {thread}, issued := if ok then w.issued + [w.cleared[thread]] else w.issued)
    case Bump(user) => if user == "" then w else w.(gens := BumpedGens(w.gens, user))
  }

  /** Fresh random states and consent ids, new authorization requests, and new handler threads. */
  predicate Allowed(w: World, a: Action) {
    match a
    case Authorize(ar, state, _) => ar !in w.arsSeen && state !in w.statesSeen
    case TakeLogin(_, _, thread) => thread !in w.callbacks
    case FinishCallback(_, id, _, _) => id !in w.consentsSeen
    case TakeConsent(_, _, _, _, _, thread) => thread !in w.approvals
    case Check(thread) => thread !in w.cleared
    case _ => true
  }

  // ---- One place per authorization request

  datatype Place =
    | Parked(state: string)
    | Calling(thread: nat)
    | Asking(id: string)
    | Approving(thread: nat)
    | Clearing(thread: nat)
    | Done(n: nat)

  function TicketAt(w: World, p: Place): Option<Ticket> {
    match p
    case Parked(s) => if s in w.pending then Some(NewTicket(w.pending[s])) else None
    case Calling(t) => Get(w.callbacks, t)
    case Asking(id) =>
      if id in w.consents then Some(w.consents[id].ticket.(askedAt := Some(w.consents[id].created))) else None
    case Approving(t) => Get(w.approvals, t)
    case Clearing(t) => Get(w.cleared, t)
    case Done(n) => if n < |w.issued| then Some(w.issued[n]) else None
  }

  predicate SameAr(w: World, p: Place, q: Place) {
    TicketAt(w, p).Some? && TicketAt(w, q).Some? && TicketAt(w, p).value.login.ar == TicketAt(w, q).value.login.ar
  }

  /** No authorization request is in two places, and none is anywhere before it is made. */
  ghost predicate OnePlace(w: World) {
    && (forall p :: TicketAt(w, p).Some? ==> TicketAt(w, p).value.login.ar in w.arsSeen)
    && (forall p, q :: SameAr(w, p, q) ==> p == q)
  }

  /** Only keys handed out earlier are in use. */
  ghost predicate KeysSeen(w: World) {
    w.pending.Keys <= w.statesSeen && w.consents.Keys <= w.consentsSeen
  }

  /** The place that an action fills, if it succeeds. */
  function Target(w: World, a: Action): Option<Place> {
    match a
    case Authorize(_, state, _) => Some(Parked(state))
    case TakeLogin(_, _, thread) => Some(Calling(thread))
    case Identify(thread, _) => Some(Calling(thread))
    case FinishCallback(_, id, _, _) => Some(Asking(id))
    case TakeConsent(_, _, _, _, _, thread) => Some(Approving(thread))
    case Check(thread) => Some(Clearing(thread))
    case Issue(_, _) => Some(Done(|w.issued|))
    case _ => None
  }

  /** The place it empties for that. */
  function Origin(a: Action): Option<Place> {
    match a
    case TakeLogin(state, _, _) => Some(Parked(state))
    case Identify(thread, _) => Some(Calling(thread))
    case FinishCallback(thread, _, _, _) => Some(Calling(thread))
    case TakeConsent(id, _, _, _, _, _) => Some(Asking(id))
    case Check(thread) => Some(Approving(thread))
    case Issue(thread, _) => Some(Clearing(thread))
    case _ => None
  }

  /** What an action adds to the ticket it moves, and under which condition. */
  ghost predicate Advances(w: World, a: Action, was: Ticket, t: Ticket) {
    match a
    case TakeLogin(_, now, _) => !Expired(was.login.created, now) && t == was.(takenAt := Some(now))
    case Identify(_, user) =>
      user in w.allowlist && t == was.(reading := Some(Reading(user, CurrentGen(w.gens, user), w.step)))
    case FinishCallback(_, _, _, now) => was.reading.Some? && t == was.(askedAt := Some(now))
    case TakeConsent(_, now, _, _, _, _) =>
      was.askedAt.Some? && !Expired(was.askedAt.value, now) && t == was.(approvedAt := Some(now))
    case Check(_) => Passes(w, was) && t == was.(checkedAt := Some(w.step))
    case Issue(_, _) => t == was
    case _ => false
  }

  /** Where the ticket at p comes from. */
  ghost predicate CameFrom(w: World, a: Action, p: Place, t: Ticket) {
    if Target(w, a) == Some(p) then
      match Origin(a)
      case None => a.Authorize? && t == NewTicket(Login(a.ar, a.now))
      case Some(q) => TicketAt(w, q).Some? && Advances(w, a, TicketAt(w, q).value, t)
    else TicketAt(w, p) == Some(t)
  }

  lemma {:induction false} AuthorizeFills(w: World, a: Action, p: Place)
    requires KeysSeen(w) && Allowed(w, a) && TicketAt(Step(w, a), p).Some? && a.Authorize?
    ensures CameFrom(w, a, p, TicketAt(Step(w, a), p).value)
  {
    match p
    case Parked(_) =>
    case Asking(_) =>
    case _ =>
  }

  lemma {:induction false} FinishFills(w: World, a: Action, p: Place)
    requires KeysSeen(w) && Allowed(w, a) && TicketAt(Step(w, a), p).Some? && a.FinishCallback?
    ensures CameFrom(w, a, p, TicketAt(Step(w, a), p).value)
  {
    if p.Asking? { FinishFillsAsking(w, a, p); }
    match p
    case Parked(_) =>
    case _ =>
  }

  lemma {:induction false} FinishFillsAsking(w: World, a: Action, p: Place)
    requires KeysSeen(w) && Allowed(w, a) && TicketAt(Step(w, a), p).Some? && a.FinishCallback? && p.Asking?
    ensures CameFrom(w, a, p, TicketAt(Step(w, a), p).value)
  {
    if p.id != a.id { assert Step(w, a).consents[p.id] == w.consents[p.id]; }
  }

  lemma {:induction false} TakingFills(w: World, a: Action, p: Place)
    requires KeysSeen(w) && Allowed(w, a) && TicketAt(Step(w, a), p).Some?
    requires a.TakeLogin? || a.TakeConsent?
    ensures CameFrom(w, a, p, TicketAt(Step(w, a), p).value)
  {
    match p
    case Calling(_) =>
    case Approving(_) =>
    case _ =>
  }

  lemma {:induction false} IdentifyFills(w: World, a: Action, p: Place)
    requires Allowed(w, a) && TicketAt(Step(w, a), p).Some? && a.Identify?
    ensures CameFrom(w, a, p, TicketAt(Step(w, a), p).value)
  {
    match p
    case Calling(_) =>
    case _ =>
  }

  lemma {:induction false} NothingFills(w: World, a: Action, p: Place)
    requires TicketAt(Step(w, a), p).Some? && (a.DropCallback? || a.Bump?)
    ensures CameFrom(w, a, p, TicketAt(Step(w, a), p).value)
  {
    match p
    case Calling(_) =>
    case _ =>
  }

  lemma {:induction false} CodeFills(w: World, a: Action, p: Place)
    requires Allowed(w, a) && TicketAt(Step(w, a), p).Some?
    requires a.Check? || a.Issue?
    ensures CameFrom(w, a, p, TicketAt(Step(w, a), p).value)
  {
    match p
    case Clearing(_) =>
    case Done(_) =>
    case _ =>
  }

  /** Every ticket after a step was there before, or moved to the action's target and was advanced by it. */
  lemma {:induction false} StepFills(w: World, a: Action, p: Place)
    requires KeysSeen(w) && Allowed(w, a) && TicketAt(Step(w, a), p).Some?
    ensures CameFrom(w, a, p, TicketAt(Step(w, a), p).value)
  {
    match a
    case Authorize(_, _, _) => AuthorizeFills(w, a, p);
    case FinishCallback(_, _, _, _) => FinishFills(w, a, p);
    case TakeLogin(_, _, _) => TakingFills(w, a, p);
    case TakeConsent(_, _, _, _, _, _) => TakingFills(w, a, p);
    case Check(_) => CodeFills(w, a, p);
    case Issue(_, _) => CodeFills(w, a, p);
    case Identify(_, _) => IdentifyFills(w, a, p);
    case _ => NothingFills(w, a, p);
  }

  /** A ticket that moved left its old place. */
  lemma {:induction false} OriginEmptied(w: World, a: Action, p: Place, q: Place)
    requires KeysSeen(w) && Allowed(w, a) && Target(w, a) == Some(p) && Origin(a) == Some(q) && p != q
    requires TicketAt(Step(w, a), p).Some?
    ensures TicketAt(Step(w, a), q).None?
  {
  }

  lemma {:induction false} AuthorizeAdds(w: World, a: Action, u: World)
    requires a.Authorize? && u == Step(w, a)
    ensures u.pending.Keys <= w.pending.Keys + {a.state} && u.consents.Keys <= w.consents.Keys
    ensures u.statesSeen == w.statesSeen + {a.state} && u.consentsSeen == w.consentsSeen
    ensures u.arsSeen == w.arsSeen + {a.ar}
  {
  }

  lemma {:induction false} FinishAdds(w: World, a: Action, u: World)
    requires a.FinishCallback? && u == Step(w, a)
    ensures u.pending.Keys <= w.pending.Keys && u.consents.Keys <= w.consents.Keys + {a.id}
    ensures u.statesSeen == w.statesSeen && w.consentsSeen <= u.consentsSeen && u.arsSeen == w.arsSeen
    ensures u.consents.Keys <= w.consents.Keys || a.id in u.consentsSeen
  {
    if a.thread in w.callbacks && w.callbacks[a.thread].reading.Some? { FinishingAdds(w, a, Acted(w, a)); }
  }

  lemma {:induction false} FinishingAdds(w: World, a: Action, v: World)
    requires a.FinishCallback? && v == Acted(w, a) && a.thread in w.callbacks && w.callbacks[a.thread].reading.Some?
    ensures v.pending.Keys <= w.pending.Keys && v.consents.Keys <= w.consents.Keys + {a.id}
    ensures v.statesSeen == w.statesSeen && v.consentsSeen == w.consentsSeen + {a.id} && v.arsSeen == w.arsSeen
  {
  }

  lemma {:induction false} TakesShrink(w: World, a: Action, u: World)
    requires (a.TakeLogin? || a.TakeConsent?) && u == Step(w, a)
    ensures u.pending.Keys <= w.pending.Keys && u.consents.Keys <= w.consents.Keys
    ensures u.statesSeen == w.statesSeen && u.consentsSeen == w.consentsSeen && u.arsSeen == w.arsSeen
  {
  }

  lemma {:induction false} DropKeeps(w: World, a: Action, u: World)
    requires a.DropCallback? && u == Step(w, a)
    ensures u.pending == w.pending && u.consents == w.consents
    ensures u.statesSeen == w.statesSeen && u.consentsSeen == w.consentsSeen && u.arsSeen == w.arsSeen
  {
  }

  lemma {:induction false} IdentifyKeeps(w: World, a: Action, u: World)
    requires a.Identify? && u == Step(w, a)
    ensures u.pending == w.pending && u.consents == w.consents
    ensures u.statesSeen == w.statesSeen && u.consentsSeen == w.consentsSeen && u.arsSeen == w.arsSeen
  {
    var v := Acted(w, a);
    assert v.pending == w.pending && v.consents == w.consents;
  }

  lemma {:induction false} CodesKeep(w: World, a: Action, u: World)
    requires (a.Check? || a.Issue? || a.Bump?) && u == Step(w, a)
    ensures u.pending == w.pending && u.consents == w.consents
    ensures u.statesSeen == w.statesSeen && u.consentsSeen == w.consentsSeen && u.arsSeen == w.arsSeen
  {
  }

  lemma {:induction false} OthersShrink(w: World, a: Action, u: World)
    requires !a.Authorize? && !a.FinishCallback? && u == Step(w, a)
    ensures u.pending.Keys <= w.pending.Keys && u.consents.Keys <= w.consents.Keys
    ensures u.statesSeen == w.statesSeen && u.consentsSeen == w.consentsSeen && u.arsSeen == w.arsSeen
  {
    if a.TakeLogin? || a.TakeConsent? {
      TakesShrink(w, a, u);
    } else if a.DropCallback? {
      DropKeeps(w, a, u);
    } else if a.Identify? {
      IdentifyKeeps(w, a, u);
    } else {
      CodesKeep(w, a, u);
    }
  }

  /** Keys are only added by parking, and are remembered. */
  lemma {:induction false} KeysAfter(w: World, a: Action, u: World)
    requires u == Step(w, a)
    ensures u.pending.Keys <= w.pending.Keys + if a.Authorize? then {a.state} else {}
    ensures u.consents.Keys <= w.consents.Keys + if a.FinishCallback? then {a.id} else {}
    ensures w.statesSeen <= u.statesSeen && w.consentsSeen <= u.consentsSeen && w.arsSeen <= u.arsSeen
    ensures KeysSeen(w) ==> KeysSeen(u)
  {
    if a.Authorize? {
      AuthorizeAdds(w, a, u);
    } else if a.FinishCallback? {
      FinishAdds(w, a, u);
    } else {
      OthersShrink(w, a, u);
    }
  }

  /** What a step does to the tickets. */
  ghost predicate Moved(w: World, a: Action, u: World) {
    && (forall p :: TicketAt(u, p).Some? ==> CameFrom(w, a, p, TicketAt(u, p).value))
    && (forall p, q :: Target(w, a) == Some(p) && Origin(a) == Some(q) && p != q && TicketAt(u, p).Some? ==>
         TicketAt(u, q).None?)
    && w.arsSeen <= u.arsSeen && (a.Authorize? ==> a.ar !in w.arsSeen && a.ar in u.arsSeen)
  }

  lemma {:induction false} StepMoves(w: World, a: Action, u: World)
    requires KeysSeen(w) && Allowed(w, a) && u == Step(w, a)
    ensures Moved(w, a, u)
  {
    KeysAfter(w, a, u);
    if a.Authorize? { AuthorizeAdds(w, a, u); }
    forall p | TicketAt(u, p).Some? ensures CameFrom(w, a, p, TicketAt(u, p).value) {
      StepFills(w, a, p);
    }
    forall p, q | Target(w, a) == Some(p) && Origin(a) == Some(q) && p != q && TicketAt(u, p).Some?
      ensures TicketAt(u, q).None?
    {
      OriginEmptied(w, a, p, q);
    }
  }

  /** Where a ticket was before the step; None for a new request. */
  function Before(w: World, a: Action, p: Place): Option<Place> {
    if Target(w, a) == Some(p) then Origin(a) else Some(p)
  }

  lemma {:induction false} SameRequest(w: World, a: Action, u: World, p: Place)
    requires Moved(w, a, u) && TicketAt(u, p).Some?
    ensures var ar := TicketAt(u, p).value.login.ar;
            match Before(w, a, p)
            case None => a.Authorize? && ar == a.ar
            case Some(q) => TicketAt(w, q).Some? && TicketAt(w, q).value.login.ar == ar
  {
    assert CameFrom(w, a, p, TicketAt(u, p).value);
  }

  lemma {:induction false} MovedKeepsOnePlace(w: World, a: Action, u: World)
    requires OnePlace(w) && Moved(w, a, u)
    ensures OnePlace(u)
  {
    forall p | TicketAt(u, p).Some? ensures TicketAt(u, p).value.login.ar in u.arsSeen {
      SameRequest(w, a, u, p);
    }
    forall p, q | SameAr(u, p, q) ensures p == q {
      SameRequest(w, a, u, p);
      SameRequest(w, a, u, q);
      var b, c := Before(w, a, p), Before(w, a, q);
      assert b.Some? && c.Some? ==> SameAr(w, b.value, c.value);
    }
  }

  /** An authorization request stays in at most one place. */
  lemma {:induction false} StepKeepsOnePlace(w: World, a: Action)
    requires OnePlace(w) && KeysSeen(w) && Allowed(w, a)
    ensures OnePlace(Step(w, a)) && KeysSeen(Step(w, a))
  {
    StepMoves(w, a, Step(w, a));
    MovedKeepsOnePlace(w, a, Step(w, a));
    KeysAfter(w, a, Step(w, a));
  }

  // ---- The bound

  lemma {:induction false} FreshCounts(w: World, now: Time)
    ensures |FreshLogins(w.pending, now)| <= |w.pending| && |FreshConsents(w.consents, now)| <= |w.consents|
  {
    SubmapSize(FreshLogins(w.pending, now), w.pending);
    SubmapSize(FreshConsents(w.consents, now), w.consents);
  }

  lemma {:induction false} KeysBound<K>(a: set<K>, b: set<K>)
    requires a <= b
    ensures |a| <= |b|
  {
    if a != {} {
      var x :| x in a;
      KeysBound(a - {x}, b - {x});
    }
  }

  lemma {:induction false} SubmapSize<K, V>(a: map<K, V>, b: map<K, V>)
    requires a.Keys <= b.Keys
    ensures |a| <= |b|
  {
    KeysBound(a.Keys, b.Keys);
    assert |a| == |a.Keys| && |b| == |b.Keys|;
  }

  lemma {:induction false} StepKeepsBound(w: World, a: Action)
    requires |w.pending| + |w.consents| <= MAX_PENDING
    ensures |Step(w, a).pending| + |Step(w, a).consents| <= MAX_PENDING
  {
    if a.Authorize? || a.FinishCallback? {
      ParkingKeepsBound(w, a);
    } else {
      OthersShrink(w, a, Step(w, a));
      SubmapSize(Step(w, a).pending, w.pending);
      SubmapSize(Step(w, a).consents, w.consents);
    }
  }

  lemma {:induction false} ParkingKeepsBound(w: World, a: Action)
    requires |w.pending| + |w.consents| <= MAX_PENDING && (a.Authorize? || a.FinishCallback?)
    ensures |Step(w, a).pending| + |Step(w, a).consents| <= MAX_PENDING
  {
    FreshCounts(w, a.now);
    var live, kept := FreshLogins(w.pending, a.now), FreshConsents(w.consents, a.now);
    if a.Authorize? {
      OneMoreKey(live, a.state, Login(a.ar, a.now));
    } else if a.thread in w.callbacks {
      OneMoreKey(kept, a.id, Consent(w.callbacks[a.thread], a.csrf, a.now));
    }
  }

  lemma {:induction false} OneMoreKey<K, V>(m: map<K, V>, k: K, v: V)
    ensures |m[k := v]| <= |m| + 1
  {
    assert m[k := v].Keys == m.Keys + {k};
    assert |m[k := v]| == |m[k := v].Keys| && |m| == |m.Keys|;
  }

  // ---- Whole runs

  function Start(allowlist: set<string>, gens: map<string, int>): World {
    World(map[], map[], map[], map[], map[], [], allowlist, gens, 0, {}, {}, {})
  }

  function Run(start: World, run: seq<Action>): World {
    if run == [] then start else Step(Run(start, run[..|run| - 1]), run[|run| - 1])
  }

  ghost predicate AllowedRun(start: World, run: seq<Action>) {
    run == [] || (AllowedRun(start, run[..|run| - 1]) && Allowed(Run(start, run[..|run| - 1]), run[|run| - 1]))
  }

  ghost predicate Safe(w: World) {
    |w.pending| + |w.consents| <= MAX_PENDING && OnePlace(w) && KeysSeen(w)
  }

  /** Over every interleaving: bounded parking, and every authorization request in at most one place. */
  lemma {:induction false} EveryRunIsSafe(start: World, run: seq<Action>)
    requires start == Start(start.allowlist, start.gens) && AllowedRun(start, run)
    ensures Safe(Run(start, run)) && Run(start, run).step == |run| && Run(start, run).allowlist == start.allowlist
  {
    if run == [] {
      assert forall p :: TicketAt(start, p).None?;
    } else {
      var w, a := Run(start, run[..|run| - 1]), run[|run| - 1];
      EveryRunIsSafe(start, run[..|run| - 1]);
      StepKeepsBound(w, a);
      StepKeepsOnePlace(w, a);
    }
  }

  lemma {:induction false} OnePlaceOneCode(w: World)
    requires OnePlace(w)
    ensures forall i, j :: 0 <= i < j < |w.issued| ==> w.issued[i].login.ar != w.issued[j].login.ar
  {
    forall i, j | 0 <= i < j < |w.issued| ensures w.issued[i].login.ar != w.issued[j].login.ar {
      assert SameAr(w, Done(i), Done(j)) <==> w.issued[i].login.ar == w.issued[j].login.ar;
    }
  }

  /** So each authorization request yields at most one code. */
  lemma {:induction false} OneCodePerRequest(start: World, run: seq<Action>, w: World)
    requires start == Start(start.allowlist, start.gens) && AllowedRun(start, run) && w == Run(start, run)
    ensures forall i, j :: 0 <= i < j < |w.issued| ==> w.issued[i].login.ar != w.issued[j].login.ar
  {
    EveryRunIsSafe(start, run);
    OnePlaceOneCode(w);
  }

  // ---- Where a code comes from

  /** The reading was made by a callback of the run, for an allowlisted user, at the generation of that moment. */
  ghost predicate ReadInRun(start: World, run: seq<Action>, r: Reading) {
    && r.at < |run| && run[r.at].Identify? && run[r.at].user == r.user && r.user in start.allowlist
    && r.gen == CurrentGen(Run(start, run[..r.at]).gens, r.user)
  }

  /** The session was accepted by a check of the run. */
  ghost predicate CheckedInRun(start: World, run: seq<Action>, t: Ticket) {
    && t.reading.Some? && t.checkedAt.Some? && t.checkedAt.value < |run| && run[t.checkedAt.value].Check?
    && t.reading.value.at < t.checkedAt.value
    && Passes(Run(start, run[..t.checkedAt.value]), t)
  }

  /** Whatever a ticket claims, the run did. */
  ghost predicate Traced(start: World, run: seq<Action>, t: Ticket) {
    && (t.takenAt.Some? ==> !Expired(t.login.created, t.takenAt.value))
    && (t.reading.Some? ==> ReadInRun(start, run, t.reading.value))
    && (t.approvedAt.Some? ==> t.askedAt.Some? && !Expired(t.askedAt.value, t.approvedAt.value))
    && (t.checkedAt.Some? ==> CheckedInRun(start, run, t))
  }

  /** How far a ticket has come at each place. */
  predicate Staged(p: Place, t: Ticket) {
    && (t.takenAt.Some? <==> !p.Parked?)
    && (t.reading.None? ==> p.Parked? || p.Calling?)
    && (t.askedAt.Some? <==> !p.Parked? && !p.Calling?)
    && (t.approvedAt.Some? <==> p.Approving? || p.Clearing? || p.Done?)
    && (t.checkedAt.Some? <==> p.Clearing? || p.Done?)
  }

  ghost predicate AllTraced(start: World, run: seq<Action>, w: World) {
    forall p :: TicketAt(w, p).Some? ==> Traced(start, run, TicketAt(w, p).value) && Staged(p, TicketAt(w, p).value)
  }

  lemma {:induction false} TracedLater(start: World, run: seq<Action>, a: Action, t: Ticket)
    requires Traced(start, run, t)
    ensures Traced(start, run + [a], t)
  {
    var more := run + [a];
    if t.reading.Some? { assert more[..t.reading.value.at] == run[..t.reading.value.at]; }
    if t.checkedAt.Some? { assert more[..t.checkedAt.value] == run[..t.checkedAt.value]; }
  }

  /** An advanced ticket is traced: what the action added, the run has just done. */
  lemma {:induction false} AdvanceIsTraced(start: World, run: seq<Action>, w: World, a: Action, q: Place,
                                           was: Ticket, t: Ticket)
    requires w == Run(start, run) && w.step == |run| && w.allowlist == start.allowlist
    requires Traced(start, run, was) && Origin(a) == Some(q) && Staged(q, was) && Advances(w, a, was, t)
    ensures Traced(start, run + [a], t)
  {
    var more := run + [a];
    assert more[..|run|] == run && more[|run|] == a;
    TracedLater(start, run, a, was);
  }

  lemma {:induction false} AdvanceIsStaged(w: World, a: Action, p: Place, q: Place, was: Ticket, t: Ticket)
    requires Target(w, a) == Some(p) && Origin(a) == Some(q) && Staged(q, was) && Advances(w, a, was, t)
    ensures Staged(p, t)
  {
  }

  lemma {:induction false} MovedIsTraced(start: World, run: seq<Action>, w: World, a: Action, u: World, p: Place)
    requires w == Run(start, run) && w.step == |run| && w.allowlist == start.allowlist
    requires AllTraced(start, run, w) && Moved(w, a, u) && TicketAt(u, p).Some?
    ensures Traced(start, run + [a], TicketAt(u, p).value) && Staged(p, TicketAt(u, p).value)
  {
    var t := TicketAt(u, p).value;
    assert CameFrom(w, a, p, t);
    if Target(w, a) != Some(p) {
      TracedLater(start, run, a, t);
    } else if Origin(a).Some? {
      var q := Origin(a).value;
      AdvanceIsTraced(start, run, w, a, q, TicketAt(w, q).value, t);
      AdvanceIsStaged(w, a, p, q, TicketAt(w, q).value, t);
    }
  }

  lemma {:induction false} MovedKeepsTraced(start: World, run: seq<Action>, w: World, a: Action, u: World)
    requires w == Run(start, run) && w.step == |run| && w.allowlist == start.allowlist
    requires AllTraced(start, run, w) && Moved(w, a, u)
    ensures AllTraced(start, run + [a], u)
  {
    forall p | TicketAt(u, p).Some?
      ensures Traced(start, run + [a], TicketAt(u, p).value) && Staged(p, TicketAt(u, p).value) {
      MovedIsTraced(start, run, w, a, u, p);
    }
  }

  lemma {:induction false} EveryTicketIsTraced(start: World, run: seq<Action>)
    requires start == Start(start.allowlist, start.gens) && AllowedRun(start, run)
    ensures AllTraced(start, run, Run(start, run))
  {
    if run == [] {
      assert forall p :: TicketAt(start, p).None?;
    } else {
      var init, a := run[..|run| - 1], run[|run| - 1];
      var w := Run(start, init);
      EveryTicketIsTraced(start, init);
      EveryRunIsSafe(start, init);
      StepMoves(w, a, Step(w, a));
      MovedKeepsTraced(start, init, w, a, Step(w, a));
      assert run == init + [a];
    }
  }

  predicate Revokes(a: Action, user: string) { a.Bump? && Reaches(a.user, user) && a.user != "" }

  lemma {:induction false} GenStep(w: World, a: Action, user: string)
    requires user != ""
    ensures CurrentGen(Step(w, a).gens, user) == CurrentGen(w.gens, user) + if Revokes(a, user) then 1 else 0
  {
  }

  function GenAt(start: World, run: seq<Action>, user: string): nat -> int {
    (k: nat) => if k <= |run| then CurrentGen(Run(start, run[..k]).gens, user) else 0
  }

  function RevokesAt(run: seq<Action>, user: string): nat -> bool { (k: nat) => k < |run| && Revokes(run[k], user) }

  lemma {:induction false} GenMoves(start: World, run: seq<Action>, user: string, k: nat)
    requires user != "" && k < |run|
    ensures GenAt(start, run, user)(k + 1) == GenAt(start, run, user)(k) + if RevokesAt(run, user)(k) then 1 else 0
  {
    assert run[..k + 1][..k] == run[..k];
    GenStep(Run(start, run[..k]), run[k], user);
  }

  /** Between two moments of a run a generation stays put exactly if no bump reaches the user. */
  lemma {:induction false} GenUnmovedIff(start: World, run: seq<Action>, n: nat, m: nat, user: string)
    requires n <= m <= |run| && user != ""
    ensures CurrentGen(Run(start, run[..n]).gens, user) == CurrentGen(Run(start, run[..m]).gens, user)
            <==> forall k: nat :: n <= k < m ==> !Revokes(run[k], user)
  {
    var g, hit := GenAt(start, run, user), RevokesAt(run, user);
    forall k: nat | k < m ensures g(k + 1) == g(k) + if hit(k) then 1 else 0 {
      GenMoves(start, run, user, k);
    }
    CounterUnmovedIff(g, hit, n, m);
    assert forall k: nat :: n <= k < m ==> (hit(k) <==> Revokes(run[k], user));
  }

  /** Every code goes back to an unexpired login, to a callback that read the generation of an allowlisted user, to a
      consent given in time, and to a check; and no bump of the user or of "*" lies between the read and the check. */
  lemma {:induction false} CodesAreUnrevoked(start: World, run: seq<Action>, n: nat)
    requires start == Start(start.allowlist, start.gens) && AllowedRun(start, run) && n < |Run(start, run).issued|
    ensures var t := Run(start, run).issued[n];
            && Traced(start, run, t) && Staged(Done(n), t)
            && forall k: nat :: t.reading.value.at <= k < t.checkedAt.value ==> !Revokes(run[k], t.reading.value.user)
  {
    EveryTicketIsTraced(start, run);
    var t := Run(start, run).issued[n];
    assert TicketAt(Run(start, run), Done(n)) == Some(t);
    GenUnmovedIff(start, run, t.reading.value.at, t.checkedAt.value, t.reading.value.user);
  }

  /** A bump after the check does not stop the code, but at every moment from then on the session that the code was
      issued with is accepted exactly if no bump of the user or of "*" has come since the read. */
  lemma {:induction false} CodeWorksIff(start: World, run: seq<Action>, n: nat)
    requires start == Start(start.allowlist, start.gens) && AllowedRun(start, run) && n < |Run(start, run).issued|
    ensures var w := Run(start, run);
            var t := w.issued[n];
            t.reading.Some? && (Passes(w, t) <==>
              forall k: nat :: t.reading.value.at <= k < |run| ==> !Revokes(run[k], t.reading.value.user))
  {
    CodesAreUnrevoked(start, run, n);
    PassesIff(start, run, Run(start, run).issued[n]);
  }

  lemma {:induction false} PassesIff(start: World, run: seq<Action>, t: Ticket)
    requires t.reading.Some? && t.reading.value.user != "" && ReadInRun(start, run, t.reading.value)
    ensures Passes(Run(start, run), t) <==>
            forall k: nat :: t.reading.value.at <= k < |run| ==> !Revokes(run[k], t.reading.value.user)
  {
    assert run[..|run|] == run;
    GenUnmovedIff(start, run, t.reading.value.at, |run|, t.reading.value.user);
  }

  // ---- Getting through

  /** Not more than ten minutes old. */
  predicate InTime(created: Time, now: Time) { now <= created + 10 * 60 }

  predicate Room(w: World, now: Time) {
    |set k | k in w.pending && InTime(w.pending[k].created, now)|
    + |set k | k in w.consents && InTime(w.consents[k].created, now)| < 100
  }

  /** What an action needs to take a sign-in one place further. */
  predicate Goes(w: World, a: Action) {
    match a
    case Authorize(_, _, now) => Room(w, now)
    case TakeLogin(state, now, _) => state in w.pending && InTime(w.pending[state].created, now)
    case Identify(thread, user) => thread in w.callbacks && user in w.allowlist
    case FinishCallback(thread, _, _, now) =>
      thread in w.callbacks && w.callbacks[thread].reading.Some? && Room(w, now)
    case TakeConsent(id, now, form, cookie, approve, _) =>
      approve && id in w.consents && InTime(w.consents[id].created, now)
      && form == w.consents[id].csrf && cookie == Some(w.consents[id].csrf)
    case Check(thread) => thread in w.approvals && Passes(w, w.approvals[thread])
    case Issue(thread, ok) => ok && thread in w.cleared
    case _ => false
  }

  lemma {:induction false} RoomIff(w: World, now: Time)
    ensures Room(w, now) <==> !Full(w.pending, w.consents, now)
  {
    assert FreshLogins(w.pending, now).Keys == set k | k in w.pending && InTime(w.pending[k].created, now);
    assert FreshConsents(w.consents, now).Keys == set k | k in w.consents && InTime(w.consents[k].created, now);
    assert |FreshLogins(w.pending, now).Keys| == |FreshLogins(w.pending, now)|;
    assert |FreshConsents(w.consents, now).Keys| == |FreshConsents(w.consents, now)|;
  }

  /** An action fills its place exactly if it has what it needs. */
  lemma {:induction false} GoesIff(w: World, a: Action, p: Place)
    requires KeysSeen(w) && Allowed(w, a) && Target(w, a) == Some(p)
    ensures TicketAt(Step(w, a), p).Some? <==> Goes(w, a)
  {
    match a
    case Authorize(_, _, now) => RoomIff(w, now);
    case FinishCallback(_, _, _, now) => RoomIff(w, now);
    case _ =>
  }

  /** An action that takes, drops or ages out what is at a place. */
  predicate Disturbs(w: World, a: Action, p: Place) {
    match a
    case Authorize(_, _, now) => AgesOut(w, p, now)
    case TakeLogin(state, _, _) => p == Parked(state)
    case DropCallback(thread) => p == Calling(thread)
    case Identify(thread, _) => p == Calling(thread)
    case FinishCallback(thread, _, _, now) => p == Calling(thread) || AgesOut(w, p, now)
    case TakeConsent(id, _, _, _, _, _) => p == Asking(id)
    case Check(thread) => p == Approving(thread)
    case Issue(thread, _) => p == Clearing(thread)
    case Bump(_) => false
  }

  predicate AgesOut(w: World, p: Place, now: Time) {
    match p
    case Parked(state) => state in w.pending && !InTime(w.pending[state].created, now)
    case Asking(id) => id in w.consents && !InTime(w.consents[id].created, now)
    case _ => false
  }

  lemma {:induction false} Undisturbed(w: World, a: Action, p: Place)
    requires KeysSeen(w) && Allowed(w, a) && TicketAt(w, p).Some? && !Disturbs(w, a, p)
    ensures TicketAt(Step(w, a), p) == TicketAt(w, p)
  {
    match p
    case Parked(_) => UndisturbedKey(w, a, p);
    case Asking(_) => UndisturbedKey(w, a, p);
    case _ => UndisturbedThread(w, a, p);
  }

  lemma {:induction false} UndisturbedKey(w: World, a: Action, p: Place)
    requires KeysSeen(w) && Allowed(w, a) && TicketAt(w, p).Some? && !Disturbs(w, a, p) && (p.Parked? || p.Asking?)
    ensures TicketAt(Step(w, a), p) == TicketAt(w, p)
  {
    match a
    case Authorize(_, _, _) => AuthorizeSpares(w, a, p);
    case FinishCallback(_, _, _, _) => FinishSpares(w, a, p);
    case TakeLogin(_, _, _) =>
    case TakeConsent(_, _, _, _, _, _) =>
    case DropCallback(_) => DropKeeps(w, a, Step(w, a));
    case Identify(_, _) => IdentifyKeeps(w, a, Step(w, a));
    case _ => CodesKeep(w, a, Step(w, a));
  }

  lemma {:induction false} AuthorizeSpares(w: World, a: Action, p: Place)
    requires KeysSeen(w) && Allowed(w, a) && a.Authorize? && !AgesOut(w, p, a.now) && (p.Parked? || p.Asking?)
    requires TicketAt(w, p).Some?
    ensures TicketAt(Step(w, a), p) == TicketAt(w, p)
  {
    match p
    case Parked(state) => assert Get(FreshLogins(w.pending, a.now), state) == Get(w.pending, state);
    case Asking(id) => assert Get(FreshConsents(w.consents, a.now), id) == Get(w.consents, id);
  }

  lemma {:induction false} FinishSpares(w: World, a: Action, p: Place)
    requires KeysSeen(w) && Allowed(w, a) && a.FinishCallback? && !AgesOut(w, p, a.now) && (p.Parked? || p.Asking?)
    requires TicketAt(w, p).Some?
    ensures TicketAt(Step(w, a), p) == TicketAt(w, p)
  {
    match p
    case Parked(state) => assert Get(FreshLogins(w.pending, a.now), state) == Get(w.pending, state);
    case Asking(id) => assert Get(FreshConsents(w.consents, a.now), id) == Get(w.consents, id);
  }

  lemma {:induction false} UndisturbedThread(w: World, a: Action, p: Place)
    requires Allowed(w, a) && TicketAt(w, p).Some? && !Disturbs(w, a, p) && !p.Parked? && !p.Asking?
    ensures TicketAt(Step(w, a), p) == TicketAt(w, p)
  {
    if a.Identify? {
      IdentifySpares(w, a, p);
    } else if a.FinishCallback? {
      FinishSparesThreads(w, a, p);
    }
  }

  lemma {:induction false} IdentifySpares(w: World, a: Action, p: Place)
    requires a.Identify? && p != Calling(a.thread) && !p.Parked? && !p.Asking?
    ensures TicketAt(Step(w, a), p) == TicketAt(w, p)
  {
  }

  lemma {:induction false} FinishSparesThreads(w: World, a: Action, p: Place)
    requires a.FinishCallback? && p != Calling(a.thread) && !p.Parked? && !p.Asking?
    ensures TicketAt(Step(w, a), p) == TicketAt(w, p)
  {
  }

  /** No action from m on disturbs the place. */
  ghost predicate Quiet(start: World, run: seq<Action>, m: nat, p: Place) {
    forall k: nat :: m <= k < |run| ==> !Disturbs(Run(start, run[..k]), run[k], p)
  }

  lemma {:induction false} QuietPrefix(start: World, run: seq<Action>, m: nat, p: Place)
    requires m < |run| && Quiet(start, run, m, p)
    ensures var init := run[..|run| - 1];
            Quiet(start, init, m, p) && !Disturbs(Run(start, init), run[|run| - 1], p)
  {
    var last := |run| - 1;
    var init := run[..last];
    assert !Disturbs(Run(start, run[..last]), run[last], p);
    forall k: nat | m <= k < last ensures !Disturbs(Run(start, init[..k]), init[k], p) {
      assert init[..k] == run[..k] && init[k] == run[k];
    }
  }

  /** A sign-in waits where it is, whatever the others do. */
  lemma {:induction false} TicketWaits(start: World, run: seq<Action>, m: nat, p: Place)
    requires start == Start(start.allowlist, start.gens) && AllowedRun(start, run) && m <= |run|
    requires TicketAt(Run(start, run[..m]), p).Some? && Quiet(start, run, m, p)
    ensures TicketAt(Run(start, run), p) == TicketAt(Run(start, run[..m]), p)
  {
    if m == |run| {
      assert run[..m] == run;
    } else {
      var init := run[..|run| - 1];
      assert init[..m] == run[..m];
      QuietPrefix(start, run, m, p);
      TicketWaits(start, init, m, p);
      EveryRunIsSafe(start, init);
      Undisturbed(Run(start, init), run[|run| - 1], p);
    }
  }

  // ---- Single use

  /** A key that was used up. */
  ghost predicate SpentState(w: World, s: string) { s in w.statesSeen && s !in w.pending }
  ghost predicate SpentConsent(w: World, id: string) { id in w.consentsSeen && id !in w.consents }

  lemma {:induction false} StepKeepsSpent(w: World, a: Action, u: World, key: string)
    requires Allowed(w, a) && u == Step(w, a)
    ensures SpentState(w, key) ==> SpentState(u, key)
    ensures SpentConsent(w, key) ==> SpentConsent(u, key)
  {
    KeysAfter(w, a, u);
  }

  lemma {:induction false} SpentForever(start: World, run: seq<Action>, n: nat, key: string)
    requires AllowedRun(start, run) && n <= |run|
    ensures SpentState(Run(start, run[..n]), key) ==> SpentState(Run(start, run), key)
    ensures SpentConsent(Run(start, run[..n]), key) ==> SpentConsent(Run(start, run), key)
  {
    if n == |run| {
      assert run[..n] == run;
    } else {
      var init := run[..|run| - 1];
      assert init[..n] == run[..n];
      SpentForever(start, init, n, key);
      StepKeepsSpent(Run(start, init), run[|run| - 1], Run(start, run), key);
    }
  }

  lemma {:induction false} TakenIsSpent(w: World, a: Action, u: World, key: string)
    requires u == Step(w, a)
    ensures a.TakeLogin? && a.state == key && key in w.statesSeen ==> SpentState(u, key)
    ensures a.TakeConsent? && a.id == key && key in w.consentsSeen ==> SpentConsent(u, key)
  {
  }

  /** A state or consent id that a handler took, whatever the outcome, yields nothing to any later handler. */
  lemma {:induction false} KeysAreSingleUse(start: World, run: seq<Action>, n: nat, key: string)
    requires AllowedRun(start, run) && n < |run|
    requires run[n].TakeLogin? || run[n].TakeConsent?
    requires if run[n].TakeLogin? then run[n].state == key && key in Run(start, run[..n]).statesSeen
             else run[n].id == key && key in Run(start, run[..n]).consentsSeen
    ensures run[n].TakeLogin? ==> key !in Run(start, run).pending
    ensures run[n].TakeConsent? ==> key !in Run(start, run).consents
  {
    var w := Run(start, run[..n]);
    assert run[..n + 1][..n] == run[..n];
    assert Run(start, run[..n + 1]) == Step(w, run[n]);
    TakenIsSpent(w, run[n], Step(w, run[n]), key);
    SpentForever(start, run, n + 1, key);
  }
}
