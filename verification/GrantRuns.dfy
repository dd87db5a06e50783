/** Invariants of the OAuth tables over every run of storage actions, in any interleaving. */
module GrantRuns {
  import opened Prelude
  import opened OAuthTables
  import opened OAuthStorage

  /** One committed transaction or statement. */
  datatype Action =
    | IssueCode(sig: Sig, req: Request)
    | IssuePkce(sig: Sig, req: Request)
    | Delete(table: Table, sig: Sig)
    | Exchange(code: Sig, access: Sig, accessReq: Request, refresh: Sig, refreshReq: Request)
    | Refresh(requestId: string, token: Sig, access: Sig, accessReq: Request, refresh: Sig, refreshReq: Request)
    | RevokeRefresh(requestId: string)
    | RevokeAccess(requestId: string)
    | Prune(now: Time)
    | Bump(user: string)
    | Register(client: Client, public: bool, now: Time)

  ghost function Effect(t: Tables, a: Action): Result<Tables> {
    match a
    case IssueCode(sig, req) => Created(t, Codes, sig, req)
    case IssuePkce(sig, req) => Created(t, Pkce, sig, req)
    case Delete(table, sig) => Ok(Deleted(t, table, sig))
    case Exchange(code, access, accessReq, refresh, refreshReq) =>
      Exchanged(t, code, access, accessReq, refresh, refreshReq)
    case Refresh(rid, token, access, accessReq, refresh, refreshReq) =>
      Refreshed(t, rid, token, access, accessReq, refresh, refreshReq)
    case RevokeRefresh(rid) => Ok(RefreshRevoked(t, rid))
    case RevokeAccess(rid) => Ok(AccessRevoked(t, rid))
    case Prune(now) => Ok(Pruned(t, now))
    case Bump(user) => Bumped(t, user)
    case Register(c, public, now) => Registered(t, c, public, now)
  }

  /** broken: the commit failed, or the process died before it. */
  datatype Event = Event(action: Action, broken: bool)

  /** The tables, and every code and refresh signature ever stored with the request it was stored for. */
  datatype World = World(t: Tables, codesSeen: map<Sig, string>, refreshSeen: map<Sig, string>)

  ghost predicate Succeeds(w: World, e: Event) {
    !e.broken && Effect(w.t, e.action).Ok?
  }

  ghost function Step(w: World, e: Event): World {
    if !Succeeds(w, e) then w
    else
      var u := Effect(w.t, e.action).value;
      match e.action
      case IssueCode(sig, req) => World(u, w.codesSeen[sig := req.id], w.refreshSeen)
      case Exchange(_, _, _, refresh, req) => World(u, w.codesSeen, w.refreshSeen[refresh := req.id])
      case Refresh(_, _, _, _, refresh, req) => World(u, w.codesSeen, w.refreshSeen[refresh := req.id])
      case _ => w.(t := u)
  }

  ghost predicate SessionRead(t: Tables, req: Request) {
    req.session.Some? && req.session.value.gen.GenInt? ==>
      req.session.value.gen.n <= CurrentGen(t.gens, req.session.value.subject)
  }

  /** What fosite and the random generator guarantee: fresh code and token signatures, a fresh request id per code,
      the request id of the code or token for what it is exchanged for, and generations that were read earlier. */
  ghost predicate Allowed(w: World, a: Action) {
    match a
    case IssueCode(sig, req) => sig !in w.codesSeen && req.id !in w.codesSeen.Values && SessionRead(w.t, req)
    case IssuePkce(_, req) => SessionRead(w.t, req)
    case Exchange(code, access, accessReq, refresh, refreshReq) =>
      && (code in w.codesSeen ==> accessReq.id == w.codesSeen[code] && refreshReq.id == w.codesSeen[code])
      && refresh !in w.refreshSeen
      && SessionRead(w.t, accessReq) && SessionRead(w.t, refreshReq)
    case Refresh(rid, token, access, accessReq, refresh, refreshReq) =>
      && accessReq.id == rid && refreshReq.id == rid
      && refresh !in w.refreshSeen
      && SessionRead(w.t, accessReq) && SessionRead(w.t, refreshReq)
    case _ => true
  }

  // ---- Linear grants

  /** At most one active refresh token and one access token per grant. */
  ghost predicate Linear(t: Tables) {
    && (forall a, b | a in t.refresh && b in t.refresh && t.refresh[a].active && t.refresh[b].active ::
          t.refresh[a].requestId == t.refresh[b].requestId ==> a == b)
    && (forall a, b | a in t.access && b in t.access :: t.access[a].requestId == t.access[b].requestId ==> a == b)
  }

  /** A grant whose code is unused has no tokens. */
  ghost predicate Unredeemed(t: Tables) {
    forall c :: c in t.codes && t.codes[c].active ==>
      && (forall s :: s in t.access ==> t.access[s].requestId != t.codes[c].requestId)
      && (forall s :: s in t.refresh ==> t.refresh[s].requestId != t.codes[c].requestId)
  }

  ghost predicate Recorded(w: World) {
    && (forall c :: c in w.t.codes ==> c in w.codesSeen && w.codesSeen[c] == w.t.codes[c].requestId)
    && (forall s :: s in w.t.refresh ==> s in w.refreshSeen && w.refreshSeen[s] == w.t.refresh[s].requestId)
    && (forall a, b :: a in w.codesSeen && b in w.codesSeen && w.codesSeen[a] == w.codesSeen[b] ==> a == b)
    && (forall s :: s in w.t.refresh ==> w.t.refresh[s].requestId in w.codesSeen.Values)
    && (forall s :: s in w.t.access ==> w.t.access[s].requestId in w.codesSeen.Values)
  }

  ghost predicate GrantsOk(w: World) { Linear(w.t) && Unredeemed(w.t) && Recorded(w) }

  /** Rows only disappear or become inactive. */
  ghost predicate Shrinks(small: map<Sig, Row>, big: map<Sig, Row>) {
    forall s :: s in small ==> s in big && (small[s] == big[s] || small[s] == big[s].(active := false))
  }

  lemma {:induction false} ShrinkKeepsLinear(t: Tables, u: Tables)
    requires Linear(t) && Shrinks(u.access, t.access) && Shrinks(u.refresh, t.refresh)
    ensures Linear(u)
  {
  }

  lemma {:induction false} ShrinkKeepsUnredeemed(t: Tables, u: Tables)
    requires Unredeemed(t) && Shrinks(u.codes, t.codes) && Shrinks(u.access, t.access) && Shrinks(u.refresh, t.refresh)
    ensures Unredeemed(u)
  {
  }

  lemma {:induction false} ShrinkKeepsRecorded(w: World, u: Tables)
    requires Recorded(w)
    requires Shrinks(u.codes, w.t.codes) && Shrinks(u.access, w.t.access) && Shrinks(u.refresh, w.t.refresh)
    ensures Recorded(w.(t := u))
  {
  }

  lemma {:induction false} ShrinkKeepsGrants(w: World, u: Tables)
    requires GrantsOk(w)
    requires Shrinks(u.codes, w.t.codes) && Shrinks(u.access, w.t.access) && Shrinks(u.refresh, w.t.refresh)
    ensures GrantsOk(w.(t := u))
  {
    ShrinkKeepsLinear(w.t, u);
    ShrinkKeepsUnredeemed(w.t, u);
    ShrinkKeepsRecorded(w, u);
  }

  /** The tables between invalidate-or-rotate and create: the grant holds nothing. */
  ghost predicate Cleared(t: Tables, rid: string) {
    && (forall s :: s in t.access ==> t.access[s].requestId != rid)
    && (forall s :: s in t.refresh && t.refresh[s].active ==> t.refresh[s].requestId != rid)
    && (forall c :: c in t.codes && t.codes[c].active ==> t.codes[c].requestId != rid)
  }

  lemma {:induction false} AccessKeepsGrants(w: World, sig: Sig, req: Request)
    requires GrantsOk(w) && Cleared(w.t, req.id) && req.id in w.codesSeen.Values
    requires Created(w.t, Table.Access, sig, req).Ok?
    ensures GrantsOk(w.(t := Created(w.t, Table.Access, sig, req).value))
  {
    var u := Created(w.t, Table.Access, sig, req).value;
    assert u.codes == w.t.codes && u.refresh == w.t.refresh;
    assert forall s :: s in u.access ==> s == sig || (s in w.t.access && u.access[s] == w.t.access[s]);
  }

  lemma {:induction false} RefreshKeepsGrants(w: World, sig: Sig, req: Request)
    requires GrantsOk(w) && req.id in w.codesSeen.Values && sig !in w.refreshSeen
    requires forall s :: s in w.t.refresh && w.t.refresh[s].active ==> w.t.refresh[s].requestId != req.id
    requires forall c :: c in w.t.codes && w.t.codes[c].active ==> w.t.codes[c].requestId != req.id
    requires Created(w.t, Table.Refresh, sig, req).Ok?
    ensures GrantsOk(World(Created(w.t, Table.Refresh, sig, req).value, w.codesSeen, w.refreshSeen[sig := req.id]))
  {
    var u := Created(w.t, Table.Refresh, sig, req).value;
    RefreshRecorded(w, sig, u.refresh[sig]);
    RefreshLinear(w.t, sig, u.refresh[sig]);
  }

  lemma {:induction false} RefreshRecorded(w: World, sig: Sig, row: Row)
    requires Recorded(w) && row.requestId in w.codesSeen.Values && sig !in w.refreshSeen
    ensures Recorded(World(w.t.(refresh := w.t.refresh[sig := row]), w.codesSeen, w.refreshSeen[sig := row.requestId]))
  {
  }

  lemma {:induction false} RefreshLinear(t: Tables, sig: Sig, row: Row)
    requires Linear(t) && Unredeemed(t)
    requires forall s :: s in t.refresh && t.refresh[s].active ==> t.refresh[s].requestId != row.requestId
    requires forall c :: c in t.codes && t.codes[c].active ==> t.codes[c].requestId != row.requestId
    ensures Linear(t.(refresh := t.refresh[sig := row])) && Unredeemed(t.(refresh := t.refresh[sig := row]))
  {
  }

  lemma {:induction false} IssueKeepsGrants(w: World, access: Sig, accessReq: Request, refresh: Sig,
          refreshReq: Request, rid: string)
    requires GrantsOk(w) && Cleared(w.t, rid) && rid in w.codesSeen.Values
    requires accessReq.id == rid && refreshReq.id == rid && refresh !in w.refreshSeen
    requires Issued(w.t, access, accessReq, refresh, refreshReq).Ok?
    ensures var u := Issued(w.t, access, accessReq, refresh, refreshReq).value;
            GrantsOk(World(u, w.codesSeen, w.refreshSeen[refresh := rid]))
  {
    var u := Created(w.t, Table.Access, access, accessReq).value;
    AccessKeepsGrants(w, access, accessReq);
    assert u.codes == w.t.codes && u.refresh == w.t.refresh;
    RefreshKeepsGrants(w.(t := u), refresh, refreshReq);
  }

  /** Every row of u is a row of t, perhaps made inactive. */
  ghost predicate RowsFrom(t: Tables, u: Tables) { forall table :: Shrinks(Rows(u, table), Rows(t, table)) }

  lemma {:induction false} DeletedRows(t: Tables, table: Table, sig: Sig)
    ensures RowsFrom(t, Deleted(t, table, sig))
  {
    forall other ensures Shrinks(Rows(Deleted(t, table, sig), other), Rows(t, other)) {
    }
  }

  lemma {:induction false} RevokedRows(t: Tables, rid: string)
    ensures RowsFrom(t, RefreshRevoked(t, rid)) && RowsFrom(t, AccessRevoked(t, rid))
  {
    forall table ensures Shrinks(Rows(RefreshRevoked(t, rid), table), Rows(t, table)) {
    }
    forall table ensures Shrinks(Rows(AccessRevoked(t, rid), table), Rows(t, table)) {
    }
  }

  lemma {:induction false} PrunedRows(t: Tables, now: Time)
    ensures RowsFrom(t, Pruned(t, now))
  {
    forall table ensures Shrinks(Rows(Pruned(t, now), table), Rows(t, table)) {
    }
  }

  lemma {:induction false} RegisteredRows(t: Tables, c: Client, public: bool, now: Time)
    requires Registered(t, c, public, now).Ok?
    ensures RowsFrom(t, Registered(t, c, public, now).value)
  {
    forall table ensures Shrinks(Rows(Registered(t, c, public, now).value, table), Rows(t, table)) {
    }
  }

  /** Actions that store no row. */
  predicate OnlyRemoves(a: Action) {
    a.Delete? || a.RevokeRefresh? || a.RevokeAccess? || a.Prune? || a.Bump? || a.Register?
  }

  lemma {:induction false} RemovalRows(t: Tables, a: Action)
    requires OnlyRemoves(a) && Effect(t, a).Ok?
    ensures RowsFrom(t, Effect(t, a).value)
  {
    match a
    case Delete(table, sig) => DeletedRows(t, table, sig);
    case RevokeRefresh(rid) => RevokedRows(t, rid);
    case RevokeAccess(rid) => RevokedRows(t, rid);
    case Prune(now) => PrunedRows(t, now);
    case Bump(_) =>
    case Register(c, public, now) => RegisteredRows(t, c, public, now);
  }

  lemma {:induction false} RemovalKeepsGrants(w: World, u: Tables)
    requires GrantsOk(w) && RowsFrom(w.t, u)
    ensures GrantsOk(w.(t := u))
  {
    assert Shrinks(Rows(u, Codes), Rows(w.t, Codes)) && Shrinks(Rows(u, Table.Access), Rows(w.t, Table.Access))
           && Shrinks(Rows(u, Table.Refresh), Rows(w.t, Table.Refresh));
    ShrinkKeepsGrants(w, u);
  }

  lemma {:induction false} ExchangeKeepsGrants(w: World, code: Sig, access: Sig, accessReq: Request, refresh: Sig,
          refreshReq: Request)
    requires GrantsOk(w) && Exchanged(w.t, code, access, accessReq, refresh, refreshReq).Ok?
    requires code in w.codesSeen ==> accessReq.id == w.codesSeen[code] && refreshReq.id == w.codesSeen[code]
    requires refresh !in w.refreshSeen
    ensures GrantsOk(World(Exchanged(w.t, code, access, accessReq, refresh, refreshReq).value, w.codesSeen,
                           w.refreshSeen[refresh := refreshReq.id]))
  {
    var u := Invalidated(w.t, code).value;
    ShrinkKeepsGrants(w, u);
    assert w.codesSeen[code] in w.codesSeen.Values;
    IssueKeepsGrants(w.(t := u), access, accessReq, refresh, refreshReq, w.codesSeen[code]);
  }

  lemma {:induction false} RotationKeepsGrants(w: World, rid: string, token: Sig, access: Sig, accessReq: Request,
                                               refresh: Sig, refreshReq: Request)
    requires GrantsOk(w) && Refreshed(w.t, rid, token, access, accessReq, refresh, refreshReq).Ok?
    requires accessReq.id == rid && refreshReq.id == rid && refresh !in w.refreshSeen
    ensures GrantsOk(World(Refreshed(w.t, rid, token, access, accessReq, refresh, refreshReq).value, w.codesSeen,
                           w.refreshSeen[refresh := rid]))
  {
    var u := Rotated(w.t, rid, token).value;
    ShrinkKeepsGrants(w, u);
    IssueKeepsGrants(w.(t := u), access, accessReq, refresh, refreshReq, rid);
  }

  lemma {:induction false} StepKeepsGrants(w: World, e: Event)
    requires GrantsOk(w) && Allowed(w, e.action)
    ensures GrantsOk(Step(w, e))
  {
    if Succeeds(w, e) {
      match e.action
      case IssueCode(sig, req) => CodeKeepsGrants(w, sig, req);
      case IssuePkce(_, _) => ShrinkKeepsGrants(w, Effect(w.t, e.action).value);
      case Exchange(code, access, accessReq, refresh, refreshReq) =>
        ExchangeKeepsGrants(w, code, access, accessReq, refresh, refreshReq);
      case Refresh(rid, token, access, accessReq, refresh, refreshReq) =>
        RotationKeepsGrants(w, rid, token, access, accessReq, refresh, refreshReq);
      case _ =>
        RemovalRows(w.t, e.action);
        RemovalKeepsGrants(w, Effect(w.t, e.action).value);
    }
  }

  lemma {:induction false} CodeKeepsGrants(w: World, sig: Sig, req: Request)
    requires GrantsOk(w) && sig !in w.codesSeen && req.id !in w.codesSeen.Values
    requires Created(w.t, Codes, sig, req).Ok?
    ensures GrantsOk(World(Created(w.t, Codes, sig, req).value, w.codesSeen[sig := req.id], w.refreshSeen))
  {
    var u := Created(w.t, Codes, sig, req).value;
    UnusedId(w, req.id);
    CodeRecorded(w, sig, u.codes[sig]);
    CodeUnredeemed(w.t, sig, u.codes[sig]);
  }

  lemma {:induction false} CodeRecorded(w: World, sig: Sig, row: Row)
    requires Recorded(w) && sig !in w.codesSeen && row.requestId !in w.codesSeen.Values
    ensures Recorded(World(w.t.(codes := w.t.codes[sig := row]), w.codesSeen[sig := row.requestId], w.refreshSeen))
  {
    var seen := w.codesSeen[sig := row.requestId];
    forall r | r in w.codesSeen.Values ensures r in seen.Values {
      var c :| c in w.codesSeen && w.codesSeen[c] == r;
      assert seen[c] == r;
    }
  }

  lemma {:induction false} CodeUnredeemed(t: Tables, sig: Sig, row: Row)
    requires Linear(t) && Unredeemed(t)
    requires forall s :: s in t.access ==> t.access[s].requestId != row.requestId
    requires forall s :: s in t.refresh ==> t.refresh[s].requestId != row.requestId
    ensures Linear(t.(codes := t.codes[sig := row])) && Unredeemed(t.(codes := t.codes[sig := row]))
  {
  }

  /** A request id that no code was stored for is on no token. */
  lemma {:induction false} UnusedId(w: World, id: string)
    requires GrantsOk(w) && id !in w.codesSeen.Values
    ensures forall s :: s in w.t.access ==> w.t.access[s].requestId != id
    ensures forall s :: s in w.t.refresh ==> w.t.refresh[s].requestId != id
  {
  }

  // ---- Runs

  const EMPTY := World(Tables([], map[], map[], map[], map[], map[]), map[], map[])

  ghost function Run(es: seq<Event>): World {
    if es == [] then EMPTY else Step(Run(es[..|es| - 1]), es[|es| - 1])
  }

  ghost predicate AllowedRun(es: seq<Event>) {
    es == [] || (AllowedRun(es[..|es| - 1]) && Allowed(Run(es[..|es| - 1]), es[|es| - 1].action))
  }

  /** In every reachable state every grant has at most one active refresh token and one access token. */
  lemma {:induction false} EveryRunIsLinear(es: seq<Event>)
    requires AllowedRun(es)
    ensures GrantsOk(Run(es))
  {
    if es != [] {
      EveryRunIsLinear(es[..|es| - 1]);
      StepKeepsGrants(Run(es[..|es| - 1]), es[|es| - 1]);
    }
  }

  /** Stored once, and not usable any more. */
  ghost predicate SpentCode(w: World, c: Sig) { c in w.codesSeen && (c !in w.t.codes || !w.t.codes[c].active) }
  ghost predicate SpentToken(w: World, s: Sig) { s in w.refreshSeen && (s !in w.t.refresh || !w.t.refresh[s].active) }

  /** Only issuing a code adds a code, and nothing reactivates one. */
  lemma {:induction false} CodesShrink(t: Tables, a: Action)
    requires Effect(t, a).Ok? && !a.IssueCode?
    ensures Shrinks(Effect(t, a).value.codes, t.codes)
  {
    match a
    case Exchange(code, access, accessReq, refresh, refreshReq) =>
      IssuedKeepsCodes(Invalidated(t, code).value, access, accessReq, refresh, refreshReq);
    case Refresh(rid, token, access, accessReq, refresh, refreshReq) =>
      IssuedKeepsCodes(Rotated(t, rid, token).value, access, accessReq, refresh, refreshReq);
    case IssueCode(_, _) =>
    case IssuePkce(_, _) =>
    case _ =>
      RemovalRows(t, a);
      assert Shrinks(Rows(Effect(t, a).value, Codes), Rows(t, Codes));
  }

  lemma {:induction false} IssuedKeepsCodes(t: Tables, access: Sig, accessReq: Request, refresh: Sig,
                                            refreshReq: Request)
    requires Issued(t, access, accessReq, refresh, refreshReq).Ok?
    ensures var u := Issued(t, access, accessReq, refresh, refreshReq).value;
            && u.codes == t.codes && u.gens == t.gens
            && refresh in u.refresh && u.refresh.Keys == t.refresh.Keys + {refresh}
            && forall s :: s in t.refresh ==> u.refresh[s] == t.refresh[s]
  {
  }

  /** Only issuing a refresh token adds one, and nothing reactivates one. */
  lemma {:induction false} RefreshShrinks(t: Tables, a: Action, s: Sig)
    requires Effect(t, a).Ok? && (a.Exchange? ==> a.refresh != s) && (a.Refresh? ==> a.refresh != s)
    ensures var u := Effect(t, a).value.refresh;
            s in u ==> s in t.refresh && (u[s].active ==> t.refresh[s].active)
  {
    match a
    case Exchange(code, access, accessReq, refresh, refreshReq) =>
      IssuedKeepsCodes(Invalidated(t, code).value, access, accessReq, refresh, refreshReq);
    case Refresh(rid, token, access, accessReq, refresh, refreshReq) =>
      IssuedKeepsCodes(Rotated(t, rid, token).value, access, accessReq, refresh, refreshReq);
    case IssueCode(_, _) =>
    case IssuePkce(_, _) =>
    case _ =>
      RemovalRows(t, a);
      assert Shrinks(Rows(Effect(t, a).value, Table.Refresh), Rows(t, Table.Refresh));
  }

  lemma {:induction false} SpentStays(w: World, e: Event, s: Sig)
    requires Allowed(w, e.action)
    ensures SpentCode(w, s) ==> SpentCode(Step(w, e), s)
    ensures SpentToken(w, s) ==> SpentToken(Step(w, e), s)
  {
    if Succeeds(w, e) {
      if !e.action.IssueCode? { CodesShrink(w.t, e.action); }
      if SpentToken(w, s) { RefreshShrinks(w.t, e.action, s); }
    }
  }

  lemma {:induction false} SpentForever(es: seq<Event>, n: nat, s: Sig)
    requires AllowedRun(es) && n <= |es|
    ensures SpentCode(Run(es[..n]), s) ==> SpentCode(Run(es), s)
    ensures SpentToken(Run(es[..n]), s) ==> SpentToken(Run(es), s)
  {
    if n == |es| {
      assert es[..n] == es;
    } else {
      var init := es[..|es| - 1];
      assert init[..n] == es[..n];
      SpentForever(init, n, s);
      SpentStays(Run(init), es[|es| - 1], s);
    }
  }

  /** The code or token that an action redeems. */
  predicate Redeems(a: Action, code: Sig) { a.Exchange? && a.code == code }
  predicate Rotates(a: Action, token: Sig) { a.Refresh? && a.token == token }

  lemma {:induction false} SuccessSpends(w: World, e: Event, s: Sig)
    requires GrantsOk(w) && Allowed(w, e.action) && Succeeds(w, e)
    ensures Redeems(e.action, s) ==> !SpentCode(w, s) && SpentCode(Step(w, e), s)
    ensures Rotates(e.action, s) ==> !SpentToken(w, s) && SpentToken(Step(w, e), s)
  {
    if Redeems(e.action, s) { RedeemingSpends(w, e, s); }
    if Rotates(e.action, s) { RotatingSpends(w, e, s); }
  }

  lemma {:induction false} RedeemingSpends(w: World, e: Event, code: Sig)
    requires GrantsOk(w) && Allowed(w, e.action) && Succeeds(w, e) && Redeems(e.action, code)
    ensures !SpentCode(w, code) && SpentCode(Step(w, e), code)
  {
    var u := Invalidated(w.t, code).value;
    assert Step(w, e).t.codes == u.codes;
  }

  lemma {:induction false} RotatingSpends(w: World, e: Event, token: Sig)
    requires GrantsOk(w) && Allowed(w, e.action) && Succeeds(w, e) && Rotates(e.action, token)
    ensures !SpentToken(w, token) && SpentToken(Step(w, e), token)
  {
    var u := Rotated(w.t, e.action.requestId, token).value;
    assert token in u.refresh && !u.refresh[token].active;
  }

  lemma {:induction false} PrefixAllowed(es: seq<Event>, n: nat)
    requires AllowedRun(es) && n <= |es|
    ensures AllowedRun(es[..n])
  {
    if n == |es| {
      assert es[..n] == es;
    } else {
      assert es[..|es| - 1][..n] == es[..n];
      PrefixAllowed(es[..|es| - 1], n);
    }
  }

  /** A success at position k finds its code or token unspent and leaves it spent. */
  lemma {:induction false} SuccessAt(es: seq<Event>, k: nat, s: Sig)
    requires AllowedRun(es) && k < |es| && Succeeds(Run(es[..k]), es[k])
    ensures Redeems(es[k].action, s) ==> !SpentCode(Run(es[..k]), s) && SpentCode(Run(es[..k + 1]), s)
    ensures Rotates(es[k].action, s) ==> !SpentToken(Run(es[..k]), s) && SpentToken(Run(es[..k + 1]), s)
  {
    PrefixAllowed(es, k + 1);
    assert es[..k + 1][..k] == es[..k];
    EveryRunIsLinear(es[..k]);
    RunGrows(es, k);
    SuccessSpends(Run(es[..k]), es[k], s);
  }

  lemma {:induction false} RunGrows(es: seq<Event>, k: nat)
    requires k < |es|
    ensures Run(es[..k + 1]) == Step(Run(es[..k]), es[k])
  {
    assert es[..k + 1][..k] == es[..k];
  }

  /** Of all exchanges of one code, and of all rotations of one token, at most one ever succeeds. */
  lemma {:induction false} AtMostOneSucceeds(es: seq<Event>, i: nat, j: nat, s: Sig)
    requires AllowedRun(es) && i < j < |es|
    requires (Redeems(es[i].action, s) && Redeems(es[j].action, s))
             || (Rotates(es[i].action, s) && Rotates(es[j].action, s))
    requires Succeeds(Run(es[..i]), es[i])
    ensures !Succeeds(Run(es[..j]), es[j])
  {
    SuccessAt(es, i, s);
    PrefixAllowed(es, j);
    assert es[..j][..i + 1] == es[..i + 1];
    SpentForever(es[..j], i + 1, s);
    if Succeeds(Run(es[..j]), es[j]) {
      SuccessAt(es, j, s);
      assert false;
    }
  }

  // ---- Other grants

  function GrantRows(rows: map<Sig, Row>, rid: string): map<Sig, Row> {
    map s | s in rows && rows[s].requestId == rid :: rows[s]
  }

  ghost predicate SameGrant(t: Tables, u: Tables, rid: string) {
    forall table :: GrantRows(Rows(u, table), rid) == GrantRows(Rows(t, table), rid)
  }

  lemma {:induction false} SameGrantBy(t: Tables, u: Tables, rid: string)
    requires GrantRows(u.codes, rid) == GrantRows(t.codes, rid) && GrantRows(u.access, rid) == GrantRows(t.access, rid)
    requires GrantRows(u.refresh, rid) == GrantRows(t.refresh, rid) && GrantRows(u.pkce, rid) == GrantRows(t.pkce, rid)
    ensures SameGrant(t, u, rid)
  {
    forall table ensures GrantRows(Rows(u, table), rid) == GrantRows(Rows(t, table), rid) {
      match table
      case Codes =>
      case Access =>
      case Refresh =>
      case Pkce =>
    }
  }

  lemma {:induction false} CreatedElsewhere(t: Tables, table: Table, sig: Sig, req: Request, rid: string)
    requires Created(t, table, sig, req).Ok? && req.id != rid
    ensures SameGrant(t, Created(t, table, sig, req).value, rid)
  {
    var u := Created(t, table, sig, req).value;
    assert GrantRows(Rows(u, table), rid) == GrantRows(Rows(t, table), rid);
    SameGrantBy(t, u, rid);
  }

  lemma {:induction false} IssuedElsewhere(t: Tables, access: Sig, accessReq: Request, refresh: Sig,
          refreshReq: Request, rid: string)
    requires Issued(t, access, accessReq, refresh, refreshReq).Ok? && accessReq.id != rid && refreshReq.id != rid
    ensures SameGrant(t, Issued(t, access, accessReq, refresh, refreshReq).value, rid)
  {
    var u := Created(t, Table.Access, access, accessReq).value;
    CreatedElsewhere(t, Table.Access, access, accessReq, rid);
    CreatedElsewhere(u, Table.Refresh, refresh, refreshReq, rid);
  }

  lemma {:induction false} RefreshRevokedElsewhere(t: Tables, r: string, rid: string)
    requires r != rid
    ensures SameGrant(t, RefreshRevoked(t, r), rid)
  {
    var u := RefreshRevoked(t, r);
    assert GrantRows(u.refresh, rid) == GrantRows(t.refresh, rid);
    SameGrantBy(t, u, rid);
  }

  lemma {:induction false} AccessRevokedElsewhere(t: Tables, r: string, rid: string)
    requires r != rid
    ensures SameGrant(t, AccessRevoked(t, r), rid)
  {
    var u := AccessRevoked(t, r);
    assert GrantRows(u.access, rid) == GrantRows(t.access, rid);
    SameGrantBy(t, u, rid);
  }

  lemma {:induction false} DeletedElsewhere(t: Tables, table: Table, sig: Sig, rid: string)
    requires sig in Rows(t, table) ==> Rows(t, table)[sig].requestId != rid
    ensures SameGrant(t, Deleted(t, table, sig), rid)
  {
    var u := Deleted(t, table, sig);
    assert GrantRows(Rows(u, table), rid) == GrantRows(Rows(t, table), rid);
    SameGrantBy(t, u, rid);
  }

  lemma {:induction false} ExchangedElsewhere(t: Tables, code: Sig, access: Sig, accessReq: Request, refresh: Sig,
          refreshReq: Request, rid: string)
    requires Exchanged(t, code, access, accessReq, refresh, refreshReq).Ok? && t.codes[code].requestId != rid
    requires accessReq.id != rid && refreshReq.id != rid
    ensures SameGrant(t, Exchanged(t, code, access, accessReq, refresh, refreshReq).value, rid)
  {
    var u := Invalidated(t, code).value;
    assert GrantRows(u.codes, rid) == GrantRows(t.codes, rid);
    SameGrantBy(t, u, rid);
    IssuedElsewhere(u, access, accessReq, refresh, refreshReq, rid);
  }

  lemma {:induction false} RefreshedElsewhere(t: Tables, r: string, token: Sig, access: Sig, accessReq: Request,
                                              refresh: Sig, refreshReq: Request, rid: string)
    requires Refreshed(t, r, token, access, accessReq, refresh, refreshReq).Ok? && r != rid
    requires accessReq.id != rid && refreshReq.id != rid
    ensures SameGrant(t, Refreshed(t, r, token, access, accessReq, refresh, refreshReq).value, rid)
  {
    RefreshRevokedElsewhere(t, r, rid);
    AccessRevokedElsewhere(RefreshRevoked(t, r), r, rid);
    IssuedElsewhere(Rotated(t, r, token).value, access, accessReq, refresh, refreshReq, rid);
  }

  /** An action that redeems, refreshes, revokes or deletes something of one grant. */
  predicate OfOneGrant(a: Action) { a.Exchange? || a.Refresh? || a.RevokeRefresh? || a.RevokeAccess? || a.Delete? }

  /** That grant. */
  ghost predicate ActsOn(w: World, a: Action, rid: string) {
    match a
    case Exchange(code, _, _, _, _) => code in w.codesSeen && w.codesSeen[code] == rid
    case Refresh(r, _, _, _, _, _) => r == rid
    case RevokeRefresh(r) => r == rid
    case RevokeAccess(r) => r == rid
    case Delete(table, sig) => sig in Rows(w.t, table) && Rows(w.t, table)[sig].requestId == rid
    case _ => false
  }

  /** Redeeming, refreshing, revoking or deleting for one grant leaves every row of every other grant as it was. */
  lemma {:induction false} OtherGrantsUntouched(w: World, e: Event, rid: string)
    requires GrantsOk(w) && Allowed(w, e.action) && Succeeds(w, e)
    requires OfOneGrant(e.action) && !ActsOn(w, e.action, rid)
    ensures SameGrant(w.t, Step(w, e).t, rid)
  {
    match e.action
    case Exchange(code, access, accessReq, refresh, refreshReq) =>
      ExchangedElsewhere(w.t, code, access, accessReq, refresh, refreshReq, rid);
    case Refresh(r, token, access, accessReq, refresh, refreshReq) =>
      RefreshedElsewhere(w.t, r, token, access, accessReq, refresh, refreshReq, rid);
    case RevokeRefresh(r) => RefreshRevokedElsewhere(w.t, r, rid);
    case RevokeAccess(r) => AccessRevokedElsewhere(w.t, r, rid);
    case Delete(table, sig) => DeletedElsewhere(w.t, table, sig, rid);
  }

  // ---- Generations

  /** A committed revocation that reaches user's sessions. */
  ghost predicate Revokes(w: World, e: Event, user: string) {
    Succeeds(w, e) && e.action.Bump? && (e.action.user == user || e.action.user == ALL_USERS)
  }

  lemma {:induction false} OnlyBumpsChangeGens(t: Tables, a: Action)
    requires Effect(t, a).Ok? && !a.Bump?
    ensures Effect(t, a).value.gens == t.gens
  {
    match a
    case Register(c, public, now) => assert RoomMade(t, now).value.gens == t.gens;
    case _ =>
  }

  lemma {:induction false} GenStep(w: World, e: Event, user: string)
    requires user != ""
    ensures CurrentGen(Step(w, e).t.gens, user) == CurrentGen(w.t.gens, user) + if Revokes(w, e, user) then 1 else 0
  {
    if Succeeds(w, e) && !e.action.Bump? {
      OnlyBumpsChangeGens(w.t, e.action);
    }
  }

  ghost function GenAt(es: seq<Event>, user: string): nat -> int {
    (k: nat) => if k <= |es| then CurrentGen(Run(es[..k]).t.gens, user) else 0
  }

  ghost function RevokesAt(es: seq<Event>, user: string): nat -> bool {
    (k: nat) => k < |es| && Revokes(Run(es[..k]), es[k], user)
  }

  lemma {:induction false} GenMoves(es: seq<Event>, user: string, k: nat)
    requires user != "" && k < |es|
    ensures GenAt(es, user)(k + 1) == GenAt(es, user)(k) + if RevokesAt(es, user)(k) then 1 else 0
  {
    assert es[..k + 1][..k] == es[..k];
    GenStep(Run(es[..k]), es[k], user);
  }

  lemma {:induction false} GenCountsRevocations(es: seq<Event>, n: nat, user: string)
    requires n <= |es| && user != ""
    ensures CurrentGen(Run(es[..n]).t.gens, user) <= CurrentGen(Run(es).t.gens, user)
    ensures CurrentGen(Run(es[..n]).t.gens, user) == CurrentGen(Run(es).t.gens, user)
            <==> forall k: nat :: n <= k < |es| ==> !Revokes(Run(es[..k]), es[k], user)
  {
    var g, hit := GenAt(es, user), RevokesAt(es, user);
    forall k: nat | k < |es| ensures g(k + 1) == g(k) + if hit(k) then 1 else 0 {
      GenMoves(es, user, k);
    }
    CounterUnmovedIff(g, hit, n, |es|);
    assert es[..|es|] == es;
    assert forall k: nat :: n <= k < |es| ==> (hit(k) <==> Revokes(Run(es[..k]), es[k], user));
  }

  /** A session is accepted exactly if no bump of its subject or of "*" has committed since its generation was read. */
  lemma {:induction false} RevocationIsExact(es: seq<Event>, n: nat, user: string)
    requires n <= |es| && user != ""
    ensures Accepts(Run(es).t.gens, Session(user, GenInt(CurrentGen(Run(es[..n]).t.gens, user))))
            <==> forall k: nat :: n <= k < |es| ==> !Revokes(Run(es[..k]), es[k], user)
  {
    GenCountsRevocations(es, n, user);
  }

  /** No stored session claims a generation that was never current. */
  ghost predicate GensPast(t: Tables) {
    forall table, s :: s in Rows(t, table) && Rows(t, table)[s].session.gen.GenInt? ==>
      Rows(t, table)[s].session.gen.n <= CurrentGen(t.gens, Rows(t, table)[s].session.subject)
  }

  /** Every row of u carries a session of t, and no generation went back. */
  ghost predicate SessionsFrom(t: Tables, u: Tables) {
    && (forall table, s :: s in Rows(u, table) ==>
         s in Rows(t, table) && Rows(u, table)[s].session == Rows(t, table)[s].session)
    && (forall user :: CurrentGen(t.gens, user) <= CurrentGen(u.gens, user))
  }

  lemma {:induction false} FromKeepsGensPast(t: Tables, u: Tables)
    requires GensPast(t) && SessionsFrom(t, u)
    ensures GensPast(u)
  {
    forall table, s | s in Rows(u, table) && Rows(u, table)[s].session.gen.GenInt?
      ensures Rows(u, table)[s].session.gen.n <= CurrentGen(u.gens, Rows(u, table)[s].session.subject)
    {
      assert s in Rows(t, table);
    }
  }

  lemma {:induction false} CreatedKeepsGensPast(t: Tables, table: Table, sig: Sig, req: Request)
    requires GensPast(t) && Created(t, table, sig, req).Ok? && SessionRead(t, req)
    ensures GensPast(Created(t, table, sig, req).value)
  {
    var u := Created(t, table, sig, req).value;
    forall other, s | s in Rows(u, other) && Rows(u, other)[s].session.gen.GenInt?
      ensures Rows(u, other)[s].session.gen.n <= CurrentGen(u.gens, Rows(u, other)[s].session.subject)
    {
      if s in Rows(t, other) {
        assert Rows(u, other)[s] == Rows(t, other)[s];
      }
    }
  }

  lemma {:induction false} IssuedKeepsGensPast(t: Tables, access: Sig, accessReq: Request, refresh: Sig,
          refreshReq: Request)
    requires GensPast(t) && Issued(t, access, accessReq, refresh, refreshReq).Ok?
    requires SessionRead(t, accessReq) && SessionRead(t, refreshReq)
    ensures GensPast(Issued(t, access, accessReq, refresh, refreshReq).value)
  {
    var u := Created(t, Table.Access, access, accessReq).value;
    CreatedKeepsGensPast(t, Table.Access, access, accessReq);
    CreatedKeepsGensPast(u, Table.Refresh, refresh, refreshReq);
  }

  /** Steps that store nothing keep sessions and let no generation go back. */
  lemma {:induction false} RemovalKeepsSessions(t: Tables, u: Tables)
    requires RowsFrom(t, u) && forall user :: CurrentGen(t.gens, user) <= CurrentGen(u.gens, user)
    ensures SessionsFrom(t, u)
  {
    forall table, s | s in Rows(u, table)
      ensures s in Rows(t, table) && Rows(u, table)[s].session == Rows(t, table)[s].session
    {
      assert Shrinks(Rows(u, table), Rows(t, table));
    }
  }

  lemma {:induction false} GensNeverDrop(t: Tables, a: Action)
    requires Effect(t, a).Ok?
    ensures forall user :: CurrentGen(t.gens, user) <= CurrentGen(Effect(t, a).value.gens, user)
  {
    if !a.Bump? { OnlyBumpsChangeGens(t, a); }
  }

  lemma {:induction false} StepKeepsGensPast(w: World, e: Event)
    requires GensPast(w.t) && Allowed(w, e.action)
    ensures GensPast(Step(w, e).t)
  {
    if Succeeds(w, e) {
      match e.action
      case IssueCode(sig, req) => CreatedKeepsGensPast(w.t, Codes, sig, req);
      case IssuePkce(sig, req) => CreatedKeepsGensPast(w.t, Pkce, sig, req);
      case Exchange(code, access, accessReq, refresh, refreshReq) =>
        var u := Invalidated(w.t, code).value;
        FromKeepsGensPast(w.t, u);
        IssuedKeepsGensPast(u, access, accessReq, refresh, refreshReq);
      case Refresh(rid, token, access, accessReq, refresh, refreshReq) =>
        var u := Rotated(w.t, rid, token).value;
        FromKeepsGensPast(w.t, u);
        IssuedKeepsGensPast(u, access, accessReq, refresh, refreshReq);
      case _ =>
        var u := Effect(w.t, e.action).value;
        RemovalRows(w.t, e.action);
        GensNeverDrop(w.t, e.action);
        RemovalKeepsSessions(w.t, u);
        FromKeepsGensPast(w.t, u);
    }
  }

  lemma {:induction false} GensStayPast(es: seq<Event>)
    requires AllowedRun(es)
    ensures GensPast(Run(es).t)
  {
    if es != [] {
      GensStayPast(es[..|es| - 1]);
      StepKeepsGensPast(Run(es[..|es| - 1]), es[|es| - 1]);
    }
  }

  /** Right after a bump of a user, none of that user's tokens is active; after a bump of "*", nobody's is. */
  lemma {:induction false} BumpLeavesNoneActive(t: Tables, user: string, now: Time)
    requires GensPast(t) && user != ""
    ensures ActiveCount(Bumped(t, user).value, user, now) == 0
  {
    var u := Bumped(t, user).value;
    forall table, s | s in Rows(u, table) && Countable(Rows(u, table)[s], user, now)
      ensures !Accepts(u.gens, Rows(u, table)[s].session)
    {
      assert Rows(u, table)[s].session == Rows(t, table)[s].session;
    }
    assert CountedKeys(Rows(u, Table.Access), u.gens, user, now) == {};
    assert CountedKeys(Rows(u, Table.Refresh), u.gens, user, now) == {};
    assert CountedKeys(Rows(u, Codes), u.gens, user, now) == {};
  }

  /** A bump of one user changes no answer about another user's sessions. */
  lemma {:induction false} BumpIsPersonal(t: Tables, user: string, other: Session)
    requires user != "" && user != ALL_USERS && other.subject != user
    ensures Accepts(Bumped(t, user).value.gens, other) <==> Accepts(t.gens, other)
  {
  }

  // ---- Counting

  ghost function SumOver(users: set<string>, t: Tables, now: Time): nat {
    if users == {} then 0
    else var u :| u in users; ActiveCount(t, u, now) + SumOver(users - {u}, t, now)
  }

  function KeysOf(rows: map<Sig, Row>, gens: map<string, int>, users: set<string>, now: Time): set<Sig> {
    set s | s in rows && rows[s].session.subject in users
            && Countable(rows[s], ALL_USERS, now) && Accepts(gens, rows[s].session)
  }

  lemma {:induction false} KeysSplit(rows: map<Sig, Row>, gens: map<string, int>, users: set<string>, u: string,
          now: Time)
    requires u in users && u != ALL_USERS
    ensures |KeysOf(rows, gens, users, now)| ==
            |CountedKeys(rows, gens, u, now)| + |KeysOf(rows, gens, users - {u}, now)|
  {
    var one, rest := CountedKeys(rows, gens, u, now), KeysOf(rows, gens, users - {u}, now);
    assert KeysOf(rows, gens, users, now) == one + rest;
    assert one !! rest;
  }

  lemma {:induction false} SumIsCount(users: set<string>, t: Tables, now: Time)
    requires ALL_USERS !in users
    ensures SumOver(users, t, now) ==
            |KeysOf(t.access, t.gens, users, now)| + |KeysOf(t.refresh, t.gens, users, now)|
            + |KeysOf(t.codes, t.gens, users, now)|
  {
    if users == {} {
      assert KeysOf(t.access, t.gens, users, now) == {} && KeysOf(t.refresh, t.gens, users, now) == {}
             && KeysOf(t.codes, t.gens, users, now) == {};
    } else {
      var u :| u in users && SumOver(users, t, now) == ActiveCount(t, u, now) + SumOver(users - {u}, t, now);
      SumIsCount(users - {u}, t, now);
      assert ActiveCount(t, u, now) ==
             |CountedKeys(t.access, t.gens, u, now)| + |CountedKeys(t.refresh, t.gens, u, now)|
             + |CountedKeys(t.codes, t.gens, u, now)|;
      KeysSplit(t.access, t.gens, users, u, now);
      KeysSplit(t.refresh, t.gens, users, u, now);
      KeysSplit(t.codes, t.gens, users, u, now);
    }
  }

  /** The count for "*" is the sum over any set of users that covers the sessions. */
  lemma {:induction false} AllUsersIsSum(users: set<string>, t: Tables, now: Time)
    requires ALL_USERS !in users
    requires forall table, s :: s in Rows(t, table) && Rows(t, table)[s].session.subject != "" ==>
               Rows(t, table)[s].session.subject in users
    ensures ActiveCount(t, ALL_USERS, now) == SumOver(users, t, now)
  {
    SumIsCount(users, t, now);
    assert KeysOf(Rows(t, Table.Access), t.gens, users, now) ==
          CountedKeys(Rows(t, Table.Access), t.gens, ALL_USERS, now);
    assert KeysOf(Rows(t, Table.Refresh), t.gens, users, now) ==
          CountedKeys(Rows(t, Table.Refresh), t.gens, ALL_USERS, now);
    assert KeysOf(Rows(t, Codes), t.gens, users, now) == CountedKeys(Rows(t, Codes), t.gens, ALL_USERS, now);
  }

  /** ActiveTokens counts exactly the unexpired rows that load returns as active. */
  lemma {:induction false} CountedIffLoads(t: Tables, table: Table, sig: Sig, now: Time)
    requires sig in Rows(t, table) && HasClient(t, Rows(t, table)[sig].clientId)
    ensures sig in CountedKeys(Rows(t, table), t.gens, ALL_USERS, now) <==>
            Loaded(t, table, sig).Ok? && Loaded(t, table, sig).value.active
            && Loaded(t, table, sig).value.expiresAt > now
  {
  }
}
