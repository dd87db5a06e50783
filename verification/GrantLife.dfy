/** What issuing achieves: how long codes and tokens stay stored, redeemable and loadable in a run. */
module GrantLife {
  import opened Prelude
  import opened OAuthTables
  import opened OAuthStorage
  import opened GrantRuns
  import opened ClientCap

  /** The row that a request is stored as. */
  ghost predicate StoredAs(row: Row, req: Request) {
    && req.client == Some(row.clientId) && req.expiresAt == Some(row.expiresAt) && req.session == Some(row.session)
    && row.requestId == req.id && row.active
  }

  /** All parts are there, the signature is new, and the client is registered. */
  predicate Storable(t: Tables, table: Table, sig: Sig, req: Request) {
    && req.session.Some? && req.client.Some? && req.expiresAt.Some?
    && sig !in Rows(t, table) && HasClient(t, req.client.value)
  }

  /** A create succeeds exactly for a storable request; the row is then stored active, with the request's own id,
      client, expiry and session, and everything else is as it was. */
  lemma {:induction false} CreatingStores(t: Tables, table: Table, sig: Sig, req: Request)
    ensures Created(t, table, sig, req).Ok? <==> Storable(t, table, sig, req)
    ensures Created(t, table, sig, req).Ok? ==>
              var u := Created(t, table, sig, req).value;
              && u.clients == t.clients && u.gens == t.gens
              && sig in Rows(u, table) && StoredAs(Rows(u, table)[sig], req)
              && (forall other, s :: (other != table || s != sig) ==> Get(Rows(u, other), s) == Get(Rows(t, other), s))
  {
    if Created(t, table, sig, req).Ok? {
      var u := Created(t, table, sig, req).value;
      forall other, s | other != table || s != sig ensures Get(Rows(u, other), s) == Get(Rows(t, other), s) {
      }
    }
  }

  /** Both tokens of a grant are stored as asked for, or nothing is. */
  lemma {:induction false} IssuingStores(t: Tables, access: Sig, accessReq: Request, refresh: Sig, refreshReq: Request)
    ensures Issued(t, access, accessReq, refresh, refreshReq).Ok? <==>
            Storable(t, Table.Access, access, accessReq) && Storable(t, Table.Refresh, refresh, refreshReq)
    ensures Issued(t, access, accessReq, refresh, refreshReq).Ok? ==>
              var u := Issued(t, access, accessReq, refresh, refreshReq).value;
              && u.clients == t.clients && u.gens == t.gens && u.codes == t.codes && u.pkce == t.pkce
              && access in u.access && StoredAs(u.access[access], accessReq)
              && refresh in u.refresh && StoredAs(u.refresh[refresh], refreshReq)
              && (forall s :: s != access ==> Get(u.access, s) == Get(t.access, s))
              && (forall s :: s != refresh ==> Get(u.refresh, s) == Get(t.refresh, s))
  {
    CreatingStores(t, Table.Access, access, accessReq);
    if Created(t, Table.Access, access, accessReq).Ok? {
      var u := Created(t, Table.Access, access, accessReq).value;
      assert u.refresh == t.refresh && u.codes == t.codes && u.pkce == t.pkce;
      CreatingStores(u, Table.Refresh, refresh, refreshReq);
    }
  }

  // ---- The life of one row

  /** The action deletes the row: by its signature, by expiry, with its client, or with its grant's access tokens. */
  ghost predicate Removes(t: Tables, a: Action, table: Table, sig: Sig)
    requires sig in Rows(t, table)
  {
    var row := Rows(t, table)[sig];
    match a
    case Delete(other, s) => other == table && s == sig
    case Prune(now) => row.expiresAt <= now
    case Register(_, _, now) => row.clientId in IdsAt(t.clients, Victims(t, now))
    case RevokeAccess(rid) => table == Access && row.requestId == rid
    case Refresh(rid, _, _, _, _, _) => table == Access && row.requestId == rid
    case _ => false
  }

  /** The action uses the row up: a redeemed code, or the refresh tokens of a rotated or revoked grant. */
  ghost predicate UsesUp(t: Tables, a: Action, table: Table, sig: Sig)
    requires sig in Rows(t, table)
  {
    match a
    case Exchange(code, _, _, _, _) => table == Codes && code == sig
    case Refresh(rid, _, _, _, _, _) => table == Table.Refresh && Rows(t, table)[sig].requestId == rid
    case RevokeRefresh(rid) => table == Table.Refresh && Rows(t, table)[sig].requestId == rid
    case _ => false
  }

  /** What the step leaves of the row: nothing, the row used up, or the row as it was. */
  ghost function Left(t: Tables, a: Action, table: Table, sig: Sig): Option<Row>
    requires sig in Rows(t, table)
  {
    if Removes(t, a, table, sig) then None
    else if UsesUp(t, a, table, sig) then Some(Rows(t, table)[sig].(active := false))
    else Some(Rows(t, table)[sig])
  }

  lemma {:induction false} CreatedLeaves(t: Tables, created: Table, sig: Sig, req: Request, table: Table, s: Sig)
    requires Created(t, created, sig, req).Ok? && s in Rows(t, table)
    ensures Get(Rows(Created(t, created, sig, req).value, table), s) == Some(Rows(t, table)[s])
  {
    CreatingStores(t, created, sig, req);
  }

  lemma {:induction false} IssuedLeaves(t: Tables, access: Sig, accessReq: Request, refresh: Sig, refreshReq: Request,
          table: Table, s: Sig)
    requires Issued(t, access, accessReq, refresh, refreshReq).Ok? && s in Rows(t, table)
    ensures Get(Rows(Issued(t, access, accessReq, refresh, refreshReq).value, table), s) == Some(Rows(t, table)[s])
  {
    CreatedLeaves(t, Table.Access, access, accessReq, table, s);
    CreatedLeaves(Created(t, Table.Access, access, accessReq).value, Table.Refresh, refresh, refreshReq, table, s);
  }

  lemma {:induction false} ExchangeLeaves(t: Tables, a: Action, table: Table, s: Sig)
    requires a.Exchange? && Effect(t, a).Ok? && s in Rows(t, table)
    ensures Get(Rows(Effect(t, a).value, table), s) == Left(t, a, table, s)
  {
    var u := Invalidated(t, a.code).value;
    assert Get(Rows(u, table), s) == Left(t, a, table, s);
    IssuedLeaves(u, a.access, a.accessReq, a.refresh, a.refreshReq, table, s);
  }

  /** The case where the rotation removes an access row is apart: the new access token may take its signature. */
  lemma {:induction false} RefreshLeaves(t: Tables, a: Action, table: Table, s: Sig)
    requires a.Refresh? && Effect(t, a).Ok? && s in Rows(t, table) && !(table == Access && s == a.access)
    ensures Get(Rows(Effect(t, a).value, table), s) == Left(t, a, table, s)
  {
    var u := Rotated(t, a.requestId, a.token).value;
    assert Get(Rows(u, table), s) == Left(t, a, table, s);
    IssuingStores(u, a.access, a.accessReq, a.refresh, a.refreshReq);
    if s in Rows(u, table) { IssuedLeaves(u, a.access, a.accessReq, a.refresh, a.refreshReq, table, s); }
  }

  lemma {:induction false} RegisterLeaves(t: Tables, a: Action, table: Table, s: Sig)
    requires a.Register? && Effect(t, a).Ok? && s in Rows(t, table)
    ensures Get(Rows(Effect(t, a).value, table), s) == Left(t, a, table, s)
  {
    var gone := Victims(t, a.now);
    assert Effect(t, a).value == Evict(t, gone).(clients := Effect(t, a).value.clients);
    assert Rows(Evict(t, gone), table) == WithoutClients(Rows(t, table), IdsAt(t.clients, gone));
  }

  lemma {:induction false} RemovalLeaves(t: Tables, a: Action, table: Table, s: Sig)
    requires OnlyRemoves(a) && !a.Register? && Effect(t, a).Ok? && s in Rows(t, table)
    ensures Get(Rows(Effect(t, a).value, table), s) == Left(t, a, table, s)
  {
    match a
    case Delete(_, _) =>
    case RevokeRefresh(_) =>
    case RevokeAccess(_) =>
    case Prune(_) =>
    case Bump(_) =>
  }

  /** A committed action leaves exactly that. */
  lemma {:induction false} StepLeaves(t: Tables, a: Action, table: Table, s: Sig)
    requires Effect(t, a).Ok? && s in Rows(t, table) && !(a.Refresh? && table == Access && s == a.access)
    ensures Get(Rows(Effect(t, a).value, table), s) == Left(t, a, table, s)
  {
    match a
    case IssueCode(sig, req) => CreatedLeaves(t, Codes, sig, req, table, s);
    case IssuePkce(sig, req) => CreatedLeaves(t, Pkce, sig, req, table, s);
    case Exchange(_, _, _, _, _) => ExchangeLeaves(t, a, table, s);
    case Refresh(_, _, _, _, _, _) => RefreshLeaves(t, a, table, s);
    case Register(_, _, _) => RegisterLeaves(t, a, table, s);
    case _ => RemovalLeaves(t, a, table, s);
  }

  lemma {:induction false} ReusedIsRemoved(t: Tables, a: Action, s: Sig)
    requires a.Refresh? && Effect(t, a).Ok? && s == a.access && s in t.access
    ensures Removes(t, a, Access, s)
  {
    IssuingStores(Rotated(t, a.requestId, a.token).value, a.access, a.accessReq, a.refresh, a.refreshReq);
  }

  // ---- Rows over runs

  ghost predicate RemovedBy(w: World, e: Event, table: Table, s: Sig) {
    Succeeds(w, e) && s in Rows(w.t, table) && Removes(w.t, e.action, table, s)
  }

  ghost predicate EndedBy(w: World, e: Event, table: Table, s: Sig) {
    Succeeds(w, e) && s in Rows(w.t, table) && (Removes(w.t, e.action, table, s) || UsesUp(w.t, e.action, table, s))
  }

  /** No event from m on removes the row. */
  ghost predicate Kept(es: seq<Event>, m: nat, table: Table, s: Sig) {
    forall k: nat :: m <= k < |es| ==> !RemovedBy(Run(es[..k]), es[k], table, s)
  }

  /** No event from m on removes the row or uses it up. */
  ghost predicate Unended(es: seq<Event>, m: nat, table: Table, s: Sig) {
    forall k: nat :: m <= k < |es| ==> !EndedBy(Run(es[..k]), es[k], table, s)
  }

  lemma {:induction false} StepKeepsRow(w: World, e: Event, table: Table, s: Sig)
    requires s in Rows(w.t, table) && !RemovedBy(w, e, table, s)
    ensures s in Rows(Step(w, e).t, table)
    ensures Rows(Step(w, e).t, table)[s] ==
            if EndedBy(w, e, table, s) then Rows(w.t, table)[s].(active := false) else Rows(w.t, table)[s]
  {
    if Succeeds(w, e) {
      if e.action.Refresh? && table == Access && s == e.action.access { ReusedIsRemoved(w.t, e.action, s); }
      StepLeaves(w.t, e.action, table, s);
      assert Step(w, e).t == Effect(w.t, e.action).value;
    }
  }

  /** A row that nothing removes stays stored; it stays as it was if nothing uses it up, or if it was used up before. */
  lemma {:induction false} RowLives(es: seq<Event>, m: nat, table: Table, s: Sig)
    requires m <= |es| && s in Rows(Run(es[..m]).t, table) && Kept(es, m, table, s)
    ensures s in Rows(Run(es).t, table)
    ensures var was, row := Rows(Run(es[..m]).t, table)[s], Rows(Run(es).t, table)[s];
            && row.(active := false) == was.(active := false)
            && (!was.active || Unended(es, m, table, s) ==> row == was)
  {
    if m == |es| {
      assert es[..m] == es;
    } else {
      var last := |es| - 1;
      var init := es[..last];
      assert init[..m] == es[..m];
      forall k: nat | m <= k < last ensures init[..k] == es[..k] && init[k] == es[k] {
      }
      assert Kept(init, m, table, s) && (Unended(es, m, table, s) ==> Unended(init, m, table, s));
      RowLives(init, m, table, s);
      assert !RemovedBy(Run(es[..last]), es[last], table, s);
      StepKeepsRow(Run(init), es[last], table, s);
    }
  }

  /** A code or refresh token that is ended is never usable again. */
  lemma {:induction false} EndedStays(es: seq<Event>, k: nat, table: Table, s: Sig)
    requires AllowedRun(es) && k < |es| && (table == Codes || table == Table.Refresh)
    requires EndedBy(Run(es[..k]), es[k], table, s)
    ensures s in Rows(Run(es).t, table) ==> !Rows(Run(es).t, table)[s].active
  {
    var w := Run(es[..k]);
    PrefixAllowed(es, k);
    EveryRunIsLinear(es[..k]);
    StepLeaves(w.t, es[k].action, table, s);
    RunGrows(es, k);
    SeenStays(w, es[k], s);
    SpentForever(es, k + 1, s);
    PrefixAllowed(es, |es|);
    assert es[..|es|] == es;
    EveryRunIsLinear(es);
  }

  lemma {:induction false} SeenStays(w: World, e: Event, s: Sig)
    ensures s in w.codesSeen ==> s in Step(w, e).codesSeen
    ensures s in w.refreshSeen ==> s in Step(w, e).refreshSeen
  {
  }

  // ---- What a grant's owner can rely on

  lemma {:induction false} OwnerIsRegistered(es: seq<Event>, table: Table, s: Sig)
    requires s in Rows(Run(es).t, table)
    ensures HasClient(Run(es).t, Rows(Run(es).t, table)[s].clientId)
  {
    CapHoldsInEveryRun(es);
  }

  /** A code issued in a run can be exchanged, for tokens that can be stored, exactly if nothing in the run redeemed,
      deleted, pruned or evicted it since; it is then stored as it was asked for, and its client is registered. */
  lemma {:induction false} CodeRedeemsIff(es: seq<Event>, n: nat, access: Sig, accessReq: Request, refresh: Sig,
          refreshReq: Request)
    requires AllowedRun(es) && n < |es| && es[n].action.IssueCode? && Succeeds(Run(es[..n]), es[n])
    requires Storable(Run(es).t, Table.Access, access, accessReq)
    requires Storable(Run(es).t, Table.Refresh, refresh, refreshReq)
    ensures var t, sig, req := Run(es).t, es[n].action.sig, es[n].action.req;
            && (Exchanged(t, sig, access, accessReq, refresh, refreshReq).Ok? <==> Unended(es, n + 1, Codes, sig))
            && (Unended(es, n + 1, Codes, sig) ==>
                  sig in t.codes && StoredAs(t.codes[sig], req) && HasClient(t, req.client.value))
  {
    var t, sig, req := Run(es).t, es[n].action.sig, es[n].action.req;
    RunGrows(es, n);
    CreatingStores(Run(es[..n]).t, Codes, sig, req);
    if Unended(es, n + 1, Codes, sig) {
      RowLives(es, n + 1, Codes, sig);
      OwnerIsRegistered(es, Codes, sig);
      IssuingStores(Invalidated(t, sig).value, access, accessReq, refresh, refreshReq);
    } else {
      var k: nat :| n + 1 <= k < |es| && EndedBy(Run(es[..k]), es[k], Codes, sig);
      EndedStays(es, k, Codes, sig);
    }
  }

  /** The tokens that an action issues. */
  predicate IssuesTokens(a: Action) { a.Exchange? || a.Refresh? }

  lemma {:induction false} TokensStored(w: World, e: Event)
    requires Succeeds(w, e) && IssuesTokens(e.action)
    ensures var a, u := e.action, Step(w, e).t;
            && a.access in u.access && StoredAs(u.access[a.access], a.accessReq)
            && a.refresh in u.refresh && StoredAs(u.refresh[a.refresh], a.refreshReq)
  {
    var a := e.action;
    var u := if a.Exchange? then Invalidated(w.t, a.code).value else Rotated(w.t, a.requestId, a.token).value;
    IssuingStores(u, a.access, a.accessReq, a.refresh, a.refreshReq);
  }

  /** A refresh token issued in a run can be rotated, for tokens that can be stored, exactly if nothing in the run
      rotated or revoked its grant, or deleted, pruned or evicted it since. */
  lemma {:induction false} TokenRotatesIff(es: seq<Event>, n: nat, access: Sig, accessReq: Request, refresh: Sig,
          refreshReq: Request)
    requires AllowedRun(es) && n < |es| && IssuesTokens(es[n].action) && Succeeds(Run(es[..n]), es[n])
    requires Storable(Run(es).t, Table.Access, access, accessReq)
    requires Storable(Run(es).t, Table.Refresh, refresh, refreshReq)
    ensures var t, token, req := Run(es).t, es[n].action.refresh, es[n].action.refreshReq;
            && (Refreshed(t, req.id, token, access, accessReq, refresh, refreshReq).Ok? <==>
                  Unended(es, n + 1, Table.Refresh, token))
            && (Unended(es, n + 1, Table.Refresh, token) ==>
                  token in t.refresh && StoredAs(t.refresh[token], req) && HasClient(t, req.client.value))
  {
    var t, token, req := Run(es).t, es[n].action.refresh, es[n].action.refreshReq;
    RunGrows(es, n);
    TokensStored(Run(es[..n]), es[n]);
    if Unended(es, n + 1, Table.Refresh, token) {
      RowLives(es, n + 1, Table.Refresh, token);
      OwnerIsRegistered(es, Table.Refresh, token);
      IssuingStores(Rotated(t, req.id, token).value, access, accessReq, refresh, refreshReq);
    } else {
      var k: nat :| n + 1 <= k < |es| && EndedBy(Run(es[..k]), es[k], Table.Refresh, token);
      EndedStays(es, k, Table.Refresh, token);
    }
  }

  /** An access token issued in a run, and not removed since, loads with its request's id and expiry exactly if its
      session is accepted. */
  lemma {:induction false} AccessLoadsIff(es: seq<Event>, n: nat)
    requires AllowedRun(es) && n < |es| && IssuesTokens(es[n].action) && Succeeds(Run(es[..n]), es[n])
    requires Kept(es, n + 1, Access, es[n].action.access)
    ensures var r, req := Loaded(Run(es).t, Access, es[n].action.access), es[n].action.accessReq;
            && (r.Ok? <==> Accepts(Run(es).t.gens, req.session.value))
            && (r.Ok? ==> StoredAs(r.value, req))
  {
    var t, sig := Run(es).t, es[n].action.access;
    RunGrows(es, n);
    TokensStored(Run(es[..n]), es[n]);
    RowLives(es, n + 1, Access, sig);
    OwnerIsRegistered(es, Access, sig);
  }

  /** Replay detection: a redeemed code, as long as nothing removes it, still loads, as used up and with the id of its
      grant, exactly if its session is accepted. */
  lemma {:induction false} UsedCodeLoadsIff(es: seq<Event>, n: nat)
    requires AllowedRun(es) && n < |es| && es[n].action.Exchange? && Succeeds(Run(es[..n]), es[n])
    requires Kept(es, n + 1, Codes, es[n].action.code)
    ensures var r, was := Loaded(Run(es).t, Codes, es[n].action.code), Run(es[..n]).t.codes[es[n].action.code];
            && (r.Ok? <==> Accepts(Run(es).t.gens, was.session))
            && (r.Ok? ==> !r.value.active && r.value.requestId == was.requestId == es[n].action.refreshReq.id)
  {
    var w, code := Run(es[..n]), es[n].action.code;
    CodeUsedUp(w, es[n]);
    AllowedAt(es, n);
    RedeemedForItsGrant(w, es[n].action);
    RunGrows(es, n);
    RowLives(es, n + 1, Codes, code);
    OwnerIsRegistered(es, Codes, code);
  }

  lemma {:induction false} CodeUsedUp(w: World, e: Event)
    requires e.action.Exchange? && Succeeds(w, e)
    ensures e.action.code in w.t.codes
    ensures Get(Step(w, e).t.codes, e.action.code) == Some(w.t.codes[e.action.code].(active := false))
  {
    StepLeaves(w.t, e.action, Codes, e.action.code);
  }

  lemma {:induction false} RedeemedForItsGrant(w: World, a: Action)
    requires GrantsOk(w) && Allowed(w, a) && a.Exchange? && a.code in w.t.codes
    ensures a.refreshReq.id == w.t.codes[a.code].requestId
  {
  }

  lemma {:induction false} AllowedAt(es: seq<Event>, n: nat)
    requires AllowedRun(es) && n < |es|
    ensures GrantsOk(Run(es[..n])) && Allowed(Run(es[..n]), es[n].action)
  {
    PrefixAllowed(es, n + 1);
    assert es[..n + 1][..n] == es[..n];
    EveryRunIsLinear(es[..n]);
  }

  /** The same for a refresh token that was rotated away. */
  lemma {:induction false} RotatedTokenLoadsIff(es: seq<Event>, n: nat)
    requires AllowedRun(es) && n < |es| && es[n].action.Refresh? && Succeeds(Run(es[..n]), es[n])
    requires Kept(es, n + 1, Table.Refresh, es[n].action.token)
    ensures var token := es[n].action.token;
            var r, was := Loaded(Run(es).t, Table.Refresh, token), Run(es[..n]).t.refresh[token];
            && (r.Ok? <==> Accepts(Run(es).t.gens, was.session))
            && (r.Ok? ==> !r.value.active && r.value.requestId == was.requestId == es[n].action.requestId)
  {
    var w, token := Run(es[..n]), es[n].action.token;
    StepLeaves(w.t, es[n].action, Table.Refresh, token);
    RunGrows(es, n);
    RowLives(es, n + 1, Table.Refresh, token);
    OwnerIsRegistered(es, Table.Refresh, token);
  }
}
