/** The client cap: bounded in every run, and eviction takes exactly the oldest dead clients that must go. */
module ClientCap {
  import opened Prelude
  import opened OAuthTables
  import opened OAuthStorage
  import opened GrantRuns

  function ClientKey(c: Client): string { c.id }

  /** No more clients than the cap, no id twice, and no row of a client that isn't there. */
  ghost predicate ClientsOk(t: Tables) {
    && |t.clients| <= MAX_CLIENTS
    && Distinct(t.clients, ClientKey)
    && RowsOwned(t)
  }

  ghost predicate RowsOwned(t: Tables) {
    forall table, s :: s in Rows(t, table) ==> HasClient(t, Rows(t, table)[s].clientId)
  }

  predicate SurvivesAt(clients: seq<Client>, gone: set<nat>, i: nat, c: Client) {
    i < |clients| && i !in gone && clients[i] == c
  }

  lemma {:induction false} SurvivorsAre(clients: seq<Client>, gone: set<nat>)
    requires forall i :: i in gone ==> i < |clients|
    ensures |Surviving(clients, gone)| == |clients| - |gone|
    ensures forall c :: c in Surviving(clients, gone) <==> exists i: nat :: SurvivesAt(clients, gone, i, c)
  {
    if clients == [] {
      assert gone == {};
    } else {
      var n := |clients| - 1;
      var init, less := clients[..n], gone - {n};
      SurvivorsAre(init, less);
      SurvivingSame(init, gone, less);
      if n in gone { assert gone == less + {n}; } else { assert gone == less; }
      forall c ensures c in Surviving(clients, gone) <==> exists i: nat :: SurvivesAt(clients, gone, i, c) {
        if c in Surviving(init, less) {
          var i: nat :| SurvivesAt(init, less, i, c);
          assert SurvivesAt(clients, gone, i, c);
        }
        if i: nat :| SurvivesAt(clients, gone, i, c) {
          if i < n { assert SurvivesAt(init, less, i, c); }
        }
        assert n !in gone ==> SurvivesAt(clients, gone, n, clients[n]);
      }
    }
  }

  lemma {:induction false} SurvivorsDistinct(clients: seq<Client>, gone: set<nat>)
    requires Distinct(clients, ClientKey)
    ensures Distinct(Surviving(clients, gone), ClientKey)
    ensures forall c :: c in Surviving(clients, gone) ==> c in clients
  {
    if clients != [] {
      var n := |clients| - 1;
      var init := clients[..n];
      assert forall i, j :: 0 <= i < j < |init| ==>
        ClientKey(init[i]) == ClientKey(clients[i]) && ClientKey(init[j]) == ClientKey(clients[j]);
      SurvivorsDistinct(init, gone);
      forall c | c in Surviving(init, gone) ensures c.id != clients[n].id {
        var i :| 0 <= i < |init| && init[i] == c;
        assert ClientKey(clients[i]) != ClientKey(clients[n]);
      }
    }
  }

  lemma {:induction false} SurvivingSame(clients: seq<Client>, a: set<nat>, b: set<nat>)
    requires forall i: nat :: i < |clients| ==> (i in a <==> i in b)
    ensures Surviving(clients, a) == Surviving(clients, b)
  {
    if clients != [] {
      SurvivingSame(clients[..|clients| - 1], a, b);
    }
  }

  /** A client survives exactly when its id is not among the evicted ones. */
  lemma {:induction false} SurvivesIff(t: Tables, gone: set<nat>, id: string)
    requires Distinct(t.clients, ClientKey) && forall i :: i in gone ==> i < |t.clients|
    ensures HasClient(Evict(t, gone), id) <==> HasClient(t, id) && id !in IdsAt(t.clients, gone)
  {
    SurvivorsAre(t.clients, gone);
    var rest := Surviving(t.clients, gone);
    if HasClient(Evict(t, gone), id) {
      var k :| 0 <= k < |rest| && rest[k].id == id;
      assert rest[k] in rest;
      var i: nat :| SurvivesAt(t.clients, gone, i, rest[k]);
      forall j | j in gone ensures t.clients[j].id != id {
        assert ClientKey(t.clients[i]) != ClientKey(t.clients[j]) by {
          assert i != j;
          if i < j {} else {}
        }
      }
    }
    if HasClient(t, id) && id !in IdsAt(t.clients, gone) {
      var i :| 0 <= i < |t.clients| && t.clients[i].id == id;
      assert SurvivesAt(t.clients, gone, i, t.clients[i]);
      assert t.clients[i] in rest;
    }
  }

  /** A row that would still work. */
  predicate Works(t: Tables, table: Table, s: Sig, now: Time) {
    table != Pkce && s in Rows(t, table) && LiveRow(Rows(t, table)[s], now)
  }

  lemma {:induction false} EvictSparesLive(t: Tables, gone: set<nat>, table: Table, s: Sig, now: Time)
    requires gone <= DeadIndices(t, now) && Works(t, table, s, now)
    ensures s in Rows(Evict(t, gone), table) && Rows(Evict(t, gone), table)[s] == Rows(t, table)[s]
  {
    var row := Rows(t, table)[s];
    if row.clientId in IdsAt(t.clients, gone) {
      var i :| i in gone && t.clients[i].id == row.clientId;
      assert DeadClient(t, row.clientId, now);
      assert HasLive(Rows(t, table), row.clientId, now);
      assert false;
    }
  }

  ghost function Victims(t: Tables, now: Time): set<nat> {
    Chosen(t.clients, DeadIndices(t, now), Excess(t))
  }

  ghost predicate AllLive(t: Tables, now: Time) {
    forall i :: 0 <= i < |t.clients| ==> !DeadClient(t, t.clients[i].id, now)
  }

  lemma {:induction false} NoDeadClients(t: Tables, now: Time)
    ensures |DeadIndices(t, now)| == 0 <==> AllLive(t, now)
  {
    if |DeadIndices(t, now)| == 0 {
      forall i | 0 <= i < |t.clients| ensures !DeadClient(t, t.clients[i].id, now) {
        assert i !in DeadIndices(t, now);
      }
    } else {
      var i :| i in DeadIndices(t, now);
      assert DeadClient(t, t.clients[i].id, now);
    }
  }

  /** Room is made for one client, by evicting one if there are 500, unless they are all live. */
  lemma {:induction false} RoomIsExact(t: Tables, now: Time)
    requires |t.clients| <= 500
    ensures RoomMade(t, now) == Fail(TooMany) <==> |t.clients| == 500 && AllLive(t, now)
    ensures RoomMade(t, now).Fail? ==> RoomMade(t, now) == Fail(TooMany)
    ensures RoomMade(t, now).Ok? ==>
              && |Victims(t, now)| == (if |t.clients| == 500 then 1 else 0)
              && |Surviving(t.clients, Victims(t, now))| == |t.clients| - |Victims(t, now)|
  {
    NoDeadClients(t, now);
    SurvivorsAre(t.clients, Victims(t, now));
  }

  /** No live row is lost, and every row that is left is as it was. */
  ghost predicate RowsSpared(t: Tables, u: Tables, now: Time) {
    && (forall table, s :: Works(t, table, s, now) ==> s in Rows(u, table))
    && (forall table, s :: s in Rows(u, table) ==> s in Rows(t, table) && Rows(u, table)[s] == Rows(t, table)[s])
  }

  /** The victims are dead, and older than every dead client that stays. */
  ghost predicate OldestDead(t: Tables, victims: set<nat>, now: Time)
    requires forall i :: i in victims ==> i < |t.clients|
  {
    && (forall i :: i in victims ==> DeadClient(t, t.clients[i].id, now))
    && forall i, j: nat :: i in victims && j < |t.clients| && j !in victims && DeadClient(t, t.clients[j].id, now) ==>
         Older(t.clients, i, j)
  }

  lemma {:induction false} EvictionSpares(t: Tables, clients: seq<Client>, now: Time)
    ensures RowsSpared(t, Evict(t, Victims(t, now)).(clients := clients), now)
  {
    var gone := Victims(t, now);
    var u := Evict(t, gone).(clients := clients);
    forall table, s | Works(t, table, s, now) ensures s in Rows(u, table) {
      EvictSparesLive(t, gone, table, s, now);
      assert Rows(u, table) == Rows(Evict(t, gone), table);
    }
    forall table, s | s in Rows(u, table) ensures s in Rows(t, table) && Rows(u, table)[s] == Rows(t, table)[s] {
      assert Rows(u, table) == WithoutClients(Rows(t, table), IdsAt(t.clients, gone));
    }
  }

  lemma {:induction false} RegisteredIs(t: Tables, c: Client, now: Time)
    requires ClientsOk(t) && c.id != "" && !HasClient(t, c.id)
    ensures var v := Victims(t, now);
            Registered(t, c, true, now) ==
            if |t.clients| == 500 && AllLive(t, now) then Fail(TooMany)
            else Ok(Evict(t, v).(clients := Surviving(t.clients, v) + [Client(c.id, now)]))
  {
    RoomIsExact(t, now);
    SurvivesIff(t, Victims(t, now), c.id);
  }

  /** A registration fails exactly if all of 500 clients are live. Otherwise it evicts one client if there are 500 and
      none if there are fewer: the oldest of the dead, with its rows; no live row and no survivor's row is touched. */
  lemma {:induction false} RegistrationIsExact(t: Tables, c: Client, now: Time)
    requires ClientsOk(t) && c.id != "" && !HasClient(t, c.id)
    ensures match Registered(t, c, true, now)
            case Fail(e) => e == TooMany && |t.clients| == 500 && AllLive(t, now)
            case Ok(u) =>
              var v := Victims(t, now);
              && !(|t.clients| == 500 && AllLive(t, now))
              && |v| == (if |t.clients| == 500 then 1 else 0) && OldestDead(t, v, now)
              && |u.clients| == (if |t.clients| == 500 then 500 else |t.clients| + 1)
              && u.clients == Surviving(t.clients, v) + [Client(c.id, now)] && u.gens == t.gens
              && RowsSpared(t, u, now)
              && forall table, s :: s in Rows(u, table) ==> HasClient(u, Rows(u, table)[s].clientId)
  {
    RoomIsExact(t, now);
    RegisteredIs(t, c, now);
    if Registered(t, c, true, now).Ok? {
      EvictionSpares(t, Registered(t, c, true, now).value.clients, now);
      RegisterKeepsClients(t, c, true, now);
    }
  }

  lemma {:induction false} RegisterKeepsClients(t: Tables, c: Client, public: bool, now: Time)
    requires ClientsOk(t) && Registered(t, c, public, now).Ok?
    ensures ClientsOk(Registered(t, c, public, now).value)
  {
    var gone := Victims(t, now);
    var v := Evict(t, gone);
    var u := Registered(t, c, public, now).value;
    SurvivorsAre(t.clients, gone);
    SurvivorsDistinct(t.clients, gone);
    forall i | 0 <= i < |v.clients| ensures ClientKey(v.clients[i]) != c.id {
      assert HasClient(v, v.clients[i].id);
    }
    forall table, s | s in Rows(u, table) ensures HasClient(u, Rows(u, table)[s].clientId) {
      var id := Rows(u, table)[s].clientId;
      assert s in Rows(t, table) && HasClient(t, id) && id !in IdsAt(t.clients, gone);
      SurvivesIff(t, gone, id);
      HasClientGrows(v, u, id);
    }
  }

  lemma {:induction false} HasClientGrows(v: Tables, u: Tables, id: string)
    requires v.clients <= u.clients && HasClient(v, id)
    ensures HasClient(u, id)
  {
    var i :| 0 <= i < |v.clients| && v.clients[i].id == id;
    assert u.clients[i].id == id;
  }

  /** The clients are untouched and every row's client id is an existing client's. */
  lemma {:induction false} RowsKeepClients(t: Tables, u: Tables)
    requires ClientsOk(t) && u.clients == t.clients
    requires forall table, s :: s in Rows(u, table) ==>
               (s in Rows(t, table) && Rows(u, table)[s].clientId == Rows(t, table)[s].clientId)
               || HasClient(t, Rows(u, table)[s].clientId)
    ensures ClientsOk(u)
  {
    forall table, s | s in Rows(u, table) ensures HasClient(u, Rows(u, table)[s].clientId) {
      HasClientSame(t, u, Rows(u, table)[s].clientId);
      if s in Rows(t, table) {
        HasClientSame(t, u, Rows(t, table)[s].clientId);
      }
    }
  }

  lemma {:induction false} HasClientSame(t: Tables, u: Tables, id: string)
    requires u.clients == t.clients
    ensures HasClient(u, id) <==> HasClient(t, id)
  {
  }

  lemma {:induction false} CreatedKeepsClients(t: Tables, table: Table, sig: Sig, req: Request)
    requires ClientsOk(t) && Created(t, table, sig, req).Ok?
    ensures ClientsOk(Created(t, table, sig, req).value)
  {
    RowsKeepClients(t, Created(t, table, sig, req).value);
  }

  lemma {:induction false} IssuedKeepsClients(t: Tables, access: Sig, accessReq: Request, refresh: Sig,
          refreshReq: Request)
    requires ClientsOk(t) && Issued(t, access, accessReq, refresh, refreshReq).Ok?
    ensures ClientsOk(Issued(t, access, accessReq, refresh, refreshReq).value)
  {
    CreatedKeepsClients(t, Table.Access, access, accessReq);
    CreatedKeepsClients(Created(t, Table.Access, access, accessReq).value, Table.Refresh, refresh, refreshReq);
  }

  lemma {:induction false} RemovalKeepsClients(t: Tables, u: Tables)
    requires ClientsOk(t) && RowsFrom(t, u) && u.clients == t.clients
    ensures ClientsOk(u)
  {
    forall table, s | s in Rows(u, table)
      ensures s in Rows(t, table) && Rows(u, table)[s].clientId == Rows(t, table)[s].clientId {
      assert Shrinks(Rows(u, table), Rows(t, table));
    }
    RowsKeepClients(t, u);
  }

  lemma {:induction false} OnlyRegistrationChangesClients(t: Tables, a: Action)
    requires Effect(t, a).Ok? && OnlyRemoves(a) && !a.Register?
    ensures Effect(t, a).value.clients == t.clients
  {
  }

  lemma {:induction false} StepKeepsClients(w: World, e: Event)
    requires ClientsOk(w.t)
    ensures ClientsOk(Step(w, e).t)
  {
    if Succeeds(w, e) {
      match e.action
      case IssueCode(sig, req) => CreatedKeepsClients(w.t, Codes, sig, req);
      case IssuePkce(sig, req) => CreatedKeepsClients(w.t, Pkce, sig, req);
      case Exchange(code, access, accessReq, refresh, refreshReq) =>
        var u := Invalidated(w.t, code).value;
        RowsKeepClients(w.t, u);
        IssuedKeepsClients(u, access, accessReq, refresh, refreshReq);
      case Refresh(rid, token, access, accessReq, refresh, refreshReq) =>
        var u := Rotated(w.t, rid, token).value;
        RowsKeepClients(w.t, u);
        IssuedKeepsClients(u, access, accessReq, refresh, refreshReq);
      case Register(c, public, now) => RegisterKeepsClients(w.t, c, public, now);
      case _ =>
        RemovalRows(w.t, e.action);
        OnlyRegistrationChangesClients(w.t, e.action);
        RemovalKeepsClients(w.t, Effect(w.t, e.action).value);
    }
  }

  /** In every reachable state there are at most MAX_CLIENTS clients, and no row without its client. */
  lemma {:induction false} CapHoldsInEveryRun(es: seq<Event>)
    ensures ClientsOk(Run(es).t)
  {
    if es != [] {
      CapHoldsInEveryRun(es[..|es| - 1]);
      StepKeepsClients(Run(es[..|es| - 1]), es[|es| - 1]);
    }
  }
}
