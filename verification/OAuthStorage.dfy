/** The OAuth storage as seen from one context: statements on the committed tables, or on the context's transaction. */
module OAuthStorage {
  import opened Prelude
  import opened OAuthTables

  datatype TxState = Idle | Open(work: Tables) | Finished

  /** What a stored session would need to be counted: its subject and its integer generation. */
  predicate Countable(row: Row, user: string, now: Time) {
    && LiveRow(row, now)
    && row.session.subject != "" && row.session.gen.GenInt?
    && (user == ALL_USERS || row.session.subject == user)
  }

  function CountedKeys(rows: map<Sig, Row>, gens: map<string, int>, user: string, now: Time): set<Sig> {
    set s | s in rows && Countable(rows[s], user, now) && Accepts(gens, rows[s].session)
  }

  /** The access tokens, refresh tokens and codes that would work now. */
  function ActiveCount(t: Tables, user: string, now: Time): nat {
    |CountedKeys(t.access, t.gens, user, now)| + |CountedKeys(t.refresh, t.gens, user, now)|
    + |CountedKeys(t.codes, t.gens, user, now)|
  }

  /** What load answers: the row, unless it is missing, revoked, or its client is gone. */
  function Loaded(t: Tables, table: Table, sig: Sig): Result<Row> {
    if sig !in Rows(t, table)
       || !Accepts(t.gens, Rows(t, table)[sig].session) || !HasClient(t, Rows(t, table)[sig].clientId)
    then Fail(NotFound)
    else Ok(Rows(t, table)[sig])
  }

  class Storage {
    var db: Tables       // committed
    var tx: TxState      // this context's transaction

    /** What this context reads: its own writes inside a transaction, the committed tables otherwise. */
    function View(): Tables
      reads this
    {
      if tx.Open? then tx.work else db
    }

    /** Inside a transaction nothing is committed; outside, each statement commits by itself. */
    twostate predicate Wrote(t: Tables)
      reads this
    {
      && View() == t
      && (old(tx).Open? ==> tx.Open? && db == old(db))
      && (!old(tx).Open? ==> tx == old(tx))
    }

    constructor (t: Tables)
      ensures db == t && tx == Idle
    {
      db, tx := t, Idle;
    }

    method Write(t: Tables)
      modifies this
      ensures Wrote(t)
    {
      if tx.Open? { tx := Open(t); } else { db := t; }
    }

    // ---- Transactions

    method BeginTX() returns (err: Option<Err>)
      modifies this
      ensures db == old(db)
      ensures err.None? <==> old(tx).Idle?
      ensures tx == if err.None? then Open(db) else old(tx)
    {
      if tx != Idle { return Some(Nested); }
      tx := Open(db);
      return None;
    }

    /** COMMIT; broken says the statement failed, which rolls back. */
    method Commit(broken: bool) returns (err: Option<Err>)
      modifies this
      ensures err.None? <==> old(tx).Open? && !broken
      ensures db == if err.None? then old(View()) else old(db)
      ensures tx == if old(tx).Open? then Finished else old(tx)
    {
      if !tx.Open? { return Some(NoTx); }
      if broken {
        tx := Finished;
        return Some(Broken);
      }
      db := tx.work;
      tx := Finished;
      return None;
    }

    /** A no-op once the transaction has finished. */
    method Rollback() returns (err: Option<Err>)
      modifies this
      ensures db == old(db)
      ensures err.None? <==> !old(tx).Idle?
      ensures tx == if old(tx).Idle? then Idle else Finished
    {
      if tx.Idle? { return Some(NoTx); }
      tx := Finished;
      return None;
    }

    // ---- Token rows

    /** Stores a row active, with the request's own id, client, expiry and session; or fails and changes nothing. */
    method Create(table: Table, sig: Sig, req: Request) returns (err: Option<Err>)
      requires !tx.Finished?
      modifies this
      ensures err.None? <==>
                && req.session.Some? && req.client.Some? && req.expiresAt.Some?
                && sig !in Rows(old(View()), table) && HasClient(old(View()), req.client.value)
      ensures err.None? ==>
                && sig in Rows(View(), table)
                && Rows(View(), table)[sig] ==
                   Row(req.id, req.client.value, req.expiresAt.value, true, req.session.value)
      ensures forall other: Table, s :: other != table || s != sig ==>
                Get(Rows(View(), other), s) == Get(Rows(old(View()), other), s)
      ensures match Created(old(View()), table, sig, req)
              case Ok(t) => err.None? && Wrote(t)
              case Fail(e) => err == Some(e) && Wrote(old(View()))
    {
      if req.session.None? || req.client.None? || req.expiresAt.None? {
        return Some(Refused);
      }
      var t := View();
      if sig in Rows(t, table) || !HasClient(t, req.client.value) {
        return Some(Constraint);
      }
      var row := Row(req.id, req.client.value, req.expiresAt.value, true, req.session.value);
      Write(WithRows(t, table, Rows(t, table)[sig := row]));
      return None;
    }

    method CheckSession(s: Session) returns (ok: bool)
      ensures ok == Accepts(View().gens, s)
    {
      if s.subject == "" { return false; }
      match s.gen {
        case GenOther => return false;
        case GenInt(issued) => return issued == CurrentGen(View().gens, s.subject);
      }
    }

    method Load(table: Table, sig: Sig) returns (r: Result<Row>)
      ensures r.Ok? <==>
                && sig in Rows(View(), table) && HasClient(View(), Rows(View(), table)[sig].clientId)
                && Accepts(View().gens, Rows(View(), table)[sig].session)
      ensures r.Ok? ==> r.value == Rows(View(), table)[sig]   // used up or not
      ensures r == Loaded(View(), table, sig)
    {
      var rows := Rows(View(), table);
      if sig !in rows { return Fail(NotFound); }
      var ok := CheckSession(rows[sig].session);
      if !ok || !HasClient(View(), rows[sig].clientId) { return Fail(NotFound); }
      return Ok(rows[sig]);
    }

    /** Only one caller can use up a code. */
    method InvalidateAuthorizeCodeSession(sig: Sig) returns (err: Option<Err>)
      requires !tx.Finished?
      modifies this
      ensures match Invalidated(old(View()), sig)
              case Ok(t) => err.None? && Wrote(t)
              case Fail(e) => err == Some(e) && Wrote(old(View()))
    {
      var t := View();
      var hit := sig in t.codes && t.codes[sig].active;
      if !hit { return Some(NotFound); }
      Write(t.(codes := t.codes[sig := t.codes[sig].(active := false)]));
      return None;
    }

    /** Deletes one row, if it is there. */
    method Delete(table: Table, sig: Sig)
      requires !tx.Finished?
      modifies this
      ensures Wrote(Deleted(old(View()), table, sig))
      ensures forall other: Table, s :: s in Rows(View(), other) <==>
                s in Rows(old(View()), other) && !(other == table && s == sig)
      ensures forall other: Table, s :: s in Rows(View(), other) ==>
                Rows(View(), other)[s] == Rows(old(View()), other)[s]
    {
      Write(Deleted(View(), table, sig));
    }

    /** Every refresh token of the grant is inactive afterwards, and stays stored; nothing else changes. */
    method RevokeRefreshToken(requestId: string)
      requires !tx.Finished?
      modifies this
      ensures Wrote(RefreshRevoked(old(View()), requestId))
      ensures View() == old(View()).(refresh := View().refresh) && View().refresh.Keys == old(View()).refresh.Keys
      ensures forall s :: s in View().refresh && View().refresh[s].requestId == requestId ==> !View().refresh[s].active
      ensures forall s :: s in View().refresh ==>
                var was := old(View()).refresh[s];
                View().refresh[s] == was || (was.requestId == requestId && View().refresh[s] == was.(active := false))
    {
      Write(RefreshRevoked(View(), requestId));
    }

    /** No access token of the grant is left; nothing else changes. */
    method RevokeAccessToken(requestId: string)
      requires !tx.Finished?
      modifies this
      ensures Wrote(AccessRevoked(old(View()), requestId))
      ensures View() == old(View()).(access := View().access)
      ensures forall s :: s in View().access <==>
                s in old(View()).access && old(View()).access[s].requestId != requestId
      ensures forall s :: s in View().access ==> View().access[s] == old(View()).access[s]
    {
      Write(AccessRevoked(View(), requestId));
    }

    /** Retires a grant's tokens. In a transaction of its own when the context has none, which broken may fail. */
    method RotateRefreshToken(requestId: string, sig: Sig, broken: bool) returns (err: Option<Err>)
      requires !tx.Finished?
      modifies this
      ensures old(tx).Open? ==>
                match Rotated(old(View()), requestId, sig)
                case Ok(t) => err.None? && Wrote(t)
                case Fail(e) => err == Some(e) && Wrote(old(View()))
      ensures old(tx).Idle? ==>
                match Rotated(old(db), requestId, sig)
                case Ok(t) => (err.None? <==> !broken) && db == (if broken then old(db) else t)
                case Fail(e) => err == Some(e) && db == old(db)
    {
      if tx.Open? {
        err := RotateIn(requestId, sig);
        return;
      }
      var _ := BeginTX();
      err := RotateIn(requestId, sig);
      if err.None? {
        err := Commit(broken);
      }
      var _ := Rollback();
    }

    method RotateIn(requestId: string, sig: Sig) returns (err: Option<Err>)
      requires tx.Open?
      modifies this
      ensures match Rotated(old(View()), requestId, sig)
              case Ok(t) => err.None? && Wrote(t)
              case Fail(e) => err == Some(e) && Wrote(old(View()))
    {
      var t := View();
      if !CanRotate(t, requestId, sig) { return Some(Lost); }
      Write(t.(refresh := t.refresh[sig := t.refresh[sig].(active := false)]));
      RevokeRefreshToken(requestId);
      RevokeAccessToken(requestId);
      assert View() == AccessRevoked(RefreshRevoked(t, requestId), requestId);
      return None;
    }

    /** The code exchange as fosite runs it: one transaction around invalidate, create, create. */
    method Exchange(code: Sig, access: Sig, accessReq: Request, refresh: Sig, refreshReq: Request, broken: bool)
      returns (err: Option<Err>)
      requires tx.Idle?
      modifies this
      ensures match Exchanged(old(db), code, access, accessReq, refresh, refreshReq)
              case Ok(t) => (err.None? <==> !broken) && db == (if broken then old(db) else t)
              case Fail(e) => err == Some(e) && db == old(db)
    {
      var _ := BeginTX();
      err := InvalidateAuthorizeCodeSession(code);
      if err.None? { err := Create(Table.Access, access, accessReq); }
      if err.None? { err := Create(Table.Refresh, refresh, refreshReq); }
      if err.None? { err := Commit(broken); }
      var _ := Rollback();
    }

    /** The refresh as fosite runs it: one transaction around rotate, create, create. */
    method Refresh(requestId: string, token: Sig, access: Sig, accessReq: Request, refresh: Sig,
            refreshReq: Request, broken: bool)
      returns (err: Option<Err>)
      requires tx.Idle?
      modifies this
      ensures match Refreshed(old(db), requestId, token, access, accessReq, refresh, refreshReq)
              case Ok(t) => (err.None? <==> !broken) && db == (if broken then old(db) else t)
              case Fail(e) => err == Some(e) && db == old(db)
    {
      var _ := BeginTX();
      err := RotateRefreshToken(requestId, token, broken);
      if err.None? { err := Create(Table.Access, access, accessReq); }
      if err.None? { err := Create(Table.Refresh, refresh, refreshReq); }
      if err.None? { err := Commit(broken); }
      var _ := Rollback();
    }

    // ---- Generations

    method BumpGeneration(user: string) returns (r: Result<int>)
      requires !tx.Finished?
      modifies this
      ensures match Bumped(old(View()), user)
              case Ok(t) => r == Ok(GenOf(t.gens, user)) && Wrote(t)
              case Fail(e) => r == Fail(e) && Wrote(old(View()))
    {
      if user == "" { return Fail(Refused); }
      var t := View();
      var n := if user in t.gens then t.gens[user] + 1 else 1;
      Write(t.(gens := t.gens[user := n]));
      return Ok(n);
    }

    /** Counts one table's rows for user at their current generation, caching generations in gens. */
    method CountActive(rows: map<Sig, Row>, user: string, now: Time, cache: map<string, int>)
      returns (n: nat, gens: map<string, int>)
      requires forall u :: u in cache ==> cache[u] == CurrentGen(View().gens, u)
      ensures n == |CountedKeys(rows, View().gens, user, now)|
      ensures forall u :: u in gens ==> gens[u] == CurrentGen(View().gens, u)
    {
      n, gens := 0, cache;
      var sessions := set s | s in rows && Countable(rows[s], user, now);
      var todo := sessions;
      ghost var current := View().gens;
      while todo != {}
        invariant todo <= sessions
        invariant n == |AcceptedKeys(rows, current, sessions - todo)|
        invariant forall u :: u in gens ==> gens[u] == CurrentGen(current, u)
        decreases todo
      {
        var s :| s in todo;
        var subject := rows[s].session.subject;
        if subject !in gens {
          gens := gens[subject := CurrentGen(View().gens, subject)];
        }
        var hit := rows[s].session.gen.n == gens[subject];
        AcceptedOneMore(rows, current, sessions - todo, s);
        assert sessions - (todo - {s}) == (sessions - todo) + {s};
        todo := todo - {s};
        if hit {
          n := n + 1;
        }
      }
      assert sessions - todo == sessions;
      assert AcceptedKeys(rows, current, sessions) == CountedKeys(rows, current, user, now);
    }

    static ghost function AcceptedKeys(rows: map<Sig, Row>, gens: map<string, int>, keys: set<Sig>): set<Sig> {
      set s | s in keys && s in rows && Accepts(gens, rows[s].session)
    }

    static lemma {:induction false} AcceptedOneMore(rows: map<Sig, Row>, gens: map<string, int>, keys: set<Sig>, s: Sig)
      requires s !in keys && s in rows
      ensures |AcceptedKeys(rows, gens, keys + {s})| ==
              |AcceptedKeys(rows, gens, keys)| + if Accepts(gens, rows[s].session) then 1 else 0
    {
      assert AcceptedKeys(rows, gens, keys + {s}) ==
             AcceptedKeys(rows, gens, keys) + if Accepts(gens, rows[s].session) then {s} else {};
    }

    method ActiveTokens(user: string, now: Time) returns (total: nat)
      ensures total == ActiveCount(View(), user, now)
    {
      var gens: map<string, int> := map[];
      var n;
      n, gens := CountActive(View().access, user, now, gens);
      total := n;
      n, gens := CountActive(View().refresh, user, now, gens);
      total := total + n;
      n, gens := CountActive(View().codes, user, now, gens);
      total := total + n;
    }

    // ---- Expiry and clients

    /** Deletes expired rows from every token table and returns how many. */
    method Prune(now: Time, broken: bool) returns (deleted: nat, err: Option<Err>)
      requires tx.Idle?
      modifies this
      ensures err.None? <==> !broken
      ensures db == if broken then old(db) else Pruned(old(db), now)
      ensures !broken ==> KeepsUnexpired(old(db), db, now)
      ensures db.clients == old(db.clients) && db.gens == old(db.gens)
      ensures deleted == if broken then 0 else ExpiredCount(old(db), now)
      ensures deleted == RowCount(old(db)) - RowCount(db)
    {
      PruningKeeps(db, now);
      var _ := BeginTX();
      var t := View();
      deleted := ExpiredIn(t.codes, now) + ExpiredIn(t.access, now)
                 + ExpiredIn(t.refresh, now) + ExpiredIn(t.pkce, now);
      Write(Pruned(t, now));
      err := Commit(broken);
      var _ := Rollback();
      if err.Some? { deleted := 0; }
    }

    /** Picks the excess oldest dead clients and deletes them, or reports that there are too few. */
    method MakeRoom(now: Time) returns (err: Option<Err>)
      requires tx.Open?
      modifies this
      ensures match RoomMade(old(View()), now)
              case Ok(t) => err.None? && Wrote(t)
              case Fail(e) => err == Some(e)
      ensures tx.Open? && db == old(db)
    {
      var t := View();
      var excess := Excess(t);
      if excess == 0 {
        assert Chosen(t.clients, DeadIndices(t, now), 0) == {};
        NothingEvicted(t);
        return None;
      }
      var gone := SelectOldest(t.clients, DeadIndices(t, now), excess);
      SelectionUnique(t.clients, DeadIndices(t, now), excess, gone, Chosen(t.clients, DeadIndices(t, now), excess));
      Write(Evict(t, gone));
      if |gone| < excess { return Some(TooMany); }
      return None;
    }

    static lemma {:induction false} SurvivingAll(clients: seq<Client>)
      ensures Surviving(clients, {}) == clients
    {
      if clients != [] {
        SurvivingAll(clients[..|clients| - 1]);
      }
    }

    static lemma {:induction false} NothingEvicted(t: Tables)
      ensures Evict(t, {}) == t
    {
      SurvivingAll(t.clients);
    }

    /** ORDER BY created_at, rowid LIMIT n over a set of clients. */
    static method SelectOldest(clients: seq<Client>, from: set<nat>, n: nat) returns (chosen: set<nat>)
      requires forall i :: i in from ==> i < |clients|
      ensures Selects(clients, from, n, chosen)
    {
      chosen := {};
      var rest := from;
      while rest != {} && |chosen| < n
        invariant rest == from - chosen && chosen <= from && |chosen| <= n
        invariant forall i, j :: i in chosen && j in rest ==> Older(clients, i, j)
        decreases rest
      {
        var m := FindOldest(clients, rest);
        chosen := chosen + {m};
        rest := rest - {m};
      }
      assert |from| == |chosen| + |rest|;
    }

    static method FindOldest(clients: seq<Client>, from: set<nat>) returns (m: nat)
      requires from != {} && forall i :: i in from ==> i < |clients|
      ensures OldestOf(clients, from, m)
    {
      m :| m in from;
      var todo := from - {m};
      while todo != {}
        invariant todo <= from && m in from - todo
        invariant forall j :: j in from - todo && j != m ==> Older(clients, m, j)
        decreases todo
      {
        var k :| k in todo;
        var first := if Older(clients, k, m) then k else m;
        forall j | j in from - (todo - {k}) && j != first ensures Older(clients, first, j) {
          assert j != k && j != m ==> j in from - todo && Older(clients, m, j);
        }
        m := first;
        todo := todo - {k};
      }
    }

    method RegisterClient(c: Client, public: bool, now: Time, broken: bool) returns (err: Option<Err>)
      requires tx.Idle?
      modifies this
      ensures c.id == "" || !public ==> err == Some(Refused)
      ensures err.Some? ==> db == old(db)
      ensures match Registered(old(db), c, public, now)
              case Ok(t) => (err.None? <==> !broken) && db == (if broken then old(db) else t)
              case Fail(e) => err == Some(e) && db == old(db)
    {
      if c.id == "" || !public { return Some(Refused); }
      var _ := BeginTX();
      err := MakeRoom(now);
      if err.None? {
        var t := View();
        if HasClient(t, c.id) {
          err := Some(Constraint);
        } else {
          Write(t.(clients := t.clients + [Client(c.id, now)]));
          err := Commit(broken);
        }
      }
      var _ := Rollback();
    }
  }

  /** In every table the rows that expire later than now are there as they were, and no others. */
  ghost predicate KeepsUnexpired(t: Tables, u: Tables, now: Time) {
    forall table: Table, s ::
      Get(Rows(u, table), s) ==
      if s in Rows(t, table) && Rows(t, table)[s].expiresAt > now then Some(Rows(t, table)[s]) else None
  }

  lemma {:induction false} PruningKeeps(t: Tables, now: Time)
    ensures KeepsUnexpired(t, Pruned(t, now), now)
    ensures RowCount(t) == RowCount(Pruned(t, now)) + ExpiredCount(t, now)
  {
    UnexpiredCount(t.codes, now);
    UnexpiredCount(t.access, now);
    UnexpiredCount(t.refresh, now);
    UnexpiredCount(t.pkce, now);
    forall table: Table, s
      ensures Get(Rows(Pruned(t, now), table), s) ==
              if s in Rows(t, table) && Rows(t, table)[s].expiresAt > now then Some(Rows(t, table)[s]) else None
    {
      PrunedTable(t, now, table);
    }
  }

  lemma {:induction false} PrunedTable(t: Tables, now: Time, table: Table)
    ensures Rows(Pruned(t, now), table) == Unexpired(Rows(t, table), now)
  {
  }

  function RowCount(t: Tables): nat { |t.codes| + |t.access| + |t.refresh| + |t.pkce| }

  lemma {:induction false} UnexpiredCount(rows: map<Sig, Row>, now: Time)
    ensures |rows| == |Unexpired(rows, now)| + ExpiredIn(rows, now)
  {
    var gone := set s | s in rows && rows[s].expiresAt <= now;
    assert rows.Keys == Unexpired(rows, now).Keys + gone && Unexpired(rows, now).Keys !! gone;
    assert |rows| == |rows.Keys| && |Unexpired(rows, now)| == |Unexpired(rows, now).Keys|;
  }

  function ExpiredIn(rows: map<Sig, Row>, now: Time): nat {
    |set s | s in rows && rows[s].expiresAt <= now|
  }

  function ExpiredCount(t: Tables, now: Time): nat {
    ExpiredIn(t.codes, now) + ExpiredIn(t.access, now) + ExpiredIn(t.refresh, now) + ExpiredIn(t.pkce, now)
  }
}
