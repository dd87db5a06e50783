/** The OAuth tables and what each storage statement does to them. */
module OAuthTables {
  import opened Prelude

  type Sig = string
  type Time = int

  const ALL_USERS := "*"
  const MAX_CLIENTS := 500

  /** A session's generation as stored: an integer, or anything else (missing, fractional, not a number). */
  datatype Gen = GenInt(n: int) | GenOther

  datatype Session = Session(subject: string, gen: Gen)

  /** A token, code or PKCE row. Access and PKCE tables have no active column: there it stays true. */
  datatype Row = Row(requestId: string, clientId: string, expiresAt: Time, active: bool, session: Session)

  datatype Client = Client(id: string, createdAt: Time)

  /** clients is in rowid (insertion) order. */
  datatype Tables = Tables(
    clients: seq<Client>,
    codes: map<Sig, Row>,
    access: map<Sig, Row>,
    refresh: map<Sig, Row>,
    pkce: map<Sig, Row>,
    gens: map<string, int>)

  datatype Table = Codes | Access | Refresh | Pkce

  /** A fosite request: the client, session and expiry may be missing, and are then refused. */
  datatype Request = Request(id: string, client: Option<string>, session: Option<Session>, expiresAt: Option<Time>)

  datatype Err = NotFound | Used | Inactive | Lost | Refused | Constraint | TooMany | NoTx | Nested | Broken

  datatype Result<+T> = Ok(value: T) | Fail(err: Err)

  function Rows(t: Tables, table: Table): map<Sig, Row> {
    match table
    case Codes => t.codes
    case Access => t.access
    case Refresh => t.refresh
    case Pkce => t.pkce
  }

  function WithRows(t: Tables, table: Table, rows: map<Sig, Row>): Tables {
    match table
    case Codes => t.(codes := rows)
    case Access => t.(access := rows)
    case Refresh => t.(refresh := rows)
    case Pkce => t.(pkce := rows)
  }

  predicate HasClient(t: Tables, id: string) {
    exists i :: 0 <= i < |t.clients| && t.clients[i].id == id
  }

  // ---- Generations

  function GenOf(gens: map<string, int>, user: string): int {
    if user in gens then gens[user] else 0
  }

  /** SUM(generation) over the rows of user and "*". */
  function CurrentGen(gens: map<string, int>, user: string): int {
    GenOf(gens, user) + if user == ALL_USERS then 0 else GenOf(gens, ALL_USERS)
  }

  predicate Accepts(gens: map<string, int>, s: Session) {
    s.subject != "" && s.gen.GenInt? && s.gen.n == CurrentGen(gens, s.subject)
  }

  function Bumped(t: Tables, user: string): Result<Tables> {
    if user == "" then Fail(Refused) else Ok(t.(gens := BumpedGens(t.gens, user)))
  }

  function BumpedGens(gens: map<string, int>, user: string): map<string, int> {
    gens[user := GenOf(gens, user) + 1]
  }

  /** Whether a bump of one name reaches the sessions of another. */
  predicate Reaches(bumped: string, user: string) { bumped == user || bumped == ALL_USERS }

  /** A counter that moves by one exactly at the hits stays put exactly where there are none. */
  lemma {:induction false} CounterUnmovedIff(g: nat -> int, hit: nat -> bool, n: nat, m: nat)
    requires n <= m && forall k: nat :: k < m ==> g(k + 1) == g(k) + if hit(k) then 1 else 0
    ensures g(n) <= g(m)
    ensures g(n) == g(m) <==> forall k: nat :: n <= k < m ==> !hit(k)
  {
    if n < m { CounterUnmovedIff(g, hit, n, m - 1); }
  }

  // ---- Token statements

  /** INSERT of one row: the signature is the primary key and the client must exist. */
  function Created(t: Tables, table: Table, sig: Sig, req: Request): Result<Tables> {
    if req.session.None? || req.client.None? || req.expiresAt.None? then Fail(Refused)
    else if sig in Rows(t, table) || !HasClient(t, req.client.value) then Fail(Constraint)
    else var row := Row(req.id, req.client.value, req.expiresAt.value, true, req.session.value);
         Ok(WithRows(t, table, Rows(t, table)[sig := row]))
  }

  function Invalidated(t: Tables, sig: Sig): Result<Tables> {
    if sig in t.codes && t.codes[sig].active then Ok(t.(codes := t.codes[sig := t.codes[sig].(active := false)]))
    else Fail(NotFound)
  }

  function RefreshRevoked(t: Tables, requestId: string): Tables {
    t.(refresh := map s | s in t.refresh ::
         if t.refresh[s].requestId == requestId then t.refresh[s].(active := false) else t.refresh[s])
  }

  function AccessRevoked(t: Tables, requestId: string): Tables {
    t.(access := map s | s in t.access && t.access[s].requestId != requestId :: t.access[s])
  }

  function Deleted(t: Tables, table: Table, sig: Sig): Tables { WithRows(t, table, Rows(t, table) - {sig}) }

  predicate CanRotate(t: Tables, requestId: string, sig: Sig) {
    sig in t.refresh && t.refresh[sig].requestId == requestId && t.refresh[sig].active
  }

  function Rotated(t: Tables, requestId: string, sig: Sig): Result<Tables> {
    if CanRotate(t, requestId, sig) then Ok(AccessRevoked(RefreshRevoked(t, requestId), requestId)) else Fail(Lost)
  }

  function Unexpired(rows: map<Sig, Row>, now: Time): map<Sig, Row> {
    map s | s in rows && rows[s].expiresAt > now :: rows[s]
  }

  function Pruned(t: Tables, now: Time): Tables {
    t.(codes := Unexpired(t.codes, now), access := Unexpired(t.access, now),
       refresh := Unexpired(t.refresh, now), pkce := Unexpired(t.pkce, now))
  }

  // ---- Issuing: invalidate or rotate, then create, in one transaction

  function Issued(t: Tables, access: Sig, accessReq: Request, refresh: Sig, refreshReq: Request): Result<Tables> {
    match Created(t, Access, access, accessReq)
    case Fail(e) => Fail(e)
    case Ok(u) => Created(u, Refresh, refresh, refreshReq)
  }

  function Exchanged(t: Tables, code: Sig, access: Sig, accessReq: Request, refresh: Sig,
          refreshReq: Request): Result<Tables> {
    match Invalidated(t, code)
    case Fail(e) => Fail(e)
    case Ok(u) => Issued(u, access, accessReq, refresh, refreshReq)
  }

  function Refreshed(t: Tables, requestId: string, token: Sig, access: Sig, accessReq: Request, refresh: Sig,
          refreshReq: Request): Result<Tables> {
    match Rotated(t, requestId, token)
    case Fail(e) => Fail(e)
    case Ok(u) => Issued(u, access, accessReq, refresh, refreshReq)
  }

  // ---- Clients

  predicate LiveRow(row: Row, now: Time) { row.active && row.expiresAt > now }

  predicate HasLive(rows: map<Sig, Row>, client: string, now: Time) {
    exists s :: s in rows && rows[s].clientId == client && LiveRow(rows[s], now)
  }

  /** A client with no live code, access token or refresh token. */
  predicate DeadClient(t: Tables, client: string, now: Time) {
    !HasLive(t.codes, client, now) && !HasLive(t.access, client, now) && !HasLive(t.refresh, client, now)
  }

  function DeadIndices(t: Tables, now: Time): (r: set<nat>)
    ensures forall i: nat :: i in r <==> i < |t.clients| && DeadClient(t, t.clients[i].id, now)
  {
    set i: nat | i < |t.clients| && DeadClient(t, t.clients[i].id, now)
  }

  /** ORDER BY created_at, rowid. */
  predicate Older(clients: seq<Client>, i: nat, j: nat)
    requires i < |clients| && j < |clients|
  {
    clients[i].createdAt < clients[j].createdAt || (clients[i].createdAt == clients[j].createdAt && i < j)
  }

  ghost predicate OldestOf(clients: seq<Client>, from: set<nat>, m: nat)
    requires forall i :: i in from ==> i < |clients|
  {
    m in from && forall j :: j in from && j != m ==> Older(clients, m, j)
  }

  /** The n oldest of a set of clients (all of it, if smaller): what ORDER BY ... LIMIT n selects. */
  ghost predicate Selects(clients: seq<Client>, from: set<nat>, n: nat, chosen: set<nat>)
    requires forall i :: i in from ==> i < |clients|
  {
    && chosen <= from
    && |chosen| == (if |from| < n then |from| else n)
    && forall i, j :: i in chosen && j in from - chosen ==> Older(clients, i, j)
  }

  function Surviving(clients: seq<Client>, gone: set<nat>): seq<Client> {
    if clients == [] then []
    else
      var rest := Surviving(clients[..|clients| - 1], gone);
      if |clients| - 1 in gone then rest else rest + [clients[|clients| - 1]]
  }

  function WithoutClients(rows: map<Sig, Row>, ids: set<string>): map<Sig, Row> {
    map s | s in rows && rows[s].clientId !in ids :: rows[s]
  }

  function IdsAt(clients: seq<Client>, at: set<nat>): set<string>
    requires forall i :: i in at ==> i < |clients|
  {
    set i | i in at :: clients[i].id
  }

  /** DELETE FROM oauth_clients, with ON DELETE CASCADE into the four tables. */
  function Evict(t: Tables, gone: set<nat>): Tables
    requires forall i :: i in gone ==> i < |t.clients|
  {
    var ids := IdsAt(t.clients, gone);
    t.(clients := Surviving(t.clients, gone),
       codes := WithoutClients(t.codes, ids), access := WithoutClients(t.access, ids),
       refresh := WithoutClients(t.refresh, ids), pkce := WithoutClients(t.pkce, ids))
  }

  lemma {:induction false} OldestExists(clients: seq<Client>, from: set<nat>)
    requires from != {} && forall i :: i in from ==> i < |clients|
    ensures exists m :: OldestOf(clients, from, m)
  {
    var m :| m in from;
    if from != {m} {
      OldestExists(clients, from - {m});
      var k :| OldestOf(clients, from - {m}, k);
      var first := if Older(clients, k, m) then k else m;
      forall j | j in from && j != first ensures Older(clients, first, j) {
        assert j != k && j != m ==> j in from - {m} && Older(clients, k, j);
      }
      assert OldestOf(clients, from, first);
    } else {
      assert OldestOf(clients, from, m);
    }
  }

  /** The selection exists and is unique, so the DELETE is deterministic. */
  lemma {:induction false} SelectionExists(clients: seq<Client>, from: set<nat>, n: nat)
    requires forall i :: i in from ==> i < |clients|
    ensures exists chosen :: Selects(clients, from, n, chosen)
  {
    if n == 0 || from == {} {
      assert Selects(clients, from, n, {});
    } else {
      OldestExists(clients, from);
      var m :| OldestOf(clients, from, m);
      SelectionExists(clients, from - {m}, n - 1);
      var rest :| Selects(clients, from - {m}, n - 1, rest);
      SelectOneMore(clients, from, n, m, rest);
    }
  }

  lemma {:induction false} SelectOneMore(clients: seq<Client>, from: set<nat>, n: nat, m: nat, rest: set<nat>)
    requires n > 0 && forall i :: i in from ==> i < |clients|
    requires OldestOf(clients, from, m) && Selects(clients, from - {m}, n - 1, rest)
    ensures Selects(clients, from, n, rest + {m})
  {
    assert |from - {m}| == |from| - 1;
    assert |rest + {m}| == |rest| + 1;
    assert from - (rest + {m}) == (from - {m}) - rest;
  }

  lemma {:induction false} SelectionUnique(clients: seq<Client>, from: set<nat>, n: nat, a: set<nat>, b: set<nat>)
    requires forall i :: i in from ==> i < |clients|
    requires Selects(clients, from, n, a) && Selects(clients, from, n, b)
    ensures a == b
  {
    if a != b {
      assert |a| == |a * b| + |a - b| && |b| == |a * b| + |b - a|;
      assert a - b != {} && b - a != {};
      var x, y :| x in a && x in from - b && y in b && y in from - a;
      assert false;
    }
  }

  ghost function Chosen(clients: seq<Client>, from: set<nat>, n: nat): (chosen: set<nat>)
    requires forall i :: i in from ==> i < |clients|
    ensures Selects(clients, from, n, chosen)
  {
    SelectionExists(clients, from, n);
    var chosen :| Selects(clients, from, n, chosen);
    chosen
  }

  function Excess(t: Tables): nat {
    if |t.clients| >= MAX_CLIENTS then |t.clients| - MAX_CLIENTS + 1 else 0
  }

  /** Evict as many of the oldest dead clients as are needed for one more, or fail. */
  ghost function RoomMade(t: Tables, now: Time): Result<Tables> {
    var gone := Chosen(t.clients, DeadIndices(t, now), Excess(t));
    if |gone| < Excess(t) then Fail(TooMany) else Ok(Evict(t, gone))
  }

  ghost function Registered(t: Tables, c: Client, public: bool, now: Time): Result<Tables> {
    if c.id == "" || !public then Fail(Refused)
    else
      match RoomMade(t, now)
      case Fail(e) => Fail(e)
      case Ok(u) => if HasClient(u, c.id) then Fail(Constraint) else Ok(u.(clients := u.clients + [Client(c.id, now)]))
  }
}
