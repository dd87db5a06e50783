/** Uploading a backup over a stream the server may drop and a link that may lose any request or answer. */
module BackupStream {
  import opened Prelude
  import opened BackupStore

  datatype Stmt =
    | CreateTable
    | Begin
    | Insert(info: Info, chunk: nat, data: Bytes)
    | Commit

  datatype Request = Request(baton: Option<string>, stmt: Option<Stmt>, close: bool)

  // ---- The server

  /** A stream's transaction, if one is open, is a private copy that holds the write lock. */
  datatype Server = Server(committed: BackupTable, streams: map<string, Option<BackupTable>>)

  /** What goes wrong around one request. dropsBefore: streams the server lost earlier; failsStmt: the statement
      errs; dropsAfter: the server closes the stream; baton: what it names the stream next; answerLost: the answer
      does not arrive; answerRefused: it arrives with its baton, but with the wrong number of results. */
  datatype Weather = Weather(requestLost: bool, dropsBefore: set<string>, failsStmt: bool, dropsAfter: bool,
                             baton: string, answerLost: bool, answerRefused: bool)

  predicate Locked(streams: map<string, Option<BackupTable>>) {
    exists b :: b in streams && streams[b].Some?
  }

  datatype Effect = Effect(ok: bool, committed: BackupTable, tx: Option<BackupTable>)

  /** One statement on a stream with transaction tx, while the other streams may hold the lock. */
  function Execute(stmt: Stmt, committed: BackupTable, tx: Option<BackupTable>, locked: bool): Effect {
    match stmt
    case CreateTable => Effect(true, committed, tx)
    case Begin => if tx.Some? || locked then Effect(false, committed, tx) else Effect(true, committed, Some(committed))
    case Insert(info, chunk, data) =>
      var row := ChunkRow(info.createdAt, info.size, info.sha, data);
      if tx.Some? then
        if (info.id, chunk) in tx.value then Effect(false, committed, tx)
        else Effect(true, committed, Some(tx.value[(info.id, chunk) := row]))
      else if locked || (info.id, chunk) in committed then Effect(false, committed, tx)
      else Effect(true, committed[(info.id, chunk) := row], None)   // autocommit
    case Commit => if tx.None? then Effect(false, committed, None) else Effect(true, tx.value, None)
  }

  datatype Answer = Answer(server: Server, ok: bool, baton: Option<string>)

  /** The pipeline call as its caller sees it: the new server state, whether it succeeded, and the latest baton. */
  function Serve(s: Server, req: Request, w: Weather): Answer {
    var streams := s.streams - w.dropsBefore;
    if w.requestLost then Answer(s.(streams := streams), false, req.baton)
    else if req.baton.Some? && req.baton.value != "" && req.baton.value !in streams
    then Answer(s.(streams := streams), false, req.baton)   // bad baton: an HTTP error
    else
      var known := req.baton.Some? && req.baton.value in streams;
      var tx := if known then streams[req.baton.value] else None;   // no baton, or an empty one: a new stream
      var others := if known then streams - {req.baton.value} else streams;
      var e := if req.stmt.None? || w.failsStmt then Effect(req.stmt.None?, s.committed, tx)
               else Execute(req.stmt.value, s.committed, tx, Locked(others));
      var gone := req.close || w.dropsAfter || w.baton in others;
      var s' := Server(e.committed, if gone then others else others[w.baton := e.tx]);
      var next := if gone then None else Some(w.baton);
      if w.answerLost then Answer(s', false, req.baton) else Answer(s', e.ok && !w.answerRefused, next)
  }

  // ---- The client

  /** One request, whether the caller saw it succeed, the baton it was left with, and the table committed after it. */
  datatype Entry = Entry(req: Request, ok: bool, answered: Option<string>, table: BackupTable)

  ghost predicate AllOrNothing(log: seq<Entry>, base: BackupTable, full: BackupTable) {
    forall i :: 0 <= i < |log| ==> log[i].table == base || log[i].table == full
  }

  predicate IsInsert(e: Entry) { e.req.stmt.Some? && e.req.stmt.value.Insert? }
  predicate IsCommit(e: Entry) { e.req.stmt == Some(Commit) }
  predicate IsBegin(e: Entry) { e.req.stmt == Some(Begin) }

  predicate RequireStream(baton: Option<string>) { baton.Some? && baton.value != "" }

  /** baton is the answer to the last request, a successful BEGIN or INSERT: it names the transaction's stream. */
  predicate Ready(log: seq<Entry>, baton: Option<string>) {
    && RequireStream(baton) && log != []
    && var last := log[|log| - 1]; last.ok && last.answered == baton && (IsBegin(last) || IsInsert(last))
  }

  /** Every INSERT and COMMIT goes out on the baton that the statement before it was answered with, back to a
      successful BEGIN. */
  ghost predicate OnOneStream(log: seq<Entry>) {
    forall i :: 0 <= i < |log| && (IsInsert(log[i]) || IsCommit(log[i])) ==> Ready(log[..i], log[i].req.baton)
  }

  /** The successful inserts of the log, in order. */
  function Acked(log: seq<Entry>): seq<Stmt> {
    if log == [] then []
    else
      var e := log[|log| - 1];
      if IsInsert(e) && e.ok then Acked(log[..|log| - 1]) + [e.req.stmt.value] else Acked(log[..|log| - 1])
  }

  /** COMMIT goes out only once every insert so far succeeded and they are exactly the wanted ones. */
  ghost predicate CommitsLast(log: seq<Entry>, wanted: seq<Stmt>) {
    forall i :: 0 <= i < |log| && IsCommit(log[i]) ==>
      Acked(log[..i]) == wanted && forall j :: 0 <= j < i && IsInsert(log[j]) ==> log[j].ok
  }

  function Inserts(info: Info, pieces: seq<Bytes>): seq<Stmt> {
    if pieces == [] then []
    else Inserts(info, pieces[..|pieces| - 1]) + [Insert(info, |pieces| - 1, pieces[|pieces| - 1])]
  }

  /** What every request log of an upload satisfies. */
  ghost predicate Proper(log: seq<Entry>, base: BackupTable, full: BackupTable, wanted: seq<Stmt>) {
    AllOrNothing(log, base, full) && OnOneStream(log) && CommitsLast(log, wanted)
  }

  /** While chunks are going out: nothing committed, nothing refused, and exactly these inserts acknowledged. */
  ghost predicate Inserting(log: seq<Entry>, base: BackupTable, acked: seq<Stmt>) {
    && Uncommitted(log, base)
    && (forall i :: 0 <= i < |log| && IsInsert(log[i]) ==> log[i].ok)
    && Acked(log) == acked
  }

  ghost predicate Uncommitted(log: seq<Entry>, base: BackupTable) {
    && AllOrNothing(log, base, base) && OnOneStream(log)
    && (forall i :: 0 <= i < |log| ==> !IsCommit(log[i]))
  }

  lemma {:induction false} StreamGrows(log: seq<Entry>, e: Entry)
    requires OnOneStream(log) && (IsInsert(e) || IsCommit(e) ==> Ready(log, e.req.baton))
    ensures OnOneStream(log + [e])
  {
    var next := log + [e];
    assert next[..|log|] == log;
    forall i | 0 <= i < |next| && (IsInsert(next[i]) || IsCommit(next[i])) ensures Ready(next[..i], next[i].req.baton) {
      assert i < |log| ==> next[..i] == log[..i];
    }
  }

  lemma {:induction false} LogGrows(log: seq<Entry>, e: Entry, base: BackupTable, full: BackupTable, wanted: seq<Stmt>)
    requires Proper(log, base, full, wanted)
    requires e.table == base || e.table == full
    requires IsInsert(e) || IsCommit(e) ==> Ready(log, e.req.baton)
    requires IsCommit(e) ==> Acked(log) == wanted && forall j :: 0 <= j < |log| && IsInsert(log[j]) ==> log[j].ok
    ensures Proper(log + [e], base, full, wanted)
  {
    var next := log + [e];
    assert next[..|log|] == log;
    StreamGrows(log, e);
    forall i | 0 <= i < |next| && IsCommit(next[i])
      ensures Acked(next[..i]) == wanted && forall j :: 0 <= j < i && IsInsert(next[j]) ==> next[j].ok
    {
      assert i < |log| ==> next[..i] == log[..i];
    }
  }

  lemma {:induction false} InsertingGrows(log: seq<Entry>, e: Entry, base: BackupTable, acked: seq<Stmt>)
    requires Inserting(log, base, acked) && e.table == base && !IsCommit(e)
    requires IsInsert(e) ==> Ready(log, e.req.baton)
    ensures IsInsert(e) && e.ok ==> Inserting(log + [e], base, acked + [e.req.stmt.value])
    ensures !IsInsert(e) ==> Inserting(log + [e], base, acked)
    ensures Uncommitted(log + [e], base)
  {
    assert (log + [e])[..|log|] == log;
    StreamGrows(log, e);
  }

  lemma {:induction false} UncommittedIsProper(log: seq<Entry>, base: BackupTable, full: BackupTable, wanted: seq<Stmt>)
    requires Uncommitted(log, base)
    ensures Proper(log, base, full, wanted)
  {
  }

  /** What the server may hold for a client that has inserted a prefix: its transaction, or nothing any more. */
  ghost predicate Holds(s: Server, baton: string, base: BackupTable, work: BackupTable) {
    s.committed == base && (baton in s.streams ==> s.streams[baton] == Some(work))
  }

  lemma {:induction false} BeginHolds(s: Server, req: Request, w: Weather)
    requires req == Request(None, Some(Begin), false)
    ensures Serve(s, req, w).server.committed == s.committed
    ensures Serve(s, req, w).ok && Serve(s, req, w).baton.Some? ==>
              Holds(Serve(s, req, w).server, Serve(s, req, w).baton.value, s.committed, s.committed)
  {
  }

  lemma {:induction false} InsertHolds(s: Server, b: string, w: Weather, base: BackupTable, info: Info,
          pieces: seq<Bytes>)
    requires b != "" && pieces != [] && Holds(s, b, base, WithPieces(base, info, pieces[..|pieces| - 1]))
    ensures var a := Serve(s, Request(Some(b), Some(Insert(info, |pieces| - 1, pieces[|pieces| - 1])), false), w);
            && a.server.committed == base
            && (a.ok && a.baton.Some? ==> Holds(a.server, a.baton.value, base, WithPieces(base, info, pieces)))
  {
  }

  lemma {:induction false} CommitHolds(s: Server, b: string, w: Weather, base: BackupTable, full: BackupTable)
    requires b != "" && Holds(s, b, base, full)
    ensures var a := Serve(s, Request(Some(b), Some(Commit), true), w);
            && (a.server.committed == base || a.server.committed == full)
            && (a.ok ==> a.server.committed == full)
  {
  }

  // ---- When an upload succeeds

  /** Other clients' streams after the first j requests of an upload: the server may have lost some. */
  function Others(streams: map<string, Option<BackupTable>>, w: nat -> Weather, from: nat,
          j: nat): map<string, Option<BackupTable>> {
    if j == 0 then streams else Others(streams, w, from, j - 1) - w(from + j - 1).dropsBefore
  }

  /** The request and its answer arrive, and the statement itself does not fail. */
  predicate Arrives(w: Weather) { !w.requestLost && !w.failsStmt && !w.answerLost && !w.answerRefused }

  /** The server keeps the stream open and names it by a baton that no other stream has. */
  predicate KeepsStream(w: Weather, others: map<string, Option<BackupTable>>) {
    !w.dropsAfter && w.baton != "" && w.baton !in others
  }

  /** Requests 0 and 1, CREATE TABLE and BEGIN: nobody else holds the lock. */
  predicate OpensWell(s: Server, w: nat -> Weather, from: nat) {
    var others := Others(s.streams, w, from, 2);
    Arrives(w(from)) && Arrives(w(from + 1)) && !Locked(others) && KeepsStream(w(from + 1), others)
  }

  /** Request i + 2, the i-th INSERT: the stream is still there, and the row is new. */
  predicate InsertsWell(s: Server, w: nat -> Weather, from: nat, id: string, i: nat) {
    && Arrives(w(from + i + 2)) && w(from + i + 1).baton !in w(from + i + 2).dropsBefore
    && KeepsStream(w(from + i + 2), Others(s.streams, w, from, i + 3))
    && (id, i) !in s.committed
  }

  /** The first k INSERTs. */
  ghost predicate AllInsertWell(s: Server, w: nat -> Weather, from: nat, id: string, k: nat) {
    forall i: nat :: i < k ==> InsertsWell(s, w, from, id, i)
  }

  /** Request k + 2, the COMMIT. */
  predicate CommitsWell(w: nat -> Weather, from: nat, k: nat) {
    Arrives(w(from + k + 2)) && w(from + k + 1).baton !in w(from + k + 2).dropsBefore
  }

  /** No request of an upload of k chunks goes wrong. */
  ghost predicate Smooth(s: Server, w: nat -> Weather, from: nat, id: string, k: nat) {
    OpensWell(s, w, from) && AllInsertWell(s, w, from, id, k) && CommitsWell(w, from, k)
  }

  /** The reader is asked once more after a full last piece. */
  predicate ReaderHolds(readFails: Option<nat>, pieces: seq<Bytes>, size: nat) {
    && pieces != []
    && (readFails.None? || readFails.value > |pieces| || (readFails.value == |pieces| && |pieces[|pieces| - 1]| < size))
  }

  /** After j requests the upload's stream is open with its private copy, beside what is left of the others. */
  ghost predicate Underway(s: Server, s0: Server, w: nat -> Weather, from: nat, j: nat, baton: Option<string>,
          work: BackupTable) {
    var others := Others(s0.streams, w, from, j);
    && j >= 2 && baton == Some(w(from + j - 1).baton) && baton.value != "" && baton.value !in others
    && s == Server(s0.committed, others[baton.value := Some(work)])
  }

  lemma {:induction false} CreateAnswer(s: Server, w: nat -> Weather, from: nat)
    ensures var a := Serve(s, Request(None, Some(CreateTable), true), w(from));
            (a.ok <==> Arrives(w(from))) && (a.ok ==> a.server == Server(s.committed, Others(s.streams, w, from, 1)))
  {
    assert Others(s.streams, w, from, 0) == s.streams;
  }

  lemma {:induction false} BeginAnswer(s0: Server, w: nat -> Weather, from: nat)
    requires Arrives(w(from))
    ensures var s := Server(s0.committed, Others(s0.streams, w, from, 1));
            var a := Serve(s, Request(None, Some(Begin), false), w(from + 1));
            && (a.ok && RequireStream(a.baton) <==> OpensWell(s0, w, from))
            && (OpensWell(s0, w, from) ==> Underway(a.server, s0, w, from, 2, a.baton, s0.committed))
  {
    assert Others(s0.streams, w, from, 2) == Others(s0.streams, w, from, 1) - w(from + 1).dropsBefore;
  }

  /** The others do not depend on the upload's own stream. */
  lemma {:induction false} OthersNext(s0: Server, w: nat -> Weather, from: nat, j: nat, b: string, tx: BackupTable)
    requires b !in Others(s0.streams, w, from, j) && b !in w(from + j).dropsBefore
    ensures var streams := Others(s0.streams, w, from, j)[b := Some(tx)] - w(from + j).dropsBefore;
            && b in streams && streams[b] == Some(tx)
            && streams - {b} == Others(s0.streams, w, from, j + 1)
  {
  }

  /** The server's side of an INSERT on the upload's stream. */
  lemma {:induction false} InsertServed(s: Server, s0: Server, w: nat -> Weather, from: nat, j: nat,
          baton: Option<string>, work: BackupTable, info: Info, i: nat, data: Bytes)
    requires Underway(s, s0, w, from, j, baton, work)
    ensures var a := Serve(s, Request(baton, Some(Insert(info, i, data)), false), w(from + j));
            var after := work[(info.id, i) := ChunkRow(info.createdAt, info.size, info.sha, data)];
            var well := Arrives(w(from + j)) && w(from + j - 1).baton !in w(from + j).dropsBefore
                        && KeepsStream(w(from + j), Others(s0.streams, w, from, j + 1)) && (info.id, i) !in work;
            (a.ok && RequireStream(a.baton) <==> well)
            && (well ==> Underway(a.server, s0, w, from, j + 1, a.baton, after))
  {
    if baton.value !in w(from + j).dropsBefore { OthersNext(s0, w, from, j, baton.value, work); }
  }

  lemma {:induction false} InsertAnswer(s: Server, s0: Server, w: nat -> Weather, from: nat, baton: Option<string>,
          info: Info, pieces: seq<Bytes>)
    requires pieces != []
    requires var before := WithPieces(s0.committed, info, pieces[..|pieces| - 1]);
             Underway(s, s0, w, from, |pieces| + 1, baton, before)
    ensures var i := |pieces| - 1;
            var a := Serve(s, Request(baton, Some(Insert(info, i, pieces[i])), false), w(from + i + 2));
            && (a.ok && RequireStream(a.baton) <==> InsertsWell(s0, w, from, info.id, i))
            && (InsertsWell(s0, w, from, info.id, i) ==>
                  Underway(a.server, s0, w, from, i + 3, a.baton, WithPieces(s0.committed, info, pieces)))
  {
    var i := |pieces| - 1;
    var before := WithPieces(s0.committed, info, pieces[..i]);
    WithPiecesAt(s0.committed, info, pieces[..i]);
    InsertServed(s, s0, w, from, i + 2, baton, before, info, i, pieces[i]);
  }

  lemma {:induction false} CommitAnswer(s: Server, s0: Server, w: nat -> Weather, from: nat, k: nat,
          baton: Option<string>, work: BackupTable)
    requires Underway(s, s0, w, from, k + 2, baton, work)
    ensures var a := Serve(s, Request(baton, Some(Commit), true), w(from + k + 2));
            a.ok <==> CommitsWell(w, from, k)
  {
    if baton.value !in w(from + k + 2).dropsBefore { OthersNext(s0, w, from, k + 2, baton.value, work); }
  }

  class Turso {
    const weather: nat -> Weather   // by number of requests ever sent
    var sent: nat
    var server: Server
    var log: seq<Entry>             // the requests of the latest upload

    constructor (s: Server, weather: nat -> Weather)
      ensures server == s && log == [] && sent == 0 && this.weather == weather
    {
      this.weather := weather;
      server, log, sent := s, [], 0;
    }

    /** BEGIN and n INSERTs have succeeded on the upload's stream, which baton names. */
    ghost predicate Going(s0: Server, from: nat, info: Info, pieces: seq<Bytes>, n: nat, baton: Option<string>)
      reads this
      requires n <= |pieces|
    {
      && sent == from + n + 2 && Ready(log, baton) && Inserting(log, s0.committed, Inserts(info, pieces[..n]))
      && Underway(server, s0, weather, from, n + 2, baton, WithPieces(s0.committed, info, pieces[..n]))
    }

    /** Sends one statement on the stream named by baton; no baton opens a new one. The baton returned is the one
        passed in unless the server answered, and then it names an open stream or there is none. */
    method Pipeline(baton: Option<string>, close: bool, stmt: Option<Stmt>) returns (ok: bool, next: Option<string>)
      modifies this
      ensures next == baton || next.None? || next.value in server.streams
      ensures ok ==> if close then next.None? else next.None? || next.value in server.streams
      ensures stmt.None? || (ok && stmt.value.Begin?) ==> server.committed == old(server).committed
      ensures Answer(server, ok, next) == Serve(old(server), Request(baton, stmt, close), weather(old(sent)))
      ensures log == old(log) + [Entry(Request(baton, stmt, close), ok, next, server.committed)]
      ensures sent == old(sent) + 1
    {
      var a := Serve(server, Request(baton, stmt, close), weather(sent));
      server, sent := a.server, sent + 1;
      log := log + [Entry(Request(baton, stmt, close), a.ok, a.baton, server.committed)];
      return a.ok, a.baton;
    }

    /** Stores data as one backup. At every moment the server holds all of its chunks or none; it succeeds exactly if
        no request goes wrong and the reader holds. readFails is the piece at which the reader breaks, if any. */
    method Put(info: Info, data: Bytes, size: nat, readFails: Option<nat>) returns (n: nat, ok: bool)
      requires size >= 1
      modifies this
      ensures Proper(log, old(server.committed), WithPieces(old(server.committed), info, Chunks(data, size)),
                     Inserts(info, Chunks(data, size)))
      ensures server.committed == old(server.committed)
              || server.committed == WithPieces(old(server.committed), info, Chunks(data, size))
      ensures ok ==> server.committed == WithPieces(old(server.committed), info, Chunks(data, size))
      ensures ok <==> Smooth(old(server), weather, old(sent), info.id, |Chunks(data, size)|)
                      && ReaderHolds(readFails, Chunks(data, size), size)
      ensures n == if ok then |Chunks(data, size)| else 0
    {
      ghost var s0, from, pieces := server, sent, Chunks(data, size);
      ghost var base, wanted := server.committed, Inserts(info, pieces);
      ghost var full := WithPieces(base, info, pieces);
      log := [];
      var baton;
      ok, baton := Open(info, pieces);
      if ok {
        n, ok, baton := SendChunks(baton, info, data, size, readFails, s0, from);
        UncommittedIsProper(log, base, full, wanted);
        if ok {
          ok, baton := CommitStream(baton, s0, from, info, pieces);
        }
      } else {
        UncommittedIsProper(log, base, full, wanted);
      }
      if !ok {
        CloseStream(baton, base, full, wanted);
        n := 0;
      }
    }

    /** CREATE TABLE on a stream of its own, then BEGIN on a new one. */
    method Open(ghost info: Info, ghost pieces: seq<Bytes>) returns (ok: bool, baton: Option<string>)
      requires log == []
      modifies this
      ensures Inserting(log, old(server.committed), []) && server.committed == old(server.committed)
      ensures ok <==> OpensWell(old(server), weather, old(sent))
      ensures ok ==> Going(old(server), old(sent), info, pieces, 0, baton)
    {
      ghost var s0, from, base := server, sent, server.committed;
      CreateAnswer(server, weather, sent);
      ok, baton := Pipeline(None, true, Some(CreateTable));
      InsertingGrows([], log[0], base, []);
      assert [] + [log[0]] == log;
      if !ok { return false, None; }
      ghost var before := log;
      BeginHolds(server, Request(None, Some(Begin), false), weather(sent));
      BeginAnswer(s0, weather, from);
      ok, baton := Pipeline(None, false, Some(Begin));
      InsertingGrows(before, log[|log| - 1], base, []);
      ok := ok && RequireStream(baton);
    }

    method CommitStream(first: Option<string>, ghost s0: Server, ghost from: nat, ghost info: Info,
            ghost pieces: seq<Bytes>)
      returns (ok: bool, baton: Option<string>)
      requires Going(s0, from, info, pieces, |pieces|, first)
      modifies this
      ensures Proper(log, s0.committed, WithPieces(s0.committed, info, pieces), Inserts(info, pieces))
      ensures server.committed == s0.committed || server.committed == WithPieces(s0.committed, info, pieces)
      ensures ok ==> server.committed == WithPieces(s0.committed, info, pieces)
      ensures ok <==> CommitsWell(weather, from, |pieces|)
    {
      assert pieces[..|pieces|] == pieces;
      ghost var base, full, wanted := s0.committed, WithPieces(s0.committed, info, pieces), Inserts(info, pieces);
      CommitAnswer(server, s0, weather, from, |pieces|, first, full);
      ghost var before := log;
      UncommittedIsProper(log, base, full, wanted);
      CommitHolds(server, first.value, weather(sent), base, full);
      ok, baton := Pipeline(first, true, Some(Commit));
      LogGrows(before, log[|log| - 1], base, full, wanted);
    }

    /** The deferred close: rolls back what is still open. */
    method CloseStream(baton: Option<string>, ghost base: BackupTable, ghost full: BackupTable, ghost wanted: seq<Stmt>)
      requires Proper(log, base, full, wanted)
      requires server.committed == base || server.committed == full
      modifies this
      ensures Proper(log, base, full, wanted)
      ensures server.committed == old(server.committed)
    {
      if baton.None? { return; }
      ghost var before := log;
      var _, _ := Pipeline(baton, true, None);
      LogGrows(before, log[|log| - 1], base, full, wanted);
    }

    /** eachChunk with Put's callback: reads full pieces until a short read or the end, and inserts each. */
    method SendChunks(first: Option<string>, info: Info, data: Bytes, size: nat, readFails: Option<nat>,
            ghost s0: Server, ghost from: nat)
      returns (n: nat, ok: bool, baton: Option<string>)
      requires size >= 1 && Going(s0, from, info, Chunks(data, size), 0, first)
      modifies this
      ensures !ok ==> Uncommitted(log, s0.committed) && server.committed == s0.committed
      ensures ok ==> n == |Chunks(data, size)| && Going(s0, from, info, Chunks(data, size), n, baton)
      ensures ok <==> AllInsertWell(s0, weather, from, info.id, |Chunks(data, size)|)
                      && ReaderHolds(readFails, Chunks(data, size), size)
    {
      ghost var pieces := Chunks(data, size);
      baton, n := first, 0;
      var pos := 0;
      while true
        invariant 0 <= n <= |pieces| && Reading(data, pos, size, pieces, n)
        invariant Going(s0, from, info, pieces, n, baton)
        invariant AllInsertWell(s0, weather, from, info.id, n)
        invariant Unbroken(readFails, pieces, size, n)
        decreases |data| - pos
      {
        var broken, end := ReadFull(data, pos, size, readFails, n, pieces);
        if broken {
          return n, false, baton;
        }
        if end == pos && n > 0 {
          return n, true, baton;
        }
        var short := end < pos + size;
        var acked;
        acked, baton := SendChunk(baton, info, n, data[pos..end], s0, from, pieces);
        OneMoreInsert(s0, weather, from, info.id, n, |pieces|);
        if !acked { return n, false, baton; }
        n, pos := n + 1, end;
        if short {
          return n, true, baton;
        }
      }
    }

    /** The reader has not failed for the first n pieces, and the last of them is full. */
    static predicate Unbroken(readFails: Option<nat>, pieces: seq<Bytes>, size: nat, n: nat) {
      n <= |pieces| && (readFails.Some? ==> readFails.value >= n) && (n > 0 ==> |pieces[n - 1]| == size)
    }

    /** io.ReadFull for the n-th piece: a full one, or what is left of the data. */
    static method ReadFull(data: Bytes, pos: nat, size: nat, readFails: Option<nat>, n: nat, ghost pieces: seq<Bytes>)
      returns (broken: bool, end: nat)
      requires size >= 1 && pieces == Chunks(data, size) && Reading(data, pos, size, pieces, n)
      requires Unbroken(readFails, pieces, size, n)
      ensures broken <==> readFails == Some(n)
      ensures broken ==> !ReaderHolds(readFails, pieces, size)
      ensures pos <= end <= |data| && end == if |data| - pos < size then |data| else pos + size
      ensures !broken && end == pos && n > 0 ==> n == |pieces| && ReaderHolds(readFails, pieces, size)
      ensures end > pos || n == 0 ==>
                && n < |pieces| && pieces[n] == data[pos..end]
                && Reading(data, end, size, pieces, n + 1)
                && (end == pos + size && !broken ==> Unbroken(readFails, pieces, size, n + 1))
                && (end < pos + size ==> n + 1 == |pieces| && (!broken ==> ReaderHolds(readFails, pieces, size)))
    {
      broken := readFails == Some(n);
      if broken { BrokenReader(readFails, pieces, size, n); }
      end := if |data| - pos < size then |data| else pos + size;
      if end > pos || n == 0 { ChunkAt(data, pos, size, pieces, n); }
    }

    static lemma {:induction false} OneMoreInsert(s: Server, w: nat -> Weather, from: nat, id: string, n: nat, k: nat)
      requires n < k
      ensures !InsertsWell(s, w, from, id, n) ==> !AllInsertWell(s, w, from, id, k)
      ensures AllInsertWell(s, w, from, id, n) && InsertsWell(s, w, from, id, n) ==>
                AllInsertWell(s, w, from, id, n + 1)
    {
    }

    /** The reader breaks before a piece, or after a full last one. */
    static lemma {:induction false} BrokenReader(readFails: Option<nat>, pieces: seq<Bytes>, size: nat, n: nat)
      requires readFails == Some(n) && n <= |pieces| && (n > 0 ==> |pieces[n - 1]| == size)
      ensures !ReaderHolds(readFails, pieces, size)
    {
    }

    /** n pieces have been read, and what is left of the data is what is left of the pieces. */
    static ghost predicate Reading(data: Bytes, pos: nat, size: nat, pieces: seq<Bytes>, n: nat)
      requires size >= 1
    {
      && pos <= |data| && n <= |pieces|
      && (n == 0 ==> pos == 0)
      && (n == 0 || pos < |data| ==> n < |pieces| && pieces[n..] == Chunks(data[pos..], size))
      && (n > 0 && pos == |data| ==> n == |pieces|)
    }

    method SendChunk(baton: Option<string>, info: Info, i: nat, chunk: Bytes, ghost s0: Server, ghost from: nat,
            ghost pieces: seq<Bytes>)
      returns (acked: bool, next: Option<string>)
      requires i < |pieces| && pieces[i] == chunk && Going(s0, from, info, pieces, i, baton)
      modifies this
      ensures !acked ==> Uncommitted(log, s0.committed) && server.committed == s0.committed
      ensures acked <==> InsertsWell(s0, weather, from, info.id, i)
      ensures acked ==> Going(s0, from, info, pieces, i + 1, next)
    {
      ghost var before := log;
      assert pieces[..i + 1][..i] == pieces[..i];
      InsertAnswer(server, s0, weather, from, baton, info, pieces[..i + 1]);
      InsertHolds(server, baton.value, weather(sent), s0.committed, info, pieces[..i + 1]);
      var ok;
      ok, next := Pipeline(baton, false, Some(Insert(info, i, chunk)));
      InsertingGrows(before, log[|log| - 1], s0.committed, Inserts(info, pieces[..i]));
      return ok && RequireStream(next), next;
    }

    /** The piece read at pos is the n-th chunk, and the rest of the chunks are those of the rest of the data. */
    static lemma {:induction false} ChunkAt(data: Bytes, pos: nat, size: nat, pieces: seq<Bytes>, n: nat)
      requires size >= 1 && Reading(data, pos, size, pieces, n) && (n == 0 || pos < |data|)
      ensures var m := if |data| - pos < size then |data| - pos else size;
              && pieces[n] == data[pos..pos + m]
              && Reading(data, pos + m, size, pieces, n + 1)
              && (m < size ==> n + 1 == |pieces|)
    {
      var rest := data[pos..];
      assert pieces[n] == pieces[n..][0];
      assert pieces[n + 1..] == pieces[n..][1..];
      if |rest| > size {
        assert rest[size..] == data[pos + size..];
        assert Chunks(rest, size)[1..] == Chunks(rest[size..], size);
      } else {
        assert pieces[n..] == [rest];
      }
    }
  }
}
