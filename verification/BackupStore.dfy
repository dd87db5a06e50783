/** The remote backups table: chunking, fetching, listing and retention. */
module BackupStore {
  import opened Prelude
  import opened Ordering

  type Bytes = seq<Byte>

  datatype Info = Info(id: string, createdAt: string, size: int, sha: string, chunks: int)

  datatype ChunkRow = ChunkRow(createdAt: string, size: int, sha: string, data: Bytes)

  /** PRIMARY KEY (id, chunk). */
  type BackupTable = map<(string, nat), ChunkRow>

  // ---- Chunking

  /** Pieces of size bytes, the last possibly shorter; the empty string is one empty piece. */
  function Chunks(data: Bytes, size: nat): (r: seq<Bytes>)
    requires size >= 1
    ensures r != []
  {
    if |data| <= size then [data] else [data[..size]] + Chunks(data[size..], size)
  }

  function Joined(pieces: seq<Bytes>): Bytes {
    if pieces == [] then [] else pieces[0] + Joined(pieces[1..])
  }

  function CeilDiv(n: nat, size: nat): nat
    requires size >= 1
  {
    (n + size - 1) / size
  }

  lemma {:induction false} ChunksJoin(data: Bytes, size: nat)
    requires size >= 1
    ensures Joined(Chunks(data, size)) == data
  {
    if |data| <= size {
      assert Joined([data]) == data + Joined([]);
    } else {
      ChunksJoin(data[size..], size);
      assert data == data[..size] + data[size..];
    }
  }

  /** There are max(1, ceil(len / size)) chunks, all full but possibly the last. */
  lemma {:induction false} ChunkShape(data: Bytes, size: nat)
    requires size >= 1
    ensures |Chunks(data, size)| == if data == [] then 1 else CeilDiv(|data|, size)
    ensures forall i :: 0 <= i < |Chunks(data, size)| - 1 ==> |Chunks(data, size)[i]| == size
    ensures |Chunks(data, size)[|Chunks(data, size)| - 1]| <= size
    ensures data != [] ==> Chunks(data, size)[|Chunks(data, size)| - 1] != []
  {
    if |data| <= size {
      if data != [] {
        CeilOfPart(|data|, size);
      }
    } else {
      ChunkShape(data[size..], size);
      CeilOfMore(|data|, size);
    }
  }

  lemma {:induction false} CeilOfPart(n: nat, size: nat)
    requires 1 <= n <= size
    ensures CeilDiv(n, size) == 1
  {
    assert size <= n + size - 1 < 2 * size;
    DivIs(n + size - 1, size, 1);
  }

  lemma {:induction false} CeilOfMore(n: nat, size: nat)
    requires 1 <= size < n
    ensures CeilDiv(n, size) == 1 + CeilDiv(n - size, size)
  {
    var q := CeilDiv(n - size, size);
    var m := n - size + size - 1;
    assert m == q * size + m % size;
    assert (q + 1) * size == q * size + size;
    DivIs(n + size - 1, size, q + 1);
  }

  lemma {:induction false} DivIs(n: nat, d: nat, q: nat)
    requires d >= 1 && q * d <= n < (q + 1) * d
    ensures n / d == q
  {
    var r := n - q * d;
    assert (q + 1) * d == q * d + d;
    var k := n / d;
    assert n == k * d + n % d;
    assert (k + 1) * d == k * d + d;
    if k < q { TimesMonotone(k + 1, q, d); }
    if k > q { TimesMonotone(q + 1, k, d); }
  }

  lemma {:induction false} TimesMonotone(a: nat, b: nat, d: nat)
    requires a <= b
    ensures a * d <= b * d
  {
  }

  // ---- The rows of one backup

  /** The table with the first n pieces of a backup added. */
  function WithPieces(base: BackupTable, info: Info, pieces: seq<Bytes>): BackupTable {
    if pieces == [] then base
    else
      var n := |pieces| - 1;
      WithPieces(base, info, pieces[..n])[(info.id, n) := ChunkRow(info.createdAt, info.size, info.sha, pieces[n])]
  }

  lemma {:induction false} WithPiecesAt(base: BackupTable, info: Info, pieces: seq<Bytes>)
    ensures forall i :: 0 <= i < |pieces| ==>
              (info.id, i) in WithPieces(base, info, pieces)
              && WithPieces(base, info, pieces)[(info.id, i)] ==
                 ChunkRow(info.createdAt, info.size, info.sha, pieces[i])
    ensures forall k: (string, nat) :: !(k.0 == info.id && k.1 < |pieces|) ==>
              (k in WithPieces(base, info, pieces) <==> k in base)
              && (k in base ==> WithPieces(base, info, pieces)[k] == base[k])
  {
    if pieces != [] {
      WithPiecesAt(base, info, pieces[..|pieces| - 1]);
    }
  }

  predicate HasId(t: BackupTable, id: string) { exists k :: k in t && k.0 == id }

  /** A backup stored under a new id is read back byte for byte. */
  lemma {:induction false} FetchAfterPut(base: BackupTable, info: Info, data: Bytes, size: nat)
    requires size >= 1 && !HasId(base, info.id)
    ensures var t := WithPieces(base, info, Chunks(data, size));
            && CountOf(t, info.id) == |Chunks(data, size)|
            && Fetched(t, info.id, CountOf(t, info.id)) == Some(data)
  {
    var pieces := Chunks(data, size);
    var t := WithPieces(base, info, pieces);
    WithPiecesAt(base, info, pieces);
    assert RowsOf(t, info.id) == set i: nat | i < |pieces| :: (info.id, i);
    KeysOfPieces(info.id, |pieces|);
    FetchedPieces(t, info, pieces, |pieces|);
    assert pieces[..|pieces|] == pieces;
    ChunksJoin(data, size);
  }

  function RowsOf(t: BackupTable, id: string): set<(string, nat)> {
    set k | k in t && k.0 == id
  }

  /** COUNT(*) of an id's rows. */
  function CountOf(t: BackupTable, id: string): nat { |RowsOf(t, id)| }

  lemma {:induction false} KeysOfPieces(id: string, n: nat)
    ensures |set i: nat | i < n :: (id, i)| == n
  {
    if n > 0 {
      KeysOfPieces(id, n - 1);
      assert (set i: nat | i < n :: (id, i)) == (set i: nat | i < n - 1 :: (id, i)) + {(id, n - 1)};
    } else {
      assert (set i: nat | i < n :: (id, i)) == {};
    }
  }

  /** The first n chunks of a backup in order, if none is missing. */
  function Fetched(t: BackupTable, id: string, n: nat): Option<Bytes> {
    if n == 0 then Some([])
    else
      match Fetched(t, id, n - 1)
      case None => None
      case Some(b) => if (id, n - 1) in t then Some(b + t[(id, n - 1)].data) else None
  }

  lemma {:induction false} JoinedSnoc(pieces: seq<Bytes>, last: Bytes)
    ensures Joined(pieces + [last]) == Joined(pieces) + last
  {
    if pieces == [] {
      assert Joined([] + [last]) == last + Joined([]);
    } else {
      JoinedSnoc(pieces[1..], last);
      assert (pieces + [last])[1..] == pieces[1..] + [last];
    }
  }

  lemma {:induction false} FetchedPieces(t: BackupTable, info: Info, pieces: seq<Bytes>, n: nat)
    requires n <= |pieces|
    requires forall i :: 0 <= i < |pieces| ==> (info.id, i) in t && t[(info.id, i)].data == pieces[i]
    ensures Fetched(t, info.id, n) == Some(Joined(pieces[..n]))
  {
    if n > 0 {
      FetchedPieces(t, info, pieces, n - 1);
      assert pieces[..n] == pieces[..n - 1] + [pieces[n - 1]];
      JoinedSnoc(pieces[..n - 1], pieces[n - 1]);
    }
  }

  /** Fetch: writes one chunk per request and stops at the first missing one. */
  method Fetch(t: BackupTable, info: Info) returns (out: Bytes, ok: bool)
    ensures ok <==> Fetched(t, info.id, if info.chunks < 0 then 0 else info.chunks).Some?
    ensures ok ==> Some(out) == Fetched(t, info.id, if info.chunks < 0 then 0 else info.chunks)
  {
    out := [];
    var i := 0;
    while i < info.chunks
      invariant 0 <= i && (0 <= info.chunks ==> i <= info.chunks) && (info.chunks < 0 ==> i == 0)
      invariant Fetched(t, info.id, i) == Some(out)
    {
      if (info.id, i) !in t {
        FetchedStops(t, info.id, i + 1, info.chunks);
        return out, false;
      }
      out := out + t[(info.id, i)].data;
      i := i + 1;
    }
    ok := true;
  }

  lemma {:induction false} FetchedStops(t: BackupTable, id: string, n: nat, m: nat)
    requires n <= m && Fetched(t, id, n).None?
    ensures Fetched(t, id, m).None?
  {
    if n < m { FetchedStops(t, id, n, m - 1); }
  }

  // ---- Listing and retention

  /** MAX(created_at) of an id's rows. */
  ghost predicate IsMaxCreated(t: BackupTable, id: string, c: string) {
    && (exists k :: k in t && k.0 == id && t[k].createdAt == c)
    && (forall k :: k in t && k.0 == id ==> !TextLess(c, t[k].createdAt))
  }

  ghost function MaxCreated(t: BackupTable, id: string): (c: string)
    requires HasId(t, id)
    ensures IsMaxCreated(t, id, c)
  {
    MaxCreatedExists(t, id);
    var c :| IsMaxCreated(t, id, c);
    c
  }

  lemma {:induction false} MaxCreatedExists(t: BackupTable, id: string)
    requires HasId(t, id)
    ensures exists c :: IsMaxCreated(t, id, c)
  {
    TextGreaterOrder();
    var stamps := set k | k in t && k.0 == id :: t[k].createdAt;
    var k :| k in t && k.0 == id;
    assert t[k].createdAt in stamps;
    LeastExists(stamps, TextGreater);
    var c :| IsLeast(c, stamps, TextGreater);
    forall j | j in t && j.0 == id ensures !TextLess(c, t[j].createdAt) {
      assert t[j].createdAt in stamps;
      if t[j].createdAt == c { TextIrreflexive(c); } else { TextAsymmetric(t[j].createdAt, c); }
    }
    assert IsMaxCreated(t, id, c);
  }

  /** ORDER BY MAX(created_at) DESC, id DESC. */
  predicate Newer(a: (string, string), b: (string, string)) {
    TextLess(b.0, a.0) || (a.0 == b.0 && TextLess(b.1, a.1))
  }

  lemma {:induction false} NewerOrder()
    ensures StrictTotal(Newer)
  {
    TextOrder();
    forall a: (string, string) ensures !Newer(a, a) {}
    forall a: (string, string), b: (string, string), c: (string, string) | Newer(a, b) && Newer(b, c)
      ensures Newer(a, c) {}
    forall a: (string, string), b: (string, string) | a != b ensures Newer(a, b) || Newer(b, a) {
      assert a == (a.0, a.1) && b == (b.0, b.1);
    }
  }

  ghost function Stamps(t: BackupTable): set<(string, string)> {
    set k | k in t :: (MaxCreated(t, k.0), k.0)
  }

  /** The (created_at, id) pairs of every backup, newest first. */
  ghost function Listing(t: BackupTable): (s: seq<(string, string)>)
    ensures IsSorting(s, Stamps(t), Newer)
  {
    NewerOrder();
    Sorted(Stamps(t), Newer)
  }

  ghost function Newest(t: BackupTable, keep: int): seq<(string, string)> {
    var all := Listing(t);
    if 0 <= keep < |all| then all[..keep] else all
  }

  /** DELETE of every row whose id is not among the newest keep; a negative LIMIT keeps all. */
  ghost function Pruned(t: BackupTable, keep: int): BackupTable {
    map k | k in t && (MaxCreated(t, k.0), k.0) in Newest(t, keep) :: t[k]
  }

  lemma {:induction false} NewestInListing(t: BackupTable, keep: int)
    ensures forall p :: p in Newest(t, keep) ==> p in Listing(t)
    ensures Ascending(Newest(t, keep), Newer)
  {
  }

  lemma {:induction false} PrunedStamp(t: BackupTable, keep: int, id: string)
    requires HasId(Pruned(t, keep), id)
    ensures HasId(t, id) && MaxCreated(Pruned(t, keep), id) == MaxCreated(t, id)
    ensures RowsOf(Pruned(t, keep), id) == RowsOf(t, id)
  {
    var u := Pruned(t, keep);
    var k :| k in u && k.0 == id;
    assert k in t;
    assert RowsOf(u, id) == RowsOf(t, id);
    var c, d := MaxCreated(t, id), MaxCreated(u, id);
    var i :| i in t && i.0 == id && t[i].createdAt == c;
    var j :| j in u && j.0 == id && u[j].createdAt == d;
    assert i in RowsOf(u, id) && j in RowsOf(t, id);
    if c != d { TextTotal(c, d); }
  }

  /** After pruning to keep, the list is exactly the first keep entries of the former list. */
  lemma {:induction false} PruneKeepsNewest(t: BackupTable, keep: int)
    ensures Listing(Pruned(t, keep)) == Newest(t, keep)
    ensures forall k :: k in Pruned(t, keep) ==> k in t && Pruned(t, keep)[k] == t[k]
    ensures forall k, j :: k in t && j in t && k.0 == j.0 ==> (k in Pruned(t, keep) <==> j in Pruned(t, keep))
  {
    var u := Pruned(t, keep);
    NewerOrder();
    NewestInListing(t, keep);
    forall p ensures p in Listing(u) <==> p in Newest(t, keep) {
      if p in Listing(u) {
        assert p in Stamps(u);
        var k :| k in u && p == (MaxCreated(u, k.0), k.0);
        PrunedStamp(t, keep, k.0);
      }
      if p in Newest(t, keep) {
        assert p in Stamps(t);
        var k :| k in t && p == (MaxCreated(t, k.0), k.0);
        assert k in u;
        PrunedStamp(t, keep, k.0);
        assert p == (MaxCreated(u, k.0), k.0);
        assert p in Stamps(u);
      }
    }
    SortingUnique(Listing(u), Newest(t, keep), Newer);
  }
}
