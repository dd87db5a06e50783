/** query_transactions: keyset paging over the line view, alone and over runs of pages of a changing mirror. */
module Paging {
  import opened Prelude
  import opened Mirror
  import opened Ordering
  import opened Lines
  import opened LineFilters
  import opened Keyset

  const DEFAULT_PAGE_SIZE := 50
  const MAX_PAGE_SIZE := 200

  // ---- The order of lines

  datatype LineKey = LineKey(date: string, transactionId: Id, subId: Id)

  function KeyOf(n: Named): LineKey { LineKey(n.line.date, n.line.transactionId, n.line.subId) }

  /** Newest date first, then transaction id, then subtransaction id. */
  predicate KeyLess(a: LineKey, b: LineKey) {
    TextLess(b.date, a.date)
    || (a.date == b.date && (TextLess(a.transactionId, b.transactionId)
                             || (a.transactionId == b.transactionId && TextLess(a.subId, b.subId))))
  }

  lemma {:induction false} KeyOrder()
    ensures StrictTotal(KeyLess)
  {
    TextOrder();
    forall a: LineKey, b: LineKey, c: LineKey | KeyLess(a, b) && KeyLess(b, c) ensures KeyLess(a, c) {
      assert TextLess(c.date, b.date) && TextLess(b.date, a.date) ==> TextLess(c.date, a.date);
    }
    forall a: LineKey, b: LineKey | a != b ensures KeyLess(a, b) || KeyLess(b, a) {
      assert a.date != b.date || a.transactionId != b.transactionId || a.subId != b.subId;
    }
  }

  predicate RowLess(a: Named, b: Named) { KeyLess(KeyOf(a), KeyOf(b)) }

  /** b may come after a in a list that has the newest lines first: its date is not later; on one date its transaction
      id is not smaller; in one transaction its subtransaction id is greater. */
  predicate MayFollow(a: Line, b: Line) {
    && !TextLess(a.date, b.date)
    && (a.date == b.date ==> !TextLess(b.transactionId, a.transactionId))
    && (a.date == b.date && a.transactionId == b.transactionId ==> TextLess(a.subId, b.subId))
  }

  /** The line may follow one with this key. */
  predicate IsBeyond(k: LineKey, l: Line) {
    && !TextLess(k.date, l.date)
    && (k.date == l.date ==> !TextLess(l.transactionId, k.transactionId))
    && (k.date == l.date && k.transactionId == l.transactionId ==> TextLess(k.subId, l.subId))
  }

  ghost predicate NewestFirst(rows: seq<Named>) {
    forall i, j :: 0 <= i < j < |rows| ==> MayFollow(rows[i].line, rows[j].line)
  }

  lemma {:induction false} KeyLessMeans(k: LineKey, n: Named)
    ensures KeyLess(k, KeyOf(n)) <==> IsBeyond(k, n.line)
  {
    TextNotLess(k.date, n.line.date);
    TextNotLess(n.line.transactionId, k.transactionId);
    TextIrreflexive(k.date);
    TextIrreflexive(k.transactionId);
  }

  lemma {:induction false} RowLessMeans(a: Named, b: Named)
    ensures RowLess(a, b) <==> MayFollow(a.line, b.line)
  {
    KeyLessMeans(KeyOf(a), b);
  }

  lemma {:induction false} AscendingIsNewestFirst(rows: seq<Named>)
    requires AscendingBy(rows, KeyOf, KeyLess)
    ensures NewestFirst(rows)
  {
    forall i, j | 0 <= i < j < |rows| ensures MayFollow(rows[i].line, rows[j].line) {
      RowLessMeans(rows[i], rows[j]);
    }
  }

  // ---- Queries

  ghost function Selects(f: LineFilter, after: Option<LineKey>): Named -> bool {
    (n: Named) => Matches(f, n) && Follows(KeyLess, after, KeyOf(n))
  }

  /** The lines that match a filter, in no order. */
  ghost function Matching(lines: seq<Named>, f: LineFilter): seq<Named> { Filter(lines, Selects(f, None)) }

  /** The matching lines after a key, in page order. */
  ghost function RowsAfter(lines: seq<Named>, f: LineFilter, after: Option<LineKey>): seq<Named> {
    StableSorted(Filter(lines, Selects(f, after)), RowLess)
  }

  /** Any view that a statement can see: line keys are unique. */
  lemma {:induction false} NamedKeysDistinct(s: Source)
    requires Keys(s)
    ensures Distinct(NamedLines(s), KeyOf)
  {
    LineIdsUnique(s);
    JoinsNeverFanOut(s);
    var ns, ls := NamedLines(s), LinesOf(s);
    forall i, j | 0 <= i < j < |ns| ensures KeyOf(ns[i]) != KeyOf(ns[j]) {
      assert LineId(ls[i]) != LineId(ls[j]);
    }
  }

  /** RowsAfter is strictly ascending and holds exactly the matching lines after the key. */
  lemma {:induction false} RowsAfterAre(lines: seq<Named>, f: LineFilter, after: Option<LineKey>)
    requires Distinct(lines, KeyOf)
    ensures Ascending(RowsAfter(lines, f, after), RowLess)
    ensures |RowsAfter(lines, f, after)| == |Filter(lines, Selects(f, after))|
    ensures forall n :: n in RowsAfter(lines, f, after) <==>
              n in lines && Matches(f, n) && Follows(KeyLess, after, KeyOf(n))
  {
    var hits := Filter(lines, Selects(f, after));
    KeyOrder();
    FilterMembers(lines, Selects(f, after));
    FilterDistinct(lines, Selects(f, after), KeyOf);
    SortedAscends(hits, RowLess);
    SortedKeeps(hits, RowLess);
  }

  /** What one statement would answer at each cursor. */
  ghost function ViewOf(lines: seq<Named>, f: LineFilter): Option<LineKey> -> seq<Named> {
    after => RowsAfter(lines, f, after)
  }

  lemma {:induction false} ViewIsOrdered(lines: seq<Named>, f: LineFilter)
    requires Distinct(lines, KeyOf)
    ensures IsView(ViewOf(lines, f), KeyOf, KeyLess)
  {
    forall after: Option<LineKey>
      ensures AscendingBy(ViewOf(lines, f)(after), KeyOf, KeyLess)
      ensures forall x :: x in ViewOf(lines, f)(after) <==>
                x in ViewOf(lines, f)(None) && Follows(KeyLess, after, KeyOf(x))
    {
      RowsAfterAre(lines, f, after);
      RowsAfterAre(lines, f, None);
    }
  }

  // ---- One call

  type Digest = string

  /** What a caller passes as cursor: nothing, something this tool never returned, or a key with a filter digest. */
  datatype CursorArg = NoCursor | Garbage | Cursor(key: LineKey, digest: Digest)

  /** What each statement of one call reads. The mirror may change between them. */
  datatype Views = Views(accounts: seq<Account>, categories: seq<Category>, summary: seq<Named>, page: seq<Named>)

  datatype QueryResult =
    | BadRequest
    | Answer(lines: seq<Named>, matchCount: nat, matchTotal: int, next: CursorArg)

  /** NameMatches on accounts and on categories. Deleted rows count. */
  predicate AccountExists(accounts: seq<Account>, arg: string) {
    exists i | 0 <= i < |accounts| :: Called(arg, Some(accounts[i].id), Some(accounts[i].name))
  }

  predicate CategoryExists(categories: seq<Category>, arg: string) {
    exists i | 0 <= i < |categories| :: Called(arg, Some(categories[i].id), Some(categories[i].name))
  }

  function EffectiveSize(pageSize: int): (r: nat)
    ensures 1 <= r <= MAX_PAGE_SIZE
  {
    var size := if pageSize <= 0 then DEFAULT_PAGE_SIZE else pageSize;
    if size < MAX_PAGE_SIZE then size else MAX_PAGE_SIZE
  }

  predicate Accepted(v: Views, f: LineFilter, cursor: CursorArg, digest: LineFilter -> Digest) {
    && !(f.min.Some? && f.max.Some? && f.min.value > f.max.value)
    && !(f.start != "" && f.end != "" && TextLess(f.end, f.start))
    && (f.account != "" ==> AccountExists(v.accounts, f.account))
    && (f.category != "" ==> CategoryExists(v.categories, f.category))
    && (cursor.NoCursor? || (cursor.Cursor? && cursor.digest == digest(f)))
  }

  function CondsSelect(conds: seq<Cond>, after: Option<LineKey>): Named -> bool {
    (n: Named) => AllHold(conds, n) && Follows(KeyLess, after, KeyOf(n))
  }

  lemma {:induction false} SameFilter<T(!new)>(s: seq<T>, p: T -> bool, q: T -> bool)
    requires forall x :: p(x) == q(x)
    ensures Filter(s, p) == Filter(s, q)
  {
    if s != [] { SameFilter(s[..|s| - 1], p, q); }
  }

  /** QueryLines: up to limit matching lines after a key, and the count and sum of all matching lines. */
  method QueryLines(v: Views, f: LineFilter, after: Option<LineKey>, limit: nat)
    returns (lines: seq<Named>, count: nat, total: int)
    ensures lines == Take(RowsAfter(v.page, f, after), limit)
    ensures count == |Matching(v.summary, f)| && total == Sum(Matching(v.summary, f))
  {
    var conds := Where(f);
    var all := Filter(v.summary, CondsSelect(conds, None));
    SameFilter(v.summary, CondsSelect(conds, None), Selects(f, None));
    count := |all|;
    total := SumOf(all);
    var rows := StableSorted(Filter(v.page, CondsSelect(conds, after)), RowLess);
    SameFilter(v.page, CondsSelect(conds, after), Selects(f, after));
    lines := Scan(Take(rows, limit));
  }

  method SumOf(rows: seq<Named>) returns (total: int)
    ensures total == Sum(rows)
  {
    total := 0;
    for i := 0 to |rows|
      invariant total == Sum(rows[..i])
    {
      assert rows[..i + 1][..i] == rows[..i];
      total := total + rows[i].line.amount;
    }
    assert rows[..|rows|] == rows;
  }

  /** Reads the result rows one by one. */
  method Scan(rows: seq<Named>) returns (lines: seq<Named>)
    ensures lines == rows
  {
    lines := [];
    for i := 0 to |rows|
      invariant lines == rows[..i]
    {
      lines := lines + [rows[i]];
    }
  }

  /** A page of the ordered rows, the count and sum of all matching lines, and a cursor exactly when rows are left. */
  ghost predicate IsAnswer(r: QueryResult, rows: seq<Named>, all: seq<Named>, size: nat, d: Digest)
    requires size >= 1
  {
    && r.Answer?
    && r.lines == Take(rows, size)
    && r.matchCount == |all| && r.matchTotal == Sum(all)
    && r.next == if |rows| > size then Cursor(KeyOf(rows[size - 1]), d) else NoCursor
  }

  /** One extra line was read: it says whether there is a next page. */
  method CutPage(lines: seq<Named>, count: nat, total: int, size: nat, d: Digest, ghost rows: seq<Named>,
          ghost all: seq<Named>)
    returns (r: QueryResult)
    requires lines == Take(rows, size + 1) && size >= 1 && count == |all| && total == Sum(all)
    ensures IsAnswer(r, rows, all, size, d)
  {
    var page, next := lines, NoCursor;
    if |lines| > size {
      page := lines[..size];
      next := Cursor(KeyOf(page[size - 1]), d);
    }
    r := Answer(page, count, total, next);
  }

  /** The bad requests, in order; what is left is the key to start after. */
  method Check(v: Views, f: LineFilter, cursor: CursorArg, digest: LineFilter -> Digest)
    returns (ok: bool, after: Option<LineKey>)
    ensures ok <==> Accepted(v, f, cursor, digest)
    ensures ok ==> after == if cursor.Cursor? then Some(cursor.key) else None
  {
    ok, after := false, None;
    if f.start != "" && f.end != "" && TextLess(f.end, f.start) { return; }
    if f.min.Some? && f.max.Some? && f.min.value > f.max.value { return; }
    if f.account != "" && !AccountExists(v.accounts, f.account) { return; }
    if f.category != "" && !CategoryExists(v.categories, f.category) { return; }
    match cursor {
      case NoCursor =>
      case Garbage => return;
      case Cursor(key, d) =>
        if d != digest(f) { return; }
        after := Some(key);
    }
    ok := true;
  }

  lemma {:induction false} PageIsNewestFirst(lines: seq<Named>, f: LineFilter, after: Option<LineKey>, size: nat)
    requires Distinct(lines, KeyOf)
    ensures NewestFirst(Take(RowsAfter(lines, f, after), size))
    ensures after.Some? ==> forall n :: n in Take(RowsAfter(lines, f, after), size) ==> IsBeyond(after.value, n.line)
  {
    RowsAfterAre(lines, f, after);
    forall n | after.Some? && n in Take(RowsAfter(lines, f, after), size) ensures IsBeyond(after.value, n.line) {
      KeyLessMeans(after.value, n);
    }
    AscendingIsNewestFirst(RowsAfter(lines, f, after));
  }

  /** A cursor names the last line of the page, which is then full: 50 lines by default, and at most 200. */
  ghost predicate SaysPage(r: QueryResult, pageSize: int, d: Digest) {
    r.Answer? && (r.next.Cursor? ==>
      && |r.lines| == (if pageSize <= 0 then 50 else if pageSize <= 200 then pageSize else 200)
      && r.next.digest == d
      && var last := r.lines[|r.lines| - 1].line;
         r.next.key == LineKey(last.date, last.transactionId, last.subId))
  }

  lemma {:induction false} AnswerSays(r: QueryResult, lines: seq<Named>, f: LineFilter, after: Option<LineKey>,
          all: seq<Named>, pageSize: int, d: Digest)
    requires IsAnswer(r, RowsAfter(lines, f, after), all, EffectiveSize(pageSize), d)
    ensures SaysPage(r, pageSize, d)
    ensures Distinct(lines, KeyOf) ==> NewestFirst(r.lines)
    ensures Distinct(lines, KeyOf) && after.Some? ==> forall n :: n in r.lines ==> IsBeyond(after.value, n.line)
  {
    if Distinct(lines, KeyOf) { PageIsNewestFirst(lines, f, after, EffectiveSize(pageSize)); }
  }

  /** What no call accepts: an empty range, a name that nothing has, or a cursor from elsewhere. */
  ghost predicate Bad(v: Views, f: LineFilter, cursor: CursorArg, digest: LineFilter -> Digest) {
    || (f.start != "" && f.end != "" && TextLess(f.end, f.start))
    || (f.min.Some? && f.max.Some? && f.max.value < f.min.value)
    || (f.account != "" && forall a :: a in v.accounts ==> a.id != f.account && Lower(a.name) != Lower(f.account))
    || (f.category != "" && forall c :: c in v.categories ==> c.id != f.category && Lower(c.name) != Lower(f.category))
    || cursor.Garbage? || (cursor.Cursor? && cursor.digest != digest(f))
  }

  lemma {:induction false} AcceptedIff(v: Views, f: LineFilter, cursor: CursorArg, digest: LineFilter -> Digest)
    ensures Accepted(v, f, cursor, digest) <==> !Bad(v, f, cursor, digest)
  {
    assert forall i :: 0 <= i < |v.accounts| ==> v.accounts[i] in v.accounts;
    assert forall i :: 0 <= i < |v.categories| ==> v.categories[i] in v.categories;
  }

  /** One call: a bad request, or a page, the summary of all matching lines, and where the next page starts. */
  method QueryTransactions(v: Views, f: LineFilter, pageSize: int, cursor: CursorArg, digest: LineFilter -> Digest)
    returns (r: QueryResult)
    ensures if Accepted(v, f, cursor, digest)
            then IsAnswer(r, RowsAfter(v.page, f, if cursor.Cursor? then Some(cursor.key) else None),
                          Matching(v.summary, f), EffectiveSize(pageSize), digest(f))
            else r == BadRequest
    ensures r.BadRequest? <==> Bad(v, f, cursor, digest)
    ensures r.Answer? ==> SaysPage(r, pageSize, digest(f))
    ensures r.Answer? && Distinct(v.page, KeyOf) ==> NewestFirst(r.lines)
    ensures r.Answer? && Distinct(v.page, KeyOf) && cursor.Cursor? ==>
              forall n :: n in r.lines ==> IsBeyond(cursor.key, n.line)
  {
    AcceptedIff(v, f, cursor, digest);
    var ok, after := Check(v, f, cursor, digest);
    if !ok { return BadRequest; }
    var size := if pageSize <= 0 then DEFAULT_PAGE_SIZE else pageSize;
    size := if size < MAX_PAGE_SIZE then size else MAX_PAGE_SIZE;
    var lines, count, total := QueryLines(v, f, after, size + 1);
    r := CutPage(lines, count, total, size, digest(f), RowsAfter(v.page, f, after), Matching(v.summary, f));
    AnswerSays(r, v.page, f, after, Matching(v.summary, f), pageSize, digest(f));
  }

  // ---- Runs of pages

  /** One page request of a run: the lines its page statement saw, and the requested size. */
  datatype Call = Call(lines: seq<Named>, pageSize: int)

  ghost function Visits(calls: seq<Call>, f: LineFilter): seq<Visit<Named, LineKey>> {
    seq(|calls|, i requires 0 <= i < |calls| => Visit(ViewOf(calls[i].lines, f), EffectiveSize(calls[i].pageSize)))
  }

  /** All lines a client gets that follows next_cursor, and whether the last page had no next_cursor. */
  ghost function Pages(calls: seq<Call>, f: LineFilter): seq<Named> { Delivered(Visits(calls, f), KeyOf) }

  ghost predicate Finished(calls: seq<Call>, f: LineFilter) { PositionAfter(Visits(calls, f), KeyOf).Ended? }

  /** The runs are runs of QueryTransactions: its answer to the next call, which starts where the run has come to, adds
      its lines, and the run goes on from its next cursor or has ended. */
  lemma {:induction false} RunFollowsCalls(calls: seq<Call>, f: LineFilter, c: Call, after: Option<LineKey>,
          r: QueryResult, all: seq<Named>, d: Digest)
    requires PositionAfter(Visits(calls, f), KeyOf) == At(after)
    requires IsAnswer(r, RowsAfter(c.lines, f, after), all, EffectiveSize(c.pageSize), d)
    ensures Pages(calls + [c], f) == Pages(calls, f) + r.lines
    ensures PositionAfter(Visits(calls + [c], f), KeyOf) ==
            if r.next.Cursor? then At(Some(r.next.key)) else Ended
  {
    var v := Visit(ViewOf(c.lines, f), EffectiveSize(c.pageSize));
    assert Visits(calls + [c], f) == Visits(calls, f) + [v];
    RunGrows(Visits(calls, f), v, after, KeyOf);
  }

  lemma {:induction false} RunGrows<T, K>(vs: seq<Visit<T, K>>, v: Visit<T, K>, after: Option<K>, key: T -> K)
    requires PositionAfter(vs, key) == At(after)
    ensures Delivered(vs + [v], key) == Delivered(vs, key) + Take(v.view(after), v.size)
    ensures PositionAfter(vs + [v], key) == Next(v.view(after), v.size, key)
  {
    assert (vs + [v])[..|vs + [v]| - 1] == vs;
  }

  ghost predicate AllKeyed(calls: seq<Call>) { forall i :: 0 <= i < |calls| ==> Distinct(calls[i].lines, KeyOf) }

  lemma {:induction false} VisitsAreGood(calls: seq<Call>, f: LineFilter)
    requires AllKeyed(calls)
    ensures StrictTotal(KeyLess) && Good(Visits(calls, f), KeyOf, KeyLess)
  {
    KeyOrder();
    forall i | 0 <= i < |calls| ensures IsView(Visits(calls, f)[i].view, KeyOf, KeyLess) {
      ViewIsOrdered(calls[i].lines, f);
    }
  }

  /** Keys are strictly increasing across pages, however the mirror changes between them. */
  lemma {:induction false} PagesNeverRepeat(calls: seq<Call>, f: LineFilter)
    requires AllKeyed(calls)
    ensures AscendingBy(Pages(calls, f), KeyOf, KeyLess)
  {
    VisitsAreGood(calls, f);
    PagesAscend(Visits(calls, f), KeyOf, KeyLess);
  }

  /** All pages together have the newest lines first. */
  lemma {:induction false} PagesNewestFirst(calls: seq<Call>, f: LineFilter)
    requires AllKeyed(calls)
    ensures NewestFirst(Pages(calls, f))
  {
    PagesNeverRepeat(calls, f);
    AscendingIsNewestFirst(Pages(calls, f));
  }

  /** Every returned line was a matching line of the mirror when its page was read. */
  lemma {:induction false} PagesOnlyMatch(calls: seq<Call>, f: LineFilter, n: Named)
    requires AllKeyed(calls) && n in Pages(calls, f)
    ensures Matches(f, n) && exists i :: 0 <= i < |calls| && n in calls[i].lines
  {
    VisitsAreGood(calls, f);
    PagesAreSound(Visits(calls, f), KeyOf, KeyLess, n);
    var i :| 0 <= i < |calls| && n in Visits(calls, f)[i].view(None);
    RowsAfterAre(calls[i].lines, f, None);
  }

  ghost predicate MatchesAt(lines: seq<Named>, f: LineFilter, k: LineKey, n: Named) {
    n in lines && Matches(f, n) && KeyOf(n) == k
  }

  ghost predicate HasMatch(lines: seq<Named>, f: LineFilter, k: LineKey) { exists n :: MatchesAt(lines, f, k, n) }

  /** The line has this key and matches at every page. */
  ghost predicate KeepsMatching(calls: seq<Call>, f: LineFilter, k: LineKey) {
    forall i :: 0 <= i < |calls| ==> HasMatch(calls[i].lines, f, k)
  }

  lemma {:induction false} MatchIsInView(lines: seq<Named>, f: LineFilter, k: LineKey)
    requires Distinct(lines, KeyOf) && HasMatch(lines, f, k)
    ensures HasKey(RowsAfter(lines, f, None), KeyOf, k)
  {
    var n :| MatchesAt(lines, f, k, n);
    RowsAfterAre(lines, f, None);
    var rows := RowsAfter(lines, f, None);
    assert n in rows;
    var j :| 0 <= j < |rows| && rows[j] == n;
    assert KeyOf(rows[j]) == k;
  }

  lemma {:induction false} MatchStays(calls: seq<Call>, f: LineFilter, k: LineKey)
    requires AllKeyed(calls) && KeepsMatching(calls, f, k)
    ensures Stays(Visits(calls, f), KeyOf, k)
  {
    forall i | 0 <= i < |calls| ensures HasKey(Visits(calls, f)[i].view(None), KeyOf, k) {
      MatchIsInView(calls[i].lines, f, k);
    }
  }

  /** Once paging ends, every line that kept its key and kept matching was returned exactly once. */
  lemma {:induction false} PagingIsComplete(calls: seq<Call>, f: LineFilter, k: LineKey)
    requires AllKeyed(calls) && Finished(calls, f) && KeepsMatching(calls, f, k)
    ensures HasKey(Pages(calls, f), KeyOf, k) && Distinct(Pages(calls, f), KeyOf)
  {
    VisitsAreGood(calls, f);
    MatchStays(calls, f, k);
    StayingReturnedOnce(Visits(calls, f), KeyOf, KeyLess, k);
  }

  // ---- The mirrors that pages are read from

  /** Page i reads the line view of sources[i]. */
  function CallsOn(sources: seq<Source>, sizes: seq<int>): seq<Call>
    requires |sizes| == |sources|
  {
    seq(|sources|, i requires 0 <= i < |sources| => Call(NamedLines(sources[i]), sizes[i]))
  }

  lemma {:induction false} MirrorsAreKeyed(sources: seq<Source>, sizes: seq<int>)
    requires |sizes| == |sources| && forall i :: 0 <= i < |sources| ==> Keys(sources[i])
    ensures AllKeyed(CallsOn(sources, sizes))
  {
    forall i | 0 <= i < |sources| ensures Distinct(CallsOn(sources, sizes)[i].lines, KeyOf) {
      NamedKeysDistinct(sources[i]);
    }
  }

  /** For any mirrors and page sizes: the pages have the newest lines first, every returned line matched in a mirror it
      was read from, and once paging ends every line that kept its key and kept matching was returned exactly once. */
  lemma {:induction false} MirrorPagingIsComplete(sources: seq<Source>, sizes: seq<int>, f: LineFilter)
    requires |sizes| == |sources| && forall i :: 0 <= i < |sources| ==> Keys(sources[i])
    ensures var calls := CallsOn(sources, sizes);
            && NewestFirst(Pages(calls, f))
            && (forall n :: n in Pages(calls, f) ==>
                 Matches(f, n) && exists i :: 0 <= i < |calls| && n in calls[i].lines)
            && (Finished(calls, f) ==>
                  forall k :: KeepsMatching(calls, f, k) ==>
                    HasKey(Pages(calls, f), KeyOf, k) && Distinct(Pages(calls, f), KeyOf))
  {
    var calls := CallsOn(sources, sizes);
    MirrorsAreKeyed(sources, sizes);
    PagesNewestFirst(calls, f);
    forall n | n in Pages(calls, f) ensures Matches(f, n) && exists i :: 0 <= i < |calls| && n in calls[i].lines {
      PagesOnlyMatch(calls, f, n);
    }
    forall k | Finished(calls, f) && KeepsMatching(calls, f, k)
      ensures HasKey(Pages(calls, f), KeyOf, k) && Distinct(Pages(calls, f), KeyOf)
    {
      PagingIsComplete(calls, f, k);
    }
  }

  // ---- A frozen mirror

  ghost predicate NothingChanges(calls: seq<Call>, lines: seq<Named>) {
    forall i :: 0 <= i < |calls| ==> calls[i].lines == lines
  }

  lemma {:induction false} SumInserted(rows: seq<Named>, n: Named)
    ensures Sum(Inserted(rows, n, RowLess)) == Sum(rows) + n.line.amount
  {
    if rows != [] && RowLess(n, rows[|rows| - 1]) { SumInserted(rows[..|rows| - 1], n); }
  }

  lemma {:induction false} SumSorted(rows: seq<Named>)
    ensures Sum(StableSorted(rows, RowLess)) == Sum(rows)
  {
    if rows != [] {
      SumSorted(rows[..|rows| - 1]);
      SumInserted(StableSorted(rows[..|rows| - 1], RowLess), rows[|rows| - 1]);
    }
  }

  lemma {:induction false} FrozenRun(calls: seq<Call>, f: LineFilter, lines: seq<Named>)
    requires Distinct(lines, KeyOf) && NothingChanges(calls, lines)
    ensures IsPrefix(Pages(calls, f), RowsAfter(lines, f, None), PositionAfter(Visits(calls, f), KeyOf), |calls|, KeyOf)
  {
    VisitsAreGood(calls, f);
    ViewIsOrdered(lines, f);
    FrozenPrefix(Visits(calls, f), ViewOf(lines, f), KeyOf, KeyLess);
  }

  /** On a frozen mirror the pages concatenate to the full ordered result, and their number and sum are
      match_count and match_total. */
  lemma {:induction false} FrozenPagesAreAll(calls: seq<Call>, f: LineFilter, lines: seq<Named>)
    requires Distinct(lines, KeyOf) && NothingChanges(calls, lines) && Finished(calls, f)
    ensures Pages(calls, f) == RowsAfter(lines, f, None)
    ensures |Pages(calls, f)| == |Matching(lines, f)| && Sum(Pages(calls, f)) == Sum(Matching(lines, f))
  {
    FrozenRun(calls, f, lines);
    RowsAfterAre(lines, f, None);
    SumSorted(Matching(lines, f));
  }

  /** On a frozen mirror paging ends after at most as many calls as there are matching lines. */
  lemma {:induction false} FrozenPagingEnds(calls: seq<Call>, f: LineFilter, lines: seq<Named>)
    requires Distinct(lines, KeyOf) && NothingChanges(calls, lines) && calls != [] && |calls| >= |Matching(lines, f)|
    ensures Finished(calls, f)
  {
    FrozenRun(calls, f, lines);
    RowsAfterAre(lines, f, None);
  }

  /** For a mirror that does not change: paging ends, with the whole ordered result, match_count and match_total. */
  lemma {:induction false} FrozenMirrorPages(s: Source, sizes: seq<int>, f: LineFilter)
    requires Keys(s) && sizes != [] && |sizes| >= |Matching(NamedLines(s), f)|
    ensures var calls := CallsOn(seq(|sizes|, _ => s), sizes);
            && Finished(calls, f) && Pages(calls, f) == RowsAfter(NamedLines(s), f, None)
            && |Pages(calls, f)| == |Matching(NamedLines(s), f)|
            && Sum(Pages(calls, f)) == Sum(Matching(NamedLines(s), f))
  {
    var calls := CallsOn(seq(|sizes|, _ => s), sizes);
    NamedKeysDistinct(s);
    FrozenPagingEnds(calls, f, NamedLines(s));
    FrozenPagesAreAll(calls, f, NamedLines(s));
  }
}
