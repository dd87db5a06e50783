/** compare_spending: the loop that merges the category totals of two periods. */
module Spending {
  import opened Prelude
  import opened Mirror
  import opened Ordering
  import opened Lines
  import opened CategoryTotals

  // ---- Merging two periods

  /** One row of the answer, in milliunits. */
  datatype Acc = Acc(categoryId: Id, name: string, group: string, cur: int, prior: int, periodCount: nat,
          baselineCount: nat)

  datatype Book = Book(byId: map<Id, Acc>, order: seq<Id>)

  const EMPTY_BOOK := Book(map[], [])

  function NewAcc(t: CategoryTotal): Acc {
    Acc(t.key.categoryId, if t.key.categoryId == "" then "Uncategorized" else t.key.name, t.key.group, 0, 0, 0, 0)
  }

  /** Spending is the negated net amount. An id that is already there is overwritten, not added to. */
  function Set(e: Acc, t: CategoryTotal, first: bool): Acc {
    if first then e.(cur := -t.total, periodCount := t.count) else e.(prior := -t.total, baselineCount := t.count)
  }

  function Entered(book: Book, t: CategoryTotal, first: bool): Book {
    var id := t.key.categoryId;
    if id in book.byId then book.(byId := book.byId[id := Set(book.byId[id], t, first)])
    else Book(book.byId[id := Set(NewAcc(t), t, first)], book.order + [id])
  }

  function EnteredAll(book: Book, ts: seq<CategoryTotal>, first: bool): Book {
    if ts == [] then book else Entered(EnteredAll(book, ts[..|ts| - 1], first), ts[|ts| - 1], first)
  }

  function Abs(v: int): nat { if v < 0 then -v else v }

  /** Largest difference first, then by name. */
  predicate Before(a: Acc, b: Acc) {
    var da, db := Abs(a.cur - a.prior), Abs(b.cur - b.prior);
    if da != db then da > db else TextLess(a.name, b.name)
  }

  predicate BookOk(book: Book) {
    && (forall i :: 0 <= i < |book.order| ==> book.order[i] in book.byId)
    && (forall id :: id in book.byId ==> id in book.order)
    && (forall i, j :: 0 <= i < j < |book.order| ==> book.order[i] != book.order[j])
  }

  function BookRows(book: Book): seq<Acc>
    requires BookOk(book)
  {
    seq(|book.order|, i requires 0 <= i < |book.order| => book.byId[book.order[i]])
  }

  datatype Comparison = Comparison(rows: seq<Acc>, periodTotal: int, baselineTotal: int, difference: int)

  function Amount(first: bool): Acc -> int { (a: Acc) => if first then a.cur else a.prior }
  function Count(first: bool): Acc -> int { (a: Acc) => if first then a.periodCount else a.baselineCount }

  function SumRows(rows: seq<Acc>, field: Acc -> int): int {
    if rows == [] then 0 else SumRows(rows[..|rows| - 1], field) + field(rows[|rows| - 1])
  }

  lemma {:induction false} SumUpdated(rows: seq<Acc>, i: nat, a: Acc, field: Acc -> int)
    requires i < |rows|
    ensures SumRows(rows[i := a], field) == SumRows(rows, field) - field(rows[i]) + field(a)
  {
    var init := rows[..|rows| - 1];
    if i < |rows| - 1 {
      SumUpdated(init, i, a, field);
      assert rows[i := a][..|rows| - 1] == init[i := a];
    } else {
      assert rows[i := a][..|rows| - 1] == init;
    }
  }

  /** A known id changes its row in place. */
  lemma {:induction false} KnownRow(book: Book, id: Id, a: Acc, field: Acc -> int)
    requires BookOk(book) && id in book.byId
    ensures BookOk(book.(byId := book.byId[id := a]))
    ensures SumRows(BookRows(book.(byId := book.byId[id := a])), field) ==
            SumRows(BookRows(book), field) - field(book.byId[id]) + field(a)
  {
    var after := book.(byId := book.byId[id := a]);
    var i :| 0 <= i < |book.order| && book.order[i] == id;
    assert BookRows(after) == BookRows(book)[i := a];
    SumUpdated(BookRows(book), i, a, field);
  }

  /** A new id appends its row. */
  lemma {:induction false} NewRow(book: Book, id: Id, a: Acc, field: Acc -> int)
    requires BookOk(book) && id !in book.byId
    ensures BookOk(Book(book.byId[id := a], book.order + [id]))
    ensures SumRows(BookRows(Book(book.byId[id := a], book.order + [id])), field) ==
            SumRows(BookRows(book), field) + field(a)
  {
    var after := Book(book.byId[id := a], book.order + [id]);
    assert forall i :: 0 <= i < |book.order| ==> after.order[i] == book.order[i] != id;
    assert after.order[|book.order|] == id;
    assert forall x :: x in after.byId ==> x in after.order;
    assert BookRows(after) == BookRows(book) + [a];
    assert BookRows(after)[..|BookRows(book)|] == BookRows(book);
  }

  function PriorOf(book: Book, id: Id, field: Acc -> int): int { if id in book.byId then field(book.byId[id]) else 0 }

  /** Entering a total replaces what its id had in this period's columns, and leaves the other period's alone. */
  lemma {:induction false} EnteredSums(book: Book, t: CategoryTotal, first: bool)
    requires BookOk(book)
    ensures BookOk(Entered(book, t, first))
    ensures var id, after := t.key.categoryId, Entered(book, t, first);
            && SumRows(BookRows(after), Count(first)) ==
               SumRows(BookRows(book), Count(first)) - PriorOf(book, id, Count(first)) + t.count
            && SumRows(BookRows(after), Amount(first)) ==
               SumRows(BookRows(book), Amount(first)) - PriorOf(book, id, Amount(first)) - t.total
            && SumRows(BookRows(after), Count(!first)) == SumRows(BookRows(book), Count(!first))
            && SumRows(BookRows(after), Amount(!first)) == SumRows(BookRows(book), Amount(!first))
  {
    EnteredSum(book, t, first, Count(first));
    EnteredSum(book, t, first, Amount(first));
    EnteredSum(book, t, first, Count(!first));
    EnteredSum(book, t, first, Amount(!first));
  }

  lemma {:induction false} EnteredSum(book: Book, t: CategoryTotal, first: bool, field: Acc -> int)
    requires BookOk(book)
    ensures BookOk(Entered(book, t, first))
    ensures var id := t.key.categoryId;
            var was := if id in book.byId then book.byId[id] else NewAcc(t);
            SumRows(BookRows(Entered(book, t, first)), field) ==
            SumRows(BookRows(book), field) - PriorOf(book, id, field) + field(Set(was, t, first))
  {
    var id := t.key.categoryId;
    if id in book.byId {
      KnownRow(book, id, Set(book.byId[id], t, first), field);
    } else {
      NewRow(book, id, Set(NewAcc(t), t, first), field);
    }
  }

  ghost predicate HasId(ts: seq<CategoryTotal>, id: Id) { exists i :: 0 <= i < |ts| && ts[i].key.categoryId == id }

  ghost predicate IdsUnique(ts: seq<CategoryTotal>) { Distinct(ts, (t: CategoryTotal) => t.key.categoryId) }

  lemma {:induction false} IdsOfPrefix(ts: seq<CategoryTotal>)
    requires ts != []
    ensures var init, last := ts[..|ts| - 1], ts[|ts| - 1].key.categoryId;
            && (IdsUnique(ts) <==> IdsUnique(init) && !HasId(init, last))
            && (forall id :: HasId(ts, id) <==> HasId(init, id) || id == last)
  {
    var init, last := ts[..|ts| - 1], ts[|ts| - 1].key.categoryId;
    assert ts[|ts| - 1].key.categoryId == last;
    assert forall i :: 0 <= i < |init| ==> init[i] == ts[i];
    if IdsUnique(init) && !HasId(init, last) {
      forall i, j | 0 <= i < j < |ts| ensures ts[i].key.categoryId != ts[j].key.categoryId {
        assert init[i].key.categoryId != last;
        assert j < |init| ==> init[i].key.categoryId != init[j].key.categoryId;
      }
    }
    if IdsUnique(ts) {
      forall i, j | 0 <= i < j < |init| ensures init[i].key.categoryId != init[j].key.categoryId {
        assert ts[i].key.categoryId != ts[j].key.categoryId;
      }
      forall i | 0 <= i < |init| ensures init[i].key.categoryId != last {
        assert ts[i].key.categoryId != ts[|ts| - 1].key.categoryId;
      }
    }
    forall id | HasId(ts, id) ensures HasId(init, id) || id == last {
      var i :| 0 <= i < |ts| && ts[i].key.categoryId == id;
      assert i < |init| ==> init[i].key.categoryId == id;
    }
  }

  /** Before a period is entered, its columns are zero. */
  predicate Untouched(book: Book, first: bool) {
    forall id :: id in book.byId ==> Amount(first)(book.byId[id]) == 0 && Count(first)(book.byId[id]) == 0
  }

  /** The last total entered under an id, 0 if there is none. */
  function LastTotal(ts: seq<CategoryTotal>, id: Id): int {
    if ts == [] then 0
    else if ts[|ts| - 1].key.categoryId == id then ts[|ts| - 1].total
    else LastTotal(ts[..|ts| - 1], id)
  }

  /** The totals that are overwritten by a later one with the same id. */
  function Dropped(ts: seq<CategoryTotal>): int {
    if ts == [] then 0
    else Dropped(ts[..|ts| - 1]) + LastTotal(ts[..|ts| - 1], ts[|ts| - 1].key.categoryId)
  }

  /** An entered id has a row with a positive count and its last total, all other rows are still zero. */
  ghost predicate Touched(book: Book, ts: seq<CategoryTotal>, first: bool) {
    && (forall id :: HasId(ts, id) ==> id in book.byId && Count(first)(book.byId[id]) >= 1)
    && (forall id :: id in book.byId ==> Amount(first)(book.byId[id]) == -LastTotal(ts, id))
    && (forall id :: id in book.byId && !HasId(ts, id) ==> Count(first)(book.byId[id]) == 0)
  }

  lemma {:induction false} NoLastTotal(ts: seq<CategoryTotal>, id: Id)
    requires !HasId(ts, id)
    ensures LastTotal(ts, id) == 0
  {
    if ts != [] {
      IdsOfPrefix(ts);
      NoLastTotal(ts[..|ts| - 1], id);
    }
  }

  lemma {:induction false} TouchedStep(book: Book, ts: seq<CategoryTotal>, first: bool)
    requires ts != [] && Touched(book, ts[..|ts| - 1], first) && ts[|ts| - 1].count >= 1
    ensures Touched(Entered(book, ts[|ts| - 1], first), ts, first)
  {
    IdsOfPrefix(ts);
    var after := Entered(book, ts[|ts| - 1], first);
    forall id | id in after.byId ensures Amount(first)(after.byId[id]) == -LastTotal(ts, id) {
      assert id != ts[|ts| - 1].key.categoryId ==> after.byId[id] == book.byId[id];
    }
  }

  /** Entering a period counts every total exactly if no two of them share an id, and its amounts are off by exactly
      the totals that were overwritten. */
  lemma {:induction false} EnteringCounts(book: Book, ts: seq<CategoryTotal>, first: bool)
    requires BookOk(book) && Untouched(book, first)
    requires SumRows(BookRows(book), Count(first)) == 0 && SumRows(BookRows(book), Amount(first)) == 0
    requires forall i :: 0 <= i < |ts| ==> ts[i].count >= 1
    ensures BookOk(EnteredAll(book, ts, first)) && Touched(EnteredAll(book, ts, first), ts, first)
    ensures SumRows(BookRows(EnteredAll(book, ts, first)), Count(first)) <= SumCounts(ts)
    ensures SumRows(BookRows(EnteredAll(book, ts, first)), Count(first)) == SumCounts(ts) <==> IdsUnique(ts)
    ensures SumRows(BookRows(EnteredAll(book, ts, first)), Amount(first)) == -SumTotals(ts) + Dropped(ts)
    ensures SumRows(BookRows(EnteredAll(book, ts, first)), Count(!first)) == SumRows(BookRows(book), Count(!first))
    ensures SumRows(BookRows(EnteredAll(book, ts, first)), Amount(!first)) == SumRows(BookRows(book), Amount(!first))
  {
    if ts != [] {
      var init, t := ts[..|ts| - 1], ts[|ts| - 1];
      EnteringCounts(book, init, first);
      var was := EnteredAll(book, init, first);
      IdsOfPrefix(ts);
      TouchedStep(was, ts, first);
      EnteredSums(was, t, first);
      PriorValues(was, init, first, t.key.categoryId);
    }
  }

  lemma {:induction false} PriorValues(book: Book, ts: seq<CategoryTotal>, first: bool, id: Id)
    requires Touched(book, ts, first)
    ensures PriorOf(book, id, Count(first)) >= 0 && (PriorOf(book, id, Count(first)) > 0 <==> HasId(ts, id))
    ensures PriorOf(book, id, Amount(first)) == -LastTotal(ts, id)
  {
    if !HasId(ts, id) { NoLastTotal(ts, id); }
  }

  lemma {:induction false} SumRowsInserted(rows: seq<Acc>, a: Acc, field: Acc -> int)
    ensures SumRows(Inserted(rows, a, Before), field) == SumRows(rows, field) + field(a)
  {
    if rows != [] && Before(a, rows[|rows| - 1]) { SumRowsInserted(rows[..|rows| - 1], a, field); }
  }

  lemma {:induction false} SumRowsSorted(rows: seq<Acc>, field: Acc -> int)
    ensures SumRows(StableSorted(rows, Before), field) == SumRows(rows, field)
  {
    if rows != [] {
      SumRowsSorted(rows[..|rows| - 1], field);
      SumRowsInserted(StableSorted(rows[..|rows| - 1], Before), rows[|rows| - 1], field);
    }
  }

  lemma {:induction false} BeforeIsWeak()
    ensures StrictWeak(Before)
  {
    TextOrder();
    forall a: Acc, b: Acc, c: Acc | Before(a, c) ensures Before(a, b) || Before(b, c) {
      if a.name != b.name { assert TextLess(a.name, b.name) || TextLess(b.name, a.name); }
    }
  }

  // ---- The tool

  ghost function Compared(t1: seq<CategoryTotal>, t2: seq<CategoryTotal>): Book {
    EnteredAll(EnteredAll(EMPTY_BOOK, t1, true), t2, false)
  }

  lemma {:induction false} BooksAreOk(book: Book, ts: seq<CategoryTotal>, first: bool)
    requires BookOk(book)
    ensures BookOk(EnteredAll(book, ts, first))
  {
    if ts != [] {
      BooksAreOk(book, ts[..|ts| - 1], first);
      EnteredSum(EnteredAll(book, ts[..|ts| - 1], first), ts[|ts| - 1], first, Count(first));
    }
  }

  /** The loop over one period's totals. */
  method Enter(book: Book, ts: seq<CategoryTotal>, first: bool) returns (out: Book, total: int)
    ensures out == EnteredAll(book, ts, first)
    ensures total == -SumTotals(ts)
  {
    var byId, order := book.byId, book.order;
    total := 0;
    for i := 0 to |ts|
      invariant Book(byId, order) == EnteredAll(book, ts[..i], first)
      invariant total == -SumTotals(ts[..i])
    {
      var t := ts[i];
      assert ts[..i + 1][..i] == ts[..i];
      var id := t.key.categoryId;
      if id !in byId {
        byId := byId[id := NewAcc(t)];
        order := order + [id];
      }
      byId := byId[id := Set(byId[id], t, first)];
      total := total - t.total;
    }
    assert ts[..|ts|] == ts;
    out := Book(byId, order);
  }

  /** The whole answer: rows in the order of their difference, and both totals. */
  method Merge(t1: seq<CategoryTotal>, t2: seq<CategoryTotal>) returns (r: Comparison)
    ensures IsComparison(r, t1, t2)
    ensures NoInversion(r.rows, Before)
  {
    var book, curTotal := Enter(EMPTY_BOOK, t1, true);
    BooksAreOk(EMPTY_BOOK, t1, true);
    BooksAreOk(book, t2, false);
    var priorTotal;
    book, priorTotal := Enter(book, t2, false);
    var accs := ListRows(book);
    BeforeIsWeak();
    SortedInOrder(accs, Before);
    r := Comparison(StableSorted(accs, Before), curTotal, priorTotal, curTotal - priorTotal);
  }

  method ListRows(book: Book) returns (accs: seq<Acc>)
    requires BookOk(book)
    ensures accs == BookRows(book)
  {
    accs := [];
    for i := 0 to |book.order|
      invariant accs == BookRows(book)[..i]
    {
      accs := accs + [book.byId[book.order[i]]];
    }
  }

  ghost predicate IsComparison(r: Comparison, t1: seq<CategoryTotal>, t2: seq<CategoryTotal>) {
    && BookOk(Compared(t1, t2))
    && r == Comparison(StableSorted(BookRows(Compared(t1, t2)), Before), -SumTotals(t1), -SumTotals(t2),
                       -SumTotals(t1) - -SumTotals(t2))
  }

  method CompareSpending(period: seq<Named>, baseline: seq<Named>, ps: string, pe: string, bs: string, be: string)
    returns (r: Comparison)
    ensures IsComparison(r, Totals(Spent(period, ps, pe)), Totals(Spent(baseline, bs, be)))
    ensures Spent(period, ps, pe) == Filter(period, (n: Named) => IsSpending(n, ps, pe))
    ensures Spent(baseline, bs, be) == Filter(baseline, (n: Named) => IsSpending(n, bs, be))
    ensures NoInversion(r.rows, Before)
  {
    SpentAre(period, ps, pe);
    SpentAre(baseline, bs, be);
    r := Merge(Totals(Spent(period, ps, pe)), Totals(Spent(baseline, bs, be)));
  }
}
