/** What each row of compare_spending says. */
module SpendingRows {
  import opened Prelude
  import opened Mirror
  import opened Ordering
  import opened Lines
  import opened CategoryTotals
  import opened Spending
  import opened SpendingExact

  // ---- The merged rows

  function LastCount(ts: seq<CategoryTotal>, id: Id): nat {
    if ts == [] then 0
    else if ts[|ts| - 1].key.categoryId == id then ts[|ts| - 1].count
    else LastCount(ts[..|ts| - 1], id)
  }

  /** The key of the first total with an id: the row is named after it. */
  function FirstKey(ts: seq<CategoryTotal>, id: Id): Option<TotalKey> {
    if ts == [] then None
    else if ts[0].key.categoryId == id then Some(ts[0].key)
    else FirstKey(ts[1..], id)
  }

  lemma {:induction false} FirstKeySnoc(ts: seq<CategoryTotal>, t: CategoryTotal, id: Id)
    ensures FirstKey(ts + [t], id) ==
            if FirstKey(ts, id).Some? then FirstKey(ts, id)
            else if t.key.categoryId == id then Some(t.key) else None
  {
    if ts == [] {
      assert [t][1..] == [];
    } else {
      assert (ts + [t])[1..] == ts[1..] + [t];
      FirstKeySnoc(ts[1..], t, id);
    }
  }

  /** What the row of an id says, given its first key: both columns hold the last total of their period. */
  function RowFor(t1: seq<CategoryTotal>, t2: seq<CategoryTotal>, k: TotalKey): Acc {
    Acc(k.categoryId, if k.categoryId == "" then "Uncategorized" else k.name, k.group,
        -LastTotal(t1, k.categoryId), -LastTotal(t2, k.categoryId),
        LastCount(t1, k.categoryId), LastCount(t2, k.categoryId))
  }

  lemma {:induction false} NoTotalYet(ts: seq<CategoryTotal>, more: seq<CategoryTotal>, id: Id)
    requires FirstKey(ts + more, id).None?
    ensures LastTotal(ts, id) == 0 && LastCount(ts, id) == 0 && LastTotal(more, id) == 0 && LastCount(more, id) == 0
  {
    var all := ts + more;
    NoneAnywhere(all, id);
    assert forall i :: 0 <= i < |ts| ==> ts[i] == all[i];
    assert forall i :: 0 <= i < |more| ==> more[i] == all[|ts| + i];
    LastOfNone(ts, id);
    LastOfNone(more, id);
  }

  lemma {:induction false} NoneAnywhere(ts: seq<CategoryTotal>, id: Id)
    requires FirstKey(ts, id).None?
    ensures forall i :: 0 <= i < |ts| ==> ts[i].key.categoryId != id
  {
    if ts != [] {
      NoneAnywhere(ts[1..], id);
      assert forall i :: 1 <= i < |ts| ==> ts[i] == ts[1..][i - 1];
    }
  }

  lemma {:induction false} LastOfNone(ts: seq<CategoryTotal>, id: Id)
    requires forall i :: 0 <= i < |ts| ==> ts[i].key.categoryId != id
    ensures LastTotal(ts, id) == 0 && LastCount(ts, id) == 0
  {
    if ts != [] { LastOfNone(ts[..|ts| - 1], id); }
  }

  /** The row of one id is there exactly if the id occurs, and says what it should. */
  ghost predicate HoldsAt(row: Option<Acc>, t1: seq<CategoryTotal>, t2: seq<CategoryTotal>, id: Id) {
    match FirstKey(t1 + t2, id)
    case None => row.None?
    case Some(k) => k.categoryId == id && row == Some(RowFor(t1, t2, k))
  }

  lemma {:induction false} EnteredAt(book: Book, t: CategoryTotal, first: bool, id: Id)
    ensures Get(Entered(book, t, first).byId, id) ==
            if id == t.key.categoryId then Some(Set(Get(book.byId, id).GetOr(NewAcc(t)), t, first))
            else Get(book.byId, id)
  {
  }

  lemma {:induction false} FirstHoldsAt(book: Book, t1: seq<CategoryTotal>, t: CategoryTotal, id: Id)
    requires HoldsAt(Get(book.byId, id), t1, [], id)
    ensures HoldsAt(Get(Entered(book, t, true).byId, id), t1 + [t], [], id)
  {
    assert t1 + [] == t1 && (t1 + [t]) + [] == t1 + [t];
    EnteredAt(book, t, true, id);
    FirstKeySnoc(t1, t, id);
    LastSnoc(t1, t, id);
  }

  lemma {:induction false} SecondHoldsAt(book: Book, t1: seq<CategoryTotal>, t2: seq<CategoryTotal>, t: CategoryTotal,
          id: Id)
    requires HoldsAt(Get(book.byId, id), t1, t2, id)
    ensures HoldsAt(Get(Entered(book, t, false).byId, id), t1, t2 + [t], id)
  {
    assert t1 + (t2 + [t]) == (t1 + t2) + [t];
    EnteredAt(book, t, false, id);
    FirstKeySnoc(t1 + t2, t, id);
    LastSnoc(t2, t, id);
    if FirstKey(t1 + t2, id).None? { NoTotalYet(t1, t2, id); }
  }

  lemma {:induction false} LastSnoc(ts: seq<CategoryTotal>, t: CategoryTotal, id: Id)
    ensures LastTotal(ts + [t], id) == if t.key.categoryId == id then t.total else LastTotal(ts, id)
    ensures LastCount(ts + [t], id) == if t.key.categoryId == id then t.count else LastCount(ts, id)
  {
    assert (ts + [t])[..|ts|] == ts;
  }

  /** After both periods the book has exactly these rows. */
  lemma {:induction false} ComparedAt(t1: seq<CategoryTotal>, t2: seq<CategoryTotal>, id: Id)
    ensures HoldsAt(Get(Compared(t1, t2).byId, id), t1, t2, id)
  {
    if t2 != [] {
      ComparedAt(t1, t2[..|t2| - 1], id);
      SecondHoldsAt(Compared(t1, t2[..|t2| - 1]), t1, t2[..|t2| - 1], t2[|t2| - 1], id);
      assert t2 == t2[..|t2| - 1] + [t2[|t2| - 1]];
    } else if t1 != [] {
      ComparedAt(t1[..|t1| - 1], [], id);
      FirstHoldsAt(Compared(t1[..|t1| - 1], []), t1[..|t1| - 1], t1[|t1| - 1], id);
      assert t1 == t1[..|t1| - 1] + [t1[|t1| - 1]];
    }
  }

  // ---- From totals to lines

  /** The category id that a line is reported under. */
  function ReportedId(n: Named): Id { match n.line.categoryId case None => "" case Some(id) => id }

  function SumOn(lines: seq<Named>, id: Id): int {
    if lines == [] then 0
    else
      var n := lines[|lines| - 1];
      SumOn(lines[..|lines| - 1], id) + if ReportedId(n) == id then n.line.amount else 0
  }

  function CountOn(lines: seq<Named>, id: Id): nat {
    if lines == [] then 0
    else CountOn(lines[..|lines| - 1], id) + if ReportedId(lines[|lines| - 1]) == id then 1 else 0
  }

  lemma {:induction false} OneKeyPerId(lines: seq<Named>, k: TotalKey)
    requires forall i :: 0 <= i < |lines| && ReportedId(lines[i]) == k.categoryId ==> KeyOf(lines[i]) == k
    ensures SumFor(lines, k) == SumOn(lines, k.categoryId) && CountFor(lines, k) == CountOn(lines, k.categoryId)
  {
    if lines != [] { OneKeyPerId(lines[..|lines| - 1], k); }
  }

  lemma {:induction false} NoLineOn(lines: seq<Named>, id: Id)
    requires forall i :: 0 <= i < |lines| ==> ReportedId(lines[i]) != id
    ensures SumOn(lines, id) == 0 && CountOn(lines, id) == 0
  {
    if lines != [] { NoLineOn(lines[..|lines| - 1], id); }
  }

  lemma {:induction false} LastOfUnique(ts: seq<CategoryTotal>, i: nat)
    requires IdsUnique(ts) && i < |ts|
    ensures LastTotal(ts, ts[i].key.categoryId) == ts[i].total && LastCount(ts, ts[i].key.categoryId) == ts[i].count
  {
    if i < |ts| - 1 {
      var init := ts[..|ts| - 1];
      IdsOfPrefix(ts);
      SameIdOnce(ts, i);
      LastOfUnique(init, i);
      assert init[i] == ts[i];
    }
  }

  lemma {:induction false} SameIdOnce(ts: seq<CategoryTotal>, i: nat)
    requires IdsUnique(ts) && i < |ts| - 1
    ensures ts[i].key.categoryId != ts[|ts| - 1].key.categoryId
  {
  }

  /** Without a clash the last total under an id is the sum of the lines reported under it. */
  lemma {:induction false} LastIsSum(lines: seq<Named>, id: Id)
    requires NoClash(lines)
    ensures LastTotal(Totals(lines), id) == SumOn(lines, id) && LastCount(Totals(lines), id) == CountOn(lines, id)
  {
    var ts := Totals(lines);
    TotalsAre(lines, StableSorted(KeysIn(lines), KeyBefore));
    TotalsSummarize(lines);
    if i: nat :| i < |ts| && ts[i].key.categoryId == id {
      assert ts[i] in ts && HasTotal(ts, ts[i].key);
      var j :| 0 <= j < |lines| && KeyOf(lines[j]) == ts[i].key;
      LastOfUnique(ts, i);
      OneKeyPerId(lines, ts[i].key);
    } else {
      LastOfNone(ts, id);
      forall j | 0 <= j < |lines| ensures ReportedId(lines[j]) != id {
        assert Mentions(lines, KeyOf, KeyOf(lines[j]));
        assert HasTotal(ts, KeyOf(lines[j]));
      }
      NoLineOn(lines, id);
    }
  }

  lemma {:induction false} FirstKeyConcat(a: seq<CategoryTotal>, b: seq<CategoryTotal>, id: Id)
    ensures FirstKey(a + b, id) == if FirstKey(a, id).Some? then FirstKey(a, id) else FirstKey(b, id)
  {
    if a == [] {
      assert a + b == b;
    } else {
      assert (a + b)[1..] == a[1..] + b;
      FirstKeyConcat(a[1..], b, id);
    }
  }

  lemma {:induction false} FirstKeyIs(ts: seq<CategoryTotal>, id: Id)
    ensures match FirstKey(ts, id)
            case None => forall i :: 0 <= i < |ts| ==> ts[i].key.categoryId != id
            case Some(k) => k.categoryId == id && HasTotal(ts, k)
  {
    if ts != [] {
      FirstKeyIs(ts[1..], id);
      assert forall i :: 1 <= i < |ts| ==> ts[i] == ts[1..][i - 1];
      if FirstKey(ts, id).Some? && ts[0].key.categoryId != id {
        var i :| 0 <= i < |ts[1..]| && ts[1..][i].key == FirstKey(ts, id).value;
        assert ts[i + 1].key == FirstKey(ts, id).value;
      }
    }
  }

  lemma {:induction false} LinesHaveTotals(lines: seq<Named>, k: TotalKey)
    ensures HasTotal(Totals(lines), k) <==> exists n :: n in lines && KeyOf(n) == k
  {
    TotalsAre(lines, StableSorted(KeysIn(lines), KeyBefore));
    if n :| n in lines && KeyOf(n) == k {
      var j :| 0 <= j < |lines| && lines[j] == n;
      assert KeyOf(lines[j]) == k;
    }
    if HasTotal(Totals(lines), k) {
      var j :| 0 <= j < |lines| && KeyOf(lines[j]) == k;
      assert lines[j] in lines;
    }
  }

  lemma {:induction false} SameIdSameKey(lines: seq<Named>, n: Named, m: Named)
    requires NoClash(lines) && n in lines && m in lines && ReportedId(n) == ReportedId(m)
    ensures KeyOf(n) == KeyOf(m)
  {
    var i :| 0 <= i < |lines| && lines[i] == n;
    var j :| 0 <= j < |lines| && lines[j] == m;
    assert KeyOf(lines[i]).categoryId == KeyOf(lines[j]).categoryId;
  }

  /** The first key of an id among a period's totals is that of each of its lines, if it has any. */
  lemma {:induction false} FirstKeyOfLines(lines: seq<Named>, id: Id)
    requires NoClash(lines)
    ensures match FirstKey(Totals(lines), id)
            case None => forall n :: n in lines ==> ReportedId(n) != id
            case Some(k) => (exists n :: n in lines && ReportedId(n) == id)
                            && forall n :: n in lines && ReportedId(n) == id ==> KeyOf(n) == k
  {
    FirstKeyIs(Totals(lines), id);
    match FirstKey(Totals(lines), id)
    case None =>
      forall n | n in lines ensures ReportedId(n) != id { LinesHaveTotals(lines, KeyOf(n)); }
    case Some(k) =>
      LinesHaveTotals(lines, k);
      var m :| m in lines && KeyOf(m) == k;
      assert ReportedId(m) == id;
      forall n | n in lines && ReportedId(n) == id ensures KeyOf(n) == k { SameIdSameKey(lines, n, m); }
  }

  // ---- The answer

  /** The row is named after the line. */
  ghost predicate NamedAfter(row: Acc, n: Named) {
    && row.name == (if ReportedId(n) == "" then "Uncategorized"
                    else if n.category.Some? then n.category.value.name else "")
    && row.group == (if n.group.Some? then n.group.value.name else "")
  }

  /** Columns and counts are those of the id's lines, and the names are those of its lines: of the first period, or of
      the second if the first has none. */
  ghost predicate SaysExactly(row: Acc, period: seq<Named>, baseline: seq<Named>) {
    var id := row.categoryId;
    && row.cur == -SumOn(period, id) && row.periodCount == CountOn(period, id)
    && row.prior == -SumOn(baseline, id) && row.baselineCount == CountOn(baseline, id)
    && (forall n :: n in period && ReportedId(n) == id ==> NamedAfter(row, n))
    && ((forall m :: m in period ==> ReportedId(m) != id) ==>
          forall n :: n in baseline && ReportedId(n) == id ==> NamedAfter(row, n))
  }

  ghost predicate IsReported(period: seq<Named>, baseline: seq<Named>, id: Id) {
    exists n :: n in period + baseline && ReportedId(n) == id
  }

  function RowId(a: Acc): Id { a.categoryId }

  lemma {:induction false} ReportedIff(period: seq<Named>, baseline: seq<Named>, id: Id)
    ensures IsReported(period, baseline, id) <==>
            (exists n :: n in period && ReportedId(n) == id) || (exists n :: n in baseline && ReportedId(n) == id)
  {
    assert forall n :: n in period + baseline <==> n in period || n in baseline;
  }

  lemma {:induction false} RowIsExact(period: seq<Named>, baseline: seq<Named>, id: Id)
    requires NoClash(period) && NoClash(baseline)
    ensures var row := Get(Compared(Totals(period), Totals(baseline)).byId, id);
            && (row.Some? <==> IsReported(period, baseline, id))
            && (row.Some? ==> row.value.categoryId == id && SaysExactly(row.value, period, baseline))
  {
    var t1, t2 := Totals(period), Totals(baseline);
    ComparedAt(t1, t2, id);
    FirstKeyConcat(t1, t2, id);
    FirstKeyOfLines(period, id);
    FirstKeyOfLines(baseline, id);
    ReportedIff(period, baseline, id);
    if FirstKey(t1 + t2, id).Some? { RowForIsExact(period, baseline, FirstKey(t1 + t2, id).value); }
  }

  lemma {:induction false} RowForIsExact(period: seq<Named>, baseline: seq<Named>, k: TotalKey)
    requires NoClash(period) && NoClash(baseline)
    requires forall n :: n in period && ReportedId(n) == k.categoryId ==> KeyOf(n) == k
    requires (forall m :: m in period ==> ReportedId(m) != k.categoryId) ==>
               forall n :: n in baseline && ReportedId(n) == k.categoryId ==> KeyOf(n) == k
    ensures SaysExactly(RowFor(Totals(period), Totals(baseline), k), period, baseline)
  {
    LastIsSum(period, k.categoryId);
    LastIsSum(baseline, k.categoryId);
  }

  ghost predicate HasRow(rows: seq<Acc>, id: Id) { exists row :: row in rows && RowId(row) == id }

  lemma {:induction false} BookHasRow(book: Book, id: Id)
    requires BookOk(book) && forall k :: k in book.byId ==> book.byId[k].categoryId == k
    ensures HasRow(BookRows(book), id) <==> id in book.byId
  {
    if id in book.byId {
      var i :| 0 <= i < |book.order| && book.order[i] == id;
      assert BookRows(book)[i] in BookRows(book);
    }
  }

  lemma {:induction false} BookDistinct(book: Book)
    requires BookOk(book) && forall k :: k in book.byId ==> book.byId[k].categoryId == k
    ensures Distinct(BookRows(book), RowId)
  {
  }

  lemma {:induction false} BookSays(period: seq<Named>, baseline: seq<Named>, book: Book)
    requires NoClash(period) && NoClash(baseline) && book == Compared(Totals(period), Totals(baseline)) && BookOk(book)
    ensures Distinct(BookRows(book), RowId)
    ensures forall row :: row in BookRows(book) ==> SaysExactly(row, period, baseline)
    ensures forall id :: HasRow(BookRows(book), id) <==> IsReported(period, baseline, id)
  {
    forall id
      ensures id in book.byId <==> IsReported(period, baseline, id)
      ensures id in book.byId ==> book.byId[id].categoryId == id && SaysExactly(book.byId[id], period, baseline)
    {
      RowIsExact(period, baseline, id);
    }
    BookDistinct(book);
    forall id ensures HasRow(BookRows(book), id) <==> IsReported(period, baseline, id) { BookHasRow(book, id); }
  }

  lemma {:induction false} InsertedDistinct(s: seq<Acc>, x: Acc)
    requires Distinct(s, RowId) && forall y :: y in s ==> RowId(y) != RowId(x)
    ensures Distinct(Inserted(s, x, Before), RowId)
    ensures forall y :: y in Inserted(s, x, Before) <==> y in s || y == x
  {
    if s != [] && Before(x, s[|s| - 1]) {
      var init, last := s[..|s| - 1], s[|s| - 1];
      assert last in s && s == init + [last];
      InsertedDistinct(init, x);
      forall y | y in Inserted(init, x, Before) ensures RowId(y) != RowId(last) {
        if y != x {
          var i :| 0 <= i < |init| && init[i] == y;
          assert RowId(s[i]) != RowId(s[|s| - 1]);
        }
      }
    }
  }

  lemma {:induction false} SortedDistinct(s: seq<Acc>)
    requires Distinct(s, RowId)
    ensures Distinct(StableSorted(s, Before), RowId)
    ensures forall y :: y in StableSorted(s, Before) <==> y in s
  {
    if s != [] {
      var init, last := s[..|s| - 1], s[|s| - 1];
      assert s == init + [last];
      forall y | y in init ensures RowId(y) != RowId(last) {
        var i :| 0 <= i < |init| && init[i] == y;
        assert RowId(s[i]) != RowId(s[|s| - 1]);
      }
      SortedDistinct(init);
      InsertedDistinct(StableSorted(init, Before), last);
    }
  }

  /** The larger difference first; for equal ones the smaller name. */
  ghost predicate MayPrecede(a: Acc, b: Acc) {
    var da, db := Abs(a.cur - a.prior), Abs(b.cur - b.prior);
    da > db || (da == db && !TextLess(b.name, a.name))
  }

  /** For periods that do not clash: one row for each category id with a spending line, in order of difference and
      name; each row says exactly what the lines of its id add up to in each period. */
  lemma {:induction false} RowsAreExact(r: Comparison, period: seq<Named>, baseline: seq<Named>)
    requires IsComparison(r, Totals(period), Totals(baseline)) && NoClash(period) && NoClash(baseline)
    ensures Distinct(r.rows, RowId)
    ensures forall id :: Mentions(r.rows, RowId, id) <==> IsReported(period, baseline, id)
    ensures forall row :: row in r.rows ==> SaysExactly(row, period, baseline)
    ensures forall i, j :: 0 <= i < j < |r.rows| ==> MayPrecede(r.rows[i], r.rows[j])
  {
    var rows := BookRows(Compared(Totals(period), Totals(baseline)));
    BookSays(period, baseline, Compared(Totals(period), Totals(baseline)));
    SortedDistinct(rows);
    MentionsMember(r.rows);
    forall id ensures HasRow(r.rows, id) <==> HasRow(rows, id) {}
    BeforeIsWeak();
    SortedInOrder(rows, Before);
  }

  lemma {:induction false} MentionsMember(rows: seq<Acc>)
    ensures forall id :: Mentions(rows, RowId, id) <==> HasRow(rows, id)
  {
    forall row | row in rows ensures Mentions(rows, RowId, RowId(row)) {
      var i :| 0 <= i < |rows| && rows[i] == row;
      assert RowId(rows[i]) == RowId(row);
    }
  }
}
