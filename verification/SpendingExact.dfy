/** When the rows of compare_spending add up to the totals it announces. */
module SpendingExact {
  import opened Prelude
  import opened Mirror
  import opened Ordering
  import opened Lines
  import opened CategoryTotals
  import opened Spending

  // ---- The merged rows and the totals

  function Difference(a: Acc): int { a.cur - a.prior }

  lemma {:induction false} SumDifferences(rows: seq<Acc>)
    ensures SumRows(rows, Difference) == SumRows(rows, Amount(true)) - SumRows(rows, Amount(false))
  {
    if rows != [] { SumDifferences(rows[..|rows| - 1]); }
  }

  lemma {:induction false} AllZero(rows: seq<Acc>, field: Acc -> int)
    requires forall i :: 0 <= i < |rows| ==> field(rows[i]) == 0
    ensures SumRows(rows, field) == 0
  {
    if rows != [] { AllZero(rows[..|rows| - 1], field); }
  }

  /** The rows cover every total of a period exactly if no two totals of it share an id; the columns and differences are
      off by exactly what was overwritten. */
  lemma {:induction false} MergeAddsUp(r: Comparison, t1: seq<CategoryTotal>, t2: seq<CategoryTotal>)
    requires IsComparison(r, t1, t2)
    requires (forall i :: 0 <= i < |t1| ==> t1[i].count >= 1) && forall i :: 0 <= i < |t2| ==> t2[i].count >= 1
    ensures SumRows(r.rows, Count(true)) == SumCounts(t1) <==> IdsUnique(t1)
    ensures SumRows(r.rows, Count(false)) == SumCounts(t2) <==> IdsUnique(t2)
    ensures SumRows(r.rows, Amount(true)) == r.periodTotal + Dropped(t1)
    ensures SumRows(r.rows, Amount(false)) == r.baselineTotal + Dropped(t2)
    ensures SumRows(r.rows, Difference) == r.difference + Dropped(t1) - Dropped(t2)
  {
    var first := EnteredAll(EMPTY_BOOK, t1, true);
    EnteringCounts(EMPTY_BOOK, t1, true);
    UntouchedYet(EMPTY_BOOK, t1, true);
    EnteringCounts(first, t2, false);
    var rows := BookRows(Compared(t1, t2));
    SumRowsSorted(rows, Count(true));
    SumRowsSorted(rows, Count(false));
    SumRowsSorted(rows, Amount(true));
    SumRowsSorted(rows, Amount(false));
    SumDifferences(r.rows);
  }

  /** Entering one period leaves the other one's columns zero. */
  lemma {:induction false} UntouchedYet(book: Book, ts: seq<CategoryTotal>, first: bool)
    requires BookOk(book) && Untouched(book, !first)
    ensures BookOk(EnteredAll(book, ts, first)) && Untouched(EnteredAll(book, ts, first), !first)
    ensures SumRows(BookRows(EnteredAll(book, ts, first)), Count(!first)) == 0
    ensures SumRows(BookRows(EnteredAll(book, ts, first)), Amount(!first)) == 0
  {
    var after := EnteredAll(book, ts, first);
    BooksAreOk(book, ts, first);
    if ts != [] {
      UntouchedYet(book, ts[..|ts| - 1], first);
      OtherUntouched(EnteredAll(book, ts[..|ts| - 1], first), ts[|ts| - 1], first);
    }
    ZeroSums(after, !first);
  }

  lemma {:induction false} OtherUntouched(book: Book, t: CategoryTotal, first: bool)
    requires Untouched(book, !first)
    ensures Untouched(Entered(book, t, first), !first)
  {
  }

  lemma {:induction false} ZeroSums(book: Book, first: bool)
    requires BookOk(book) && Untouched(book, first)
    ensures SumRows(BookRows(book), Count(first)) == 0 && SumRows(BookRows(book), Amount(first)) == 0
  {
    AllZero(BookRows(book), Count(first));
    AllZero(BookRows(book), Amount(first));
  }

  /** Lines with the same reported category id have the same name and group. */
  ghost predicate NoClash(lines: seq<Named>) {
    forall i, j :: 0 <= i < |lines| && 0 <= j < |lines| && KeyOf(lines[i]).categoryId == KeyOf(lines[j]).categoryId ==>
      KeyOf(lines[i]) == KeyOf(lines[j])
  }

  lemma {:induction false} IdsUniqueIff(lines: seq<Named>, ts: seq<CategoryTotal>)
    requires forall k :: HasTotal(ts, k) <==> Mentions(lines, KeyOf, k)
    requires forall i, j :: 0 <= i < j < |ts| ==> ts[i].key != ts[j].key
    ensures IdsUnique(ts) <==> NoClash(lines)
  {
    if NoClash(lines) {
      forall i, j | 0 <= i < j < |ts| ensures ts[i].key.categoryId != ts[j].key.categoryId {
        assert HasTotal(ts, ts[i].key) && HasTotal(ts, ts[j].key);
        var a :| 0 <= a < |lines| && KeyOf(lines[a]) == ts[i].key;
        var b :| 0 <= b < |lines| && KeyOf(lines[b]) == ts[j].key;
      }
    }
    if IdsUnique(ts) {
      forall i, j | 0 <= i < |lines| && 0 <= j < |lines| && KeyOf(lines[i]).categoryId == KeyOf(lines[j]).categoryId
        ensures KeyOf(lines[i]) == KeyOf(lines[j])
      {
        assert HasTotal(ts, KeyOf(lines[i])) && HasTotal(ts, KeyOf(lines[j]));
        var a :| 0 <= a < |ts| && ts[a].key == KeyOf(lines[i]);
        var b :| 0 <= b < |ts| && ts[b].key == KeyOf(lines[j]);
        SameId(ts, a, b);
      }
    }
  }

  lemma {:induction false} SameId(ts: seq<CategoryTotal>, a: nat, b: nat)
    requires IdsUnique(ts) && a < |ts| && b < |ts| && ts[a].key.categoryId == ts[b].key.categoryId
    ensures a == b
  {
  }

  /** What CategoryTotals tells about the lines it sums. */
  ghost predicate Summarizes(ts: seq<CategoryTotal>, lines: seq<Named>) {
    && SumTotals(ts) == Sum(lines) && SumCounts(ts) == |lines|
    && (forall i :: 0 <= i < |ts| ==> ts[i].count >= 1)
    && (IdsUnique(ts) <==> NoClash(lines))
  }

  lemma {:induction false} TotalsSummarize(lines: seq<Named>)
    ensures Summarizes(Totals(lines), lines)
  {
    var ks := StableSorted(KeysIn(lines), KeyBefore);
    TotalsPartition(lines);
    TotalsAre(lines, ks);
    KeysAreSorted(lines);
    IdsUniqueIff(lines, TotalsFor(lines, ks));
  }

  /** The announced totals are the sums of the lines; the rows cover every line exactly if no two lines of a period
      report one category id under different names; the columns and differences are off by exactly what was lost. */
  ghost predicate AddsUp(r: Comparison, period: seq<Named>, baseline: seq<Named>, lost1: int, lost2: int) {
    && r.periodTotal == -Sum(period) && r.baselineTotal == -Sum(baseline) && r.difference == Sum(baseline) - Sum(period)
    && (SumRows(r.rows, Count(true)) == |period| <==> NoClash(period))
    && (SumRows(r.rows, Count(false)) == |baseline| <==> NoClash(baseline))
    && SumRows(r.rows, Amount(true)) == r.periodTotal + lost1
    && SumRows(r.rows, Amount(false)) == r.baselineTotal + lost2
    && SumRows(r.rows, Difference) == r.difference + lost1 - lost2
  }

  lemma {:induction false} SummariesAddUp(r: Comparison, t1: seq<CategoryTotal>, t2: seq<CategoryTotal>,
          period: seq<Named>, baseline: seq<Named>)
    requires IsComparison(r, t1, t2) && Summarizes(t1, period) && Summarizes(t2, baseline)
    ensures AddsUp(r, period, baseline, Dropped(t1), Dropped(t2))
  {
    MergeAddsUp(r, t1, t2);
  }

  /** For the spending lines of any two periods. */
  lemma {:induction false} ComparisonIsExact(r: Comparison, period: seq<Named>, baseline: seq<Named>)
    requires IsComparison(r, Totals(period), Totals(baseline))
    ensures AddsUp(r, period, baseline, Dropped(Totals(period)), Dropped(Totals(baseline)))
  {
    TotalsSummarize(period);
    TotalsSummarize(baseline);
    SummariesAddUp(r, Totals(period), Totals(baseline), period, baseline);
  }

  // ---- When lines of a mirror clash

  /** An uncategorized line. */
  predicate Uncategorized(n: Named) { n.line.categoryId.None? }

  /** A line whose category has the empty string as its id, and a name or a group. */
  predicate InUnnamedId(n: Named) { n.line.categoryId == Some("") && (KeyOf(n).name != "" || KeyOf(n).group != "") }

  /** Each line is named as its category id looks up, which is what the joins guarantee. */
  ghost predicate NamedBy(lines: seq<Named>, s: Source) {
    forall i :: 0 <= i < |lines| ==> lines[i] == NameOf(s, lines[i].line)
  }

  lemma {:induction false} SpentIsNamed(s: Source, start: string, end: string)
    requires Keys(s)
    ensures NamedBy(Spent(NamedLines(s), start, end), s)
  {
    var named := NamedLines(s);
    JoinsNeverFanOut(s);
    assert NamedBy(named, s);
    FilterMembers(named, Eligible(start, end));
    var spent := Spent(named, start, end);
    forall i | 0 <= i < |spent| ensures spent[i] == NameOf(s, spent[i].line) {
      assert spent[i] in named;
    }
  }

  /** Lines of a mirror clash only between uncategorized ones and a category whose id is the empty string. */
  lemma {:induction false} ClashIff(lines: seq<Named>, s: Source)
    requires NamedBy(lines, s)
    ensures NoClash(lines) <==>
            !((exists n :: n in lines && Uncategorized(n)) && (exists m :: m in lines && InUnnamedId(m)))
  {
    forall i | 0 <= i < |lines| ensures Uncategorized(lines[i]) ==> KeyOf(lines[i]) == TotalKey("", "", "") {
      var none := GroupOf(s, None);
    }
    if NoClash(lines) {
      forall n, m | n in lines && Uncategorized(n) && m in lines ensures !InUnnamedId(m) {
        var i :| 0 <= i < |lines| && lines[i] == n;
        var j :| 0 <= j < |lines| && lines[j] == m;
        assert KeyOf(lines[i]).categoryId == KeyOf(lines[j]).categoryId ==> KeyOf(lines[i]) == KeyOf(lines[j]);
      }
    }
    if !NoClash(lines) {
      var i, j :| 0 <= i < |lines| && 0 <= j < |lines| && KeyOf(lines[i]).categoryId == KeyOf(lines[j]).categoryId
                  && KeyOf(lines[i]) != KeyOf(lines[j]);
      assert lines[i] in lines && lines[j] in lines;
      assert lines[i].line.categoryId != lines[j].line.categoryId;
      assert (Uncategorized(lines[i]) && InUnnamedId(lines[j])) || (Uncategorized(lines[j]) && InUnnamedId(lines[i]));
    }
  }

  // ---- What is lost

  const BLANK := TotalKey("", "", "")

  /** Of two totals with one id, the earlier one is blank. */
  ghost predicate BlankFirst(ts: seq<CategoryTotal>) {
    && Distinct(ts, (t: CategoryTotal) => t.key)
    && forall i, j :: 0 <= i < j < |ts| && ts[i].key.categoryId == ts[j].key.categoryId ==> ts[i].key == BLANK
  }

  function BlankTotal(ts: seq<CategoryTotal>): int {
    if ts == [] then 0
    else BlankTotal(ts[..|ts| - 1]) + if ts[|ts| - 1].key == BLANK then ts[|ts| - 1].total else 0
  }

  ghost predicate HasBlank(ts: seq<CategoryTotal>) { exists i :: 0 <= i < |ts| && ts[i].key == BLANK }

  lemma {:induction false} NoBlankTotal(ts: seq<CategoryTotal>)
    requires !HasBlank(ts)
    ensures BlankTotal(ts) == 0
  {
    if ts != [] {
      assert forall i :: 0 <= i < |ts| - 1 ==> ts[..|ts| - 1][i] == ts[i];
      NoBlankTotal(ts[..|ts| - 1]);
    }
  }

  lemma {:induction false} PrefixBlankFirst(ts: seq<CategoryTotal>)
    requires ts != [] && BlankFirst(ts)
    ensures BlankFirst(ts[..|ts| - 1])
    ensures ts[|ts| - 1].key == BLANK ==> !HasBlank(ts[..|ts| - 1])
  {
    var init, key := ts[..|ts| - 1], (t: CategoryTotal) => t.key;
    assert forall i :: 0 <= i < |init| ==> init[i] == ts[i];
    forall i, j | 0 <= i < j < |init| ensures key(init[i]) != key(init[j]) {
      assert key(ts[i]) != key(ts[j]);
    }
    forall i | 0 <= i < |init| ensures init[i].key != ts[|ts| - 1].key {
      assert key(ts[i]) != key(ts[|ts| - 1]);
    }
  }

  /** If all rows with the empty id are blank, the last total under it is the blank one. */
  lemma {:induction false} LastIsBlank(ts: seq<CategoryTotal>)
    requires BlankFirst(ts) && forall i :: 0 <= i < |ts| && ts[i].key.categoryId == "" ==> ts[i].key == BLANK
    ensures LastTotal(ts, "") == BlankTotal(ts)
  {
    if ts != [] {
      var init := ts[..|ts| - 1];
      PrefixBlankFirst(ts);
      assert forall i :: 0 <= i < |init| ==> init[i] == ts[i];
      LastIsBlank(init);
      if ts[|ts| - 1].key.categoryId == "" { NoBlankTotal(init); }
    }
  }

  /** What is overwritten is the blank total, if anything is. */
  lemma {:induction false} DroppedIsBlank(ts: seq<CategoryTotal>)
    requires BlankFirst(ts)
    ensures Dropped(ts) == if IdsUnique(ts) then 0 else BlankTotal(ts)
  {
    if ts != [] {
      var init, id := ts[..|ts| - 1], ts[|ts| - 1].key.categoryId;
      PrefixBlankFirst(ts);
      IdsOfPrefix(ts);
      DroppedIsBlank(init);
      if HasId(init, id) {
        ClashWithLast(ts);
        LastIsBlank(init);
      } else {
        NoLastTotal(init, id);
        if !IdsUnique(init) { EarlierClash(ts); }
      }
    }
  }

  /** The last total clashes: everything before it with the empty id is blank, and ids were unique so far. */
  lemma {:induction false} ClashWithLast(ts: seq<CategoryTotal>)
    requires ts != [] && BlankFirst(ts) && HasId(ts[..|ts| - 1], ts[|ts| - 1].key.categoryId)
    ensures var init, last := ts[..|ts| - 1], ts[|ts| - 1];
            && last.key.categoryId == "" && last.key != BLANK && IdsUnique(init)
            && forall i :: 0 <= i < |init| && init[i].key.categoryId == "" ==> init[i].key == BLANK
  {
    var init, n := ts[..|ts| - 1], |ts| - 1;
    assert forall i :: 0 <= i < |init| ==> init[i] == ts[i];
    var m :| 0 <= m < |init| && init[m].key.categoryId == ts[n].key.categoryId;
    assert ts[m].key == BLANK;
    PrefixBlankFirst(ts);
    assert ts[n].key != BLANK;
    forall i | 0 <= i < |init| && init[i].key.categoryId == "" ensures init[i].key == BLANK {
      assert ts[i].key.categoryId == ts[n].key.categoryId;
    }
    forall i, j | 0 <= i < j < |init| ensures init[i].key.categoryId != init[j].key.categoryId {
      BlankOnce(ts, i, j);
    }
  }

  lemma {:induction false} DistinctKeys(ts: seq<CategoryTotal>, i: nat, j: nat)
    requires BlankFirst(ts) && i < j < |ts|
    ensures ts[i].key != ts[j].key
  {
    var key := (t: CategoryTotal) => t.key;
    assert key(ts[i]) != key(ts[j]);
  }

  lemma {:induction false} BlankOnce(ts: seq<CategoryTotal>, i: nat, j: nat)
    requires BlankFirst(ts) && i < j < |ts|
    ensures ts[i].key.categoryId == ts[j].key.categoryId ==> ts[i].key == BLANK && ts[j].key != BLANK
  {
    DistinctKeys(ts, i, j);
  }

  /** After an earlier clash, the last total is not blank. */
  lemma {:induction false} EarlierClash(ts: seq<CategoryTotal>)
    requires ts != [] && BlankFirst(ts) && !IdsUnique(ts[..|ts| - 1])
    ensures ts[|ts| - 1].key != BLANK
  {
    var init := ts[..|ts| - 1];
    var i, j :| 0 <= i < j < |init| && init[i].key.categoryId == init[j].key.categoryId;
    assert ts[i].key == BLANK by { assert ts[i] == init[i] && ts[j] == init[j]; }
    DistinctKeys(ts, i, |ts| - 1);
  }

  lemma {:induction false} NothingBeforeBlank(k: TotalKey)
    ensures !KeyBefore(k, BLANK)
  {
  }

  /** The totals of a mirror's lines: only the empty id can come twice, blank first. */
  lemma {:induction false} TotalsBlankFirst(lines: seq<Named>, s: Source, ks: seq<TotalKey>)
    requires NamedBy(lines, s) && ks == StableSorted(KeysIn(lines), KeyBefore)
    ensures BlankFirst(TotalsFor(lines, ks))
  {
    var ts, key := TotalsFor(lines, ks), (t: CategoryTotal) => t.key;
    KeysAreSorted(lines);
    TotalsAre(lines, ks);
    forall i, j | 0 <= i < j < |ts| ensures key(ts[i]) != key(ts[j]) {
      assert ks[i] != ks[j];
    }
    forall i, j | 0 <= i < j < |ts| && ts[i].key.categoryId == ts[j].key.categoryId ensures ts[i].key == BLANK {
      assert ks[i] in ks && ks[j] in ks;
      var a :| 0 <= a < |lines| && KeyOf(lines[a]) == ks[i];
      var b :| 0 <= b < |lines| && KeyOf(lines[b]) == ks[j];
      SameIdIsBlank(lines[a], lines[b], s);
      NothingBeforeBlank(ks[i]);
      assert KeyBefore(ks[i], ks[j]);
      assert ks[i] != ks[j];
    }
  }

  lemma {:induction false} SameIdIsBlank(n: Named, m: Named, s: Source)
    requires n == NameOf(s, n.line) && m == NameOf(s, m.line) && KeyOf(n).categoryId == KeyOf(m).categoryId
    ensures KeyOf(n) == KeyOf(m) || KeyOf(n) == BLANK || KeyOf(m) == BLANK
  {
    var none := GroupOf(s, None);
    assert Uncategorized(n) ==> KeyOf(n) == BLANK;
    assert Uncategorized(m) ==> KeyOf(m) == BLANK;
  }

  lemma {:induction false} BlankTotalIs(lines: seq<Named>, ks: seq<TotalKey>)
    requires forall i, j :: 0 <= i < j < |ks| ==> ks[i] != ks[j]
    ensures BlankTotal(TotalsFor(lines, ks)) == if BLANK in ks then SumFor(lines, BLANK) else 0
  {
    if ks != [] {
      var init := ks[..|ks| - 1];
      BlankTotalIs(lines, init);
      DropLast(lines, ks);
      assert ks == init + [ks[|ks| - 1]];
      assert BLANK in init ==> ks[|ks| - 1] != BLANK;
    }
  }

  lemma {:induction false} NoSuchLine(lines: seq<Named>, k: TotalKey)
    requires forall i :: 0 <= i < |lines| ==> KeyOf(lines[i]) != k
    ensures SumFor(lines, k) == 0
  {
    if lines != [] { NoSuchLine(lines[..|lines| - 1], k); }
  }

  /** What a period loses: if its lines clash, the sum of those without a category, a name and a group. */
  ghost function Lost(lines: seq<Named>): int {
    if (exists n :: n in lines && Uncategorized(n)) && (exists m :: m in lines && InUnnamedId(m))
    then SumFor(lines, BLANK) else 0
  }

  lemma {:induction false} LostIsDropped(lines: seq<Named>, s: Source)
    requires NamedBy(lines, s)
    ensures Dropped(Totals(lines)) == Lost(lines)
  {
    var ks := StableSorted(KeysIn(lines), KeyBefore);
    KeysAreSorted(lines);
    TotalsBlankFirst(lines, s, ks);
    DroppedIsBlank(TotalsFor(lines, ks));
    TotalsSummarize(lines);
    ClashIff(lines, s);
    BlankTotalIs(lines, ks);
    if BLANK !in ks { NoSuchLine(lines, BLANK); }
  }

  /** For the mirrors that the two periods are read from: totals are exact, rows cover every line of a period exactly
      if it does not clash, and a column or the differences add up exactly if nothing, or on both sides the same, is
      lost. */
  lemma {:induction false} MirrorComparisonIsExact(r: Comparison, s1: Source, ps: string, pe: string, s2: Source,
                                                    bs: string, be: string)
    requires Keys(s1) && Keys(s2)
    requires IsComparison(r, Totals(Spent(NamedLines(s1), ps, pe)), Totals(Spent(NamedLines(s2), bs, be)))
    ensures var period, baseline := Spent(NamedLines(s1), ps, pe), Spent(NamedLines(s2), bs, be);
            && AddsUp(r, period, baseline, Lost(period), Lost(baseline))
            && (SumRows(r.rows, Amount(true)) == r.periodTotal <==> Lost(period) == 0)
            && (SumRows(r.rows, Amount(false)) == r.baselineTotal <==> Lost(baseline) == 0)
            && (SumRows(r.rows, Difference) == r.difference <==> Lost(period) == Lost(baseline))
  {
    var period, baseline := Spent(NamedLines(s1), ps, pe), Spent(NamedLines(s2), bs, be);
    SpentIsNamed(s1, ps, pe);
    SpentIsNamed(s2, bs, be);
    ComparisonIsExact(r, period, baseline);
    LostIsDropped(period, s1);
    LostIsDropped(baseline, s2);
  }

  // ---- A mirror that loses money

  const DAY := "2024-01-01"

  function Payment(id: Id, amount: int, category: Option<Id>): Txn {
    Txn(id, DAY, amount, "a", None, category, None, None, None, true, false, "")
  }

  /** 1.00 without a category, and 0.50 in a category whose id is the empty string. */
  const CLASHING := Source([Payment("t1", -1000, None), Payment("t2", -500, Some(""))], [],
                           [Account("a", "Checking", true, false, false, "")], [],
                           [Category("", "g", "Odd", false, false, "")], [Group("g", "Group", false, "")])

  lemma {:induction false} ClashingLines()
    ensures LinesOf(CLASHING) == [WholeLine(CLASHING.txns[0]), WholeLine(CLASHING.txns[1])]
  {
    var txns := CLASHING.txns;
    assert txns[..|txns| - 1] == [txns[0]] && [txns[0]][..0] == [];
    assert Unsplit([], []) == [] && Unsplit([txns[0]], []) == [WholeLine(txns[0])];
    assert Unsplit(txns, []) == [WholeLine(txns[0]), WholeLine(txns[1])];
    assert Parts([], txns) == [];
  }

  lemma {:induction false} ClashingKeys()
    ensures Keys(CLASHING)
  {
    assert TxnKey(CLASHING.txns[0]) != TxnKey(CLASHING.txns[1]);
  }

  lemma {:induction false} ClashingNames()
    ensures var l1, l2 := WholeLine(CLASHING.txns[0]), WholeLine(CLASHING.txns[1]);
            && NameOf(CLASHING, l1) == Named(l1, Some(CLASHING.accounts[0]), None, None, None)
            && NameOf(CLASHING, l2) ==
               Named(l2, Some(CLASHING.accounts[0]), None, Some(CLASHING.categories[0]), Some(CLASHING.groups[0]))
  {
  }

  lemma {:induction false} ClashingNamed()
    ensures NamedLines(CLASHING) ==
            [NameOf(CLASHING, WholeLine(CLASHING.txns[0])), NameOf(CLASHING, WholeLine(CLASHING.txns[1]))]
  {
    ClashingLines();
    ClashingKeys();
    JoinsNeverFanOut(CLASHING);
  }

  lemma {:induction false} BothKept(n1: Named, n2: Named, p: Named -> bool)
    requires p(n1) && p(n2)
    ensures Filter([n1, n2], p) == [n1, n2]
  {
    assert [n1, n2][..1] == [n1] && [n1][..0] == [];
    assert Filter([], p) == [] && Filter([n1], p) == [n1];
  }

  lemma {:induction false} ClashingSpent()
    ensures var l1, l2 := WholeLine(CLASHING.txns[0]), WholeLine(CLASHING.txns[1]);
            Spent(NamedLines(CLASHING), DAY, DAY) == [NameOf(CLASHING, l1), NameOf(CLASHING, l2)]
  {
    ClashingNames();
    ClashingNamed();
    TextIrreflexive(DAY);
    BothKept(NameOf(CLASHING, WholeLine(CLASHING.txns[0])), NameOf(CLASHING, WholeLine(CLASHING.txns[1])),
             Eligible(DAY, DAY));
  }

  lemma {:induction false} ClashLoses(n1: Named, n2: Named)
    requires KeyOf(n1) == BLANK && Uncategorized(n1) && KeyOf(n2) != BLANK && InUnnamedId(n2)
    ensures Sum([n1, n2]) == n1.line.amount + n2.line.amount && Lost([n1, n2]) == n1.line.amount
  {
    assert [n1, n2][..1] == [n1] && [n1][..0] == [];
    assert Sum([n1]) == n1.line.amount && SumFor([n1], BLANK) == n1.line.amount;
    assert n1 in [n1, n2] && n2 in [n1, n2];
  }

  ghost function ClashingDay(): seq<Named> { Spent(NamedLines(CLASHING), DAY, DAY) }

  lemma {:induction false} ClashingDayLoses()
    ensures Sum(ClashingDay()) == -1500 && Lost(ClashingDay()) == -1000
  {
    ClashingNames();
    ClashingSpent();
    ClashLoses(NameOf(CLASHING, WholeLine(CLASHING.txns[0])), NameOf(CLASHING, WholeLine(CLASHING.txns[1])));
  }

  /** Comparing that day with itself announces 1.50, but its rows add up to 0.50. */
  lemma {:induction false} OverwritingLosesMoney(r: Comparison)
    requires IsComparison(r, Totals(ClashingDay()), Totals(ClashingDay()))
    ensures Keys(CLASHING) && r.periodTotal == 1500 && SumRows(r.rows, Amount(true)) == 500
  {
    ClashingKeys();
    ClashingDayLoses();
    MirrorComparisonIsExact(r, CLASHING, DAY, DAY, CLASHING, DAY, DAY);
  }
}
