/** CategoryTotals: which lines are spending, and their totals per category. */
module CategoryTotals {
  import opened Prelude
  import opened Mirror
  import opened Ordering
  import opened Lines
  import LineFilters

  // ---- Which lines are spending

  predicate OnBudget(n: Named) { n.account.Some? && n.account.value.onBudget }

  /** A transfer between on-budget accounts has no category. */
  predicate PlainTransfer(n: Named) { n.line.categoryId.None? && n.line.transferAccountId.Some? }

  predicate Income(n: Named) {
    n.category.Some? && n.category.value.internal && LineFilters.Like("Inflow:%", n.category.value.name)
  }

  function Eligible(start: string, end: string): Named -> bool {
    (n: Named) =>
      && !TextLess(n.line.date, start) && !TextLess(end, n.line.date)
      && OnBudget(n) && !PlainTransfer(n) && !Income(n)
  }

  function Spent(lines: seq<Named>, start: string, end: string): seq<Named> { Filter(lines, Eligible(start, end)) }

  /** Dated from start to end, both included; in an on-budget account; no transfer without a category; and not under an
      internal category whose name begins with "Inflow:", in any case. */
  predicate IsSpending(n: Named, start: string, end: string) {
    && (n.line.date == start || TextLess(start, n.line.date))
    && (n.line.date == end || TextLess(n.line.date, end))
    && n.account.Some? && n.account.value.onBudget
    && (n.line.categoryId.Some? || n.line.transferAccountId.None?)
    && (n.category.None? || !n.category.value.internal
        || !LineFilters.OccursAt("Inflow:", n.category.value.name, 0))
  }

  lemma {:induction false} InflowMeans(name: string)
    ensures LineFilters.Like("Inflow:%", name) <==> LineFilters.OccursAt("Inflow:", name, 0)
  {
    var text := "Inflow:";
    assert LineFilters.Escaped(text) == text by { NothingToEscape(text); }
    assert text + "%" == "Inflow:%";
    LineFilters.EscapedIsLiteral(text, "%", name);
    if |text| <= |name| { LineFilters.PercentMatchesAll(name[|text|..]); }
  }

  lemma {:induction false} NothingToEscape(t: string)
    requires forall c :: c in t ==> !LineFilters.IsWild(c)
    ensures LineFilters.Escaped(t) == t
  {
    if t != [] { NothingToEscape(t[1..]); }
  }

  lemma {:induction false} EligibleIff(n: Named, start: string, end: string)
    ensures Eligible(start, end)(n) <==> IsSpending(n, start, end)
  {
    TextNotLess(n.line.date, start);
    TextNotLess(end, n.line.date);
    if n.category.Some? { InflowMeans(n.category.value.name); }
  }

  /** The lines that a period counts, in order, are exactly these. */
  lemma {:induction false} SpentAre(lines: seq<Named>, start: string, end: string)
    ensures Spent(lines, start, end) == Filter(lines, (n: Named) => IsSpending(n, start, end))
  {
    if lines != [] {
      SpentAre(lines[..|lines| - 1], start, end);
      EligibleIff(lines[|lines| - 1], start, end);
    }
  }

  // ---- CategoryTotals

  datatype TotalKey = TotalKey(categoryId: Id, name: string, group: string)
  datatype CategoryTotal = CategoryTotal(key: TotalKey, total: int, count: nat)

  /** COALESCE: NULL and the empty string are the same key. */
  function KeyOf(n: Named): TotalKey {
    TotalKey(n.line.categoryId.GetOr(""),
             if n.category.Some? then n.category.value.name else "",
             if n.group.Some? then n.group.value.name else "")
  }

  /** ORDER BY group, name, id. */
  predicate KeyBefore(a: TotalKey, b: TotalKey) {
    TextLess(a.group, b.group)
    || (a.group == b.group && (TextLess(a.name, b.name) || (a.name == b.name && TextLess(a.categoryId, b.categoryId))))
  }

  function KeysIn(lines: seq<Named>): seq<TotalKey> {
    if lines == [] then []
    else
      var before, k := KeysIn(lines[..|lines| - 1]), KeyOf(lines[|lines| - 1]);
      if k in before then before else before + [k]
  }

  function SumFor(lines: seq<Named>, k: TotalKey): int {
    if lines == [] then 0
    else SumFor(lines[..|lines| - 1], k) + if KeyOf(lines[|lines| - 1]) == k then lines[|lines| - 1].line.amount else 0
  }

  function CountFor(lines: seq<Named>, k: TotalKey): nat {
    if lines == [] then 0
    else CountFor(lines[..|lines| - 1], k) + if KeyOf(lines[|lines| - 1]) == k then 1 else 0
  }

  function TotalsFor(lines: seq<Named>, ks: seq<TotalKey>): seq<CategoryTotal> {
    seq(|ks|, i requires 0 <= i < |ks| => CategoryTotal(ks[i], SumFor(lines, ks[i]), CountFor(lines, ks[i])))
  }

  /** GROUP BY: one total per key that occurs. */
  function Totals(lines: seq<Named>): seq<CategoryTotal> {
    TotalsFor(lines, StableSorted(KeysIn(lines), KeyBefore))
  }

  function SumTotals(ts: seq<CategoryTotal>): int {
    if ts == [] then 0 else SumTotals(ts[..|ts| - 1]) + ts[|ts| - 1].total
  }

  function SumCounts(ts: seq<CategoryTotal>): nat {
    if ts == [] then 0 else SumCounts(ts[..|ts| - 1]) + ts[|ts| - 1].count
  }

  ghost predicate Unique<T>(s: seq<T>) { forall i, j :: 0 <= i < j < |s| ==> s[i] != s[j] }

  lemma {:induction false} KeysInAre(lines: seq<Named>)
    ensures Unique(KeysIn(lines))
    ensures forall k :: k in KeysIn(lines) <==> Mentions(lines, KeyOf, k)
  {
    if lines != [] {
      KeysInAre(lines[..|lines| - 1]);
      forall k ensures k in KeysIn(lines) <==> Mentions(lines, KeyOf, k) {
        MentionsPrefix(lines, KeyOf, k);
      }
    }
  }

  lemma {:induction false} NoLines(ks: seq<TotalKey>)
    ensures SumTotals(TotalsFor([], ks)) == 0 && SumCounts(TotalsFor([], ks)) == 0
  {
    if ks != [] {
      NoLines(ks[..|ks| - 1]);
      DropLast([], ks);
    }
  }

  lemma {:induction false} DropLast(lines: seq<Named>, ks: seq<TotalKey>)
    requires ks != []
    ensures var ts, k := TotalsFor(lines, ks), ks[|ks| - 1];
            && ts[..|ts| - 1] == TotalsFor(lines, ks[..|ks| - 1])
            && ts[|ts| - 1] == CategoryTotal(k, SumFor(lines, k), CountFor(lines, k))
  {
  }

  /** One more line adds its amount to the one total with its key. */
  lemma {:induction false} OneMoreLine(lines: seq<Named>, n: Named, ks: seq<TotalKey>)
    requires Unique(ks)
    ensures SumTotals(TotalsFor(lines + [n], ks)) ==
            SumTotals(TotalsFor(lines, ks)) + if KeyOf(n) in ks then n.line.amount else 0
    ensures SumCounts(TotalsFor(lines + [n], ks)) == SumCounts(TotalsFor(lines, ks)) + if KeyOf(n) in ks then 1 else 0
  {
    assert (lines + [n])[..|lines|] == lines;
    if ks != [] {
      var init, k := ks[..|ks| - 1], ks[|ks| - 1];
      OneMoreLine(lines, n, init);
      DropLast(lines, ks);
      DropLast(lines + [n], ks);
      assert KeyOf(n) in ks <==> KeyOf(n) in init || KeyOf(n) == k;
    }
  }

  lemma {:induction false} KeysPartition(lines: seq<Named>, ks: seq<TotalKey>)
    requires Unique(ks) && forall i :: 0 <= i < |lines| ==> KeyOf(lines[i]) in ks
    ensures SumTotals(TotalsFor(lines, ks)) == Sum(lines) && SumCounts(TotalsFor(lines, ks)) == |lines|
  {
    if lines == [] {
      NoLines(ks);
    } else {
      var init, n := lines[..|lines| - 1], lines[|lines| - 1];
      assert forall i :: 0 <= i < |init| ==> init[i] == lines[i];
      KeysPartition(init, ks);
      OneMoreLine(init, n, ks);
      assert lines == init + [n];
    }
  }

  lemma {:induction false} CountPositive(lines: seq<Named>, k: TotalKey)
    ensures CountFor(lines, k) >= 1 <==> Mentions(lines, KeyOf, k)
  {
    if lines != [] {
      var init := lines[..|lines| - 1];
      CountPositive(init, k);
      assert forall i :: 0 <= i < |init| ==> init[i] == lines[i];
    }
  }

  lemma {:induction false} KeyBeforeOrder()
    ensures StrictTotal(KeyBefore)
  {
    TextOrder();
    forall a: TotalKey, b: TotalKey | a != b ensures KeyBefore(a, b) || KeyBefore(b, a) {
      assert a.group != b.group || a.name != b.name || a.categoryId != b.categoryId;
    }
    forall a, b, c | KeyBefore(a, b) && KeyBefore(b, c) ensures KeyBefore(a, c) {
      assert TextLess(a.group, b.group) && TextLess(b.group, c.group) ==> TextLess(a.group, c.group);
    }
  }

  /** CategoryTotals partitions the lines: sums and counts add up. */
  lemma {:induction false} TotalsPartition(lines: seq<Named>)
    ensures SumTotals(Totals(lines)) == Sum(lines) && SumCounts(Totals(lines)) == |lines|
  {
    KeysAreSorted(lines);
    KeysPartition(lines, StableSorted(KeysIn(lines), KeyBefore));
  }

  ghost predicate HasTotal(ts: seq<CategoryTotal>, k: TotalKey) { exists i :: 0 <= i < |ts| && ts[i].key == k }

  /** Each key that occurs has exactly one total, of exactly its lines; the totals are ordered by key. */
  lemma {:induction false} TotalsAre(lines: seq<Named>, ks: seq<TotalKey>)
    requires ks == StableSorted(KeysIn(lines), KeyBefore)
    ensures forall k :: HasTotal(TotalsFor(lines, ks), k) <==> Mentions(lines, KeyOf, k)
    ensures forall t :: t in TotalsFor(lines, ks) ==>
              t.count >= 1 && t.total == SumFor(lines, t.key) && t.count == CountFor(lines, t.key)
    ensures forall i, j :: 0 <= i < j < |ks| ==> KeyBefore(TotalsFor(lines, ks)[i].key, TotalsFor(lines, ks)[j].key)
  {
    KeysAreSorted(lines);
    TotalsHaveKeys(lines, ks);
    forall t | t in TotalsFor(lines, ks) ensures t.count >= 1 {
      CountPositive(lines, t.key);
      assert t.key in ks;
    }
  }

  lemma {:induction false} TotalsHaveKeys(lines: seq<Named>, ks: seq<TotalKey>)
    ensures forall k :: HasTotal(TotalsFor(lines, ks), k) <==> k in ks
  {
    forall k | k in ks ensures HasTotal(TotalsFor(lines, ks), k) {
      var i :| 0 <= i < |ks| && ks[i] == k;
      assert TotalsFor(lines, ks)[i].key == k;
    }
  }

  lemma {:induction false} KeysAreSorted(lines: seq<Named>)
    ensures var ks := StableSorted(KeysIn(lines), KeyBefore);
            && Ascending(ks, KeyBefore) && Unique(ks)
            && (forall k :: k in ks <==> Mentions(lines, KeyOf, k))
  {
    KeysInAre(lines);
    KeyBeforeOrder();
    SortedAscends(KeysIn(lines), KeyBefore);
    SortedKeeps(KeysIn(lines), KeyBefore);
  }
}
