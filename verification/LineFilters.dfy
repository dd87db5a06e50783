/** Selecting lines: what a filter means, and the SQL conditions that implement it. */
module LineFilters {
  import opened Prelude
  import opened Mirror
  import opened Ordering
  import opened Lines

  // ---- Text comparison in any case

  /** SQLite's lower() and LIKE fold ASCII letters only. */
  function Fold(c: char): char {
    if 'A' <= c <= 'Z' then c - 'A' + 'a' else c
  }

  function Lower(s: string): string {
    seq(|s|, i requires 0 <= i < |s| => Fold(s[i]))
  }

  /** x LIKE pattern ESCAPE '\': % is any run, _ any character, \ makes the next character literal. */
  predicate Like(pattern: string, x: string)
    decreases |pattern|, |x|
  {
    if pattern == [] then x == []
    else if pattern[0] == '%' then Like(pattern[1..], x) || (x != [] && Like(pattern, x[1..]))
    else if pattern[0] == '_' then x != [] && Like(pattern[1..], x[1..])
    else if pattern[0] == '\\' then
      |pattern| > 1 && x != [] && Fold(pattern[1]) == Fold(x[0]) && Like(pattern[2..], x[1..])
    else x != [] && Fold(pattern[0]) == Fold(x[0]) && Like(pattern[1..], x[1..])
  }

  predicate IsWild(c: char) { c == '\\' || c == '%' || c == '_' }

  /** escapeLike */
  function Escaped(t: string): string {
    if t == [] then [] else (if IsWild(t[0]) then ['\\', t[0]] else [t[0]]) + Escaped(t[1..])
  }

  function Pattern(text: string): string { "%" + Escaped(Lower(text)) + "%" }

  /** t occurs in x at some position, in any case. */
  ghost predicate Occurs(t: string, x: string) {
    exists k :: OccursAt(t, x, k)
  }

  predicate OccursAt(t: string, x: string, k: int) {
    0 <= k <= |x| - |t| && forall i :: 0 <= i < |t| ==> Fold(x[k + i]) == Fold(t[i])
  }

  lemma {:induction false} OccursHere(t: string, x: string)
    requires t != [] && x != []
    ensures OccursAt(t, x, 0) <==> Fold(t[0]) == Fold(x[0]) && OccursAt(t[1..], x[1..], 0)
  {
    if OccursAt(t, x, 0) {
      forall i | 0 <= i < |t| - 1 ensures Fold(x[1..][0 + i]) == Fold(t[1..][i]) {
        assert Fold(x[0 + (i + 1)]) == Fold(t[i + 1]);
      }
      assert Fold(x[0 + 0]) == Fold(t[0]);
    }
    if Fold(t[0]) == Fold(x[0]) && OccursAt(t[1..], x[1..], 0) {
      forall i | 0 <= i < |t| ensures Fold(x[0 + i]) == Fold(t[i]) {
        assert i > 0 ==> Fold(x[1..][0 + (i - 1)]) == Fold(t[1..][i - 1]);
      }
    }
  }

  /** One pattern element for a literal character. */
  lemma {:induction false} LiteralStep(c: char, rest: string, x: string)
    ensures Like((if IsWild(c) then ['\\', c] else [c]) + rest, x) <==>
            x != [] && Fold(c) == Fold(x[0]) && Like(rest, x[1..])
  {
    var p := (if IsWild(c) then ['\\', c] else [c]) + rest;
    if IsWild(c) {
      assert p[2..] == rest;
    } else {
      assert p[1..] == rest;
    }
  }

  /** Escaped text matches itself and nothing else. */
  lemma {:induction false} EscapedIsLiteral(t: string, rest: string, x: string)
    ensures Like(Escaped(t) + rest, x) <==> OccursAt(t, x, 0) && Like(rest, x[|t|..])
  {
    if t == [] {
      assert Escaped(t) + rest == rest && x[0..] == x;
    } else {
      var tail := Escaped(t[1..]) + rest;
      assert Escaped(t) + rest == (if IsWild(t[0]) then ['\\', t[0]] else [t[0]]) + tail;
      LiteralStep(t[0], tail, x);
      if x != [] {
        EscapedIsLiteral(t[1..], rest, x[1..]);
        OccursHere(t, x);
        assert |t| <= |x| ==> x[1..][|t| - 1..] == x[|t|..];
      }
    }
  }

  lemma {:induction false} PercentMatchesAll(x: string)
    ensures Like("%", x)
  {
    if x == [] {
      assert "%"[1..] == "";
    } else {
      PercentMatchesAll(x[1..]);
    }
  }

  lemma {:induction false} PatternFinds(t: string, x: string)
    ensures Like("%" + (Escaped(t) + "%"), x) <==> Occurs(t, x)
  {
    var p := "%" + (Escaped(t) + "%");
    assert p[1..] == Escaped(t) + "%";
    EscapedIsLiteral(t, "%", x);
    if |t| <= |x| { PercentMatchesAll(x[|t|..]); }
    if x != [] {
      PatternFinds(t, x[1..]);
      forall k ensures OccursAt(t, x, k) <==> (k == 0 && OccursAt(t, x, 0)) || OccursAt(t, x[1..], k - 1) {
        if OccursAt(t, x, k) && k > 0 {
          forall i | 0 <= i < |t| ensures Fold(x[1..][k - 1 + i]) == Fold(t[i]) {
            assert Fold(x[k + i]) == Fold(t[i]);
          }
        }
        if OccursAt(t, x[1..], k - 1) {
          forall i | 0 <= i < |t| ensures Fold(x[k + i]) == Fold(t[i]) {
            assert Fold(x[1..][k - 1 + i]) == Fold(t[i]);
          }
        }
      }
      if Occurs(t, x[1..]) {
        var k :| OccursAt(t, x[1..], k);
        assert OccursAt(t, x[1..], (k + 1) - 1) && OccursAt(t, x, k + 1);
      }
    }
  }

  /** The payee condition finds exactly the names that contain the text, whatever wildcards the text contains. */
  lemma {:induction false} PatternIsSubstring(text: string, name: string)
    ensures Like(Pattern(text), Lower(name)) <==> Occurs(text, name)
  {
    PatternFinds(Lower(text), Lower(name));
    assert Pattern(text) == "%" + (Escaped(Lower(text)) + "%");
    forall k ensures OccursAt(Lower(text), Lower(name), k) <==> OccursAt(text, name, k) {
      if OccursAt(Lower(text), Lower(name), k) {
        forall i | 0 <= i < |text| ensures Fold(name[k + i]) == Fold(text[i]) {
          assert Fold(Lower(name)[k + i]) == Fold(Lower(text)[i]);
        }
      }
    }
  }

  // ---- Filters

  /** Empty and absent fields don't filter. */
  datatype LineFilter = LineFilter(start: string, end: string, account: string, category: string, payeeText: string,
                                   min: Option<int>, max: Option<int>, approved: Option<bool>)

  /** An id, or a name in any case. */
  predicate Called(arg: string, id: Option<Id>, name: Option<string>) {
    id == Some(arg) || (name.Some? && Lower(name.value) == Lower(arg))
  }

  function AccountName(n: Named): Option<string> { if n.account.Some? then Some(n.account.value.name) else None }
  function CategoryName(n: Named): Option<string> { if n.category.Some? then Some(n.category.value.name) else None }
  function PayeeName(n: Named): Option<string> { if n.payee.Some? then Some(n.payee.value.name) else None }

  ghost predicate Mentioning(text: string, name: Option<string>) { name.Some? && Occurs(text, name.value) }

  /** What a filter promises. */
  ghost predicate Matches(f: LineFilter, n: Named) {
    && (f.start != "" ==> !TextLess(n.line.date, f.start))
    && (f.end != "" ==> !TextLess(f.end, n.line.date))
    && (f.account != "" ==> Called(f.account, Some(n.line.accountId), AccountName(n)))
    && (f.category != "" ==> Called(f.category, n.line.categoryId, CategoryName(n)))
    && (f.payeeText != "" ==> Mentioning(f.payeeText, PayeeName(n)) || Mentioning(f.payeeText, n.line.importPayee))
    && (f.min.Some? ==> n.line.amount >= f.min.value)
    && (f.max.Some? ==> n.line.amount <= f.max.value)
    && (f.approved.Some? ==> n.line.approved == f.approved.value)
  }

  // ---- The promise in plain terms

  /** The same character, or the same ASCII letter in another case. */
  predicate SameChar(a: char, b: char) {
    || a == b
    || ('A' <= a <= 'Z' && b as int == a as int + 32)
    || ('A' <= b <= 'Z' && a as int == b as int + 32)
  }

  predicate SameText(s: string, t: string) { |s| == |t| && forall i :: 0 <= i < |s| ==> SameChar(s[i], t[i]) }

  predicate ContainsAt(x: string, t: string, k: int) {
    0 <= k <= |x| - |t| && forall i :: 0 <= i < |t| ==> SameChar(x[k + i], t[i])
  }

  ghost predicate Contains(x: string, t: string) { exists k :: ContainsAt(x, t, k) }

  /** From start to end, both included; an account or a category by its id or its name; a text within the payee's name
      or the imported payee; amounts from min to max, both included; the approval. Empty fields do not count. */
  ghost predicate Promised(f: LineFilter, n: Named) {
    && (f.start == "" || n.line.date == f.start || TextLess(f.start, n.line.date))
    && (f.end == "" || n.line.date == f.end || TextLess(n.line.date, f.end))
    && (f.account == "" || n.line.accountId == f.account
        || (n.account.Some? && SameText(n.account.value.name, f.account)))
    && (f.category == "" || n.line.categoryId == Some(f.category)
        || (n.category.Some? && SameText(n.category.value.name, f.category)))
    && (f.payeeText == "" || (n.payee.Some? && Contains(n.payee.value.name, f.payeeText))
        || (n.line.importPayee.Some? && Contains(n.line.importPayee.value, f.payeeText)))
    && (f.min.None? || f.min.value <= n.line.amount) && (f.max.None? || n.line.amount <= f.max.value)
    && (f.approved.None? || f.approved.value == n.line.approved)
  }

  lemma {:induction false} SameCharIff(a: char, b: char)
    ensures Fold(a) == Fold(b) <==> SameChar(a, b)
  {
  }

  lemma {:induction false} SameTextIff(s: string, t: string)
    ensures Lower(s) == Lower(t) <==> SameText(s, t)
  {
    if Lower(s) == Lower(t) {
      forall i | 0 <= i < |s| ensures |s| == |t| && SameChar(s[i], t[i]) {
        assert |s| == |Lower(s)| == |t| && Lower(s)[i] == Lower(t)[i];
        SameCharIff(s[i], t[i]);
      }
      assert |s| == |Lower(s)| == |Lower(t)| == |t|;
    }
    if SameText(s, t) {
      forall i | 0 <= i < |s| ensures Lower(s)[i] == Lower(t)[i] { SameCharIff(s[i], t[i]); }
    }
  }

  lemma {:induction false} ContainsIff(t: string, x: string)
    ensures Occurs(t, x) <==> Contains(x, t)
  {
    forall k ensures OccursAt(t, x, k) <==> ContainsAt(x, t, k) {
      if 0 <= k <= |x| - |t| {
        forall i | 0 <= i < |t| ensures Fold(x[k + i]) == Fold(t[i]) <==> SameChar(x[k + i], t[i]) {
          SameCharIff(x[k + i], t[i]);
        }
      }
    }
  }

  /** A filter selects exactly what it promises. */
  lemma {:induction false} MatchesIff(f: LineFilter, n: Named)
    ensures Matches(f, n) <==> Promised(f, n)
  {
    TextNotLess(n.line.date, f.start);
    TextNotLess(f.end, n.line.date);
    if n.account.Some? { SameTextIff(n.account.value.name, f.account); }
    if n.category.Some? { SameTextIff(n.category.value.name, f.category); }
    if n.payee.Some? { ContainsIff(f.payeeText, n.payee.value.name); }
    if n.line.importPayee.Some? { ContainsIff(f.payeeText, n.line.importPayee.value); }
  }

  // ---- The conditions

  /** The SQL conditions. A comparison with NULL is not true. */
  datatype Cond =
    | DateFrom(date: string)
    | DateTo(date: string)
    | AccountIs(arg: string)
    | CategoryIs(arg: string)
    | PayeeLike(pattern: string)
    | AmountFrom(amount: int)
    | AmountTo(amount: int)
    | ApprovedIs(approved: bool)

  predicate Holds(c: Cond, n: Named) {
    match c
    case DateFrom(d) => !TextLess(n.line.date, d)
    case DateTo(d) => !TextLess(d, n.line.date)
    case AccountIs(arg) => Called(arg, Some(n.line.accountId), AccountName(n))
    case CategoryIs(arg) => Called(arg, n.line.categoryId, CategoryName(n))
    case PayeeLike(p) => NameLike(p, PayeeName(n)) || NameLike(p, n.line.importPayee)
    case AmountFrom(m) => n.line.amount >= m
    case AmountTo(m) => n.line.amount <= m
    case ApprovedIs(b) => n.line.approved == b
  }

  predicate NameLike(pattern: string, name: Option<string>) { name.Some? && Like(pattern, Lower(name.value)) }

  predicate AllHold(conds: seq<Cond>, n: Named) { forall i :: 0 <= i < |conds| ==> Holds(conds[i], n) }

  lemma {:induction false} PayeeLikeMeans(text: string, name: Option<string>)
    ensures NameLike(Pattern(text), name) <==> Mentioning(text, name)
  {
    if name.Some? { PatternIsSubstring(text, name.value); }
  }

  function Add(conds: seq<Cond>, c: Cond): (r: seq<Cond>)
    ensures forall n :: AllHold(r, n) <==> AllHold(conds, n) && Holds(c, n)
  {
    var r := conds + [c];
    assert forall n :: AllHold(r, n) ==> AllHold(conds, n) && Holds(c, n) by {
      assert r[|conds|] == c && forall i :: 0 <= i < |conds| ==> r[i] == conds[i];
    }
    r
  }

  /** A condition that is only added when its field is set. */
  function Wanted(f: LineFilter, i: nat): Option<Cond> {
    match i
    case 0 => if f.start != "" then Some(DateFrom(f.start)) else None
    case 1 => if f.end != "" then Some(DateTo(f.end)) else None
    case 2 => if f.account != "" then Some(AccountIs(f.account)) else None
    case 3 => if f.category != "" then Some(CategoryIs(f.category)) else None
    case 4 => if f.payeeText != "" then Some(PayeeLike(Pattern(f.payeeText))) else None
    case 5 => if f.min.Some? then Some(AmountFrom(f.min.value)) else None
    case 6 => if f.max.Some? then Some(AmountTo(f.max.value)) else None
    case _ => if f.approved.Some? then Some(ApprovedIs(f.approved.value)) else None
  }

  predicate HoldsIf(c: Option<Cond>, n: Named) { c.Some? ==> Holds(c.value, n) }

  lemma {:induction false} WantedMeans(f: LineFilter, n: Named)
    ensures (forall i | 0 <= i < 8 :: HoldsIf(Wanted(f, i), n)) <==> Matches(f, n)
  {
    PayeeLikeMeans(f.payeeText, PayeeName(n));
    PayeeLikeMeans(f.payeeText, n.line.importPayee);
    if Matches(f, n) {
      forall i | 0 <= i < 8 ensures HoldsIf(Wanted(f, i), n) {
      }
    }
    if forall i | 0 <= i < 8 :: HoldsIf(Wanted(f, i), n) {
      assert HoldsIf(Wanted(f, 0), n) && HoldsIf(Wanted(f, 1), n);
      assert HoldsIf(Wanted(f, 2), n) && HoldsIf(Wanted(f, 3), n);
      assert HoldsIf(Wanted(f, 4), n) && HoldsIf(Wanted(f, 5), n);
      assert HoldsIf(Wanted(f, 6), n) && HoldsIf(Wanted(f, 7), n);
    }
  }

  /** Builds the conditions one by one; together they select exactly what the filter promises. */
  method Where(f: LineFilter) returns (conds: seq<Cond>)
    ensures forall n :: AllHold(conds, n) <==> Matches(f, n)
  {
    conds := [];
    for i := 0 to 8
      invariant forall n :: AllHold(conds, n) <==> forall j | 0 <= j < i :: HoldsIf(Wanted(f, j), n)
    {
      if Wanted(f, i).Some? {
        conds := Add(conds, Wanted(f, i).value);
      }
    }
    forall n ensures AllHold(conds, n) <==> Matches(f, n) {
      WantedMeans(f, n);
    }
  }
}
