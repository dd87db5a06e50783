/** Strict total orders, sorted sequences of sets, and SQLite's BINARY order on text. */
module Ordering {
  ghost predicate StrictTotal<T(!new)>(less: (T, T) -> bool) {
    && (forall a :: !less(a, a))
    && (forall a, b, c :: less(a, b) && less(b, c) ==> less(a, c))
    && (forall a, b :: a != b ==> less(a, b) || less(b, a))
  }

  /** Enough for two ascending arrangements of the same elements to agree. */
  ghost predicate StrictOrder<T(!new)>(less: (T, T) -> bool) {
    && (forall a :: !less(a, a))
    && (forall a, b, c :: less(a, b) && less(b, c) ==> less(a, c))
  }

  ghost predicate Ascending<T>(s: seq<T>, less: (T, T) -> bool) {
    forall i, j :: 0 <= i < j < |s| ==> less(s[i], s[j])
  }

  ghost predicate IsSorting<T(!new)>(s: seq<T>, xs: set<T>, less: (T, T) -> bool) {
    Ascending(s, less) && forall x :: x in s <==> x in xs
  }

  ghost predicate IsLeast<T(!new)>(m: T, xs: set<T>, less: (T, T) -> bool) {
    m in xs && forall x :: x in xs && x != m ==> less(m, x)
  }

  lemma {:induction false} LeastExists<T(!new)>(xs: set<T>, less: (T, T) -> bool)
    requires xs != {} && StrictTotal(less)
    ensures exists m :: IsLeast(m, xs, less)
  {
    var m :| m in xs;
    if xs != {m} {
      LeastExists(xs - {m}, less);
      var k :| IsLeast(k, xs - {m}, less);
      var first := if less(k, m) then k else m;
      forall x | x in xs && x != first ensures less(first, x) {
        assert x != m ==> x in xs - {m};
      }
      assert IsLeast(first, xs, less);
    } else {
      assert IsLeast(m, xs, less);
    }
  }

  /** ORDER BY: the elements of a set in ascending order. */
  ghost function Sorted<T(!new)>(xs: set<T>, less: (T, T) -> bool): (s: seq<T>)
    requires StrictTotal(less)
    ensures IsSorting(s, xs, less)
    ensures |s| == |xs|
  {
    if xs == {} then []
    else
      LeastExists(xs, less);
      var m :| IsLeast(m, xs, less);
      [m] + Sorted(xs - {m}, less)
  }

  /** There is only one ascending sequence of the same elements. */
  lemma {:induction false} SortingUnique<T(!new)>(a: seq<T>, b: seq<T>, less: (T, T) -> bool)
    requires StrictOrder(less) && Ascending(a, less) && Ascending(b, less)
    requires forall x :: x in a <==> x in b
    ensures a == b
  {
    if a == [] {
      NonEmptyHas(b);
    } else {
      assert a[0] in a;
      assert b != [];
      assert b[0] in b;
      HeadsAgree(a, b, less);
      forall x ensures x in a[1..] <==> x in b[1..] {
        TailMember(a, less, x);
        TailMember(b, less, x);
      }
      SortingUnique(a[1..], b[1..], less);
      assert a == [a[0]] + a[1..] && b == [b[0]] + b[1..];
    }
  }

  lemma {:induction false} HeadsAgree<T(!new)>(a: seq<T>, b: seq<T>, less: (T, T) -> bool)
    requires StrictOrder(less) && Ascending(a, less) && Ascending(b, less)
    requires a != [] && b != [] && a[0] in b && b[0] in a
    ensures a[0] == b[0]
  {
    var i :| 0 <= i < |b| && b[i] == a[0];
    var j :| 0 <= j < |a| && a[j] == b[0];
    FirstIsLeast(b, less, i);
    FirstIsLeast(a, less, j);
  }

  lemma {:induction false} FirstIsLeast<T>(a: seq<T>, less: (T, T) -> bool, i: nat)
    requires Ascending(a, less) && i < |a|
    ensures a[i] == a[0] || less(a[0], a[i])
  {
  }

  lemma {:induction false} NonEmptyHas<T(!new)>(a: seq<T>)
    ensures a != [] ==> exists x :: x in a
  {
    if a != [] { assert a[0] in a; }
  }

  lemma {:induction false} TailMember<T(!new)>(a: seq<T>, less: (T, T) -> bool, x: T)
    requires StrictOrder(less) && Ascending(a, less) && a != []
    ensures x in a[1..] <==> x in a && x != a[0]
  {
    if x in a[1..] {
      var i :| 0 <= i < |a[1..]| && a[1..][i] == x;
      assert less(a[0], a[i + 1]);
    }
    if x in a && x != a[0] {
      var i :| 0 <= i < |a| && a[i] == x;
      assert a[1..][i - 1] == x;
    }
  }

  // ---- Stable sorting

  /** x goes after every element that is not greater. */
  function Inserted<T>(s: seq<T>, x: T, less: (T, T) -> bool): seq<T> {
    if s != [] && less(x, s[|s| - 1]) then Inserted(s[..|s| - 1], x, less) + [s[|s| - 1]] else s + [x]
  }

  function StableSorted<T>(s: seq<T>, less: (T, T) -> bool): seq<T> {
    if s == [] then [] else Inserted(StableSorted(s[..|s| - 1], less), s[|s| - 1], less)
  }

  lemma {:induction false} MultisetSnoc<T>(s: seq<T>)
    requires s != []
    ensures multiset(s) == multiset(s[..|s| - 1]) + multiset{s[|s| - 1]}
  {
    assert s == s[..|s| - 1] + [s[|s| - 1]];
  }

  lemma {:induction false} InsertedKeeps<T>(s: seq<T>, x: T, less: (T, T) -> bool)
    ensures multiset(Inserted(s, x, less)) == multiset(s) + multiset{x}
  {
    if s != [] && less(x, s[|s| - 1]) {
      InsertedKeeps(s[..|s| - 1], x, less);
      MultisetSnoc(s);
    }
  }

  lemma {:induction false} SortedPermutes<T>(s: seq<T>, less: (T, T) -> bool)
    ensures multiset(StableSorted(s, less)) == multiset(s)
  {
    if s != [] {
      var init, x := s[..|s| - 1], s[|s| - 1];
      SortedPermutes(init, less);
      var r := StableSorted(init, less);
      InsertedKeeps(r, x, less);
      MultisetSnoc(s);
    }
  }

  lemma {:induction false} SortedKeeps<T>(s: seq<T>, less: (T, T) -> bool)
    ensures |StableSorted(s, less)| == |s|
    ensures forall x :: x in StableSorted(s, less) <==> x in s
  {
    SortedPermutes(s, less);
    var r := StableSorted(s, less);
    assert |multiset(r)| == |multiset(s)|;
    forall x ensures x in r <==> x in s {
      assert x in multiset(r) <==> x in multiset(s);
    }
  }

  lemma {:induction false} InsertedAscends<T(!new)>(s: seq<T>, x: T, less: (T, T) -> bool)
    requires StrictOrder(less) && Ascending(s, less)
    requires forall y :: y in s ==> less(x, y) || less(y, x)
    ensures Ascending(Inserted(s, x, less), less)
  {
    if s != [] && less(x, s[|s| - 1]) {
      var init, last := s[..|s| - 1], s[|s| - 1];
      InsertedAscends(init, x, less);
      InsertedKeeps(init, x, less);
      var r := Inserted(init, x, less);
      forall i | 0 <= i < |r| ensures less(r[i], last) {
        assert r[i] in multiset(r);
        if r[i] != x {
          assert r[i] in multiset(init);
          var k :| 0 <= k < |init| && init[k] == r[i];
          assert less(s[k], s[|s| - 1]);
        }
      }
    } else if s != [] {
      var last := s[|s| - 1];
      assert last in s && less(last, x);
      forall i | 0 <= i < |s| ensures less(s[i], x) {
        assert i < |s| - 1 ==> less(s[i], last);
      }
    }
  }

  /** Elements that all compare come out strictly ascending. */
  lemma {:induction false} SortedAscends<T(!new)>(s: seq<T>, less: (T, T) -> bool)
    requires StrictOrder(less)
    requires forall i, j :: 0 <= i < j < |s| ==> less(s[i], s[j]) || less(s[j], s[i])
    ensures Ascending(StableSorted(s, less), less)
  {
    if s != [] {
      var init, x := s[..|s| - 1], s[|s| - 1];
      SortedAscends(init, less);
      SortedKeeps(init, less);
      forall y | y in StableSorted(init, less) ensures less(x, y) || less(y, x) {
        var i :| 0 <= i < |init| && init[i] == y;
        assert less(s[i], s[|s| - 1]) || less(s[|s| - 1], s[i]);
      }
      InsertedAscends(StableSorted(init, less), x, less);
    }
  }

  /** Ties are allowed, and being tied is transitive. */
  ghost predicate StrictWeak<T(!new)>(less: (T, T) -> bool) {
    StrictOrder(less) && forall a, b, c :: less(a, c) ==> less(a, b) || less(b, c)
  }

  ghost predicate NoInversion<T>(s: seq<T>, less: (T, T) -> bool) {
    forall i, j :: 0 <= i < j < |s| ==> !less(s[j], s[i])
  }

  lemma {:induction false} InsertedInOrder<T(!new)>(s: seq<T>, x: T, less: (T, T) -> bool)
    requires StrictWeak(less) && NoInversion(s, less)
    ensures NoInversion(Inserted(s, x, less), less)
  {
    if s != [] && less(x, s[|s| - 1]) {
      var init, last := s[..|s| - 1], s[|s| - 1];
      InsertedInOrder(init, x, less);
      InsertedKeeps(init, x, less);
      var r := Inserted(init, x, less);
      forall i | 0 <= i < |r| ensures !less(last, r[i]) {
        assert r[i] in multiset(r);
        if r[i] != x {
          assert r[i] in multiset(init);
          var k :| 0 <= k < |init| && init[k] == r[i];
          assert !less(s[|s| - 1], s[k]);
        }
      }
    } else if s != [] {
      var last := s[|s| - 1];
      forall i | 0 <= i < |s| ensures !less(x, s[i]) {
        assert i < |s| - 1 ==> !less(last, s[i]);
      }
    }
  }

  /** Nothing comes after something greater. */
  lemma {:induction false} SortedInOrder<T(!new)>(s: seq<T>, less: (T, T) -> bool)
    requires StrictWeak(less)
    ensures NoInversion(StableSorted(s, less), less)
  {
    if s != [] {
      SortedInOrder(s[..|s| - 1], less);
      InsertedInOrder(StableSorted(s[..|s| - 1], less), s[|s| - 1], less);
    }
  }

  // ---- Text

  predicate TextLess(a: string, b: string) {
    if b == [] then false
    else if a == [] then true
    else a[0] < b[0] || (a[0] == b[0] && TextLess(a[1..], b[1..]))
  }

  /** a and b agree up to n, where a ends or has the smaller character. */
  ghost predicate SmallerAt(a: string, b: string, n: nat) {
    n <= |a| && n < |b| && a[..n] == b[..n] && (n == |a| || a[n] < b[n])
  }

  lemma {:induction false} TextLessIff(a: string, b: string)
    ensures TextLess(a, b) <==> exists n: nat :: SmallerAt(a, b, n)
  {
    if a != [] && b != [] && a[0] == b[0] {
      TextLessIff(a[1..], b[1..]);
      forall n: nat ensures SmallerAt(a, b, n + 1) <==> SmallerAt(a[1..], b[1..], n) { SmallerShifts(a, b, n); }
      if exists n: nat :: SmallerAt(a, b, n) {
        var n: nat :| SmallerAt(a, b, n);
        assert n > 0 && SmallerAt(a[1..], b[1..], n - 1);
      }
      if exists n: nat :: SmallerAt(a[1..], b[1..], n) {
        var n: nat :| SmallerAt(a[1..], b[1..], n);
        assert SmallerAt(a, b, n + 1);
      }
    } else {
      forall n: nat | SmallerAt(a, b, n) ensures n == 0 { SmallerAtStart(a, b, n); }
      assert SmallerAt(a, b, 0) <==> TextLess(a, b);
    }
  }

  lemma {:induction false} SmallerShifts(a: string, b: string, n: nat)
    requires a != [] && b != [] && a[0] == b[0]
    ensures SmallerAt(a, b, n + 1) <==> SmallerAt(a[1..], b[1..], n)
  {
    if n < |a| && n + 1 < |b| {
      var x, y := a[1..][..n], b[1..][..n];
      assert a[..n + 1] == [a[0]] + x && b[..n + 1] == [b[0]] + y;
      assert a[..n + 1][1..] == x && b[..n + 1][1..] == y;
    }
  }

  lemma {:induction false} SmallerAtStart(a: string, b: string, n: nat)
    requires SmallerAt(a, b, n)
    ensures n == 0 || (a != [] && b != [] && a[0] == b[0])
  {
    if n > 0 { assert a[0] == a[..n][0] && b[0] == b[..n][0]; }
  }

  lemma {:induction false} TextIrreflexive(a: string)
    ensures !TextLess(a, a)
  {
    if a != [] { TextIrreflexive(a[1..]); }
  }

  lemma {:induction false} TextTransitive(a: string, b: string, c: string)
    requires TextLess(a, b) && TextLess(b, c)
    ensures TextLess(a, c)
  {
    if a != [] && a[0] == b[0] == c[0] { TextTransitive(a[1..], b[1..], c[1..]); }
  }

  lemma {:induction false} TextTotal(a: string, b: string)
    requires a != b
    ensures TextLess(a, b) || TextLess(b, a)
  {
    if a != [] && b != [] && a[0] == b[0] {
      assert a == [a[0]] + a[1..] && b == [b[0]] + b[1..];
      TextTotal(a[1..], b[1..]);
    }
  }

  lemma {:induction false} TextAsymmetric(a: string, b: string)
    requires TextLess(a, b)
    ensures !TextLess(b, a)
  {
    TextIrreflexive(a);
    if TextLess(b, a) {
      TextTransitive(a, b, a);
      assert false;
    }
  }

  lemma {:induction false} TextNotLess(a: string, b: string)
    ensures !TextLess(a, b) <==> a == b || TextLess(b, a)
  {
    if a == b {
      TextIrreflexive(a);
    } else {
      TextTotal(a, b);
      if TextLess(b, a) { TextAsymmetric(b, a); }
    }
  }

  lemma {:induction false} TextOrder()
    ensures StrictTotal(TextLess)
  {
    forall a ensures !TextLess(a, a) { TextIrreflexive(a); }
    forall a, b, c | TextLess(a, b) && TextLess(b, c) ensures TextLess(a, c) { TextTransitive(a, b, c); }
    forall a, b | a != b ensures TextLess(a, b) || TextLess(b, a) { TextTotal(a, b); }
  }

  predicate TextGreater(a: string, b: string) { TextLess(b, a) }

  lemma {:induction false} TextGreaterOrder()
    ensures StrictTotal(TextGreater)
  {
    forall a ensures !TextGreater(a, a) { TextIrreflexive(a); }
    forall a, b, c | TextGreater(a, b) && TextGreater(b, c) ensures TextGreater(a, c) { TextTransitive(c, b, a); }
    forall a, b | a != b ensures TextGreater(a, b) || TextGreater(b, a) { TextTotal(a, b); }
  }
}
