/** Keyset paging over any ordered view: following the last key of each page returns every staying row exactly once. */
module Keyset {
  import opened Prelude
  import opened Ordering

  function Take<T>(s: seq<T>, n: nat): seq<T> { if n < |s| then s[..n] else s }

  predicate Follows<K>(less: (K, K) -> bool, after: Option<K>, k: K) { after.Some? ==> less(after.value, k) }

  ghost predicate AscendingBy<T, K>(rows: seq<T>, key: T -> K, less: (K, K) -> bool) {
    forall i, j :: 0 <= i < j < |rows| ==> less(key(rows[i]), key(rows[j]))
  }

  /** A view maps a cursor to the rows after it, in order. */
  ghost predicate IsView<T(!new), K(!new)>(view: Option<K> -> seq<T>, key: T -> K, less: (K, K) -> bool) {
    && (forall after :: AscendingBy(view(after), key, less))
    && (forall after, x :: x in view(after) <==> x in view(None) && Follows(less, after, key(x)))
  }

  /** One page request: the view at that moment, and the page size. */
  datatype Visit<!T, !K> = Visit(view: Option<K> -> seq<T>, size: nat)

  datatype Position<K> = At(after: Option<K>) | Ended

  ghost predicate Good<T(!new), K(!new)>(vs: seq<Visit<T, K>>, key: T -> K, less: (K, K) -> bool) {
    forall i :: 0 <= i < |vs| ==> vs[i].size >= 1 && IsView(vs[i].view, key, less)
  }

  /** Where a client that follows the cursor stands after these requests. */
  function PositionAfter<T, K>(vs: seq<Visit<T, K>>, key: T -> K): Position<K> {
    if vs == [] then At(None)
    else
      var v := vs[|vs| - 1];
      match PositionAfter(vs[..|vs| - 1], key)
      case Ended => Ended
      case At(after) => Next(v.view(after), v.size, key)
  }

  function Next<T, K>(rows: seq<T>, size: nat, key: T -> K): Position<K> {
    if |rows| > size && size >= 1 then At(Some(key(rows[size - 1]))) else Ended
  }

  /** Everything the pages returned, in order. */
  function Delivered<T, K>(vs: seq<Visit<T, K>>, key: T -> K): seq<T> {
    if vs == [] then []
    else
      var v, init := vs[|vs| - 1], vs[..|vs| - 1];
      match PositionAfter(init, key)
      case Ended => Delivered(init, key)
      case At(after) => Delivered(init, key) + Take(v.view(after), v.size)
  }

  // ---- Nothing twice

  /** The position is at or past everything delivered. */
  ghost predicate NoneBeyond<T, K>(rows: seq<T>, p: Position<K>, key: T -> K, less: (K, K) -> bool) {
    match p
    case Ended => true
    case At(None) => rows == []
    case At(Some(k)) => forall i :: 0 <= i < |rows| ==> key(rows[i]) == k || less(key(rows[i]), k)
  }

  lemma {:induction false} PageExtends<T(!new), K(!new)>(before: seq<T>, rows: seq<T>, size: nat,
          after: Option<K>, key: T -> K, less: (K, K) -> bool)
    requires StrictTotal(less) && AscendingBy(before, key, less) && AscendingBy(rows, key, less) && size >= 1
    requires NoneBeyond(before, At(after), key, less) && forall x :: x in rows ==> Follows(less, after, key(x))
    ensures AscendingBy(before + Take(rows, size), key, less)
    ensures NoneBeyond(before + Take(rows, size), Next(rows, size, key), key, less)
  {
    var page := Take(rows, size);
    forall i, j | 0 <= i < |before| && 0 <= j < |page| ensures less(key(before[i]), key(page[j])) {
      assert page[j] in rows;
    }
    var all := before + page;
    if |rows| > size {
      forall i | 0 <= i < |all| ensures key(all[i]) == key(rows[size - 1]) || less(key(all[i]), key(rows[size - 1])) {
        assert all[|all| - 1] == rows[size - 1];
        assert i < |all| - 1 ==> less(key(all[i]), key(all[|all| - 1]));
      }
    }
  }

  /** Keys are strictly increasing within and across pages, whatever happens between requests. */
  lemma {:induction false} PagesAscend<T(!new), K(!new)>(vs: seq<Visit<T, K>>, key: T -> K, less: (K, K) -> bool)
    requires StrictTotal(less) && Good(vs, key, less)
    ensures AscendingBy(Delivered(vs, key), key, less)
    ensures NoneBeyond(Delivered(vs, key), PositionAfter(vs, key), key, less)
  {
    if vs != [] {
      var v, init := vs[|vs| - 1], vs[..|vs| - 1];
      PagesAscend(init, key, less);
      var p := PositionAfter(init, key);
      if p.At? {
        var rows := v.view(p.after);
        assert forall x :: x in rows ==> Follows(less, p.after, key(x));
        PageExtends(Delivered(init, key), rows, v.size, p.after, key, less);
      }
    }
  }

  /** Nothing is returned that its view did not hold. */
  lemma {:induction false} PagesAreSound<T(!new), K(!new)>(vs: seq<Visit<T, K>>, key: T -> K,
                                                           less: (K, K) -> bool, x: T)
    requires Good(vs, key, less) && x in Delivered(vs, key)
    ensures exists i :: 0 <= i < |vs| && x in vs[i].view(None)
  {
    var v, init := vs[|vs| - 1], vs[..|vs| - 1];
    if x in Delivered(init, key) {
      PagesAreSound(init, key, less, x);
      var i :| 0 <= i < |init| && x in init[i].view(None);
      assert x in vs[i].view(None);
    } else {
      assert x in v.view(PositionAfter(init, key).after);
      assert x in vs[|vs| - 1].view(None);
    }
  }

  // ---- Nothing missing

  ghost predicate HasKey<T, K>(rows: seq<T>, key: T -> K, k: K) { exists i :: 0 <= i < |rows| && key(rows[i]) == k }

  /** Every view has a row with this key. */
  ghost predicate Stays<T, K>(vs: seq<Visit<T, K>>, key: T -> K, k: K) {
    forall i :: 0 <= i < |vs| ==> HasKey(vs[i].view(None), key, k)
  }

  lemma {:induction false} HasKeyConcat<T, K>(a: seq<T>, b: seq<T>, key: T -> K, k: K)
    ensures HasKey(a + b, key, k) <==> HasKey(a, key, k) || HasKey(b, key, k)
  {
    if HasKey(a, key, k) {
      var i :| 0 <= i < |a| && key(a[i]) == k;
      assert key((a + b)[i]) == k;
    }
    if HasKey(b, key, k) {
      var i :| 0 <= i < |b| && key(b[i]) == k;
      assert key((a + b)[|a| + i]) == k;
    }
    if HasKey(a + b, key, k) {
      var i :| 0 <= i < |a + b| && key((a + b)[i]) == k;
      assert if i < |a| then key(a[i]) == k else key(b[i - |a|]) == k;
    }
  }

  /** A row after the cursor is on the page or after its last row. */
  lemma {:induction false} PageReturns<T(!new), K(!new)>(v: Visit<T, K>, after: Option<K>, key: T -> K,
          less: (K, K) -> bool, k: K)
    requires IsView(v.view, key, less) && v.size >= 1 && Follows(less, after, k) && HasKey(v.view(None), key, k)
    ensures match Next(v.view(after), v.size, key)
            case Ended => HasKey(Take(v.view(after), v.size), key, k)
            case At(next) => HasKey(Take(v.view(after), v.size), key, k) || Follows(less, next, k)
  {
    var all, rows := v.view(None), v.view(after);
    var m :| 0 <= m < |all| && key(all[m]) == k;
    assert all[m] in rows;
    var i :| 0 <= i < |rows| && rows[i] == all[m];
    if i < v.size {
      assert key(Take(rows, v.size)[i]) == k;
    } else {
      assert less(key(rows[v.size - 1]), key(rows[i]));
    }
  }

  /** A row that stays has been returned or is still ahead. */
  lemma {:induction false} ReturnedOrAhead<T(!new), K(!new)>(vs: seq<Visit<T, K>>, key: T -> K,
          less: (K, K) -> bool, k: K)
    requires Good(vs, key, less) && Stays(vs, key, k)
    ensures match PositionAfter(vs, key)
            case Ended => HasKey(Delivered(vs, key), key, k)
            case At(after) => HasKey(Delivered(vs, key), key, k) || Follows(less, after, k)
  {
    if vs != [] {
      var v, init := vs[|vs| - 1], vs[..|vs| - 1];
      ReturnedOrAhead(init, key, less, k);
      var p := PositionAfter(init, key);
      if p.At? {
        HasKeyConcat(Delivered(init, key), Take(v.view(p.after), v.size), key, k);
        if !HasKey(Delivered(init, key), key, k) { PageReturns(v, p.after, key, less, k); }
      }
    }
  }

  /** Once paging ends, every staying row was returned exactly once. */
  lemma {:induction false} StayingReturnedOnce<T(!new), K(!new)>(vs: seq<Visit<T, K>>, key: T -> K,
          less: (K, K) -> bool, k: K)
    requires StrictTotal(less) && Good(vs, key, less) && Stays(vs, key, k) && PositionAfter(vs, key).Ended?
    ensures HasKey(Delivered(vs, key), key, k)
    ensures Distinct(Delivered(vs, key), key)
  {
    ReturnedOrAhead(vs, key, less, k);
    PagesAscend(vs, key, less);
  }

  // ---- A view that does not change

  ghost predicate Frozen<T(!new), K(!new)>(vs: seq<Visit<T, K>>, view: Option<K> -> seq<T>) {
    forall i :: 0 <= i < |vs| ==> vs[i].view == view
  }

  /** Asking after the i-th row gives the rows from the next one on. */
  lemma {:induction false} AfterIsSuffix<T(!new), K(!new)>(view: Option<K> -> seq<T>, key: T -> K,
          less: (K, K) -> bool, i: nat)
    requires StrictTotal(less) && IsView(view, key, less) && 0 < i <= |view(None)|
    ensures view(Some(key(view(None)[i - 1]))) == view(None)[i..]
  {
    var all := view(None);
    var k := key(all[i - 1]);
    var rest := view(Some(k));
    var rowLess := (a: T, b: T) => less(key(a), key(b));
    forall x ensures x in rest <==> x in all[i..] {
      InSuffix(all, key, less, i, x);
      assert x in rest <==> x in all && Follows(less, Some(k), key(x));
    }
    assert StrictOrder(rowLess);
    assert Ascending(rest, rowLess);
    assert Ascending(all[i..], rowLess);
    SortingUnique(rest, all[i..], rowLess);
  }

  lemma {:induction false} InOrder<T, K>(all: seq<T>, key: T -> K, less: (K, K) -> bool, j: nat, m: nat)
    requires AscendingBy(all, key, less) && j < |all| && m < |all|
    ensures j < m ==> less(key(all[j]), key(all[m]))
  {
  }

  lemma {:induction false} InSuffix<T(!new), K(!new)>(all: seq<T>, key: T -> K, less: (K, K) -> bool, i: nat, x: T)
    requires StrictTotal(less) && AscendingBy(all, key, less) && 0 < i <= |all|
    ensures x in all[i..] <==> x in all && less(key(all[i - 1]), key(x))
  {
    if x in all[i..] {
      var j :| 0 <= j < |all[i..]| && all[i..][j] == x;
      assert less(key(all[i - 1]), key(all[i + j]));
    }
    if x in all && less(key(all[i - 1]), key(x)) {
      var j :| 0 <= j < |all| && all[j] == x;
      InOrder(all, key, less, j, i - 1);
      assert j >= i;
      assert all[i..][j - i] == x;
    }
  }

  /** The pages so far are a prefix of the whole view, at least one row each, and all of it once ended. */
  ghost predicate IsPrefix<T, K>(d: seq<T>, all: seq<T>, p: Position<K>, calls: nat, key: T -> K) {
    && |d| <= |all| && d == all[..|d|]
    && match p
       case Ended => |d| == |all|
       case At(None) => d == [] && calls == 0
       case At(Some(k)) => calls <= |d| && 0 < |d| < |all| && k == key(all[|d| - 1])
  }

  lemma {:induction false} PrefixGrows<T, K>(d: seq<T>, all: seq<T>, size: nat, calls: nat, key: T -> K)
    requires |d| <= |all| && d == all[..|d|] && calls <= |d| && size >= 1
    ensures IsPrefix(d + Take(all[|d|..], size), all, Next(all[|d|..], size, key), calls + 1, key)
  {
    var page := Take(all[|d|..], size);
    assert d + page == all[..|d| + |page|];
  }

  lemma {:induction false} FrozenPrefix<T(!new), K(!new)>(vs: seq<Visit<T, K>>, view: Option<K> -> seq<T>,
          key: T -> K, less: (K, K) -> bool)
    requires StrictTotal(less) && Good(vs, key, less) && Frozen(vs, view) && IsView(view, key, less)
    ensures IsPrefix(Delivered(vs, key), view(None), PositionAfter(vs, key), |vs|, key)
  {
    if vs != [] {
      var v, init := vs[|vs| - 1], vs[..|vs| - 1];
      FrozenPrefix(init, view, key, less);
      var p, d := PositionAfter(init, key), Delivered(init, key);
      if p.At? {
        if p.after.Some? { AfterIsSuffix(view, key, less, |d|); }
        assert view(p.after) == view(None)[|d|..];
        PrefixGrows(d, view(None), v.size, |init|, key);
      }
    }
  }
}
