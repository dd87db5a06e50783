// Small value types and sequence helpers shared by the other modules.
module Prelude {
  newtype Byte = x: int | 0 <= x < 256

  datatype Option<+T> = None | Some(value: T) {
    function GetOr(default: T): T {
      if Some? then value else default
    }
  }

  function Get<K, V>(m: map<K, V>, k: K): Option<V> {
    if k in m then Some(m[k]) else None
  }

  /** The elements of s that satisfy p, in order. */
  function Filter<T>(s: seq<T>, p: T -> bool): (r: seq<T>)
    ensures |r| <= |s|
  {
    if s == [] then []
    else
      var rest := Filter(s[..|s| - 1], p);
      if p(s[|s| - 1]) then rest + [s[|s| - 1]] else rest
  }

  lemma {:induction false} FilterMembers<T>(s: seq<T>, p: T -> bool)
    ensures forall x :: x in Filter(s, p) <==> x in s && p(x)
    ensures forall i :: 0 <= i < |Filter(s, p)| ==> Filter(s, p)[i] in s && p(Filter(s, p)[i])
  {
    if s != [] {
      var t := s[..|s| - 1];
      FilterMembers(t, p);
      assert s == t + [s[|s| - 1]];
    }
  }

  /** No two elements have the same key. */
  ghost predicate Distinct<T, K>(s: seq<T>, key: T -> K) {
    forall i, j :: 0 <= i < j < |s| ==> key(s[i]) != key(s[j])
  }

  ghost predicate Mentions<T, K>(s: seq<T>, key: T -> K, k: K) {
    exists i :: 0 <= i < |s| && key(s[i]) == k
  }

  lemma {:induction false} MentionsPrefix<T, K>(rows: seq<T>, key: T -> K, k: K)
    requires rows != []
    ensures Mentions(rows, key, k) <==> Mentions(rows[..|rows| - 1], key, k) || k == key(rows[|rows| - 1])
  {
    var init := rows[..|rows| - 1];
    if Mentions(init, key, k) {
      var i :| 0 <= i < |init| && key(init[i]) == k;
      assert key(rows[i]) == k;
    }
    if Mentions(rows, key, k) && k != key(rows[|rows| - 1]) {
      var i :| 0 <= i < |rows| && key(rows[i]) == k;
      assert key(init[i]) == k;
    }
  }

  function KeySet<T, K(==,!new)>(s: seq<T>, key: T -> K): (r: set<K>)
    ensures forall k :: k in r <==> Mentions(s, key, k)
  {
    set i | 0 <= i < |s| :: key(s[i])
  }

  lemma {:induction false} FilterDistinct<T, K>(s: seq<T>, p: T -> bool, key: T -> K)
    requires Distinct(s, key)
    ensures Distinct(Filter(s, p), key)
  {
    if s != [] {
      var t := s[..|s| - 1];
      var r := Filter(t, p);
      FilterDistinct(t, p, key);
      FilterMembers(t, p);
      forall i | 0 <= i < |r| ensures key(r[i]) != key(s[|s| - 1]) {
        assert r[i] in t;
        var j :| 0 <= j < |t| && t[j] == r[i];
        assert s[j] == t[j];
      }
    }
  }
}
