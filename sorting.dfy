/**
 * The library sorts the core calls (`Arrays.sort` with a comparator,
 * `List.sort`, `Stream.sorted`) are stable merge sorts. Their result is
 * determined by the order alone, so they are modelled by a stable insertion
 * sort, ascending by a real-valued key; a descending sort uses the negated key.
 * `Take` is `subList(0, min(size, k))` / `Stream.limit(k)`.
 */
module Sorting {

  ghost predicate SortedBy<T>(s: seq<T>, key: T -> real)
  {
    forall i, j :: 0 <= i < j < |s| ==> key(s[i]) <= key(s[j])
  }

  /** Places x before the first element whose key is not below x's, so x
      stays ahead of every element with an equal key. */
  function Insert<T>(x: T, t: seq<T>, key: T -> real): (r: seq<T>)
    ensures multiset(r) == multiset([x] + t)
    ensures |r| == |t| + 1
    ensures forall y :: y in r ==> y == x || y in t
  {
    if t == [] || key(x) <= key(t[0]) then [x] + t
    else
      assert t == [t[0]] + t[1..];
      [t[0]] + Insert(x, t[1..], key)
  }

  lemma {:induction false} InsertKeepsOrder<T>(x: T, t: seq<T>, key: T -> real)
    requires SortedBy(t, key)
    ensures SortedBy(Insert(x, t, key), key)
  {
    if t != [] && key(x) > key(t[0]) {
      var tail := Insert(x, t[1..], key);
      InsertKeepsOrder(x, t[1..], key);
      assert t == [t[0]] + t[1..];
      var r := [t[0]] + tail;
      forall j | 0 < j < |r| ensures key(r[0]) <= key(r[j]) {
        assert r[j] in tail;
        if r[j] != x {
          var k :| 0 <= k < |t| - 1 && t[1..][k] == r[j];
          assert t[k + 1] == r[j];
        }
      }
    }
  }

  /** The stable sort, ascending by `key`. */
  function SortBy<T>(s: seq<T>, key: T -> real): (r: seq<T>)
    ensures multiset(r) == multiset(s)
    ensures |r| == |s|
    ensures SortedBy(r, key)
  {
    if s == [] then []
    else
      assert s == [s[0]] + s[1..];
      var rest := SortBy(s[1..], key);
      InsertKeepsOrder(s[0], rest, key);
      var r := Insert(s[0], rest, key);
      assert |r| == |multiset(r)|;
      r
  }

  /** The first k elements (all of them when there are fewer). */
  function Take<T>(s: seq<T>, k: nat): (r: seq<T>)
    ensures |r| <= k && |r| <= |s|
    ensures r == s[..|r|]
    ensures |s| <= k ==> r == s
  {
    if |s| <= k then s else s[..k]
  }

  /** Stable order on distinct integer labels: equal keys keep increasing labels. */
  ghost predicate LexSorted(s: seq<int>, key: int -> real)
  {
    forall i, j :: 0 <= i < j < |s| ==> LexBefore(s[i], s[j], key)
  }

  ghost predicate StrictlyIncreasing(s: seq<int>)
  {
    forall i, j :: 0 <= i < j < |s| ==> s[i] < s[j]
  }

  /** x is lexicographically before y: a smaller key, or an equal key and a smaller label. */
  ghost predicate LexBefore(x: int, y: int, key: int -> real)
  {
    key(x) < key(y) || (key(x) == key(y) && x < y)
  }

  lemma ConsKeepsLexOrder(a: int, u: seq<int>, key: int -> real)
    requires LexSorted(u, key)
    requires forall j :: 0 <= j < |u| ==> LexBefore(a, u[j], key)
    ensures LexSorted([a] + u, key)
  {
    var r := [a] + u;
    forall i, j | 0 <= i < j < |r| ensures LexBefore(r[i], r[j], key) {
      if i > 0 { assert r[i] == u[i - 1] && r[j] == u[j - 1]; }
    }
  }

  lemma {:induction false} InsertKeepsLexOrder(x: int, t: seq<int>, key: int -> real)
    requires LexSorted(t, key)
    requires forall y :: y in t ==> x < y
    ensures LexSorted(Insert(x, t, key), key)
  {
    if t == [] || key(x) <= key(t[0]) {
      forall j | 0 <= j < |t| ensures LexBefore(x, t[j], key) {
        assert t[j] in t;
        if j > 0 { assert LexBefore(t[0], t[j], key); }
      }
      ConsKeepsLexOrder(x, t, key);
    } else {
      var tail := Insert(x, t[1..], key);
      assert forall y :: y in t[1..] ==> y in t;
      InsertKeepsLexOrder(x, t[1..], key);
      assert t == [t[0]] + t[1..];
      forall j | 0 <= j < |tail| ensures LexBefore(t[0], tail[j], key) {
        assert tail[j] in tail;
        if tail[j] != x {
          var k :| 0 <= k < |t| - 1 && t[1..][k] == tail[j];
          assert t[k + 1] == tail[j];
        }
      }
      ConsKeepsLexOrder(t[0], tail, key);
    }
  }

  /** Sorting labels given in increasing order breaks key ties by the smaller label. */
  lemma {:induction false} SortIsStable(s: seq<int>, key: int -> real)
    requires StrictlyIncreasing(s)
    ensures LexSorted(SortBy(s, key), key)
  {
    if s != [] {
      var rest := SortBy(s[1..], key);
      SortIsStable(s[1..], key);
      forall y | y in rest ensures s[0] < y {
        assert y in multiset(rest);
        var k :| 0 <= k < |s| - 1 && s[1..][k] == y;
        assert s[k + 1] == y;
      }
      InsertKeepsLexOrder(s[0], rest, key);
    }
  }
}
