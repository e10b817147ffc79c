/** Stable descending sort, the model of `xs.sort((a, b) => key(b) - key(a))`:
    `Array.prototype.sort` is stable (section 22.1.3.27 of ECMA-262, 10th edition), so
    elements with equal keys keep their relative order. Functional insertion sort. */
module Ranking {

  predicate SortedDesc<T>(xs: seq<T>, key: T -> real) {
    forall i, j :: 0 <= i < j < |xs| ==> key(xs[i]) >= key(xs[j])
  }

  /** The elements of `xs` whose key is exactly `k`, in their order in `xs`. */
  function WithKey<T>(xs: seq<T>, key: T -> real, k: real): (r: seq<T>)
    ensures |r| <= |xs|
  {
    if |xs| == 0 then []
    else (if key(xs[0]) == k then [xs[0]] else []) + WithKey(xs[1..], key, k)
  }

  /** Places `x` in front of the first element of `ys` whose key is at most `x`'s. */
  function Insert<T>(x: T, ys: seq<T>, key: T -> real): (r: seq<T>)
    requires SortedDesc(ys, key)
    ensures SortedDesc(r, key)
    ensures multiset(r) == multiset(ys) + multiset{x}
    ensures |r| == |ys| + 1
  {
    if |ys| == 0 || key(x) >= key(ys[0]) then
      ConsSorted(x, ys, key);
      [x] + ys
    else
      assert ys == [ys[0]] + ys[1..];
      assert SortedDesc(ys[1..], key);
      var tail := Insert(x, ys[1..], key);
      forall z | z in tail ensures key(ys[0]) >= key(z) {
        assert z in multiset(tail);
        if z != x {
          assert z in multiset(ys[1..]);
          var j :| 0 <= j < |ys[1..]| && ys[1..][j] == z;
          assert ys[j + 1] == z;
        }
      }
      ConsSorted(ys[0], tail, key);
      [ys[0]] + tail
  }

  lemma ConsSorted<T>(h: T, t: seq<T>, key: T -> real)
    requires SortedDesc(t, key)
    requires forall z :: z in t ==> key(h) >= key(z)
    ensures SortedDesc([h] + t, key)
  {
    var r := [h] + t;
    forall i, j | 0 <= i < j < |r| ensures key(r[i]) >= key(r[j]) {
      assert r[j] == t[j - 1];
      if i > 0 {
        assert r[i] == t[i - 1];
      } else {
        assert r[j] in t;
      }
    }
  }

  /** Stable sort by descending key: a sorted permutation of `xs`. */
  function SortDesc<T>(xs: seq<T>, key: T -> real): (r: seq<T>)
    ensures SortedDesc(r, key)
    ensures multiset(r) == multiset(xs)
    ensures |r| == |xs|
  {
    if |xs| == 0 then []
    else
      assert multiset(xs) == multiset(xs[1..]) + multiset{xs[0]} by {
        assert xs == [xs[0]] + xs[1..];
      }
      Insert(xs[0], SortDesc(xs[1..], key), key)
  }

  lemma {:induction false} WithKeyConcat<T>(a: seq<T>, b: seq<T>, key: T -> real, k: real)
    ensures WithKey(a + b, key, k) == WithKey(a, key, k) + WithKey(b, key, k)
  {
    if |a| == 0 {
      assert a + b == b;
    } else {
      var head := if key(a[0]) == k then [a[0]] else [];
      assert (a + b)[0] == a[0];
      assert (a + b)[1..] == a[1..] + b;
      assert WithKey(a + b, key, k) == head + WithKey(a[1..] + b, key, k);
      assert WithKey(a, key, k) == head + WithKey(a[1..], key, k);
      WithKeyConcat(a[1..], b, key, k);
      assert head + (WithKey(a[1..], key, k) + WithKey(b, key, k))
          == (head + WithKey(a[1..], key, k)) + WithKey(b, key, k);
    }
  }

  lemma {:induction false} InsertWithKey<T>(x: T, ys: seq<T>, key: T -> real, k: real)
    requires SortedDesc(ys, key)
    ensures WithKey(Insert(x, ys, key), key, k) ==
            (if key(x) == k then [x] else []) + WithKey(ys, key, k)
  {
    var mine := if key(x) == k then [x] else [];
    if |ys| == 0 || key(x) >= key(ys[0]) {
      var r := [x] + ys;
      assert Insert(x, ys, key) == r;
      assert r[0] == x && r[1..] == ys;
      assert WithKey(r, key, k) == mine + WithKey(ys, key, k);
    } else {
      assert SortedDesc(ys[1..], key);
      var tail := Insert(x, ys[1..], key);
      InsertWithKey(x, ys[1..], key, k);
      var r := [ys[0]] + tail;
      assert Insert(x, ys, key) == r;
      assert r[0] == ys[0] && r[1..] == tail;
      var head := if key(ys[0]) == k then [ys[0]] else [];
      assert WithKey(r, key, k) == head + WithKey(tail, key, k);
      assert WithKey(ys, key, k) == head + WithKey(ys[1..], key, k);
      // ys[0] is passed over only when its key exceeds x's, so it never ties with x
      assert mine == [] || head == [];
    }
  }

  /** Stability: among elements with the same key, the sort keeps their input order. */
  lemma {:induction false} SortDescStable<T>(xs: seq<T>, key: T -> real, k: real)
    ensures WithKey(SortDesc(xs, key), key, k) == WithKey(xs, key, k)
  {
    if |xs| > 0 {
      SortDescStable(xs[1..], key, k);
      InsertWithKey(xs[0], SortDesc(xs[1..], key), key, k);
    }
  }

  /** Everything left out of the first `n` of a descending sort ranks no higher than
      anything kept: the prefix is a genuine top `n`. */
  lemma TopPrefix<T>(xs: seq<T>, key: T -> real, n: nat, x: T)
    requires n <= |xs|
    requires x in xs && x !in SortDesc(xs, key)[..n]
    ensures forall y :: y in SortDesc(xs, key)[..n] ==> key(y) >= key(x)
  {
    var r := SortDesc(xs, key);
    assert x in multiset(r);
    SortedPrefixDominates(r, key, n, x);
  }

  lemma SortedPrefixDominates<T>(r: seq<T>, key: T -> real, n: nat, x: T)
    requires SortedDesc(r, key) && n <= |r|
    requires x in r && x !in r[..n]
    ensures forall y :: y in r[..n] ==> key(y) >= key(x)
  {
    var j :| 0 <= j < |r| && r[j] == x;
    assert n <= j;
    forall y | y in r[..n] ensures key(y) >= key(x) {
      var i :| 0 <= i < n && r[..n][i] == y;
      assert r[i] == y;
    }
  }
}
