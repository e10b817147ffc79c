/** Generic sequence vocabulary: flattening, duplicate-freedom, subsequences and
    first-occurrence deduplication (JavaScript's `Array.from(new Set(xs))`). */
module Seqs {

  /** `xss.flat()` / `flatMap`: the concatenation of all inner sequences, in order. */
  function Flatten<T>(xss: seq<seq<T>>): (r: seq<T>)
    ensures |xss| == 0 ==> r == []
  {
    if |xss| == 0 then [] else xss[0] + Flatten(xss[1..])
  }

  lemma {:induction false} FlattenMembers<T>(xss: seq<seq<T>>, x: T)
    ensures x in Flatten(xss) <==> exists k :: 0 <= k < |xss| && x in xss[k]
  {
    if |xss| > 0 {
      FlattenMembers(xss[1..], x);
      if x in Flatten(xss[1..]) {
        var k :| 0 <= k < |xss[1..]| && x in xss[1..][k];
        assert x in xss[k + 1];
      }
      forall k | 0 < k < |xss| && x in xss[k]
        ensures x in Flatten(xss[1..])
      {
        assert xss[1..][k - 1] == xss[k];
      }
    }
  }

  predicate NoDups<T(==)>(xs: seq<T>) {
    forall i, j :: 0 <= i < j < |xs| ==> xs[i] != xs[j]
  }

  /** `xs` can be obtained from `ys` by deleting elements. */
  predicate IsSubseq<T(==)>(xs: seq<T>, ys: seq<T>)
    decreases |ys|
  {
    if |xs| == 0 then true
    else if |ys| == 0 then false
    else if xs[0] == ys[0] then IsSubseq(xs[1..], ys[1..])
    else IsSubseq(xs, ys[1..])
  }

  lemma {:induction false} SubseqMembers<T>(xs: seq<T>, ys: seq<T>)
    requires IsSubseq(xs, ys)
    ensures forall x :: x in xs ==> x in ys
    decreases |ys|
  {
    if |xs| > 0 {
      if xs[0] == ys[0] {
        SubseqMembers(xs[1..], ys[1..]);
        forall x | x in xs ensures x in ys {
          if x != xs[0] {
            assert x in xs[1..];
            assert x in ys[1..];
          }
        }
      } else {
        SubseqMembers(xs, ys[1..]);
      }
    }
  }

  lemma {:induction false} SubseqCons<T>(xs: seq<T>, ys: seq<T>, y: T)
    requires IsSubseq(xs, ys)
    ensures IsSubseq(xs, [y] + ys)
    decreases |ys|, 1
  {
    var zs := [y] + ys;
    assert zs[1..] == ys;
    if |xs| > 0 && xs[0] == y {
      SubseqDropFirst(xs, ys);
    }
  }

  lemma {:induction false} SubseqDropFirst<T>(xs: seq<T>, ys: seq<T>)
    requires IsSubseq(xs, ys) && |xs| > 0
    ensures IsSubseq(xs[1..], ys)
    decreases |ys|, 0
  {
    assert ys == [ys[0]] + ys[1..];
    if xs[0] == ys[0] {
      SubseqCons(xs[1..], ys[1..], ys[0]);
    } else {
      SubseqDropFirst(xs, ys[1..]);
      SubseqCons(xs[1..], ys[1..], ys[0]);
    }
  }

  /** A subsequence of a duplicate-free sequence is duplicate-free. */
  lemma {:induction false} SubseqNoDups<T>(xs: seq<T>, ys: seq<T>)
    requires IsSubseq(xs, ys) && NoDups(ys)
    ensures NoDups(xs)
    decreases |ys|
  {
    if |xs| > 0 {
      assert NoDups(ys[1..]) by {
        forall i, j | 0 <= i < j < |ys[1..]| ensures ys[1..][i] != ys[1..][j] {
          assert ys[1..][i] == ys[i + 1] && ys[1..][j] == ys[j + 1];
        }
      }
      if xs[0] == ys[0] {
        SubseqNoDups(xs[1..], ys[1..]);
        SubseqMembers(xs[1..], ys[1..]);
        forall j | 0 < j < |xs| ensures xs[0] != xs[j] {
          assert xs[j] == xs[1..][j - 1];
          assert xs[j] in ys[1..];
        }
        forall i, j | 0 <= i < j < |xs| ensures xs[i] != xs[j] {
          if i > 0 {
            assert xs[i] == xs[1..][i - 1] && xs[j] == xs[1..][j - 1];
          }
        }
      } else {
        SubseqNoDups(xs, ys[1..]);
      }
    }
  }

  /** Index of the first occurrence of `x` in `xs`. */
  function FirstIndex<T(==)>(xs: seq<T>, x: T): (k: nat)
    requires x in xs
    ensures k < |xs| && xs[k] == x
    ensures forall i :: 0 <= i < k ==> xs[i] != x
  {
    if xs[0] == x then 0 else 1 + FirstIndex(xs[1..], x)
  }

  lemma FirstIndexOfPrefix<T>(xs: seq<T>, n: nat, x: T)
    requires n <= |xs| && x in xs[..n]
    ensures x in xs && FirstIndex(xs[..n], x) == FirstIndex(xs, x)
  {
    var k := FirstIndex(xs[..n], x);
    assert xs[k] == x;
  }

  /** First-occurrence deduplication, as `Array.from(new Set(xs))` yields it: a `Set`
      iterates in insertion order, and inserting an element already present does nothing. */
  function Dedup<T(==,!new)>(xs: seq<T>): (r: seq<T>)
    ensures NoDups(r)
    ensures forall x :: x in r <==> x in xs
    ensures |r| <= |xs|
  {
    if |xs| == 0 then []
    else
      var d := Dedup(xs[..|xs| - 1]);
      var last := xs[|xs| - 1];
      assert forall x :: x in xs <==> x in xs[..|xs| - 1] || x == last by {
        assert xs == xs[..|xs| - 1] + [last];
      }
      if last in d then d else d + [last]
  }

  /** Deduplication keeps elements in the order of their first occurrence. */
  lemma {:induction false} DedupFirstOccurrenceOrder<T(!new)>(xs: seq<T>)
    ensures forall i, j :: 0 <= i < j < |Dedup(xs)| ==>
              FirstIndex(xs, Dedup(xs)[i]) < FirstIndex(xs, Dedup(xs)[j])
  {
    if |xs| > 0 {
      var init := xs[..|xs| - 1];
      var last := xs[|xs| - 1];
      var d := Dedup(init);
      DedupFirstOccurrenceOrder(init);
      assert init == xs[..|xs| - 1];
      forall x | x in d ensures FirstIndex(init, x) == FirstIndex(xs, x) {
        FirstIndexOfPrefix(xs, |xs| - 1, x);
      }
      if last !in d {
        assert Dedup(xs) == d + [last];
        assert last !in init;
        assert FirstIndex(xs, last) == |xs| - 1;
        forall i, j | 0 <= i < j < |Dedup(xs)|
          ensures FirstIndex(xs, Dedup(xs)[i]) < FirstIndex(xs, Dedup(xs)[j])
        {
          assert Dedup(xs)[i] == d[i];
          if j < |d| {
            assert Dedup(xs)[j] == d[j];
          }
        }
      }
    }
  }

  lemma {:induction false} DedupConstant<T(!new)>(xs: seq<T>, x: T)
    requires |xs| > 0 && forall i :: 0 <= i < |xs| ==> xs[i] == x
    ensures Dedup(xs) == [x]
  {
    if |xs| > 1 {
      DedupConstant(xs[..|xs| - 1], x);
    }
  }
}
