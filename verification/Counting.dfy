/** Sizes of finite sets and of sequences without repetition, and powers of two. */
module Counting {

  ghost predicate Distinct<T>(xs: seq<T>) {
    forall i, j :: 0 <= i < j < |xs| ==> xs[i] != xs[j]
  }

  /** A sequence without repetition has as many elements as its set. */
  lemma {:induction false} DistinctSize<T>(xs: seq<T>, elems: set<T>)
    requires Distinct(xs)
    requires forall x :: x in elems <==> x in xs
    ensures |xs| == |elems|
  {
    if xs == [] {
      assert elems == {};
    } else {
      var last := xs[|xs| - 1];
      assert last !in xs[..|xs| - 1];
      DistinctSize(xs[..|xs| - 1], elems - {last});
    }
  }

  /** The set of a sequence is as large as the sequence exactly when nothing repeats. */
  lemma {:induction false} ElementsSize<T>(xs: seq<T>, elems: set<T>)
    requires forall x :: x in elems <==> x in xs
    ensures |elems| <= |xs|
    ensures |elems| == |xs| <==> Distinct(xs)
  {
    if xs == [] {
      assert elems == {};
    } else {
      var k := |xs| - 1;
      var last, rest := xs[k], xs[..k];
      assert xs == rest + [last];
      if last in rest {
        ElementsSize(rest, elems);
        var i :| 0 <= i < k && rest[i] == last;
        assert xs[i] == xs[k];
      } else {
        ElementsSize(rest, elems - {last});
      }
    }
  }

  lemma SubsetSize<T>(a: set<T>, b: set<T>)
    requires a <= b
    ensures |a| <= |b|
    ensures |a| == |b| ==> a == b
  {
    assert b == a + (b - a);
  }

  ghost function Range(n: nat): (r: set<nat>)
    ensures |r| == n
    ensures forall i: nat :: i in r <==> i < n
  {
    if n == 0 then {} else Range(n - 1) + {n - 1}
  }

  /** A repetition-free sequence of indices below n has at most n entries, and n exactly when it covers them all. */
  lemma IndexCover(xs: seq<nat>, n: nat)
    requires Distinct(xs) && forall k :: 0 <= k < |xs| ==> xs[k] < n
    ensures |xs| <= n
    ensures |xs| == n <==> forall i: nat :: i < n ==> i in xs
  {
    var elems := set x | x in xs;
    DistinctSize(xs, elems);
    SubsetSize(elems, Range(n));
    if |xs| < n {
      assert elems != Range(n);
      var i :| i in Range(n) && i !in elems;
    }
  }

  function Pow2(n: nat): (r: nat)
    ensures r > 0
  {
    if n == 0 then 1 else 2 * Pow2(n - 1)
  }
}
