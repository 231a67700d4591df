/**
 * A stable sort by decreasing key: JavaScript's `sort((a, b) => key(b) -
 * key(a))`, which keeps elements of equal key in their original order.
 */
module Ranking {

  /** Keys never increase along the list. */
  predicate NonIncreasing<T>(xs: seq<T>, key: T -> real) {
    forall i, j :: 0 <= i < j < |xs| ==> key(xs[i]) >= key(xs[j])
  }

  /** Places `e` after the elements with a larger key and before all others. */
  function Insert<T>(e: T, ranked: seq<T>, key: T -> real): seq<T>
  {
    if ranked == [] then [e]
    else if key(ranked[0]) > key(e) then [ranked[0]] + Insert(e, ranked[1..], key)
    else [e] + ranked
  }

  /** The sort itself: insertion from the back, so earlier elements win ties. */
  function RankBy<T>(xs: seq<T>, key: T -> real): seq<T>
  {
    if xs == [] then [] else Insert(xs[0], RankBy(xs[1..], key), key)
  }

  /** The elements whose key is `k`, in their order. */
  function WithKey<T>(xs: seq<T>, key: T -> real, k: real): seq<T>
  {
    if xs == [] then []
    else (if key(xs[0]) == k then [xs[0]] else []) + WithKey(xs[1..], key, k)
  }

  lemma {:induction false} InsertPermutes<T>(e: T, ranked: seq<T>, key: T -> real)
    ensures multiset(Insert(e, ranked, key)) == multiset(ranked) + multiset{e}
    ensures |Insert(e, ranked, key)| == |ranked| + 1
  {
    if ranked != [] && key(ranked[0]) > key(e) {
      InsertPermutes(e, ranked[1..], key);
      assert ranked == [ranked[0]] + ranked[1..];
    }
  }

  lemma {:induction false} InsertBounded<T>(e: T, ranked: seq<T>, key: T -> real, bound: real)
    requires key(e) <= bound
    requires forall i :: 0 <= i < |ranked| ==> key(ranked[i]) <= bound
    ensures forall i :: 0 <= i < |Insert(e, ranked, key)| ==> key(Insert(e, ranked, key)[i]) <= bound
  {
    if ranked != [] && key(ranked[0]) > key(e) {
      InsertBounded(e, ranked[1..], key, bound);
    }
  }

  lemma {:induction false} InsertSorted<T>(e: T, ranked: seq<T>, key: T -> real)
    requires NonIncreasing(ranked, key)
    ensures NonIncreasing(Insert(e, ranked, key), key)
  {
    if ranked != [] && key(ranked[0]) > key(e) {
      var rest := Insert(e, ranked[1..], key);
      InsertSorted(e, ranked[1..], key);
      InsertBounded(e, ranked[1..], key, key(ranked[0]));
      var r := [ranked[0]] + rest;
      forall i, j | 0 <= i < j < |r| ensures key(r[i]) >= key(r[j]) {
        if i == 0 {
          assert r[j] == rest[j - 1];
        } else {
          assert r[i] == rest[i - 1] && r[j] == rest[j - 1];
        }
      }
    }
  }

  lemma WithKeyCons<T>(x: T, xs: seq<T>, key: T -> real, k: real)
    ensures WithKey([x] + xs, key, k) == (if key(x) == k then [x] else []) + WithKey(xs, key, k)
  {
    assert ([x] + xs)[1..] == xs;
  }

  lemma {:induction false} InsertWithKey<T>(e: T, ranked: seq<T>, key: T -> real, k: real)
    ensures WithKey(Insert(e, ranked, key), key, k) == (if key(e) == k then [e] else []) + WithKey(ranked, key, k)
  {
    if ranked == [] {
      WithKeyCons(e, [], key, k);
    } else if key(ranked[0]) > key(e) {
      var x, tail := ranked[0], ranked[1..];
      var cx := if key(x) == k then [x] else [];
      var ce := if key(e) == k then [e] else [];
      var rest := Insert(e, tail, key);
      assert Insert(e, ranked, key) == [x] + rest;
      InsertWithKey(e, tail, key, k);
      WithKeyCons(x, rest, key, k);
      assert WithKey(Insert(e, ranked, key), key, k) == cx + (ce + WithKey(tail, key, k));
      // x and e cannot both carry the key k, so one of cx and ce is empty
      assert cx + (ce + WithKey(tail, key, k)) == ce + (cx + WithKey(tail, key, k)) by {
        if cx == [] {
          assert cx + (ce + WithKey(tail, key, k)) == ce + WithKey(tail, key, k);
        } else {
          assert ce == [];
        }
      }
      assert ranked == [x] + tail;
      WithKeyCons(x, tail, key, k);
    } else {
      WithKeyCons(e, ranked, key, k);
    }
  }

  lemma {:induction false} RankBySorted<T>(xs: seq<T>, key: T -> real)
    ensures NonIncreasing(RankBy(xs, key), key)
  {
    if xs != [] {
      RankBySorted(xs[1..], key);
      InsertSorted(xs[0], RankBy(xs[1..], key), key);
    }
  }

  lemma {:induction false} RankByPermutes<T>(xs: seq<T>, key: T -> real)
    ensures multiset(RankBy(xs, key)) == multiset(xs)
    ensures |RankBy(xs, key)| == |xs|
  {
    if xs != [] {
      RankByPermutes(xs[1..], key);
      InsertPermutes(xs[0], RankBy(xs[1..], key), key);
      assert xs == [xs[0]] + xs[1..];
    }
  }

  /** The sort keeps exactly the elements it was given. */
  lemma RankByMembers<T>(xs: seq<T>, key: T -> real)
    ensures forall x :: x in RankBy(xs, key) <==> x in xs
  {
    RankByPermutes(xs, key);
    forall x ensures x in RankBy(xs, key) <==> x in xs {
      assert x in RankBy(xs, key) <==> x in multiset(RankBy(xs, key));
    }
  }

  lemma {:induction false} RankByStable<T>(xs: seq<T>, key: T -> real, k: real)
    ensures WithKey(RankBy(xs, key), key, k) == WithKey(xs, key, k)
  {
    if xs != [] {
      RankByStable(xs[1..], key, k);
      InsertWithKey(xs[0], RankBy(xs[1..], key), key, k);
    }
  }

  /**
   * The sort orders by non-increasing key, keeps exactly the same elements,
   * and keeps elements of equal key in their original order.
   */
  lemma RankByProperties<T>(xs: seq<T>, key: T -> real)
    ensures NonIncreasing(RankBy(xs, key), key)
    ensures multiset(RankBy(xs, key)) == multiset(xs)
    ensures |RankBy(xs, key)| == |xs|
    ensures forall k :: WithKey(RankBy(xs, key), key, k) == WithKey(xs, key, k)
  {
    RankBySorted(xs, key);
    RankByPermutes(xs, key);
    forall k ensures WithKey(RankBy(xs, key), key, k) == WithKey(xs, key, k) {
      RankByStable(xs, key, k);
    }
  }
}
