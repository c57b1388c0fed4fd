/** Small shared notions: minimum and maximum, Python truthiness, lists without repetitions. */
module Basics {
  import opened Wrappers

  function Min(a: int, b: int): int { if a <= b then a else b }
  function Max(a: int, b: int): int { if a >= b then a else b }

  /** A string the program counts as present: not None and not empty. */
  predicate Truthy(s: Option<string>) { s.Some? && s.value != "" }

  // ----- sets -----

  lemma {:induction false} SizeTwo<T>(s: set<T>, x: T, y: T)
    requires x in s && y in s && x != y
    ensures |s| >= 2
  {
    assert |s| == |s - {x, y}| + |{x, y}|;
  }

  lemma {:induction false} AtMostOne<T>(s: set<T>)
    ensures |s| <= 1 <==> forall x, y :: x in s && y in s ==> x == y
  {
    if |s| <= 1 {
      forall x, y | x in s && y in s ensures x == y {
        if x != y { SizeTwo(s, x, y); }
      }
    } else {
      var x :| x in s;
      assert |s - {x}| > 0;
      var y :| y in s - {x};
    }
  }

  // ----- lists without repetitions -----

  predicate NoDup<T(==)>(xs: seq<T>) { forall i, j :: 0 <= i < j < |xs| ==> xs[i] != xs[j] }

  lemma {:induction false} NoDupCount<T>(xs: seq<T>, x: T)
    requires NoDup(xs)
    ensures multiset(xs)[x] <= 1
  {
    if xs != [] {
      NoDupCount(xs[1..], x);
      assert xs == [xs[0]] + xs[1..];
      assert x == xs[0] ==> x !in xs[1..];
    }
  }

  lemma {:induction false} CountTwo<T>(ys: seq<T>, i: nat, j: nat)
    requires i < j < |ys| && ys[i] == ys[j]
    ensures multiset(ys)[ys[i]] >= 2
  {
    assert ys == ys[..j] + ys[j..];
    assert ys[..j][i] in multiset(ys[..j]) && ys[j..][0] in multiset(ys[j..]);
  }

  lemma {:induction false} SameElementsSameMultiset<T>(xs: seq<T>, ys: seq<T>)
    requires NoDup(xs) && NoDup(ys) && forall x :: x in xs <==> x in ys
    ensures multiset(xs) == multiset(ys) && |xs| == |ys|
  {
    forall x ensures multiset(xs)[x] == multiset(ys)[x] {
      NoDupCount(xs, x);
      NoDupCount(ys, x);
      assert x in multiset(xs) <==> x in xs;
      assert x in multiset(ys) <==> x in ys;
    }
    assert multiset(xs) == multiset(ys);
    assert |multiset(xs)| == |xs| && |multiset(ys)| == |ys|;
  }

  /** list(dict.fromkeys(xs)) */
  function Dedup<T(==)>(xs: seq<T>): seq<T> {
    if xs == [] then []
    else
      var rest := Dedup(xs[..|xs| - 1]);
      if xs[|xs| - 1] in rest then rest else rest + [xs[|xs| - 1]]
  }

  lemma {:induction false} DedupSnoc<T>(xs: seq<T>, n: nat)
    requires n < |xs|
    ensures Dedup(xs[..n + 1]) == if xs[n] in Dedup(xs[..n]) then Dedup(xs[..n]) else Dedup(xs[..n]) + [xs[n]]
  {
    assert xs[..n + 1][..n] == xs[..n];
  }

  lemma {:induction false} DedupFacts<T>(xs: seq<T>)
    ensures NoDup(Dedup(xs))
    ensures forall x :: x in Dedup(xs) <==> x in xs
  {
    if xs != [] {
      DedupFacts(xs[..|xs| - 1]);
      assert xs == xs[..|xs| - 1] + [xs[|xs| - 1]];
    }
  }

  /** The elements kept are the first of their kind, in order. */
  lemma {:induction false} DedupKeepsFirsts<T>(xs: seq<T>) returns (at: seq<int>)
    ensures |at| == |Dedup(xs)|
    ensures forall k :: 0 <= k < |at| ==> 0 <= at[k] < |xs| && xs[at[k]] == Dedup(xs)[k] && xs[at[k]] !in xs[..at[k]]
    ensures forall k, l :: 0 <= k < l < |at| ==> at[k] < at[l]
  {
    if xs == [] {
      at := [];
    } else {
      var n := |xs| - 1;
      at := DedupKeepsFirsts(xs[..n]);
      DedupFacts(xs[..n]);
      forall k | 0 <= k < |at| ensures xs[at[k]] == Dedup(xs[..n])[k] && xs[at[k]] !in xs[..at[k]] {
        assert xs[..n][..at[k]] == xs[..at[k]];
      }
      if xs[n] !in Dedup(xs[..n]) { at := at + [n]; }
    }
  }

  lemma {:induction false} DedupOfDistinct<T>(xs: seq<T>)
    requires NoDup(xs)
    ensures Dedup(xs) == xs
  {
    if xs != [] {
      var n := |xs| - 1;
      DedupOfDistinct(xs[..n]);
      assert xs == xs[..n] + [xs[n]];
    }
  }
}
