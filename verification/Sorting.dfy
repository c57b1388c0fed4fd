/** Python's stable sort under a total preorder, and the order of strings and tuples. */
module Sorting {
  ghost predicate TotalPreorder<T(!new)>(le: (T, T) -> bool) {
    && (forall x, y :: le(x, y) || le(y, x))
    && (forall x, y, z :: le(x, y) && le(y, z) ==> le(x, z))
  }

  ghost predicate Sorted<T>(le: (T, T) -> bool, xs: seq<T>) {
    forall i, j :: 0 <= i < j < |xs| ==> le(xs[i], xs[j])
  }

  /** x goes before the first element it does not have to follow, so ties keep their order. */
  function Insert<T>(x: T, ys: seq<T>, le: (T, T) -> bool): (r: seq<T>)
    ensures |r| == |ys| + 1
  {
    if ys == [] || le(x, ys[0]) then [x] + ys else [ys[0]] + Insert(x, ys[1..], le)
  }

  /** `sorted(xs)`, with le the order of the keys. */
  function Sort<T>(xs: seq<T>, le: (T, T) -> bool): (r: seq<T>)
    ensures |r| == |xs|
  {
    if xs == [] then [] else Insert(xs[0], Sort(xs[1..], le), le)
  }

  lemma {:induction false} InsertKeeps<T>(x: T, ys: seq<T>, le: (T, T) -> bool)
    ensures multiset(Insert(x, ys, le)) == multiset{x} + multiset(ys)
  {
    if ys == [] || le(x, ys[0]) {
    } else {
      InsertKeeps(x, ys[1..], le);
      assert ys == [ys[0]] + ys[1..];
      assert multiset(Insert(x, ys, le)) == multiset([ys[0]]) + multiset(Insert(x, ys[1..], le));
    }
  }

  lemma {:induction false} InsertSorts<T(!new)>(x: T, ys: seq<T>, le: (T, T) -> bool)
    requires TotalPreorder(le) && Sorted(le, ys)
    ensures Sorted(le, Insert(x, ys, le))
  {
    if ys == [] {
    } else if le(x, ys[0]) {
      forall j | 0 <= j < |ys| ensures le(x, ys[j]) {
        if j > 0 { assert le(ys[0], ys[j]); }
      }
    } else {
      var rest := Insert(x, ys[1..], le);
      InsertSorts(x, ys[1..], le);
      InsertKeeps(x, ys[1..], le);
      forall j | 0 <= j < |rest| ensures le(ys[0], rest[j]) {
        assert rest[j] in multiset(rest);
        if rest[j] != x {
          assert rest[j] in multiset(ys[1..]);
          var i :| 0 <= i < |ys[1..]| && ys[1..][i] == rest[j];
          assert le(ys[0], ys[i + 1]);
        }
      }
    }
  }

  /** The result is sorted and a permutation of the input. */
  lemma {:induction false} SortSorts<T(!new)>(xs: seq<T>, le: (T, T) -> bool)
    requires TotalPreorder(le)
    ensures Sorted(le, Sort(xs, le))
    ensures multiset(Sort(xs, le)) == multiset(xs)
  {
    if xs == [] {
    } else {
      SortSorts(xs[1..], le);
      InsertSorts(xs[0], Sort(xs[1..], le), le);
      InsertKeeps(xs[0], Sort(xs[1..], le), le);
      assert xs == [xs[0]] + xs[1..];
    }
  }

  lemma {:induction false} SortMembers<T(!new)>(xs: seq<T>, le: (T, T) -> bool, x: T)
    requires TotalPreorder(le)
    ensures x in Sort(xs, le) <==> x in xs
  {
    SortSorts(xs, le);
    assert x in multiset(Sort(xs, le)) <==> x in multiset(xs);
  }

  /** Two sorted lists with the same elements are equal when equal keys mean equal elements. */
  lemma {:induction false} SortedIsUnique<T(!new)>(xs: seq<T>, ys: seq<T>, le: (T, T) -> bool)
    requires TotalPreorder(le) && Sorted(le, xs) && Sorted(le, ys)
    requires multiset(xs) == multiset(ys)
    requires forall x, y :: x in xs && y in xs && le(x, y) && le(y, x) ==> x == y
    ensures xs == ys
  {
    assert |multiset(xs)| == |xs| && |multiset(ys)| == |ys|;
    if xs != [] {
      HeadsAgree(xs, ys, le);
      TailsAgree(xs, ys);
      TailMembers(xs);
      TailMembers(ys);
      SortedIsUnique(xs[1..], ys[1..], le);
      assert xs == [xs[0]] + xs[1..] && ys == [ys[0]] + ys[1..];
    }
  }

  lemma {:induction false} TailMembers<T>(xs: seq<T>)
    requires xs != []
    ensures forall x :: x in xs[1..] ==> x in xs
  {}

  lemma {:induction false} HeadsAgree<T(!new)>(xs: seq<T>, ys: seq<T>, le: (T, T) -> bool)
    requires TotalPreorder(le) && Sorted(le, xs) && Sorted(le, ys)
    requires multiset(xs) == multiset(ys) && xs != [] && ys != []
    requires forall x, y :: x in xs && y in xs && le(x, y) && le(y, x) ==> x == y
    ensures xs[0] == ys[0]
  {
    HeadIsLeast(xs, ys, le);
    HeadIsLeast(ys, xs, le);
    assert ys[0] in multiset(xs);
  }

  lemma {:induction false} TailsAgree<T>(xs: seq<T>, ys: seq<T>)
    requires xs != [] && ys != [] && xs[0] == ys[0] && multiset(xs) == multiset(ys)
    ensures multiset(xs[1..]) == multiset(ys[1..])
  {
    assert xs == [xs[0]] + xs[1..] && ys == [ys[0]] + ys[1..];
    assert multiset(xs[1..]) == multiset(xs) - multiset{xs[0]};
    assert multiset(ys[1..]) == multiset(ys) - multiset{ys[0]};
  }

  lemma {:induction false} HeadIsLeast<T(!new)>(xs: seq<T>, ys: seq<T>, le: (T, T) -> bool)
    requires TotalPreorder(le) && Sorted(le, ys) && multiset(xs) == multiset(ys) && xs != [] && ys != []
    ensures le(ys[0], xs[0])
  {
    assert xs[0] in multiset(ys);
    var i :| 0 <= i < |ys| && ys[i] == xs[0];
    if i == 0 { assert le(ys[0], ys[0]); } else { assert le(ys[0], ys[i]); }
  }

  /** Sorting forgets the order of the input when keys are distinct. */
  lemma {:induction false} SortForgetsOrder<T(!new)>(xs: seq<T>, ys: seq<T>, le: (T, T) -> bool)
    requires TotalPreorder(le) && multiset(xs) == multiset(ys)
    requires forall x, y :: x in xs && y in xs && le(x, y) && le(y, x) ==> x == y
    ensures Sort(xs, le) == Sort(ys, le)
  {
    SortSorts(xs, le);
    SortSorts(ys, le);
    forall x | x in Sort(xs, le) ensures x in xs { assert x in multiset(Sort(xs, le)); }
    SortedIsUnique(Sort(xs, le), Sort(ys, le), le);
  }

  // ----- strings -----

  /** a <= b in code point order. */
  predicate StrLe(a: string, b: string) {
    a == "" || (b != "" && (a[0] < b[0] || (a[0] == b[0] && StrLe(a[1..], b[1..]))))
  }

  lemma {:induction false} StrLeTotal(a: string, b: string)
    ensures StrLe(a, b) || StrLe(b, a)
    ensures StrLe(a, b) && StrLe(b, a) ==> a == b
  {
    if a != "" && b != "" && a[0] == b[0] {
      StrLeTotal(a[1..], b[1..]);
      assert a == [a[0]] + a[1..] && b == [b[0]] + b[1..];
    }
  }

  lemma {:induction false} StrLeTransitive(a: string, b: string, c: string)
    requires StrLe(a, b) && StrLe(b, c)
    ensures StrLe(a, c)
  {
    if a != "" && a[0] == b[0] == c[0] {
      StrLeTransitive(a[1..], b[1..], c[1..]);
    }
  }

  lemma {:induction false} StrLeIsTotalPreorder()
    ensures TotalPreorder(StrLe)
    ensures forall x, y :: StrLe(x, y) && StrLe(y, x) ==> x == y
  {
    forall x, y ensures (StrLe(x, y) || StrLe(y, x)) && (StrLe(x, y) && StrLe(y, x) ==> x == y) {
      StrLeTotal(x, y);
    }
    forall x, y, z | StrLe(x, y) && StrLe(y, z) ensures StrLe(x, z) { StrLeTransitive(x, y, z); }
  }
}
