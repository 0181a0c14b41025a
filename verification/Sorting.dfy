/** Python's stable `list.sort(key=...)`, and what selecting from a sorted list preserves. */
module Sorting {

  ghost predicate SortedBy<T(!new)>(xs: seq<T>, key: T -> real) {
    forall i, j :: 0 <= i < j < |xs| ==> key(xs[i]) <= key(xs[j])
  }

  function Filter<T(!new)>(xs: seq<T>, p: T -> bool): (r: seq<T>)
    ensures forall x :: x in r <==> x in xs && p(x)
  {
    if xs == [] then []
    else (if p(xs[0]) then [xs[0]] else []) + Filter(xs[1..], p)
  }

  function Insert<T(!new)>(x: T, ys: seq<T>, key: T -> real): seq<T> {
    if ys == [] || key(x) <= key(ys[0]) then [x] + ys
    else [ys[0]] + Insert(x, ys[1..], key)
  }

  /** The earlier of two equal keys stays earlier. */
  function StableSort<T(!new)>(xs: seq<T>, key: T -> real): seq<T> {
    if xs == [] then [] else Insert(xs[0], StableSort(xs[1..], key), key)
  }

  lemma {:induction false} InsertElements<T(!new)>(x: T, ys: seq<T>, key: T -> real)
    ensures multiset(Insert(x, ys, key)) == multiset{x} + multiset(ys)
  {
    if !(ys == [] || key(x) <= key(ys[0])) {
      InsertElements(x, ys[1..], key);
      assert ys == [ys[0]] + ys[1..];
    }
  }

  lemma ConsSorted<T(!new)>(x: T, ys: seq<T>, key: T -> real)
    requires SortedBy(ys, key) && forall y :: y in ys ==> key(x) <= key(y)
    ensures SortedBy([x] + ys, key)
  {
  }

  lemma {:induction false} InsertSorted<T(!new)>(x: T, ys: seq<T>, key: T -> real)
    requires SortedBy(ys, key)
    ensures SortedBy(Insert(x, ys, key), key)
  {
    if ys == [] || key(x) <= key(ys[0]) {
      ConsSorted(x, ys, key);
    } else {
      InsertSorted(x, ys[1..], key);
      var rest := Insert(x, ys[1..], key);
      InsertElements(x, ys[1..], key);
      forall y | y in rest ensures key(ys[0]) <= key(y) {
        assert y in multiset(rest);
        assert y == x || y in multiset(ys[1..]);
      }
      ConsSorted(ys[0], rest, key);
    }
  }

  lemma {:induction false} SortSorted<T(!new)>(xs: seq<T>, key: T -> real)
    ensures SortedBy(StableSort(xs, key), key)
    ensures multiset(StableSort(xs, key)) == multiset(xs)
  {
    if xs != [] {
      SortSorted(xs[1..], key);
      InsertSorted(xs[0], StableSort(xs[1..], key), key);
      InsertElements(xs[0], StableSort(xs[1..], key), key);
      assert xs == [xs[0]] + xs[1..];
    }
  }

  lemma {:induction false} FilterSorted<T(!new)>(xs: seq<T>, p: T -> bool, key: T -> real)
    requires SortedBy(xs, key)
    ensures SortedBy(Filter(xs, p), key)
  {
    if xs != [] {
      assert forall y :: y in xs[1..] ==> key(xs[0]) <= key(y);
      FilterSorted(xs[1..], p, key);
    }
  }

  lemma FilterCons<T(!new)>(x: T, ys: seq<T>, p: T -> bool)
    ensures Filter([x] + ys, p) == (if p(x) then [x] else []) + Filter(ys, p)
  {
    assert ([x] + ys)[1..] == ys;
  }

  lemma {:induction false} InsertFilter<T(!new)>(x: T, ys: seq<T>, p: T -> bool, key: T -> real)
    requires p(x) ==> forall y :: y in Filter(ys, p) ==> key(x) <= key(y)
    ensures Filter(Insert(x, ys, key), p) == (if p(x) then [x] else []) + Filter(ys, p)
  {
    if ys == [] || key(x) <= key(ys[0]) {
      FilterCons(x, ys, p);
    } else {
      assert p(ys[0]) ==> ys[0] in Filter(ys, p);
      var first := if p(ys[0]) then [ys[0]] else [];
      assert Filter(ys, p) == first + Filter(ys[1..], p);
      InsertFilter(x, ys[1..], p, key);
      FilterCons(ys[0], Insert(x, ys[1..], key), p);
      if p(x) {
        assert first == [];
        assert Filter(ys, p) == Filter(ys[1..], p);
      } else {
        assert [] + Filter(ys[1..], p) == Filter(ys[1..], p);
      }
    }
  }

  lemma {:induction false} SortFilter<T(!new)>(xs: seq<T>, p: T -> bool, key: T -> real)
    requires SortedBy(Filter(xs, p), key)
    ensures Filter(StableSort(xs, key), p) == Filter(xs, p)
  {
    if xs != [] {
      var rest := Filter(xs[1..], p);
      var own := Filter(xs, p);
      if p(xs[0]) {
        assert own == [xs[0]] + rest;
        forall i, j | 0 <= i < j < |rest| ensures key(rest[i]) <= key(rest[j]) {
          assert own[i + 1] == rest[i] && own[j + 1] == rest[j];
        }
        assert forall j :: 0 <= j < |rest| ==> own[0] == xs[0] && own[j + 1] == rest[j];
      } else {
        assert own == rest;
      }
      SortFilter(xs[1..], p, key);
      InsertFilter(xs[0], StableSort(xs[1..], key), p, key);
    }
  }

  /** Selecting from the sorted list gives the original order exactly when that order was sorted. */
  lemma SelectFromSorted<T(!new)>(xs: seq<T>, p: T -> bool, key: T -> real)
    ensures Filter(StableSort(xs, key), p) == Filter(xs, p) <==> SortedBy(Filter(xs, p), key)
  {
    SortSorted(xs, key);
    FilterSorted(StableSort(xs, key), p, key);
    if SortedBy(Filter(xs, p), key) {
      SortFilter(xs, p, key);
    }
  }

  function HasKey<T(!new)>(key: T -> real, k: real): T -> bool {
    x => key(x) == k
  }

  /** The elements with one key. */
  function Tied<T(!new)>(xs: seq<T>, key: T -> real, k: real): seq<T> {
    Filter(xs, HasKey(key, k))
  }

  /** Stability: elements with equal keys keep their order. */
  lemma SortStable<T(!new)>(xs: seq<T>, key: T -> real, k: real)
    ensures Tied(StableSort(xs, key), key, k) == Tied(xs, key, k)
  {
    var tied := Tied(xs, key, k);
    forall i | 0 <= i < |tied| ensures key(tied[i]) == k {
      assert tied[i] in tied;
    }
    SortFilter(xs, HasKey(key, k), key);
  }

  lemma LeastFirst<T(!new)>(a: seq<T>, key: T -> real, x: T)
    requires SortedBy(a, key) && x in a
    ensures key(a[0]) <= key(x)
  {
  }

  lemma SameHead<T(!new)>(a: seq<T>, b: seq<T>, key: T -> real)
    requires a != [] && SortedBy(a, key) && SortedBy(b, key)
    requires forall k :: Tied(a, key, k) == Tied(b, key, k)
    ensures b != [] && a[0] == b[0]
  {
    var k := key(a[0]);
    assert a[0] in Tied(a, key, k) && a[0] in Tied(b, key, k);
    var m := key(b[0]);
    assert b[0] in Tied(b, key, m) && Tied(a, key, m) == Tied(b, key, m);
    LeastFirst(a, key, b[0]);
    LeastFirst(b, key, a[0]);
    FilterCons(a[0], a[1..], HasKey(key, k));
    FilterCons(b[0], b[1..], HasKey(key, k));
    assert a == [a[0]] + a[1..] && b == [b[0]] + b[1..];
    assert Tied(a, key, k)[0] == a[0] && Tied(b, key, k)[0] == b[0];
  }

  lemma BothEmpty<T(!new)>(a: seq<T>, b: seq<T>, key: T -> real)
    requires forall k :: Tied(a, key, k) == Tied(b, key, k)
    ensures a == [] <==> b == []
  {
    if b != [] {
      assert b[0] in Tied(b, key, key(b[0])) && Tied(a, key, key(b[0])) == Tied(b, key, key(b[0]));
    }
    if a != [] {
      assert a[0] in Tied(a, key, key(a[0])) && Tied(a, key, key(a[0])) == Tied(b, key, key(a[0]));
    }
  }

  lemma TailTied<T(!new)>(x: T, a: seq<T>, b: seq<T>, key: T -> real, k: real)
    requires Tied([x] + a, key, k) == Tied([x] + b, key, k)
    ensures Tied(a, key, k) == Tied(b, key, k)
  {
    FilterCons(x, a, HasKey(key, k));
    FilterCons(x, b, HasKey(key, k));
    var first := if key(x) == k then [x] else [];
    assert (first + Tied(a, key, k))[|first|..] == Tied(a, key, k);
    assert (first + Tied(b, key, k))[|first|..] == Tied(b, key, k);
  }

  /** Sorted order and the order among ties determine the list. */
  lemma {:induction false} SortedUnique<T(!new)>(a: seq<T>, b: seq<T>, key: T -> real)
    requires SortedBy(a, key) && SortedBy(b, key)
    requires forall k :: Tied(a, key, k) == Tied(b, key, k)
    ensures a == b
    decreases |a|
  {
    BothEmpty(a, b, key);
    if a != [] {
      SameHead(a, b, key);
      assert a == [a[0]] + a[1..] && b == [a[0]] + b[1..];
      forall k: real ensures Tied(a[1..], key, k) == Tied(b[1..], key, k) {
        assert Tied(a, key, k) == Tied(b, key, k);
        TailTied(a[0], a[1..], b[1..], key, k);
      }
      SortedUnique(a[1..], b[1..], key);
    }
  }

  ghost predicate DistinctBy<T(!new), K(!new)>(xs: seq<T>, tag: T -> K) {
    forall i, j :: 0 <= i < j < |xs| ==> tag(xs[i]) != tag(xs[j])
  }

  lemma {:induction false} InsertDistinct<T(!new), K(!new)>(x: T, ys: seq<T>, tag: T -> K, key: T -> real)
    requires DistinctBy(ys, tag) && forall y :: y in ys ==> tag(y) != tag(x)
    ensures DistinctBy(Insert(x, ys, key), tag)
  {
    if !(ys == [] || key(x) <= key(ys[0])) {
      var rest := Insert(x, ys[1..], key);
      InsertDistinct(x, ys[1..], tag, key);
      InsertElements(x, ys[1..], key);
      forall y | y in rest ensures tag(y) != tag(ys[0]) {
        assert y in multiset(rest);
        assert y == x || y in multiset(ys[1..]);
      }
    }
  }

  /** A sorted list has the same members, as many, and tags that were distinct stay distinct. */
  lemma {:induction false} SortKeeps<T(!new), K(!new)>(xs: seq<T>, tag: T -> K, key: T -> real)
    ensures forall x :: x in StableSort(xs, key) <==> x in xs
    ensures |StableSort(xs, key)| == |xs|
    ensures DistinctBy(xs, tag) ==> DistinctBy(StableSort(xs, key), tag)
  {
    SortSorted(xs, key);
    var sorted := StableSort(xs, key);
    assert |multiset(sorted)| == |multiset(xs)|;
    forall x ensures x in sorted <==> x in xs {
      assert x in sorted <==> x in multiset(sorted);
      assert x in xs <==> x in multiset(xs);
    }
    if xs != [] && DistinctBy(xs, tag) {
      SortKeeps(xs[1..], tag, key);
      InsertDistinct(xs[0], StableSort(xs[1..], key), tag, key);
    }
  }
}
