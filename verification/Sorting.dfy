/**
 Python's `sorted(xs, key=f)`: a stable sort. `sorted(xs, key=f, reverse=True)` keeps
 equal elements in their original order too, so it is the sort by the negated key.
 */
module Sorting {

  predicate SortedBy<T(!new)>(key: T -> real, xs: seq<T>) {
    forall i, j :: 0 <= i < j < |xs| ==> key(xs[i]) <= key(xs[j])
  }

  /** The elements of `xs` whose key is `v`, in order. */
  function WithKey<T>(key: T -> real, v: real, xs: seq<T>): seq<T> {
    if xs == [] then []
    else (if key(xs[0]) == v then [xs[0]] else []) + WithKey(key, v, xs[1..])
  }

  function Insert<T>(key: T -> real, x: T, xs: seq<T>): (ys: seq<T>)
    ensures |ys| == |xs| + 1
  {
    if xs == [] || key(x) <= key(xs[0]) then [x] + xs
    else [xs[0]] + Insert(key, x, xs[1..])
  }

  function StableSort<T>(key: T -> real, xs: seq<T>): (ys: seq<T>)
    ensures |ys| == |xs|
  {
    if xs == [] then [] else Insert(key, xs[0], StableSort(key, xs[1..]))
  }

  lemma {:induction false} InsertPermutes<T>(key: T -> real, x: T, xs: seq<T>)
    ensures multiset(Insert(key, x, xs)) == multiset(xs) + multiset{x}
  {
    if xs == [] || key(x) <= key(xs[0]) {
    } else {
      assert xs == [xs[0]] + xs[1..];
      InsertPermutes(key, x, xs[1..]);
    }
  }

  lemma {:induction false} InsertSorted<T(!new)>(key: T -> real, x: T, xs: seq<T>)
    requires SortedBy(key, xs)
    ensures SortedBy(key, Insert(key, x, xs))
  {
    if xs == [] {
    } else if key(x) <= key(xs[0]) {
      var ys := [x] + xs;
      forall i, j | 0 <= i < j < |ys|
        ensures key(ys[i]) <= key(ys[j])
      {
        assert ys[j] == xs[j - 1] && key(xs[0]) <= key(xs[j - 1]);
      }
    } else {
      var rest := xs[1..];
      InsertSorted(key, x, rest);
      var tail := Insert(key, x, rest);
      InsertPermutes(key, x, rest);
      forall j | 0 <= j < |tail|
        ensures key(xs[0]) <= key(tail[j])
      {
        assert tail[j] in multiset(tail);
        if tail[j] != x {
          assert tail[j] in rest;
        }
      }
    }
  }

  lemma {:induction false} InsertStable<T(!new)>(key: T -> real, x: T, xs: seq<T>, v: real)
    requires SortedBy(key, xs)
    ensures WithKey(key, v, Insert(key, x, xs)) == WithKey(key, v, [x] + xs)
  {
    assert ([x] + xs)[1..] == xs;
    if xs == [] || key(x) <= key(xs[0]) {
    } else {
      InsertStable(key, x, xs[1..], v);
      assert ([x] + xs[1..])[1..] == xs[1..];
      assert Insert(key, x, xs)[1..] == Insert(key, x, xs[1..]);
    }
  }

  /** The result is in key order, a permutation, and keeps equal keys in their original order. */
  lemma {:induction false} StableSortCorrect<T(!new)>(key: T -> real, xs: seq<T>)
    ensures SortedBy(key, StableSort(key, xs))
    ensures multiset(StableSort(key, xs)) == multiset(xs)
    ensures forall v :: WithKey(key, v, StableSort(key, xs)) == WithKey(key, v, xs)
  {
    if xs == [] {
    } else {
      var rest := xs[1..];
      assert xs == [xs[0]] + rest;
      StableSortCorrect(key, rest);
      var sorted := StableSort(key, rest);
      InsertSorted(key, xs[0], sorted);
      InsertPermutes(key, xs[0], sorted);
      forall v
        ensures WithKey(key, v, StableSort(key, xs)) == WithKey(key, v, xs)
      {
        InsertStable(key, xs[0], sorted, v);
        assert ([xs[0]] + sorted)[1..] == sorted;
      }
    }
  }

  /** Sorting a sequence that is already in key order changes nothing. */
  lemma {:induction false} SortedStays<T(!new)>(key: T -> real, xs: seq<T>)
    requires SortedBy(key, xs)
    ensures StableSort(key, xs) == xs
  {
    if xs == [] {
    } else {
      SortedStays(key, xs[1..]);
    }
  }

  ghost predicate DistinctKeys<T(!new)>(key: T -> real, m: multiset<T>) {
    forall x, y :: x in m && y in m && key(x) == key(y) ==> x == y
  }

  /** When no two different elements share a key, the order of the input does not matter. */
  lemma {:induction false} SortedUnique<T(!new)>(key: T -> real, xs: seq<T>, ys: seq<T>)
    requires SortedBy(key, xs) && SortedBy(key, ys) && multiset(xs) == multiset(ys)
    requires DistinctKeys(key, multiset(xs))
    ensures xs == ys
  {
    hide SortedBy, DistinctKeys;
    assert |multiset(xs)| == |xs| && |multiset(ys)| == |ys|;
    if xs == [] {
    } else {
      SameFirst(key, xs, ys);
      TailSorted(key, xs);
      TailSorted(key, ys);
      SameTails(xs, ys);
      FewerDistinct(key, xs);
      SortedUnique(key, xs[1..], ys[1..]);
    }
  }

  lemma {:induction false} SameTails<T>(xs: seq<T>, ys: seq<T>)
    requires multiset(xs) == multiset(ys) && xs != [] && ys != [] && xs[0] == ys[0]
    ensures multiset(xs[1..]) == multiset(ys[1..])
    ensures xs[1..] == ys[1..] ==> xs == ys
  {
    assert xs == [xs[0]] + xs[1..] && ys == [ys[0]] + ys[1..];
    assert multiset(xs[1..]) == multiset(xs) - multiset{xs[0]};
    assert multiset(ys[1..]) == multiset(ys) - multiset{ys[0]};
  }

  lemma {:induction false} FewerDistinct<T(!new)>(key: T -> real, xs: seq<T>)
    requires xs != [] && DistinctKeys(key, multiset(xs))
    ensures DistinctKeys(key, multiset(xs[1..]))
  {
    assert xs == [xs[0]] + xs[1..];
  }

  lemma {:induction false} TailSorted<T(!new)>(key: T -> real, xs: seq<T>)
    requires SortedBy(key, xs) && xs != []
    ensures SortedBy(key, xs[1..])
  {
  }

  lemma {:induction false} SameFirst<T(!new)>(key: T -> real, xs: seq<T>, ys: seq<T>)
    requires SortedBy(key, xs) && SortedBy(key, ys) && multiset(xs) == multiset(ys)
    requires DistinctKeys(key, multiset(xs)) && xs != [] && ys != []
    ensures xs[0] == ys[0]
  {
    assert xs[0] in multiset(ys) && ys[0] in multiset(xs);
    LeastFirst(key, xs, ys[0]);
    LeastFirst(key, ys, xs[0]);
  }

  lemma {:induction false} LeastFirst<T(!new)>(key: T -> real, xs: seq<T>, x: T)
    requires SortedBy(key, xs) && x in multiset(xs) && xs != []
    ensures key(xs[0]) <= key(x)
  {
  }
}
