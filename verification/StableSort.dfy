/** The merge sort of GLib's g_list_sort, for any comparator: split in the middle, merge,
    and let the left half win ties. */
module StableSort {

  function Merge<T>(xs: seq<T>, ys: seq<T>, before: (T, T) -> bool): seq<T>
    decreases |xs| + |ys|
  {
    if xs == [] then ys
    else if ys == [] then xs
    else if before(xs[0], ys[0]) then [xs[0]] + Merge(xs[1..], ys, before)
    else [ys[0]] + Merge(xs, ys[1..], before)
  }

  function Sort<T>(xs: seq<T>, before: (T, T) -> bool): seq<T> {
    if |xs| < 2 then xs
    else Merge(Sort(xs[..|xs| / 2], before), Sort(xs[|xs| / 2..], before), before)
  }

  /** The comparator agrees with the order of some key on the elements of a list. */
  ghost predicate Reflects<T, K>(list: seq<T>, before: (T, T) -> bool, key: T -> K, atLeast: (K, K) -> bool) {
    forall a, b :: a in list && b in list ==> (before(a, b) <==> atLeast(key(a), key(b)))
  }

  ghost predicate TotalOrder<K(!new)>(atLeast: (K, K) -> bool) {
    && (forall a, b :: atLeast(a, b) || atLeast(b, a))
    && (forall a, b :: atLeast(a, b) && atLeast(b, a) ==> a == b)
    && (forall a, b, c :: atLeast(a, b) && atLeast(b, c) ==> atLeast(a, c))
  }

  ghost predicate Ordered<T, K>(list: seq<T>, key: T -> K, atLeast: (K, K) -> bool) {
    forall i, j :: 0 <= i < j < |list| ==> atLeast(key(list[i]), key(list[j]))
  }

  /** The elements with one key, in list order. */
  function WithKey<T, K(==)>(list: seq<T>, key: T -> K, k: K): seq<T> {
    if list == [] then []
    else if key(list[0]) == k then [list[0]] + WithKey(list[1..], key, k)
    else WithKey(list[1..], key, k)
  }

  lemma FirstAndRest<T>(xs: seq<T>, merged: seq<T>)
    requires xs != []
    ensures multiset(xs) == multiset{xs[0]} + multiset(xs[1..])
    ensures multiset([xs[0]] + merged) == multiset{xs[0]} + multiset(merged)
  {
    assert xs == [xs[0]] + xs[1..];
  }

  lemma {:induction false} MergeKeepsElements<T>(xs: seq<T>, ys: seq<T>, before: (T, T) -> bool)
    ensures multiset(Merge(xs, ys, before)) == multiset(xs) + multiset(ys)
    decreases |xs| + |ys|
  {
    if xs != [] && ys != [] {
      if before(xs[0], ys[0]) {
        MergeKeepsElements(xs[1..], ys, before);
        FirstAndRest(xs, Merge(xs[1..], ys, before));
      } else {
        MergeKeepsElements(xs, ys[1..], before);
        FirstAndRest(ys, Merge(xs, ys[1..], before));
      }
    }
  }

  lemma {:induction false} SortKeepsElements<T>(xs: seq<T>, before: (T, T) -> bool)
    ensures multiset(Sort(xs, before)) == multiset(xs)
    ensures |Sort(xs, before)| == |xs|
  {
    if |xs| >= 2 {
      var l, r := xs[..|xs| / 2], xs[|xs| / 2..];
      SortKeepsElements(l, before);
      SortKeepsElements(r, before);
      MergeKeepsElements(Sort(l, before), Sort(r, before), before);
      assert xs == l + r;
    }
    assert |multiset(Sort(xs, before))| == |multiset(xs)|;
  }

  lemma SameElement<T>(xs: seq<T>, ys: seq<T>, s: T)
    requires multiset(xs) == multiset(ys)
    ensures s in xs <==> s in ys
  {
    assert s in xs <==> s in multiset(xs);
    assert s in ys <==> s in multiset(ys);
  }

  lemma OrderedTail<T, K>(list: seq<T>, key: T -> K, atLeast: (K, K) -> bool)
    requires Ordered(list, key, atLeast) && list != [] && atLeast(key(list[0]), key(list[0]))
    ensures Ordered(list[1..], key, atLeast)
    ensures forall s :: s in list ==> atLeast(key(list[0]), key(s))
  {
  }

  lemma OrderedCons<T, K>(x: T, rest: seq<T>, key: T -> K, atLeast: (K, K) -> bool)
    requires Ordered(rest, key, atLeast)
    requires forall s :: s in rest ==> atLeast(key(x), key(s))
    ensures Ordered([x] + rest, key, atLeast)
  {
  }

  /** What precedes everything in two lists precedes their merge. */
  lemma {:induction false} MergedFollow<T, K>(x: T, xs: seq<T>, ys: seq<T>, before: (T, T) -> bool,
                           key: T -> K, atLeast: (K, K) -> bool)
    requires forall s :: s in xs ==> atLeast(key(x), key(s))
    requires forall s :: s in ys ==> atLeast(key(x), key(s))
    ensures forall s :: s in Merge(xs, ys, before) ==> atLeast(key(x), key(s))
  {
    MergeKeepsElements(xs, ys, before);
    forall s | s in Merge(xs, ys, before)
      ensures atLeast(key(x), key(s))
    {
      assert s in multiset(Merge(xs, ys, before));
    }
  }

  lemma {:induction false} MergeOrders<T, K(!new)>(xs: seq<T>, ys: seq<T>, before: (T, T) -> bool,
                                             key: T -> K, atLeast: (K, K) -> bool)
    requires TotalOrder(atLeast) && Reflects(xs + ys, before, key, atLeast)
    requires Ordered(xs, key, atLeast) && Ordered(ys, key, atLeast)
    ensures Ordered(Merge(xs, ys, before), key, atLeast)
    decreases |xs| + |ys|
  {
    if xs != [] && ys != [] {
      var x, y := xs[0], ys[0];
      assert x in xs + ys && y in xs + ys;
      OrderedTail(xs, key, atLeast);
      OrderedTail(ys, key, atLeast);
      if before(x, y) {
        assert forall s :: s in xs[1..] + ys ==> s in xs + ys;
        MergeOrders(xs[1..], ys, before, key, atLeast);
        MergedFollow(x, xs[1..], ys, before, key, atLeast);
        OrderedCons(x, Merge(xs[1..], ys, before), key, atLeast);
      } else {
        assert forall s :: s in xs + ys[1..] ==> s in xs + ys;
        MergeOrders(xs, ys[1..], before, key, atLeast);
        MergedFollow(y, xs, ys[1..], before, key, atLeast);
        OrderedCons(y, Merge(xs, ys[1..], before), key, atLeast);
      }
    }
  }

  lemma {:induction false} WithKeyConcat<T, K>(xs: seq<T>, ys: seq<T>, key: T -> K, k: K)
    ensures WithKey(xs + ys, key, k) == WithKey(xs, key, k) + WithKey(ys, key, k)
  {
    if xs == [] {
      assert xs + ys == ys;
    } else {
      WithKeyConcat(xs[1..], ys, key, k);
      assert (xs + ys)[1..] == xs[1..] + ys;
    }
  }

  lemma {:induction false} WithKeyEmpty<T, K>(xs: seq<T>, key: T -> K, k: K)
    requires forall s :: s in xs ==> key(s) != k
    ensures WithKey(xs, key, k) == []
  {
    if xs != [] {
      WithKeyEmpty(xs[1..], key, k);
    }
  }

  lemma {:induction false} WithKeyCons<T, K>(x: T, rest: seq<T>, key: T -> K, k: K)
    ensures WithKey([x] + rest, key, k) == if key(x) == k then [x] + WithKey(rest, key, k) else WithKey(rest, key, k)
  {
    assert ([x] + rest)[1..] == rest;
  }

  /** A key that the head of an ordered list does not reach is not in the list. */
  lemma LaterKeysDiffer<T, K(!new)>(xs: seq<T>, y: T, key: T -> K, atLeast: (K, K) -> bool)
    requires TotalOrder(atLeast) && Ordered(xs, key, atLeast) && xs != [] && !atLeast(key(xs[0]), key(y))
    ensures forall s :: s in xs ==> key(s) != key(y)
  {
    OrderedTail(xs, key, atLeast);
  }

  lemma {:induction false} MergeIsStable<T, K(!new)>(xs: seq<T>, ys: seq<T>, before: (T, T) -> bool,
                                               key: T -> K, atLeast: (K, K) -> bool, k: K)
    requires TotalOrder(atLeast) && Reflects(xs + ys, before, key, atLeast)
    requires Ordered(xs, key, atLeast) && Ordered(ys, key, atLeast)
    ensures WithKey(Merge(xs, ys, before), key, k) == WithKey(xs, key, k) + WithKey(ys, key, k)
    decreases |xs| + |ys|
  {
    if xs != [] && ys != [] {
      var x, y := xs[0], ys[0];
      assert x in xs + ys && y in xs + ys;
      OrderedTail(xs, key, atLeast);
      OrderedTail(ys, key, atLeast);
      if before(x, y) {
        assert forall s :: s in xs[1..] + ys ==> s in xs + ys;
        MergeIsStable(xs[1..], ys, before, key, atLeast, k);
        WithKeyCons(x, Merge(xs[1..], ys, before), key, k);
      } else {
        assert forall s :: s in xs + ys[1..] ==> s in xs + ys;
        MergeIsStable(xs, ys[1..], before, key, atLeast, k);
        WithKeyCons(y, Merge(xs, ys[1..], before), key, k);
        if key(y) == k {
          LaterKeysDiffer(xs, y, key, atLeast);
          WithKeyEmpty(xs, key, k);
        }
      }
    }
  }

  lemma SortedHalvesReflect<T, K>(xs: seq<T>, before: (T, T) -> bool, key: T -> K, atLeast: (K, K) -> bool)
    requires Reflects(xs, before, key, atLeast) && |xs| >= 2
    ensures Reflects(Sort(xs[..|xs| / 2], before) + Sort(xs[|xs| / 2..], before), before, key, atLeast)
  {
    var l, r := xs[..|xs| / 2], xs[|xs| / 2..];
    SortKeepsElements(l, before);
    SortKeepsElements(r, before);
    var halves := Sort(l, before) + Sort(r, before);
    forall a | a in halves
      ensures a in xs
    {
      SameElement(Sort(l, before), l, a);
      SameElement(Sort(r, before), r, a);
    }
  }

  lemma {:induction false} SortIsOrdered<T, K(!new)>(xs: seq<T>, before: (T, T) -> bool,
                                               key: T -> K, atLeast: (K, K) -> bool)
    requires TotalOrder(atLeast) && Reflects(xs, before, key, atLeast)
    ensures Ordered(Sort(xs, before), key, atLeast)
  {
    if |xs| >= 2 {
      var l, r := xs[..|xs| / 2], xs[|xs| / 2..];
      SortIsOrdered(l, before, key, atLeast);
      SortIsOrdered(r, before, key, atLeast);
      SortedHalvesReflect(xs, before, key, atLeast);
      MergeOrders(Sort(l, before), Sort(r, before), before, key, atLeast);
    }
  }

  lemma {:induction false} SortIsStable<T, K(!new)>(xs: seq<T>, before: (T, T) -> bool,
                                              key: T -> K, atLeast: (K, K) -> bool, k: K)
    requires TotalOrder(atLeast) && Reflects(xs, before, key, atLeast)
    ensures WithKey(Sort(xs, before), key, k) == WithKey(xs, key, k)
  {
    if |xs| >= 2 {
      var l, h := xs[..|xs| / 2], xs[|xs| / 2..];
      SortIsStable(l, before, key, atLeast, k);
      SortIsStable(h, before, key, atLeast, k);
      SortIsOrdered(l, before, key, atLeast);
      SortIsOrdered(h, before, key, atLeast);
      SortedHalvesReflect(xs, before, key, atLeast);
      MergeIsStable(Sort(l, before), Sort(h, before), before, key, atLeast, k);
      WithKeyConcat(l, h, key, k);
      assert xs == l + h;
    }
  }
}
