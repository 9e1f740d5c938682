/**
 The library's stable sort, as what it promises: in order, and for every key the same elements in
 the same order as before. Those two together leave only one possible result.
 */
module StableSort {
  ghost predicate Sorted<T>(items: seq<T>, key: T -> int) {
    forall i, j :: 0 <= i < j < |items| ==> key(items[i]) <= key(items[j])
  }

  /** The elements with one key, in order. */
  function WithKey<T>(items: seq<T>, key: T -> int, k: int): seq<T> {
    if items == [] then []
    else (if key(items[0]) == k then [items[0]] else []) + WithKey(items[1..], key, k)
  }

  /** Puts an element before everything that does not sort before it. */
  function Insert<T>(x: T, items: seq<T>, key: T -> int): seq<T> {
    if items == [] || key(x) <= key(items[0]) then [x] + items
    else [items[0]] + Insert(x, items[1..], key)
  }

  function Sort<T>(items: seq<T>, key: T -> int): seq<T> {
    if items == [] then [] else Insert(items[0], Sort(items[1..], key), key)
  }

  ghost predicate AtLeast<T>(b: int, items: seq<T>, key: T -> int) {
    forall i :: 0 <= i < |items| ==> b <= key(items[i])
  }

  lemma SortedCons<T>(x: T, items: seq<T>, key: T -> int)
    requires Sorted(items, key) && AtLeast(key(x), items, key)
    ensures Sorted([x] + items, key)
  {
  }

  lemma {:induction false} InsertAtLeast<T>(b: int, x: T, items: seq<T>, key: T -> int)
    requires b <= key(x) && AtLeast(b, items, key)
    ensures AtLeast(b, Insert(x, items, key), key)
  {
    if items != [] && key(x) > key(items[0]) {
      InsertAtLeast(b, x, items[1..], key);
    }
  }

  lemma {:induction false} InsertKeepsSorted<T>(x: T, items: seq<T>, key: T -> int)
    requires Sorted(items, key)
    ensures Sorted(Insert(x, items, key), key)
  {
    if items == [] || key(x) <= key(items[0]) {
      SortedCons(x, items, key);
    } else {
      InsertKeepsSorted(x, items[1..], key);
      InsertAtLeast(key(items[0]), x, items[1..], key);
      SortedCons(items[0], Insert(x, items[1..], key), key);
    }
  }

  lemma {:induction false} InsertKeepsElements<T>(x: T, items: seq<T>, key: T -> int)
    ensures multiset(Insert(x, items, key)) == multiset([x]) + multiset(items)
  {
    if items != [] && key(x) > key(items[0]) {
      InsertKeepsElements(x, items[1..], key);
      assert items == [items[0]] + items[1..];
    }
  }

  lemma {:induction false} InsertWithKey<T>(x: T, items: seq<T>, key: T -> int, k: int)
    ensures WithKey(Insert(x, items, key), key, k) == (if key(x) == k then [x] else []) + WithKey(items, key, k)
  {
    if items == [] || key(x) <= key(items[0]) {
      assert ([x] + items)[1..] == items;
    } else {
      InsertWithKey(x, items[1..], key, k);
      assert Insert(x, items, key)[1..] == Insert(x, items[1..], key);
    }
  }

  /** The sort is in order, keeps every element, and keeps the order of those with equal keys. */
  lemma {:induction false} SortIsStable<T>(items: seq<T>, key: T -> int)
    ensures Sorted(Sort(items, key), key)
    ensures multiset(Sort(items, key)) == multiset(items)
    ensures |Sort(items, key)| == |items|
    ensures forall k :: WithKey(Sort(items, key), key, k) == WithKey(items, key, k)
  {
    if items == [] {
    } else {
      SortIsStable(items[1..], key);
      InsertKeepsSorted(items[0], Sort(items[1..], key), key);
      InsertKeepsElements(items[0], Sort(items[1..], key), key);
      assert items == [items[0]] + items[1..];
      forall k ensures WithKey(Sort(items, key), key, k) == WithKey(items, key, k) {
        InsertWithKey(items[0], Sort(items[1..], key), key, k);
      }
      SameSize(Sort(items, key), items);
    }
  }

  lemma SameSize<T>(a: seq<T>, b: seq<T>)
    requires multiset(a) == multiset(b)
    ensures |a| == |b|
  {
    assert |multiset(a)| == |a| && |multiset(b)| == |b|;
  }

  lemma {:induction false} WithKeyHead<T>(items: seq<T>, key: T -> int, k: int)
    requires WithKey(items, key, k) != []
    ensures exists i :: 0 <= i < |items| && key(items[i]) == k
  {
    if key(items[0]) != k {
      WithKeyHead(items[1..], key, k);
      var i :| 0 <= i < |items[1..]| && key(items[1..][i]) == k;
      assert key(items[i + 1]) == k;
    }
  }

  /** Nothing else is in order with the same elements per key: the promise decides the result. */
  lemma {:induction false} StableIsUnique<T>(a: seq<T>, b: seq<T>, key: T -> int)
    requires Sorted(a, key) && Sorted(b, key)
    requires forall k :: WithKey(a, key, k) == WithKey(b, key, k)
    ensures a == b
  {
    if a != [] {
      WithKeyHead(b, key, key(a[0]));
    }
    if b != [] {
      WithKeyHead(a, key, key(b[0]));
    }
    if a != [] {
      assert key(a[0]) == key(b[0]);
      assert WithKey(a, key, key(a[0])) == WithKey(b, key, key(a[0]));
      assert a[0] == b[0];
      forall k ensures WithKey(a[1..], key, k) == WithKey(b[1..], key, k) {
        assert WithKey(a, key, k) == WithKey(b, key, k);
        var head := if key(a[0]) == k then [a[0]] else [];
        assert WithKey(a, key, k)[|head|..] == WithKey(a[1..], key, k);
        assert WithKey(b, key, k)[|head|..] == WithKey(b[1..], key, k);
      }
      StableIsUnique(a[1..], b[1..], key);
      assert a == [a[0]] + a[1..] && b == [b[0]] + b[1..];
    }
  }
}
