/** The stable sort of the libraries used (`sorted`, `std::stable_sort`, `std::sort` on integers), by a key. */
module StableSort {

  predicate Sorted<T>(s: seq<T>, key: T -> int) {
    forall i, j :: 0 <= i < j < |s| ==> key(s[i]) <= key(s[j])
  }

  predicate StrictlySorted<T>(s: seq<T>, key: T -> int) {
    forall i, j :: 0 <= i < j < |s| ==> key(s[i]) < key(s[j])
  }

  /** Insert behind every element whose key is not greater. */
  function Insert<T>(s: seq<T>, x: T, key: T -> int): (r: seq<T>)
    ensures |r| == |s| + 1
    ensures forall y :: y in r ==> y in s || y == x
  {
    if s == [] || key(s[|s| - 1]) <= key(x) then s + [x]
    else Insert(s[..|s| - 1], x, key) + [s[|s| - 1]]
  }

  function Sort<T>(s: seq<T>, key: T -> int): (r: seq<T>)
    ensures |r| == |s|
    ensures forall y :: y in r ==> y in s
  {
    if s == [] then [] else Insert(Sort(s[..|s| - 1], key), s[|s| - 1], key)
  }

  lemma {:induction false} InsertSorts<T>(s: seq<T>, x: T, key: T -> int)
    requires Sorted(s, key)
    ensures Sorted(Insert(s, x, key), key)
  {
    LastLargest(s, key);
    if s == [] || key(s[|s| - 1]) <= key(x) {
      LargestLast(s, x, key);
    } else {
      var n := |s| - 1;
      assert Sorted(s[..n], key);
      hide Sorted;
      InsertSorts(s[..n], x, key);
      LargestLast(Insert(s[..n], x, key), s[n], key);
    }
  }

  lemma {:induction false} InsertKeeps<T>(s: seq<T>, x: T, key: T -> int)
    ensures multiset(Insert(s, x, key)) == multiset(s) + multiset{x}
  {
    if s != [] && key(s[|s| - 1]) > key(x) {
      InsertKeeps(s[..|s| - 1], x, key);
      LastApart(s);
    }
  }

  lemma LastLargest<T>(s: seq<T>, key: T -> int)
    requires Sorted(s, key)
    ensures forall y :: y in s ==> key(y) <= key(s[|s| - 1])
  {
  }

  lemma LargestLast<T>(s: seq<T>, x: T, key: T -> int)
    requires Sorted(s, key) && forall y :: y in s ==> key(y) <= key(x)
    ensures Sorted(s + [x], key)
  {
  }

  lemma LastApart<T>(s: seq<T>)
    requires s != []
    ensures multiset(s) == multiset(s[..|s| - 1]) + multiset{s[|s| - 1]}
    ensures multiset(s[..|s| - 1]) == multiset(s) - multiset{s[|s| - 1]}
  {
    assert s == s[..|s| - 1] + [s[|s| - 1]];
  }

  lemma {:induction false} SortSorts<T>(s: seq<T>, key: T -> int)
    ensures Sorted(Sort(s, key), key) && multiset(Sort(s, key)) == multiset(s)
  {
    if s != [] {
      SortSorts(s[..|s| - 1], key);
      InsertSorts(Sort(s[..|s| - 1], key), s[|s| - 1], key);
      InsertKeeps(Sort(s[..|s| - 1], key), s[|s| - 1], key);
      LastApart(s);
    }
  }

  /** A sequence with distinct keys is what sorting makes of every permutation of it. */
  lemma {:induction false} SortedUnique<T>(a: seq<T>, b: seq<T>, key: T -> int)
    requires Sorted(a, key) && StrictlySorted(b, key) && multiset(a) == multiset(b)
    ensures a == b
  {
    hide Sorted, StrictlySorted;
    SameLength(a, b);
    if a != [] {
      var m := |a| - 1;
      LastsEqual(a, b, key);
      SortedUnique(a[..m], b[..m], key);
      assert a == a[..m] + [a[m]] && b == b[..m] + [b[m]];
    }
  }

  lemma SameLength<T>(a: seq<T>, b: seq<T>)
    requires multiset(a) == multiset(b)
    ensures |a| == |b|
  {
    assert |multiset(a)| == |a| && |multiset(b)| == |b|;
  }

  lemma LastsEqual<T>(a: seq<T>, b: seq<T>, key: T -> int)
    requires a != [] && |a| == |b| && Sorted(a, key) && StrictlySorted(b, key) && multiset(a) == multiset(b)
    ensures var m := |a| - 1;
            a[m] == b[m] && multiset(a[..m]) == multiset(b[..m]) &&
            Sorted(a[..m], key) && StrictlySorted(b[..m], key)
  {
    LastApart(a);
    LastApart(b);
    assert a[|a| - 1] in multiset(b) && b[|b| - 1] in multiset(a);
    LargestIsLast(a, b, key);
  }

  lemma LargestIsLast<T>(a: seq<T>, b: seq<T>, key: T -> int)
    requires a != [] && b != [] && Sorted(a, key) && StrictlySorted(b, key)
    requires a[|a| - 1] in b && b[|b| - 1] in a
    ensures a[|a| - 1] == b[|b| - 1]
  {
    var i :| 0 <= i < |b| && b[i] == a[|a| - 1];
    var j :| 0 <= j < |a| && a[j] == b[|b| - 1];
    assert key(b[|b| - 1]) <= key(a[|a| - 1]);
  }

  /** The elements with one key, in order. */
  function WithKey<T>(s: seq<T>, key: T -> int, k: int): seq<T> {
    if s == [] then []
    else WithKey(s[..|s| - 1], key, k) + if key(s[|s| - 1]) == k then [s[|s| - 1]] else []
  }

  lemma {:induction false} WithKeyEnd<T>(s: seq<T>, x: T, key: T -> int, k: int)
    ensures WithKey(s + [x], key, k) == WithKey(s, key, k) + if key(x) == k then [x] else []
  {
    assert (s + [x])[..|s|] == s;
  }

  lemma {:induction false} InsertStable<T>(s: seq<T>, x: T, key: T -> int, k: int)
    requires Sorted(s, key)
    ensures WithKey(Insert(s, x, key), key, k) == WithKey(s, key, k) + if key(x) == k then [x] else []
  {
    if s == [] || key(s[|s| - 1]) <= key(x) {
      WithKeyEnd(s, x, key, k);
    } else {
      var n := |s| - 1;
      InsertStable(s[..n], x, key, k);
      WithKeyEnd(Insert(s[..n], x, key), s[n], key, k);
    }
  }

  /** Stability: elements with equal keys keep their order. */
  lemma {:induction false} SortStable<T>(s: seq<T>, key: T -> int, k: int)
    ensures WithKey(Sort(s, key), key, k) == WithKey(s, key, k)
  {
    if s != [] {
      SortStable(s[..|s| - 1], key, k);
      SortSorts(s[..|s| - 1], key);
      InsertStable(Sort(s[..|s| - 1], key), s[|s| - 1], key, k);
    }
  }

  // ---------------------------------------------------------------- sorting what is pointed at

  function Mapped<A, B>(s: seq<A>, f: A -> B): (r: seq<B>)
    ensures |r| == |s|
  {
    if s == [] then [] else Mapped(s[..|s| - 1], f) + [f(s[|s| - 1])]
  }

  lemma MappedEnd<A, B>(s: seq<A>, x: A, f: A -> B)
    ensures Mapped(s + [x], f) == Mapped(s, f) + [f(x)]
  {
    assert (s + [x])[..|s|] == s;
  }

  lemma {:induction false} MappedAgrees<A, B>(s: seq<A>, f: A -> B, g: A -> B)
    requires forall x :: x in s ==> f(x) == g(x)
    ensures Mapped(s, f) == Mapped(s, g)
  {
    if s != [] {
      MappedAgrees(s[..|s| - 1], f, g);
    }
  }

  lemma {:induction false} InsertMapped<A, B>(s: seq<A>, x: A, f: A -> B, ka: A -> int, kb: B -> int)
    requires forall a :: ka(a) == kb(f(a))
    ensures Mapped(Insert(s, x, ka), f) == Insert(Mapped(s, f), f(x), kb)
  {
    if s == [] || ka(s[|s| - 1]) <= ka(x) {
      MappedEnd(s, x, f);
    } else {
      var n, m := |s| - 1, Mapped(s, f);
      InsertMapped(s[..n], x, f, ka, kb);
      MappedEnd(Insert(s[..n], x, ka), s[n], f);
      assert m[..n] == Mapped(s[..n], f) && m[n] == f(s[n]);
    }
  }

  /** Sorting pointers by what they point at, and then following them, is sorting what they point at. */
  lemma {:induction false} SortMapped<A, B>(s: seq<A>, f: A -> B, ka: A -> int, kb: B -> int)
    requires forall a :: ka(a) == kb(f(a))
    ensures Mapped(Sort(s, ka), f) == Sort(Mapped(s, f), kb)
  {
    hide Insert;
    if s != [] {
      var n, m := |s| - 1, Mapped(s, f);
      SortMapped(s[..n], f, ka, kb);
      InsertMapped(Sort(s[..n], ka), s[n], f, ka, kb);
      assert m[..n] == Mapped(s[..n], f) && m[n] == f(s[n]);
    }
  }
}
