/**
 * Python's `sorted(xs, key=key, reverse=True)`: a stable sort into
 * non-increasing key order, written as an insertion sort.
 */
module Ranking {

  /** Keys never increase from left to right. */
  predicate SortedDesc<T>(key: T -> real, s: seq<T>) {
    forall i, j :: 0 <= i < j < |s| ==> key(s[i]) >= key(s[j])
  }

  /** The elements of `s` whose key is `k`, in their order in `s`. */
  function WithKey<T>(key: T -> real, s: seq<T>, k: real): seq<T> {
    if s == [] then []
    else (if key(s[0]) == k then [s[0]] else []) + WithKey(key, s[1..], k)
  }

  /**
   * Places `x` in front of the first element whose key is not greater
   * than its own, so that `x` precedes the elements of equal key.
   */
  function Insert<T>(key: T -> real, x: T, s: seq<T>): seq<T> {
    if s == [] || key(s[0]) <= key(x) then [x] + s
    else [s[0]] + Insert(key, x, s[1..])
  }

  /** The elements of `s` ordered by non-increasing key, equal keys kept in input order. */
  function SortDesc<T>(key: T -> real, s: seq<T>): seq<T> {
    if s == [] then [] else Insert(key, s[0], SortDesc(key, s[1..]))
  }

  lemma {:induction false} WithKeyConcat<T>(key: T -> real, a: seq<T>, b: seq<T>, k: real)
    ensures WithKey(key, a + b, k) == WithKey(key, a, k) + WithKey(key, b, k)
  {
    if a == [] {
      assert a + b == b;
    } else {
      var ab := a + b;
      assert ab[0] == a[0] && ab[1..] == a[1..] + b;
      var head := if key(a[0]) == k then [a[0]] else [];
      assert WithKey(key, ab, k) == head + WithKey(key, a[1..] + b, k);
      WithKeyConcat(key, a[1..], b, k);
      assert WithKey(key, a, k) == head + WithKey(key, a[1..], k);
    }
  }

  lemma {:induction false} WithKeyMembers<T>(key: T -> real, s: seq<T>, k: real, y: T)
    ensures y in WithKey(key, s, k) <==> y in s && key(y) == k
  {
    if s != [] {
      WithKeyMembers(key, s[1..], k, y);
      assert s == [s[0]] + s[1..];
    }
  }

  lemma {:induction false} InsertPermutation<T>(key: T -> real, x: T, s: seq<T>)
    ensures multiset(Insert(key, x, s)) == multiset(s) + multiset{x}
  {
    if s != [] && key(s[0]) > key(x) {
      InsertPermutation(key, x, s[1..]);
      assert s == [s[0]] + s[1..];
    }
  }

  lemma {:induction false} InsertSorted<T>(key: T -> real, x: T, s: seq<T>)
    requires SortedDesc(key, s)
    ensures SortedDesc(key, Insert(key, x, s))
  {
    if s != [] && key(s[0]) > key(x) {
      var t := Insert(key, x, s[1..]);
      InsertSorted(key, x, s[1..]);
      InsertPermutation(key, x, s[1..]);
      forall j | 0 <= j < |t| ensures key(s[0]) >= key(t[j]) {
        assert t[j] in multiset(t);
        if t[j] != x {
          assert t[j] in multiset(s[1..]);
          var i :| 0 <= i < |s[1..]| && s[1..][i] == t[j];
          assert s[i + 1] == t[j];
        }
      }
    }
  }

  /** Inserting `x` adds it in front of the elements of its key and leaves the other keys' elements alone. */
  lemma {:induction false} InsertWithKey<T>(key: T -> real, x: T, s: seq<T>, k: real)
    ensures WithKey(key, Insert(key, x, s), k) == (if key(x) == k then [x] else []) + WithKey(key, s, k)
  {
    if s == [] || key(s[0]) <= key(x) {
      WithKeyConcat(key, [x], s, k);
    } else {
      WithKeyConcat(key, [s[0]], Insert(key, x, s[1..]), k);
      InsertWithKey(key, x, s[1..], k);
      assert s == [s[0]] + s[1..];
      WithKeyConcat(key, [s[0]], s[1..], k);
    }
  }

  /** The result of SortDesc is in non-increasing key order. */
  lemma {:induction false} SortDescSorted<T>(key: T -> real, s: seq<T>)
    ensures SortedDesc(key, SortDesc(key, s))
  {
    if s != [] {
      SortDescSorted(key, s[1..]);
      InsertSorted(key, s[0], SortDesc(key, s[1..]));
    }
  }

  /** SortDesc rearranges its input without adding or dropping elements. */
  lemma {:induction false} SortDescPermutation<T>(key: T -> real, s: seq<T>)
    ensures multiset(SortDesc(key, s)) == multiset(s)
  {
    if s != [] {
      SortDescPermutation(key, s[1..]);
      InsertPermutation(key, s[0], SortDesc(key, s[1..]));
      assert s == [s[0]] + s[1..];
    }
  }

  /** Stability: for every key, the elements with that key keep their input order. */
  lemma {:induction false} SortDescStable<T>(key: T -> real, s: seq<T>, k: real)
    ensures WithKey(key, SortDesc(key, s), k) == WithKey(key, s, k)
  {
    if s != [] {
      SortDescStable(key, s[1..], k);
      InsertWithKey(key, s[0], SortDesc(key, s[1..]), k);
    }
  }

  /** A non-empty sequence has an element of its first element's key, which an empty one lacks. */
  lemma WithKeyOfHead<T>(key: T -> real, s: seq<T>, e: seq<T>)
    requires s != [] && e == []
    ensures WithKey(key, s, key(s[0])) != WithKey(key, e, key(s[0]))
  {
  }

  /** In a sorted sequence no key exceeds the first one. */
  lemma SortedHeadIsMax<T>(key: T -> real, s: seq<T>, y: T)
    requires SortedDesc(key, s) && y in s
    ensures key(y) <= key(s[0])
  {
  }

  /**
   * A stable non-increasing sort has only one possible result: two sorted
   * sequences that agree, key by key, on the order of their elements are
   * equal. So SortDesc(key, s) is the one value Python's stable
   * `sorted(s, key=key, reverse=True)` can return.
   */
  lemma {:induction false} StableSortIsUnique<T>(key: T -> real, a: seq<T>, b: seq<T>)
    requires SortedDesc(key, a) && SortedDesc(key, b)
    requires forall k :: WithKey(key, a, k) == WithKey(key, b, k)
    ensures a == b
    decreases |a|
  {
    if a == [] || b == [] {
      if a != [] {
        WithKeyOfHead(key, a, b);
        assert false;
      } else if b != [] {
        WithKeyOfHead(key, b, a);
        assert false;
      }
    } else {
      var m, n := key(a[0]), key(b[0]);
      assert WithKey(key, a, m) == [a[0]] + WithKey(key, a[1..], m);
      assert WithKey(key, b, n) == [b[0]] + WithKey(key, b[1..], n);
      WithKeyMembers(key, b, m, a[0]);
      SortedHeadIsMax(key, b, a[0]);
      WithKeyMembers(key, a, n, b[0]);
      SortedHeadIsMax(key, a, b[0]);
      assert m == n;
      assert WithKey(key, a, m) == WithKey(key, b, m);
      assert WithKey(key, a, m)[0] == a[0] && WithKey(key, b, m)[0] == b[0];
      forall k ensures WithKey(key, a[1..], k) == WithKey(key, b[1..], k) {
        var head := if m == k then [a[0]] else [];
        assert WithKey(key, a, k) == head + WithKey(key, a[1..], k);
        assert WithKey(key, b, k) == head + WithKey(key, b[1..], k);
        assert WithKey(key, a, k) == WithKey(key, b, k);
        assert WithKey(key, a[1..], k) == WithKey(key, a, k)[|head|..];
        assert WithKey(key, b[1..], k) == WithKey(key, b, k)[|head|..];
      }
      StableSortIsUnique(key, a[1..], b[1..]);
      assert a == [a[0]] + a[1..];
      assert b == [b[0]] + b[1..];
    }
  }

  /** SortDesc(key, s) is the unique sorted, stable arrangement of `s`. */
  lemma SortDescIsTheStableSort<T>(key: T -> real, s: seq<T>, t: seq<T>)
    requires SortedDesc(key, t)
    requires forall k :: WithKey(key, t, k) == WithKey(key, s, k)
    ensures t == SortDesc(key, s)
  {
    SortDescSorted(key, s);
    forall k ensures WithKey(key, t, k) == WithKey(key, SortDesc(key, s), k) {
      SortDescStable(key, s, k);
    }
    StableSortIsUnique(key, t, SortDesc(key, s));
  }
}
