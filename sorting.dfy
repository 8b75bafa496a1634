/**
 * Swift's `filter` and `sorted(by:)` over any element type: the predicate and
 * the order are parameters. The sort is a stable insertion sort.
 */
module Sorting {
  /** What `sorted(by:)` demands of its comparator. */
  ghost predicate StrictWeakOrder<T(!new)>(less: (T, T) -> bool) {
    && (forall a :: !less(a, a))
    && (forall a, b, c :: less(a, b) && less(b, c) ==> less(a, c))
    && (forall a, b, c :: Incomparable(less, a, b) && Incomparable(less, b, c) ==> Incomparable(less, a, c))
  }

  predicate Incomparable<T>(less: (T, T) -> bool, a: T, b: T) {
    !less(a, b) && !less(b, a)
  }

  /** Elements ordered by a key: `a` before `b` when `key(a)` comes before `key(b)`. */
  function ByKey<T(!new), K>(key: T -> K, order: (K, K) -> bool): (less: (T, T) -> bool)
    ensures forall a, b :: less(a, b) == order(key(a), key(b))
  {
    (a, b) => order(key(a), key(b))
  }

  /** Comparing by a key keeps a strict weak order strict and weak. */
  lemma ByKeyStrictWeakOrder<T(!new), K(!new)>(key: T -> K, order: (K, K) -> bool)
    ensures StrictWeakOrder(order) ==> StrictWeakOrder(ByKey(key, order))
  {
    var less := ByKey(key, order);
    if StrictWeakOrder(order) {
      forall a, b, c | Incomparable(less, a, b) && Incomparable(less, b, c) ensures Incomparable(less, a, c) {
        assert Incomparable(order, key(a), key(b)) && Incomparable(order, key(b), key(c));
      }
    }
  }

  /** No element is ordered before one that comes earlier. */
  ghost predicate Sorted<T>(s: seq<T>, less: (T, T) -> bool) {
    forall i, j :: 0 <= i < j < |s| ==> !less(s[j], s[i])
  }

  /** `filter(p)`: exactly the elements satisfying `p`, each as often as it occurs. */
  function Filter<T(==,!new)>(s: seq<T>, p: T -> bool): (r: seq<T>)
    ensures forall k :: 0 <= k < |r| ==> p(r[k])
    ensures forall x :: multiset(r)[x] == if p(x) then multiset(s)[x] else 0
  {
    if s == [] then []
    else
      assert s == [s[0]] + s[1..];
      (if p(s[0]) then [s[0]] else []) + Filter(s[1..], p)
  }

  /** Puts `x` before the first element that does not sort before it. */
  function Insert<T(==)>(x: T, s: seq<T>, less: (T, T) -> bool): (r: seq<T>)
    ensures multiset(r) == multiset(s) + multiset{x}
  {
    if s == [] || !less(s[0], x) then [x] + s
    else
      assert s == [s[0]] + s[1..];
      [s[0]] + Insert(x, s[1..], less)
  }

  /** A stable sort; the result is a permutation of the input. */
  function InsertionSort<T(==)>(s: seq<T>, less: (T, T) -> bool): (r: seq<T>)
    ensures multiset(r) == multiset(s)
  {
    if s == [] then []
    else
      assert s == [s[0]] + s[1..];
      Insert(s[0], InsertionSort(s[1..], less), less)
  }

  /** An element that the head of a sorted list does not precede is preceded by none of it. */
  lemma {:induction false} NothingPrecedesNewHead<T(!new)>(x: T, s: seq<T>, less: (T, T) -> bool)
    requires StrictWeakOrder(less)
    requires Sorted(s, less)
    requires s != [] && !less(s[0], x)
    ensures forall k :: 0 <= k < |s| ==> !less(s[k], x)
  {
    forall k | 0 < k < |s| ensures !less(s[k], x) {
      assert !less(s[k], s[0]);
      if !less(x, s[0]) && !less(s[0], s[k]) {
        assert Incomparable(less, x, s[0]) && Incomparable(less, s[0], s[k]);
      }
    }
  }

  /** Every element of a sorted tail, with `x` inserted behind the head, sorts no earlier than the head. */
  lemma {:induction false} InsertBehindHead<T(!new)>(x: T, s: seq<T>, less: (T, T) -> bool)
    requires StrictWeakOrder(less)
    requires Sorted(s, less)
    requires s != [] && less(s[0], x)
    ensures forall y :: y in Insert(x, s[1..], less) ==> !less(y, s[0])
  {
    var t := Insert(x, s[1..], less);
    assert !less(x, s[0]);
    forall y | y in t ensures !less(y, s[0]) {
      assert y in multiset(t);
      if y != x {
        assert y in multiset(s[1..]);
        var k :| 0 <= k < |s[1..]| && s[1..][k] == y;
        assert s[k + 1] == y;
      }
    }
  }

  lemma {:induction false} SortedAfterNewHead<T>(x: T, s: seq<T>, less: (T, T) -> bool)
    requires Sorted(s, less)
    requires forall k :: 0 <= k < |s| ==> !less(s[k], x)
    ensures Sorted([x] + s, less)
  {
    var r := [x] + s;
    forall i, j | 0 <= i < j < |r| ensures !less(r[j], r[i]) {
      assert r[j] == s[j - 1];
      if i > 0 {
        assert r[i] == s[i - 1];
      }
    }
  }

  lemma {:induction false} SortedAfterOldHead<T>(h: T, t: seq<T>, less: (T, T) -> bool)
    requires Sorted(t, less)
    requires forall y :: y in t ==> !less(y, h)
    ensures Sorted([h] + t, less)
  {
    var r := [h] + t;
    forall i, j | 0 <= i < j < |r| ensures !less(r[j], r[i]) {
      assert r[j] == t[j - 1];
      if i > 0 {
        assert r[i] == t[i - 1];
      } else {
        assert r[j] in t;
      }
    }
  }

  lemma {:induction false} InsertKeepsSorted<T(!new)>(x: T, s: seq<T>, less: (T, T) -> bool)
    requires StrictWeakOrder(less)
    requires Sorted(s, less)
    ensures Sorted(Insert(x, s, less), less)
  {
    if s == [] || !less(s[0], x) {
      if s != [] {
        NothingPrecedesNewHead(x, s, less);
      }
      SortedAfterNewHead(x, s, less);
    } else {
      var t := Insert(x, s[1..], less);
      assert Sorted(s[1..], less);
      InsertKeepsSorted(x, s[1..], less);
      InsertBehindHead(x, s, less);
      SortedAfterOldHead(s[0], t, less);
    }
  }

  /** With a comparator `sorted(by:)` accepts, the sort yields ascending order. */
  lemma {:induction false} SortIsSorted<T(!new)>(s: seq<T>, less: (T, T) -> bool)
    requires StrictWeakOrder(less)
    ensures Sorted(InsertionSort(s, less), less)
  {
    if s != [] {
      SortIsSorted(s[1..], less);
      InsertKeepsSorted(s[0], InsertionSort(s[1..], less), less);
    }
  }
}
