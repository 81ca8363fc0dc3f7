/** Python's `list.sort(key=...)` for integer keys: a stable sort. Elements
    are paired with their precomputed keys. */
module Sorting {

  /** Keys never decrease from left to right. */
  predicate SortedByKey<T>(s: seq<(T, int)>) {
    forall i, j :: 0 <= i < j < |s| ==> s[i].1 <= s[j].1
  }

  /** The elements of `s` whose key is `k`, in their order in `s`. */
  function WithKey<T>(s: seq<(T, int)>, k: int): seq<(T, int)> {
    if s == [] then []
    else (if s[0].1 == k then [s[0]] else []) + WithKey(s[1..], k)
  }

  /** Places `x` before the first element whose key is not smaller. */
  function Insert<T>(x: (T, int), s: seq<(T, int)>): (r: seq<(T, int)>)
    ensures |r| == |s| + 1
    ensures multiset(r) == multiset(s) + multiset{x}
  {
    if s == [] || x.1 <= s[0].1 then [x] + s
    else
      assert s == [s[0]] + s[1..];
      [s[0]] + Insert(x, s[1..])
  }

  /** Every key in `s` is at least `b`. */
  predicate KeysAtLeast<T>(s: seq<(T, int)>, b: int) {
    forall i :: 0 <= i < |s| ==> b <= s[i].1
  }

  lemma {:induction false} InsertSorted<T>(x: (T, int), s: seq<(T, int)>)
    requires SortedByKey(s)
    ensures SortedByKey(Insert(x, s))
    ensures forall b :: KeysAtLeast(s, b) && b <= x.1 ==> KeysAtLeast(Insert(x, s), b)
  {
    if s == [] || x.1 <= s[0].1 {
    } else {
      InsertSorted(x, s[1..]);
      assert KeysAtLeast(s[1..], s[0].1);
      var r := Insert(x, s);
      assert r == [s[0]] + Insert(x, s[1..]);
      forall b | KeysAtLeast(s, b) && b <= x.1
        ensures KeysAtLeast(r, b)
      {
        assert KeysAtLeast(s[1..], b);
      }
    }
  }

  /** The stable sort: ascending keys and the same elements; stability is
      `SortByKeyStable` below. */
  function SortByKey<T>(s: seq<(T, int)>): (r: seq<(T, int)>)
    ensures |r| == |s|
    ensures multiset(r) == multiset(s)
    ensures SortedByKey(r)
  {
    if s == [] then []
    else
      assert s == [s[0]] + s[1..];
      InsertSorted(s[0], SortByKey(s[1..]));
      Insert(s[0], SortByKey(s[1..]))
  }

  lemma {:induction false} WithKeyAppend<T>(a: seq<(T, int)>, b: seq<(T, int)>, k: int)
    ensures WithKey(a + b, k) == WithKey(a, k) + WithKey(b, k)
  {
    if a == [] {
      assert a + b == b;
    } else {
      assert (a + b)[0] == a[0];
      assert (a + b)[1..] == a[1..] + b;
      WithKeyAppend(a[1..], b, k);
    }
  }

  /** Inserting into a sorted sequence puts `x` ahead of every element with
      its own key. */
  lemma {:induction false} WithKeyInsert<T>(x: (T, int), s: seq<(T, int)>, k: int)
    requires SortedByKey(s)
    ensures WithKey(Insert(x, s), k) == (if x.1 == k then [x] else []) + WithKey(s, k)
  {
    if s == [] || x.1 <= s[0].1 {
      assert Insert(x, s) == [x] + s;
      assert ([x] + s)[1..] == s;
    } else {
      WithKeyInsert(x, s[1..], k);
      var r := Insert(x, s);
      assert r[0] == s[0] && r[1..] == Insert(x, s[1..]);
      if x.1 == k {
        assert s[0].1 != k;
      }
    }
  }

  /** Stability: for every key, the elements carrying it keep their order. */
  lemma {:induction false} SortByKeyStable<T>(s: seq<(T, int)>, k: int)
    ensures WithKey(SortByKey(s), k) == WithKey(s, k)
  {
    if s != [] {
      SortByKeyStable(s[1..], k);
      WithKeyInsert(s[0], SortByKey(s[1..]), k);
    }
  }
}
