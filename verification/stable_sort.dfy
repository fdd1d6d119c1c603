/** A stable sort by an integer key, as `Array.prototype.sort` performs it
    when the comparator is `(a, b) => key(a) - key(b)` (ECMAScript requires
    the sort to be stable). Stability is stated through `WithKey`: for every
    key, the elements carrying it appear in the output in the same order as
    in the input. `StableSortUnique` shows that sortedness plus that property
    determine the output completely, so insertion sort stands for any stable
    algorithm the engine might use. */
module StableSort {

  /** Keys never decrease from left to right. */
  predicate SortedBy<T>(key: T -> int, s: seq<T>) {
    forall i, j :: 0 <= i < j < |s| ==> key(s[i]) <= key(s[j])
  }

  /** The elements of `s` whose key is `k`, in their order in `s`. */
  function WithKey<T(!new)>(key: T -> int, k: int, s: seq<T>): (r: seq<T>)
    ensures forall y :: y in r <==> y in s && key(y) == k
    ensures |r| <= |s|
  {
    if s == [] then []
    else if key(s[0]) == k then [s[0]] + WithKey(key, k, s[1..])
    else WithKey(key, k, s[1..])
  }

  /** `out` keeps, for every key, the relative order that `input` had. */
  ghost predicate StableWrt<T(!new)>(key: T -> int, input: seq<T>, out: seq<T>) {
    forall k :: WithKey(key, k, out) == WithKey(key, k, input)
  }

  /** Places `x` before the first element whose key is not smaller. */
  function Insert<T>(key: T -> int, x: T, s: seq<T>): (r: seq<T>)
    ensures |r| == |s| + 1
    ensures multiset(r) == multiset{x} + multiset(s)
  {
    if s == [] then [x]
    else if key(x) <= key(s[0]) then [x] + s
    else
      assert s == [s[0]] + s[1..];
      [s[0]] + Insert(key, x, s[1..])
  }

  lemma {:induction false} InsertSorted<T>(key: T -> int, x: T, s: seq<T>)
    requires SortedBy(key, s)
    ensures SortedBy(key, Insert(key, x, s))
  {
    if s != [] && key(x) > key(s[0]) {
      InsertSorted(key, x, s[1..]);
      var t := Insert(key, x, s[1..]);
      assert forall y :: y in multiset(t) ==> y == x || y in multiset(s[1..]);
      forall j | 0 <= j < |t|
        ensures key(s[0]) <= key(t[j])
      {
        assert t[j] in multiset(t);
        if t[j] != x {
          assert t[j] in s[1..];
        }
      }
    }
  }

  /** One step of `WithKey` on a sequence built with a known head. */
  lemma WithKeyCons<T(!new)>(key: T -> int, k: int, y: T, t: seq<T>)
    ensures WithKey(key, k, [y] + t) == (if key(y) == k then [y] else []) + WithKey(key, k, t)
  {
    assert ([y] + t)[1..] == t;
  }

  /** Inserting `x` puts it in front of the elements that share its key. */
  lemma {:induction false} InsertWithKey<T(!new)>(key: T -> int, x: T, s: seq<T>, k: int)
    ensures WithKey(key, k, Insert(key, x, s))
         == (if key(x) == k then [x] else []) + WithKey(key, k, s)
  {
    if s == [] {
      WithKeyCons(key, k, x, s);
    } else if key(x) <= key(s[0]) {
      WithKeyCons(key, k, x, s);
    } else {
      var t := Insert(key, x, s[1..]);
      InsertWithKey(key, x, s[1..], k);
      WithKeyCons(key, k, s[0], t);
      WithKeyCons(key, k, s[0], s[1..]);
      assert [s[0]] + s[1..] == s;
      if key(x) == k {
        assert key(s[0]) != k;
      }
    }
  }

  /** The sort itself: insert the head into the sorted tail. */
  function SortBy<T(!new)>(key: T -> int, s: seq<T>): (r: seq<T>)
    ensures |r| == |s|
    ensures multiset(r) == multiset(s)
    ensures SortedBy(key, r)
    ensures forall k :: WithKey(key, k, r) == WithKey(key, k, s)
  {
    if s == [] then []
    else
      var t := SortBy(key, s[1..]);
      InsertSorted(key, s[0], t);
      SortHeadWithKey(key, s, t);
      assert s == [s[0]] + s[1..];
      Insert(key, s[0], t)
  }

  lemma SortHeadWithKey<T(!new)>(key: T -> int, s: seq<T>, t: seq<T>)
    requires s != []
    requires forall k :: WithKey(key, k, t) == WithKey(key, k, s[1..])
    ensures forall k :: WithKey(key, k, Insert(key, s[0], t)) == WithKey(key, k, s)
  {
    forall k
      ensures WithKey(key, k, Insert(key, s[0], t)) == WithKey(key, k, s)
    {
      InsertWithKey(key, s[0], t, k);
    }
  }

  /** An element found in the `k`-slice of a sorted sequence has a key no smaller than its head's. */
  lemma HeadKeyIsLeast<T(!new)>(key: T -> int, a: seq<T>, k: int, y: T)
    requires SortedBy(key, a) && a != []
    requires y in WithKey(key, k, a)
    ensures key(a[0]) <= k
  {
    var i :| 0 <= i < |a| && a[i] == y;
    assert i == 0 || key(a[0]) <= key(a[i]);
  }

  /** Two sorted sequences with the same elements per key, in the same
      order per key, are equal: a stable sort has only one possible result. */
  lemma {:induction false} StableSortUnique<T(!new)>(key: T -> int, a: seq<T>, b: seq<T>)
    requires SortedBy(key, a) && SortedBy(key, b)
    requires forall k :: WithKey(key, k, a) == WithKey(key, k, b)
    ensures a == b
  {
    if a == [] && b != [] {
      assert b == [b[0]] + b[1..];
      WithKeyCons(key, key(b[0]), b[0], b[1..]);
    } else if a != [] && b == [] {
      assert a == [a[0]] + a[1..];
      WithKeyCons(key, key(a[0]), a[0], a[1..]);
    } else if a != [] {
      var ka, kb := key(a[0]), key(b[0]);
      assert [a[0]] + a[1..] == a;
      assert [b[0]] + b[1..] == b;
      WithKeyCons(key, kb, b[0], b[1..]);
      assert b[0] in WithKey(key, kb, a);
      HeadKeyIsLeast(key, a, kb, b[0]);
      WithKeyCons(key, ka, a[0], a[1..]);
      assert a[0] in WithKey(key, ka, b);
      HeadKeyIsLeast(key, b, ka, a[0]);
      assert ka == kb;
      WithKeyCons(key, ka, b[0], b[1..]);
      assert WithKey(key, ka, a)[0] == a[0];
      assert WithKey(key, ka, b)[0] == b[0];
      assert a[0] == b[0];
      forall k
        ensures WithKey(key, k, a[1..]) == WithKey(key, k, b[1..])
      {
        WithKeyCons(key, k, a[0], a[1..]);
        WithKeyCons(key, k, b[0], b[1..]);
        assert WithKey(key, k, a) == WithKey(key, k, b);
        if k == ka {
          assert WithKey(key, k, a)[1..] == WithKey(key, k, a[1..]);
          assert WithKey(key, k, b)[1..] == WithKey(key, k, b[1..]);
        }
      }
      StableSortUnique(key, a[1..], b[1..]);
    }
  }

  /** Any sorted, order-stable rearrangement of `s` is `SortBy(key, s)`. */
  lemma SortByIsTheStableSort<T(!new)>(key: T -> int, s: seq<T>, out: seq<T>)
    requires SortedBy(key, out)
    requires StableWrt(key, s, out)
    ensures out == SortBy(key, s)
  {
    StableSortUnique(key, out, SortBy(key, s));
  }
}
