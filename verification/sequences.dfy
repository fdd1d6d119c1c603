/** Sequence helpers used by the registry and the linters: JavaScript's
    `flatMap` as `FlatMap`, `Array.prototype.filter` as `Filter`, and the
    insertion-ordered `Set` of JavaScript as a duplicate-free sequence
    updated by `SetAdd` and `SetRemove`, and name/value entries read by
    their first match, as a JavaScript object literal or a Python `dict` is. */
module Sequences {
  import opened Wrappers

  /** No element occurs twice. */
  predicate Distinct<T(==)>(s: seq<T>) {
    forall i, j :: 0 <= i < j < |s| ==> s[i] != s[j]
  }

  /** `Array.prototype.flatMap`: the lists `f` gives for each element, concatenated in order. */
  function FlatMap<A(!new), B(!new)>(f: A -> seq<B>, s: seq<A>): (r: seq<B>)
    ensures forall y :: y in r <==> exists x :: x in s && y in f(x)
  {
    if s == [] then []
    else
      var r := f(s[0]) + FlatMap(f, s[1..]);
      assert forall x :: x in s <==> x == s[0] || x in s[1..];
      r
  }

  lemma {:induction false} FlatMapAppend<A(!new), B(!new)>(f: A -> seq<B>, a: seq<A>, b: seq<A>)
    ensures FlatMap(f, a + b) == FlatMap(f, a) + FlatMap(f, b)
  {
    if a == [] {
      assert a + b == b;
    } else {
      assert (a + b)[1..] == a[1..] + b;
      FlatMapAppend(f, a[1..], b);
    }
  }

  /** The elements satisfying `p`, in their original order. */
  function Filter<T(!new)>(p: T -> bool, s: seq<T>): (r: seq<T>)
    ensures |r| <= |s|
    ensures forall y :: y in r <==> y in s && p(y)
  {
    if s == [] then []
    else if p(s[0]) then [s[0]] + Filter(p, s[1..])
    else Filter(p, s[1..])
  }

  lemma {:induction false} FilterAppend<T(!new)>(p: T -> bool, a: seq<T>, b: seq<T>)
    ensures Filter(p, a + b) == Filter(p, a) + Filter(p, b)
  {
    if a == [] {
      assert a + b == b;
    } else {
      assert (a + b)[0] == a[0];
      assert (a + b)[1..] == a[1..] + b;
      FilterAppend(p, a[1..], b);
    }
  }

  lemma {:induction false} FilterDistinct<T(!new)>(p: T -> bool, s: seq<T>)
    requires Distinct(s)
    ensures Distinct(Filter(p, s))
  {
    if s != [] {
      FilterDistinct(p, s[1..]);
      var t := Filter(p, s[1..]);
      if p(s[0]) {
        assert s[0] !in s[1..];
        assert s[0] !in t;
        var r := [s[0]] + t;
        forall i, j | 0 <= i < j < |r|
          ensures r[i] != r[j]
        {
          if i == 0 {
            assert r[j] == t[j - 1];
          }
        }
      }
    }
  }

  /** `Set.prototype.add`: appends `x` unless it is present, in which case nothing moves. */
  function SetAdd<T(==,!new)>(s: seq<T>, x: T): (r: seq<T>)
    ensures forall y :: y in r <==> y in s || y == x
    ensures x in s ==> r == s
    ensures x !in s ==> |r| == |s| + 1 && r[..|s|] == s && r[|s|] == x
    ensures Distinct(s) ==> Distinct(r)
  {
    if x in s then s else s + [x]
  }

  /** `Set.prototype.delete`: drops `x`, keeping the order of the others. */
  function SetRemove<T(==,!new)>(s: seq<T>, x: T): (r: seq<T>)
    ensures forall y :: y in r <==> y in s && y != x
    ensures Distinct(s) ==> Distinct(r)
    ensures x !in s ==> r == s
    ensures forall k :: 0 <= k < |s| && s[k] == x && Distinct(s) ==> r == s[..k] + s[k + 1..]
  {
    FilterDistinctOnDemand(s, x);
    FilterKeepsAll(s, x);
    forall k | 0 <= k < |s| && s[k] == x && Distinct(s)
      ensures Filter(y => y != x, s) == s[..k] + s[k + 1..]
    {
      FilterDropsOne(s, x, k);
    }
    Filter(y => y != x, s)
  }

  /** In a duplicate-free sequence, dropping `x` at its one position `k`
      leaves the elements before and after it, in order. */
  lemma FilterDropsOne<T(!new)>(s: seq<T>, x: T, k: nat)
    requires Distinct(s) && k < |s| && s[k] == x
    ensures Filter(y => y != x, s) == s[..k] + s[k + 1..]
  {
    var p := y => y != x;
    assert s == s[..k] + ([s[k]] + s[k + 1..]);
    FilterAppend(p, s[..k], [s[k]] + s[k + 1..]);
    FilterAppend(p, [s[k]], s[k + 1..]);
    assert x !in s[..k] by {
      forall i | 0 <= i < k ensures s[..k][i] != x {
        assert s[i] != s[k];
      }
    }
    var after := s[k + 1..];
    assert x !in after by {
      forall i | 0 <= i < |after| ensures after[i] != x {
        assert after[i] == s[k + 1 + i] != s[k];
      }
    }
    FilterKeepsAll(s[..k], x);
    FilterKeepsAll(s[k + 1..], x);
  }

  lemma FilterDistinctOnDemand<T(!new)>(s: seq<T>, x: T)
    ensures Distinct(s) ==> Distinct(Filter(y => y != x, s))
  {
    if Distinct(s) {
      FilterDistinct(y => y != x, s);
    }
  }

  lemma {:induction false} FilterKeepsAll<T(!new)>(s: seq<T>, x: T)
    ensures x !in s ==> Filter(y => y != x, s) == s
  {
    if s != [] && x !in s {
      FilterKeepsAll(s[1..], x);
      assert s == [s[0]] + s[1..];
    }
  }

  /** The names of name/value entries, in order. */
  function Keys<V>(entries: seq<(string, V)>): (ks: seq<string>)
    ensures |ks| == |entries|
    ensures forall i :: 0 <= i < |entries| ==> ks[i] == entries[i].0
  {
    seq(|entries|, i requires 0 <= i < |entries| => entries[i].0)
  }

  /** The value of the first entry named `key`, or nothing when no entry has that name. */
  function Get<V(==)>(entries: seq<(string, V)>, key: string): (r: Option<V>)
    ensures r.None? <==> key !in Keys(entries)
    ensures r.Some? ==> (key, r.value) in entries
  {
    if entries == [] then None
    else if entries[0].0 == key then Some(entries[0].1)
    else
      var r := Get(entries[1..], key);
      assert Keys(entries) == [entries[0].0] + Keys(entries[1..]);
      r
  }

  /** The entry at `k` is what `Get` finds when no earlier entry has its name. */
  lemma {:induction false} GetFirstMatch<V>(entries: seq<(string, V)>, k: nat)
    requires k < |entries|
    requires forall i :: 0 <= i < k ==> entries[i].0 != entries[k].0
    ensures Get(entries, entries[k].0) == Some(entries[k].1)
  {
    if k > 0 {
      GetFirstMatch(entries[1..], k - 1);
    }
  }
}
