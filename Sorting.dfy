/** Python's `list.sort(key=...)` / `sorted(...)`: a stable sort. It is modelled
    as insertion sort under a "key of a is at most key of b" relation `le`;
    the lemmas show the result is ordered, a permutation, and stable (elements
    with equal keys keep their input order). */
module Sorting {

  /** `le` behaves like `<=` on some key: total and transitive. */
  ghost predicate TotalPreorder<T(!new)>(le: (T, T) -> bool)
  {
    && (forall a, b :: le(a, b) || le(b, a))
    && (forall a, b, c :: le(a, b) && le(b, c) ==> le(a, c))
  }

  predicate Sorted<T>(s: seq<T>, le: (T, T) -> bool)
  {
    forall i, j :: 0 <= i < j < |s| ==> le(s[i], s[j])
  }

  /** Places `x` in front of the first element whose key is not smaller. */
  function Insert<T>(x: T, s: seq<T>, le: (T, T) -> bool): (r: seq<T>)
    ensures multiset(r) == multiset(s) + multiset{x}
  {
    if s == [] || le(x, s[0]) then [x] + s
    else
      assert s == [s[0]] + s[1..];
      [s[0]] + Insert(x, s[1..], le)
  }

  function SortBy<T>(s: seq<T>, le: (T, T) -> bool): (r: seq<T>)
    ensures multiset(r) == multiset(s)
  {
    if s == [] then []
    else
      assert s == [s[0]] + s[1..];
      Insert(s[0], SortBy(s[1..], le), le)
  }

  lemma {:induction false} InsertSorted<T(!new)>(x: T, s: seq<T>, le: (T, T) -> bool)
    requires TotalPreorder(le) && Sorted(s, le)
    ensures Sorted(Insert(x, s, le), le)
  {
    if s == [] || le(x, s[0]) {
    } else {
      InsertSorted(x, s[1..], le);
      var r := Insert(x, s[1..], le);
      assert forall k :: 0 <= k < |r| ==> r[k] in multiset(s[1..]) + multiset{x};
      forall k | 0 <= k < |r| ensures le(s[0], r[k]) {
        assert r[k] in multiset(r);
        if r[k] != x {
          assert r[k] in s[1..];
        }
      }
    }
  }

  /** The sorted list is ordered by `le`. */
  lemma {:induction false} SortBySorted<T(!new)>(s: seq<T>, le: (T, T) -> bool)
    requires TotalPreorder(le)
    ensures Sorted(SortBy(s, le), le)
  {
    if s != [] {
      SortBySorted(s[1..], le);
      InsertSorted(s[0], SortBy(s[1..], le), le);
    }
  }

  /** The elements of `s` whose key equals the key of `e`, in their order in `s`. */
  function SameKey<T>(s: seq<T>, e: T, le: (T, T) -> bool): seq<T>
  {
    if s == [] then []
    else if le(s[0], e) && le(e, s[0]) then [s[0]] + SameKey(s[1..], e, le)
    else SameKey(s[1..], e, le)
  }

  lemma {:induction false} InsertSameKey<T(!new)>(x: T, s: seq<T>, e: T, le: (T, T) -> bool)
    requires TotalPreorder(le) && Sorted(s, le)
    ensures SameKey(Insert(x, s, le), e, le)
         == if le(x, e) && le(e, x) then [x] + SameKey(s, e, le) else SameKey(s, e, le)
  {
    if s == [] || le(x, s[0]) {
    } else {
      InsertSameKey(x, s[1..], e, le);
      // s[0] has a strictly smaller key than x, so it is never equivalent to e when x is
    }
  }

  /** Stability: for every key, the elements with that key appear in the sorted
      list in the same order as in the input. */
  lemma {:induction false} SortByStable<T(!new)>(s: seq<T>, e: T, le: (T, T) -> bool)
    requires TotalPreorder(le)
    ensures SameKey(SortBy(s, le), e, le) == SameKey(s, e, le)
  {
    if s != [] {
      SortByStable(s[1..], e, le);
      SortBySorted(s[1..], le);
      InsertSameKey(s[0], SortBy(s[1..], le), e, le);
    }
  }

  /** Every element of `s` is distinct from the others under `key`. */
  ghost predicate DistinctBy<T, K>(s: seq<T>, key: T -> K)
  {
    forall i, j :: 0 <= i < j < |s| ==> key(s[i]) != key(s[j])
  }

  lemma {:induction false} InsertDistinctBy<T, K>(x: T, s: seq<T>, le: (T, T) -> bool, key: T -> K)
    requires DistinctBy(s, key)
    requires forall y :: y in s ==> key(y) != key(x)
    ensures DistinctBy(Insert(x, s, le), key)
  {
    if s == [] || le(x, s[0]) {
    } else {
      InsertDistinctBy(x, s[1..], le, key);
      var r := Insert(x, s[1..], le);
      forall k | 0 <= k < |r| ensures key(r[k]) != key(s[0]) {
        assert r[k] in multiset(r);
        if r[k] != x {
          assert r[k] in s[1..];
        }
      }
    }
  }

  /** Sorting keeps keys distinct. */
  lemma {:induction false} SortByDistinctBy<T, K>(s: seq<T>, le: (T, T) -> bool, key: T -> K)
    requires DistinctBy(s, key)
    ensures DistinctBy(SortBy(s, le), key)
  {
    if s != [] {
      SortByDistinctBy(s[1..], le, key);
      forall y | y in SortBy(s[1..], le) ensures key(y) != key(s[0]) {
        assert y in multiset(SortBy(s[1..], le));
        assert y in s[1..];
      }
      InsertDistinctBy(s[0], SortBy(s[1..], le), le, key);
    }
  }
}
