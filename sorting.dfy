/** Python's `sorted(xs, key=...)` and `list.sort(key=...)` for string keys.
    Both are stable sorts; `SortBy` is an insertion sort, and
    `StableSortIsUnique` shows that every stable sort by the same key yields
    the same sequence, so nothing depends on the algorithm Python uses. */
module Sorting {
  import opened Text

  /** Every element's key is at most every later element's key. */
  ghost predicate SortedBy<T>(s: seq<T>, key: T -> string)
  {
    forall i, j :: 0 <= i < j < |s| ==> LexLe(key(s[i]), key(s[j]))
  }

  /** The elements of `s` whose key is `k`, in their order in `s`. */
  function Filter<T>(s: seq<T>, key: T -> string, k: string): (r: seq<T>)
    ensures |r| <= |s|
    ensures forall x :: x in r ==> x in s && key(x) == k
  {
    if s == [] then []
    else if key(s[0]) == k then [s[0]] + Filter(s[1..], key, k)
    else Filter(s[1..], key, k)
  }

  /** Stability: elements with equal keys keep their relative order. */
  ghost predicate Stable<T>(s: seq<T>, t: seq<T>, key: T -> string)
  {
    forall k :: Filter(t, key, k) == Filter(s, key, k)
  }

  /** Puts `x` in front of the first element whose key is not below `x`'s. */
  function Insert<T>(x: T, s: seq<T>, key: T -> string): (r: seq<T>)
    ensures multiset(r) == multiset(s) + multiset{x}
  {
    if s == [] then [x]
    else if LexLe(key(x), key(s[0])) then [x] + s
    else assert s == [s[0]] + s[1..]; [s[0]] + Insert(x, s[1..], key)
  }

  /** A stable sort of `s` by `key`. */
  function SortBy<T>(s: seq<T>, key: T -> string): (r: seq<T>)
    ensures multiset(r) == multiset(s)
    ensures |r| == |s|
  {
    if s == [] then [] else assert s == [s[0]] + s[1..]; Insert(s[0], SortBy(s[1..], key), key)
  }

  /** A sorted sequence stays sorted behind an element no greater than any of it. */
  lemma {:induction false} ConsSorted<T>(h: T, t: seq<T>, key: T -> string)
    requires SortedBy(t, key) && forall y :: y in t ==> LexLe(key(h), key(y))
    ensures SortedBy([h] + t, key)
  {
    var r := [h] + t;
    forall i, j | 0 <= i < j < |r| ensures LexLe(key(r[i]), key(r[j])) {
      assert r[j] == t[j - 1];
      if i > 0 { assert r[i] == t[i - 1]; }
    }
  }

  /** A bound below `x` and all of `s` is a bound below all of `Insert(x, s)`. */
  lemma {:induction false} InsertBound<T>(x: T, s: seq<T>, key: T -> string, b: string)
    requires LexLe(b, key(x)) && forall y :: y in s ==> LexLe(b, key(y))
    ensures forall y :: y in Insert(x, s, key) ==> LexLe(b, key(y))
  {
    forall y | y in Insert(x, s, key) ensures LexLe(b, key(y)) {
      assert y in multiset(Insert(x, s, key));
      assert y == x || y in multiset(s);
    }
  }

  lemma {:induction false} InsertSorted<T>(x: T, s: seq<T>, key: T -> string)
    requires SortedBy(s, key)
    ensures SortedBy(Insert(x, s, key), key)
  {
    if s == [] {
    } else if LexLe(key(x), key(s[0])) {
      forall y | y in s ensures LexLe(key(x), key(y)) {
        HeadIsLeast(s, y, key);
        LexLeTransitive(key(x), key(s[0]), key(y));
      }
      ConsSorted(x, s, key);
    } else {
      var tail := s[1..];
      assert SortedBy(tail, key);
      InsertSorted(x, tail, key);
      LexLeTotal(key(x), key(s[0]));
      forall y | y in tail ensures LexLe(key(s[0]), key(y)) {
        HeadIsLeast(s, y, key);
      }
      InsertBound(x, tail, key, key(s[0]));
      ConsSorted(s[0], Insert(x, tail, key), key);
    }
  }

  lemma {:induction false} SortBySorted<T>(s: seq<T>, key: T -> string)
    ensures SortedBy(SortBy(s, key), key)
  {
    if s != [] {
      SortBySorted(s[1..], key);
      InsertSorted(s[0], SortBy(s[1..], key), key);
    }
  }

  lemma {:induction false} FilterInsert<T>(x: T, s: seq<T>, key: T -> string, k: string)
    ensures Filter(Insert(x, s, key), key, k)
         == if key(x) == k then [x] + Filter(s, key, k) else Filter(s, key, k)
  {
    if s != [] && !LexLe(key(x), key(s[0])) {
      FilterInsert(x, s[1..], key, k);
      assert [s[0]] + Insert(x, s[1..], key) == Insert(x, s, key);
      LexLeReflexive(key(x));
      if key(x) == k {
        assert key(s[0]) != k;
      }
    }
  }

  lemma {:induction false} SortByStable<T>(s: seq<T>, key: T -> string)
    ensures Stable(s, SortBy(s, key), key)
  {
    if s != [] {
      SortByStable(s[1..], key);
      forall k ensures Filter(SortBy(s, key), key, k) == Filter(s, key, k) {
        FilterInsert(s[0], SortBy(s[1..], key), key, k);
      }
    }
  }

  /** The first element of a sorted sequence has the least key. */
  lemma {:induction false} HeadIsLeast<T>(s: seq<T>, x: T, key: T -> string)
    requires SortedBy(s, key) && x in s
    ensures LexLe(key(s[0]), key(x))
  {
    var j :| 0 <= j < |s| && s[j] == x;
    if j == 0 { LexLeReflexive(key(x)); }
  }

  lemma {:induction false} HasOwnKey<T>(s: seq<T>, key: T -> string)
    ensures s != [] ==> Filter(s, key, key(s[0])) != []
  {
  }

  /** Sorted sequences with the same elements per key start alike. */
  lemma {:induction false} SameHead<T>(a: seq<T>, b: seq<T>, key: T -> string)
    requires a != [] && b != [] && SortedBy(a, key) && SortedBy(b, key)
    requires forall k :: Filter(a, key, k) == Filter(b, key, k)
    ensures a[0] == b[0]
  {
    var x, y := a[0], b[0];
    assert Filter(a, key, key(x)) == [x] + Filter(a[1..], key, key(x));
    assert Filter(b, key, key(y)) == [y] + Filter(b[1..], key, key(y));
    assert x in Filter(b, key, key(x));
    assert y in Filter(a, key, key(y));
    HeadIsLeast(b, x, key);
    HeadIsLeast(a, y, key);
    LexLeAntisymmetric(key(x), key(y));
  }

  /** Removing a common head keeps the elements per key equal. */
  lemma {:induction false} SameTailFilters<T>(a: seq<T>, b: seq<T>, key: T -> string)
    requires a != [] && b != [] && a[0] == b[0]
    requires forall k :: Filter(a, key, k) == Filter(b, key, k)
    ensures forall k :: Filter(a[1..], key, k) == Filter(b[1..], key, k)
  {
    forall k ensures Filter(a[1..], key, k) == Filter(b[1..], key, k) {
      assert Filter(a, key, k) == Filter(b, key, k);
      if key(a[0]) == k {
        assert Filter(a[1..], key, k) == Filter(a, key, k)[1..];
        assert Filter(b[1..], key, k) == Filter(b, key, k)[1..];
      }
    }
  }

  /** Two sequences sorted by the same key with the same elements per key are equal. */
  lemma {:induction false} SortedStableUnique<T>(a: seq<T>, b: seq<T>, key: T -> string)
    requires SortedBy(a, key) && SortedBy(b, key)
    requires forall k :: Filter(a, key, k) == Filter(b, key, k)
    ensures a == b
  {
    HasOwnKey(a, key);
    HasOwnKey(b, key);
    if a != [] && b != [] {
      SameHead(a, b, key);
      SameTailFilters(a, b, key);
      assert SortedBy(a[1..], key) && SortedBy(b[1..], key);
      SortedStableUnique(a[1..], b[1..], key);
      assert a == [a[0]] + a[1..] && b == [b[0]] + b[1..];
    }
  }

  /** Whatever stable sort Python applies, its result is `SortBy(s, key)`. */
  lemma {:induction false} StableSortIsUnique<T>(s: seq<T>, t: seq<T>, key: T -> string)
    requires SortedBy(t, key) && Stable(s, t, key)
    ensures t == SortBy(s, key)
  {
    SortBySorted(s, key);
    SortByStable(s, key);
    SortedStableUnique(t, SortBy(s, key), key);
  }
}
