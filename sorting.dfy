/** `Array.prototype.sort` with a descending numeric comparator
    `(a, b) => key(b) - key(a)`. The sort is stable, and an element goes in
    front of another only when its key is strictly greater, which is what a
    negative comparator result means; a NaN key compares as "not before".
    The model is a stable insertion sort. */
module Sorting {
  import opened Js

  /** Puts `x` after every element of `s` that it does not strictly beat. */
  function Insert<T>(x: T, s: seq<T>, key: T -> Float): (r: seq<T>)
    ensures multiset(r) == multiset(s) + multiset{x}
  {
    if s == [] then [x]
    else if key(x).Greater(key(s[0])) then [x] + s
    else
      assert s == [s[0]] + s[1..];
      [s[0]] + Insert(x, s[1..], key)
  }

  /** The elements of `s`, by non-increasing key, equal keys in their
      original order. */
  function SortDesc<T>(s: seq<T>, key: T -> Float): (r: seq<T>)
    ensures multiset(r) == multiset(s)
  {
    if s == [] then []
    else
      assert s == s[..|s| - 1] + [s[|s| - 1]];
      Insert(s[|s| - 1], SortDesc(s[..|s| - 1], key), key)
  }

  predicate AllFinite<T>(s: seq<T>, key: T -> Float) {
    forall i :: 0 <= i < |s| ==> key(s[i]).Finite?
  }

  /** Every key is at least as large as every key after it. */
  predicate NonIncreasing<T>(s: seq<T>, key: T -> Float)
    requires AllFinite(s, key)
  {
    forall i, j :: 0 <= i < j < |s| ==> key(s[j]).value <= key(s[i]).value
  }

  lemma AllFiniteMultiset<T>(s: seq<T>, t: seq<T>, key: T -> Float)
    requires multiset(s) == multiset(t) && AllFinite(s, key)
    ensures AllFinite(t, key)
  {
    forall i | 0 <= i < |t| ensures key(t[i]).Finite? {
      assert t[i] in multiset(t);
      assert t[i] in s;
    }
  }

  lemma {:induction false} InsertSorted<T>(x: T, s: seq<T>, key: T -> Float)
    requires key(x).Finite? && AllFinite(s, key) && NonIncreasing(s, key)
    ensures AllFinite(Insert(x, s, key), key) && NonIncreasing(Insert(x, s, key), key)
  {
    var r := Insert(x, s, key);
    AllFiniteMultiset(s + [x], r, key);
    if s != [] && !key(x).Greater(key(s[0])) {
      var rest := Insert(x, s[1..], key);
      InsertSorted(x, s[1..], key);
      assert r == [s[0]] + rest;
      forall j | 0 < j < |r| ensures key(r[j]).value <= key(r[0]).value {
        assert r[j] == rest[j - 1];
        assert rest[j - 1] in multiset(rest);
        assert rest[j - 1] in multiset(s[1..]) + multiset{x};
        if rest[j - 1] != x {
          assert rest[j - 1] in s[1..];
        }
      }
    }
  }

  /** With finite keys, the result is ordered by non-increasing key. */
  lemma {:induction false} SortDescSorted<T>(s: seq<T>, key: T -> Float)
    requires AllFinite(s, key)
    ensures AllFinite(SortDesc(s, key), key) && NonIncreasing(SortDesc(s, key), key)
  {
    if s != [] {
      var init := s[..|s| - 1];
      assert AllFinite(init, key) by {
        forall i | 0 <= i < |init| ensures key(init[i]).Finite? {
          assert init[i] == s[i];
        }
      }
      SortDescSorted(init, key);
      InsertSorted(s[|s| - 1], SortDesc(init, key), key);
    }
  }
}
