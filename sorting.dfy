/**
 * Python's `sorted(..., key=k, reverse=True)` / `list.sort(...)`: a stable
 * sort into descending order of a key. Keys are compared as Python compares
 * tuples; a single-number key is the pair `(k, 0.0)`.
 */
module Sorting {

  type Key = (real, real)

  /** `a >= b` on keys, lexicographically. */
  predicate KeyGe(a: Key, b: Key) {
    a.0 > b.0 || (a.0 == b.0 && a.1 >= b.1)
  }

  predicate SortedDesc<T>(s: seq<T>, key: T -> Key) {
    forall i, j :: 0 <= i < j < |s| ==> KeyGe(key(s[i]), key(s[j]))
  }

  /** Inserts `x` after every element whose key is at least `x`'s. */
  function Insert<T>(s: seq<T>, x: T, key: T -> Key): seq<T> {
    if |s| == 0 then [x]
    else if KeyGe(key(s[0]), key(x)) then [s[0]] + Insert(s[1..], x, key)
    else [x] + s
  }

  /** Insertion sort, element by element from the front of the input. */
  function SortDesc<T>(s: seq<T>, key: T -> Key): seq<T> {
    if |s| == 0 then [] else Insert(SortDesc(s[..|s| - 1], key), s[|s| - 1], key)
  }

  lemma {:induction false} InsertPermutes<T>(s: seq<T>, x: T, key: T -> Key)
    ensures multiset(Insert(s, x, key)) == multiset(s) + multiset{x}
  {
    if |s| > 0 && KeyGe(key(s[0]), key(x)) {
      InsertPermutes(s[1..], x, key);
      assert s == [s[0]] + s[1..];
    }
  }

  /** A head at least as large as every element of a sorted tail keeps it sorted. */
  lemma ConsSorted<T>(h: T, r: seq<T>, key: T -> Key)
    requires SortedDesc(r, key)
    requires forall j :: 0 <= j < |r| ==> KeyGe(key(h), key(r[j]))
    ensures SortedDesc([h] + r, key)
  {
    forall i, j | 0 <= i < j < |[h] + r|
      ensures KeyGe(key(([h] + r)[i]), key(([h] + r)[j]))
    {
      if i > 0 {
        assert ([h] + r)[i] == r[i - 1];
      }
      assert ([h] + r)[j] == r[j - 1];
    }
  }

  lemma {:induction false} InsertSorted<T>(s: seq<T>, x: T, key: T -> Key)
    requires SortedDesc(s, key)
    ensures SortedDesc(Insert(s, x, key), key)
  {
    if |s| > 0 && KeyGe(key(s[0]), key(x)) {
      InsertSorted(s[1..], x, key);
      InsertPermutes(s[1..], x, key);
      var r := Insert(s[1..], x, key);
      forall j | 0 <= j < |r|
        ensures KeyGe(key(s[0]), key(r[j]))
      {
        assert r[j] in multiset(r);
        assert r[j] in multiset(s[1..]) || r[j] == x;
        if r[j] != x {
          var k :| 0 <= k < |s[1..]| && s[1..][k] == r[j];
          assert s[k + 1] == r[j];
        }
      }
      ConsSorted(s[0], r, key);
    } else if |s| > 0 {
      forall j | 0 <= j < |s|
        ensures KeyGe(key(x), key(s[j]))
      {
        if j > 0 {
          assert KeyGe(key(s[0]), key(s[j]));
        }
      }
      ConsSorted(x, s, key);
    }
  }

  lemma InsertProperties<T>(s: seq<T>, x: T, key: T -> Key)
    requires SortedDesc(s, key)
    ensures SortedDesc(Insert(s, x, key), key)
    ensures multiset(Insert(s, x, key)) == multiset(s) + multiset{x}
  {
    InsertSorted(s, x, key);
    InsertPermutes(s, x, key);
  }

  /** The sort yields the input, reordered, in descending key order. */
  lemma {:induction false} SortDescProperties<T>(s: seq<T>, key: T -> Key)
    ensures SortedDesc(SortDesc(s, key), key)
    ensures multiset(SortDesc(s, key)) == multiset(s)
    ensures |SortDesc(s, key)| == |s|
  {
    if |s| > 0 {
      SortDescProperties(s[..|s| - 1], key);
      InsertProperties(SortDesc(s[..|s| - 1], key), s[|s| - 1], key);
      assert s == s[..|s| - 1] + [s[|s| - 1]];
    }
    assert |multiset(SortDesc(s, key))| == |multiset(s)|;
  }

  /** The elements of `s` whose key equals `k`, in their order in `s`. */
  function WithKey<T>(s: seq<T>, key: T -> Key, k: Key): seq<T> {
    if |s| == 0 then []
    else WithKey(s[..|s| - 1], key, k) + (if key(s[|s| - 1]) == k then [s[|s| - 1]] else [])
  }

  lemma {:induction false} WithKeyCons<T>(x: T, s: seq<T>, key: T -> Key, k: Key)
    ensures WithKey([x] + s, key, k) == (if key(x) == k then [x] else []) + WithKey(s, key, k)
  {
    if |s| > 0 {
      assert ([x] + s)[..|[x] + s| - 1] == [x] + s[..|s| - 1];
      WithKeyCons(x, s[..|s| - 1], key, k);
    }
  }

  lemma {:induction false} WithKeyNone<T>(s: seq<T>, key: T -> Key, k: Key)
    requires forall j :: 0 <= j < |s| ==> key(s[j]) != k
    ensures WithKey(s, key, k) == []
  {
    if |s| > 0 {
      WithKeyNone(s[..|s| - 1], key, k);
    }
  }

  lemma {:induction false} InsertWithKey<T>(s: seq<T>, x: T, key: T -> Key, k: Key)
    requires SortedDesc(s, key)
    ensures WithKey(Insert(s, x, key), key, k) == WithKey(s, key, k) + (if key(x) == k then [x] else [])
  {
    if |s| == 0 {
      assert Insert(s, x, key) == [x];
      assert [x][..0] == [];
    } else if KeyGe(key(s[0]), key(x)) {
      assert s == [s[0]] + s[1..];
      InsertWithKey(s[1..], x, key, k);
      WithKeyCons(s[0], Insert(s[1..], x, key), key, k);
      WithKeyCons(s[0], s[1..], key, k);
    } else {
      WithKeyCons(x, s, key, k);
      if key(x) == k {
        forall j | 0 <= j < |s|
          ensures key(s[j]) != k
        {
          if j > 0 {
            assert KeyGe(key(s[0]), key(s[j]));
          }
        }
        WithKeyNone(s, key, k);
      }
    }
  }

  /**
   * Stability: elements with equal keys keep their relative order (Python's
   * sort is stable, also with `reverse=True`).
   */
  lemma {:induction false} SortDescStable<T>(s: seq<T>, key: T -> Key, k: Key)
    ensures WithKey(SortDesc(s, key), key, k) == WithKey(s, key, k)
  {
    if |s| > 0 {
      SortDescStable(s[..|s| - 1], key, k);
      SortDescProperties(s[..|s| - 1], key);
      InsertWithKey(SortDesc(s[..|s| - 1], key), s[|s| - 1], key, k);
    }
  }
}
