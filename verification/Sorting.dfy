/** A stable sort by a key, as a function. */
module Sorting {

  predicate Ordered<T>(s: seq<T>, key: T -> int) {
    |s| < 2 || (key(s[0]) <= key(s[1]) && Ordered(s[1..], key))
  }

  /** Insertion after everything with the same key or a smaller one, which keeps ties in their order. */
  function Insert<T>(s: seq<T>, x: T, key: T -> int): seq<T> {
    if s == [] || key(x) < key(s[0]) then [x] + s else [s[0]] + Insert(s[1..], x, key)
  }

  lemma {:induction false} InsertKeepsOrder<T>(s: seq<T>, x: T, key: T -> int)
    requires Ordered(s, key)
    ensures Ordered(Insert(s, x, key), key) && multiset(Insert(s, x, key)) == multiset(s) + multiset{x}
  {
    if s != [] {
      assert s == [s[0]] + s[1..];
      var r := Insert(s, x, key);
      if key(x) < key(s[0]) {
        assert r[1..] == s;
      } else {
        InsertKeepsOrder(s[1..], x, key);
        assert r[1..] == Insert(s[1..], x, key);
      }
    }
  }

  function SortBy<T>(s: seq<T>, key: T -> int): seq<T> {
    if s == [] then [] else Insert(SortBy(s[..|s| - 1], key), s[|s| - 1], key)
  }

  lemma {:induction false} SortBySorts<T>(s: seq<T>, key: T -> int)
    ensures Ordered(SortBy(s, key), key) && multiset(SortBy(s, key)) == multiset(s)
  {
    if s != [] {
      assert s == s[..|s| - 1] + [s[|s| - 1]];
      SortBySorts(s[..|s| - 1], key);
      InsertKeepsOrder(SortBy(s[..|s| - 1], key), s[|s| - 1], key);
    }
  }

  /** The elements with a given key, in their order. */
  function WithKey<T>(s: seq<T>, key: T -> int, v: int): seq<T> {
    if s == [] then [] else (if key(s[0]) == v then [s[0]] else []) + WithKey(s[1..], key, v)
  }

  lemma {:induction false} WithKeySum<T>(a: seq<T>, b: seq<T>, key: T -> int, v: int)
    ensures WithKey(a + b, key, v) == WithKey(a, key, v) + WithKey(b, key, v)
  {
    if a == [] {
      assert a + b == b;
    } else {
      assert (a + b)[1..] == a[1..] + b;
      WithKeySum(a[1..], b, key, v);
      var first := if key(a[0]) == v then [a[0]] else [];
      assert first + (WithKey(a[1..], key, v) + WithKey(b, key, v)) == first + WithKey(a[1..], key, v) + WithKey(b, key, v);
    }
  }

  lemma {:induction false} NoneBelow<T>(s: seq<T>, key: T -> int, v: int)
    requires Ordered(s, key) && (s != [] ==> v < key(s[0]))
    ensures WithKey(s, key, v) == []
  {
    if s != [] { NoneBelow(s[1..], key, v); }
  }

  lemma {:induction false} InsertIsStable<T>(s: seq<T>, x: T, key: T -> int, v: int)
    requires Ordered(s, key)
    ensures WithKey(Insert(s, x, key), key, v) == WithKey(s, key, v) + if key(x) == v then [x] else []
  {
    if s == [] {
      assert [x][1..] == [];
    } else if key(x) < key(s[0]) {
      assert ([x] + s)[1..] == s;
      if key(x) == v { NoneBelow(s, key, v); }
    } else {
      InsertIsStable(s[1..], x, key, v);
      assert Insert(s, x, key)[1..] == Insert(s[1..], x, key);
      var first, last := if key(s[0]) == v then [s[0]] else [], if key(x) == v then [x] else [];
      assert first + (WithKey(s[1..], key, v) + last) == first + WithKey(s[1..], key, v) + last;
    }
  }

  /** Elements with equal keys keep their order. */
  lemma {:induction false} SortByIsStable<T>(s: seq<T>, key: T -> int, v: int)
    ensures WithKey(SortBy(s, key), key, v) == WithKey(s, key, v)
  {
    if s != [] {
      var n := |s| - 1;
      SortByIsStable(s[..n], key, v);
      SortBySorts(s[..n], key);
      InsertIsStable(SortBy(s[..n], key), s[n], key, v);
      WithKeySum(s[..n], [s[n]], key, v);
      assert s == s[..n] + [s[n]] && [s[n]][1..] == [];
    }
  }

  lemma {:induction false} OrderedPairs<T>(s: seq<T>, key: T -> int, i: nat, j: nat)
    requires Ordered(s, key) && i <= j < |s|
    ensures key(s[i]) <= key(s[j])
  {
    if i < j {
      if i == 0 {
        OrderedPairs(s[1..], key, 0, j - 1);
      } else {
        OrderedPairs(s[1..], key, i - 1, j - 1);
      }
    }
  }

  function Elements<T>(s: seq<T>): set<T> {
    set x | x in s
  }

  lemma NotBefore<T>(s: seq<T>, items: set<T>, k: nat)
    requires multiset(s) == multiset(items) && k < |s|
    ensures s[k] !in s[..k] && s[k] in items
  {
    assert s == s[..k] + [s[k]] + s[k + 1..];
    assert multiset(s)[s[k]] == multiset(s[..k])[s[k]] + 1 + multiset(s[k + 1..])[s[k]];
  }

  /** The first `k` elements of a listing of a set are `k` different elements of it. */
  lemma {:induction false} FirstOfSet<T>(s: seq<T>, items: set<T>, k: nat)
    requires multiset(s) == multiset(items) && k <= |s|
    ensures |Elements(s[..k])| == k && Elements(s[..k]) <= items
  {
    if k > 0 {
      FirstOfSet(s, items, k - 1);
      NotBefore(s, items, k - 1);
      assert s[..k] == s[..k - 1] + [s[k - 1]];
      assert Elements(s[..k]) == Elements(s[..k - 1]) + {s[k - 1]};
    }
  }
}
