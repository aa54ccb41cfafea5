/**
 * Python's `sorted(items, key=...)` and `list.sort(key=...)`: a stable sort by a
 * key. Both the segment grouping (sort by start milestone) and the suggestion
 * ranking (sort by cost) rely on it, so it is defined once here, as an
 * insertion sort, with the three facts Python's documentation promises: the
 * result is ordered by key, it is a permutation of the input, and items with
 * equal keys keep their relative order.
 */
module StableSort {
  import opened Common

  ghost predicate SortedBy<T>(s: seq<T>, key: T -> ExtReal)
  {
    forall i, j :: 0 <= i < j < |s| ==> Le(key(s[i]), key(s[j]))
  }

  /** The items of `s` whose key is `k`, in their order in `s`. */
  function WithKey<T>(s: seq<T>, key: T -> ExtReal, k: ExtReal): seq<T>
  {
    if s == [] then []
    else (if key(s[0]) == k then [s[0]] else []) + WithKey(s[1..], key, k)
  }

  /** Places `x` before the first item whose key is not smaller than its own. */
  function Insert<T>(x: T, s: seq<T>, key: T -> ExtReal): (r: seq<T>)
    ensures multiset(r) == multiset(s) + multiset{x}
  {
    if s == [] then [x]
    else if Le(key(x), key(s[0])) then [x] + s
    else
      assert s == [s[0]] + s[1..];
      [s[0]] + Insert(x, s[1..], key)
  }

  lemma {:induction false} InsertMembers<T>(x: T, s: seq<T>, key: T -> ExtReal, y: T)
    requires y in Insert(x, s, key)
    ensures y == x || y in s
  {
    assert y in multiset(Insert(x, s, key));
  }

  lemma {:induction false} InsertKeepsOrder<T>(x: T, s: seq<T>, key: T -> ExtReal)
    requires SortedBy(s, key)
    ensures SortedBy(Insert(x, s, key), key)
  {
    if s != [] && !Le(key(x), key(s[0])) {
      var rest := Insert(x, s[1..], key);
      var r := [s[0]] + rest;
      assert Insert(x, s, key) == r;
      assert SortedBy(s[1..], key) by {
        forall i, j | 0 <= i < j < |s[1..]| ensures Le(key(s[1..][i]), key(s[1..][j])) {
          assert s[1..][i] == s[i + 1] && s[1..][j] == s[j + 1];
        }
      }
      InsertKeepsOrder(x, s[1..], key);
      forall j | 0 < j < |r| ensures Le(key(r[0]), key(r[j])) {
        assert r[j] == rest[j - 1];
        InsertMembers(x, s[1..], key, r[j]);
        if r[j] != x {
          var m :| 0 <= m < |s[1..]| && s[1..][m] == r[j];
          assert s[m + 1] == r[j];
        }
      }
      forall i, j | 0 <= i < j < |r| ensures Le(key(r[i]), key(r[j])) {
        if i > 0 {
          assert r[i] == rest[i - 1] && r[j] == rest[j - 1];
        }
      }
    }
  }

  function InsertionSort<T>(s: seq<T>, key: T -> ExtReal): (r: seq<T>)
    ensures multiset(r) == multiset(s)
    ensures SortedBy(r, key)
  {
    if s == [] then []
    else
      assert s == [s[0]] + s[1..];
      var rest := InsertionSort(s[1..], key);
      InsertKeepsOrder(s[0], rest, key);
      Insert(s[0], rest, key)
  }

  lemma {:induction false} InsertWithKey<T>(x: T, s: seq<T>, key: T -> ExtReal, k: ExtReal)
    ensures WithKey(Insert(x, s, key), key, k)
         == (if key(x) == k then [x] else []) + WithKey(s, key, k)
  {
    if s == [] {
      WithKeyCons(x, [], key, k);
    } else if Le(key(x), key(s[0])) {
      WithKeyCons(x, s, key, k);
    } else {
      var rest := Insert(x, s[1..], key);
      InsertWithKey(x, s[1..], key, k);
      assert Insert(x, s, key) == [s[0]] + rest;
      assert [s[0]] + s[1..] == s;
      WithKeyPastHead(x, s[0], rest, s[1..], key, k);
    }
  }

  /** Moving `x` past a head `h` of another key keeps the items of key `k`
      in order. */
  lemma WithKeyPastHead<T>(x: T, h: T, rest: seq<T>, tail: seq<T>, key: T -> ExtReal, k: ExtReal)
    requires key(h) != key(x)
    requires WithKey(rest, key, k) == (if key(x) == k then [x] else []) + WithKey(tail, key, k)
    ensures WithKey([h] + rest, key, k) == (if key(x) == k then [x] else []) + WithKey([h] + tail, key, k)
  {
    WithKeyCons(h, rest, key, k);
    WithKeyCons(h, tail, key, k);
    var e0 := if key(h) == k then [h] else [];
    var ex := if key(x) == k then [x] else [];
    assert key(x) == k ==> e0 == [];
    assert key(x) != k ==> ex == [];
    assert e0 + (ex + WithKey(tail, key, k)) == ex + (e0 + WithKey(tail, key, k));
  }

  lemma WithKeyCons<T>(y: T, s: seq<T>, key: T -> ExtReal, k: ExtReal)
    ensures WithKey([y] + s, key, k) == (if key(y) == k then [y] else []) + WithKey(s, key, k)
  {
    assert ([y] + s)[1..] == s;
  }

  /** Stability: for every key, the items with that key appear in the sorted
      output in exactly the order they had in the input. */
  lemma {:induction false} SortIsStable<T>(s: seq<T>, key: T -> ExtReal, k: ExtReal)
    ensures WithKey(InsertionSort(s, key), key, k) == WithKey(s, key, k)
  {
    if s != [] {
      SortIsStable(s[1..], key, k);
      InsertWithKey(s[0], InsertionSort(s[1..], key), key, k);
    }
  }
}
