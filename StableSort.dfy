/**
 * Python's stable sort by a key (`list.sort(key=...)` and `sorted(...)`),
 * written as insertion sort: each element is placed in front of the first
 * element whose key is not smaller, so it stays ahead of the equal-keyed
 * elements that followed it in the input. `reverse=True` keeps stability in
 * Python, so a descending sort is this sort on the negated key.
 */
module StableSort {

  predicate SortedBy<T>(s: seq<T>, key: T -> int)
  {
    forall i, j :: 0 <= i < j < |s| ==> key(s[i]) <= key(s[j])
  }

  /** The elements of s whose key is k, in their order in s. */
  function WithKey<T>(s: seq<T>, key: T -> int, k: int): seq<T>
  {
    if s == [] then []
    else (if key(s[0]) == k then [s[0]] else []) + WithKey(s[1..], key, k)
  }

  function Insert<T>(x: T, s: seq<T>, key: T -> int): seq<T>
  {
    if s == [] || key(x) <= key(s[0]) then [x] + s
    else [s[0]] + Insert(x, s[1..], key)
  }

  function SortBy<T>(s: seq<T>, key: T -> int): seq<T>
  {
    if s == [] then [] else Insert(s[0], SortBy(s[1..], key), key)
  }

  lemma {:induction false} InsertPermutes<T>(x: T, s: seq<T>, key: T -> int)
    ensures multiset(Insert(x, s, key)) == multiset(s) + multiset{x}
  {
    if s != [] && key(x) > key(s[0]) {
      InsertPermutes(x, s[1..], key);
      assert s == [s[0]] + s[1..];
    }
  }

  /** Every element of a sorted sequence is keyed at least as high as its head. */
  lemma HeadIsLeast<T>(s: seq<T>, key: T -> int, y: T)
    requires SortedBy(s, key) && s != [] && y in s
    ensures key(s[0]) <= key(y)
  {
    var j :| 0 <= j < |s| && s[j] == y;
    if j > 0 {
      assert key(s[0]) <= key(s[j]);
    }
  }

  lemma {:induction false} InsertSorted<T>(x: T, s: seq<T>, key: T -> int)
    requires SortedBy(s, key)
    ensures SortedBy(Insert(x, s, key), key)
  {
    if s != [] && key(x) > key(s[0]) {
      var tail := s[1..];
      assert SortedBy(tail, key) by {
        forall i, j | 0 <= i < j < |tail| ensures key(tail[i]) <= key(tail[j]) {
          assert tail[i] == s[i + 1] && tail[j] == s[j + 1];
        }
      }
      InsertSorted(x, tail, key);
      InsertPermutes(x, tail, key);
      var r := Insert(x, tail, key);
      forall j | 0 <= j < |r| ensures key(s[0]) <= key(r[j]) {
        assert r[j] in multiset(r);
        if r[j] != x {
          assert r[j] in tail;
          HeadIsLeast(s, key, r[j]);
        }
      }
      assert Insert(x, s, key) == [s[0]] + r;
    }
  }

  /** The sorted sequence is ordered by key and is a permutation of the input. */
  lemma {:induction false} SortByOrders<T>(s: seq<T>, key: T -> int)
    ensures SortedBy(SortBy(s, key), key)
    ensures multiset(SortBy(s, key)) == multiset(s)
  {
    if s != [] {
      SortByOrders(s[1..], key);
      InsertPermutes(s[0], SortBy(s[1..], key), key);
      InsertSorted(s[0], SortBy(s[1..], key), key);
      assert s == [s[0]] + s[1..];
    }
  }

  lemma WithKeyCons<T>(y: T, s: seq<T>, key: T -> int, k: int)
    ensures WithKey([y] + s, key, k) == (if key(y) == k then [y] else []) + WithKey(s, key, k)
  {
    assert ([y] + s)[0] == y && ([y] + s)[1..] == s;
  }

  lemma {:induction false} InsertWithKey<T>(x: T, s: seq<T>, key: T -> int, k: int)
    ensures WithKey(Insert(x, s, key), key, k)
         == (if key(x) == k then [x] else []) + WithKey(s, key, k)
  {
    if s == [] || key(x) <= key(s[0]) {
      WithKeyCons(x, s, key, k);
    } else {
      var r := Insert(x, s[1..], key);
      InsertWithKey(x, s[1..], key, k);
      WithKeyCons(s[0], r, key, k);
      WithKeyCons(s[0], s[1..], key, k);
      assert s == [s[0]] + s[1..];
      // x is keyed above s[0], so at most one of the two is keyed k
      assert key(x) != key(s[0]);
    }
  }

  /** Stability: among equal keys the sorted sequence keeps the input order. */
  lemma {:induction false} SortByStable<T>(s: seq<T>, key: T -> int, k: int)
    ensures WithKey(SortBy(s, key), key, k) == WithKey(s, key, k)
  {
    if s != [] {
      SortByStable(s[1..], key, k);
      InsertWithKey(s[0], SortBy(s[1..], key), key, k);
    }
  }

  lemma {:induction false} WithKeyAppend<T>(a: seq<T>, b: seq<T>, key: T -> int, k: int)
    ensures WithKey(a + b, key, k) == WithKey(a, key, k) + WithKey(b, key, k)
  {
    if a != [] {
      WithKeyAppend(a[1..], b, key, k);
      WithKeyCons(a[0], a[1..] + b, key, k);
      WithKeyCons(a[0], a[1..], key, k);
      assert a + b == [a[0]] + (a[1..] + b);
      assert a == [a[0]] + a[1..];
    } else {
      assert a + b == b;
    }
  }

  /** The equal-keyed elements of a prefix are a prefix of those of the whole. */
  lemma WithKeyPrefix<T>(s: seq<T>, n: nat, key: T -> int, k: int)
    requires n <= |s|
    ensures WithKey(s[..n], key, k) <= WithKey(s, key, k)
  {
    WithKeyAppend(s[..n], s[n..], key, k);
    assert s == s[..n] + s[n..];
  }

  lemma SortByLength<T>(s: seq<T>, key: T -> int)
    ensures |SortBy(s, key)| == |s|
  {
    SortByOrders(s, key);
    assert |multiset(SortBy(s, key))| == |multiset(s)|;
  }
}
