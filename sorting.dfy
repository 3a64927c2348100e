/**
 * Rust's `sort_by_key` on an integer key: a stable sort. Stated as a function
 * with its three properties: sorted by the key, a permutation of the input,
 * and equal keys kept in input order.
 */
module Sorting {

  predicate SortedBy<T>(s: seq<T>, key: T -> int) {
    forall i, j :: 0 <= i < j < |s| ==> key(s[i]) <= key(s[j])
  }

  /** The elements of `s` with key `k`, in order. */
  function WithKey<T>(s: seq<T>, key: T -> int, k: int): seq<T> {
    if s == [] then []
    else WithKey(s[..|s| - 1], key, k) + (if key(s[|s| - 1]) == k then [s[|s| - 1]] else [])
  }

  /** Inserts `x` after every element whose key is not larger. */
  function Insert<T>(x: T, r: seq<T>, key: T -> int): (out: seq<T>)
    ensures |out| == |r| + 1
  {
    if r == [] then [x]
    else if key(r[0]) <= key(x) then [r[0]] + Insert(x, r[1..], key)
    else [x] + r
  }

  /** `v.sort_by_key(key)` */
  function SortByKey<T>(s: seq<T>, key: T -> int): (r: seq<T>)
    ensures |r| == |s|
  {
    if s == [] then [] else Insert(s[|s| - 1], SortByKey(s[..|s| - 1], key), key)
  }

  lemma SortedTail<T>(r: seq<T>, key: T -> int)
    requires SortedBy(r, key) && r != []
    ensures SortedBy(r[1..], key)
  {
    forall i, j | 0 <= i < j < |r[1..]| ensures key(r[1..][i]) <= key(r[1..][j]) {
      assert r[1..][i] == r[i + 1] && r[1..][j] == r[j + 1];
    }
  }

  lemma {:induction false} InsertPermutes<T>(x: T, r: seq<T>, key: T -> int)
    ensures multiset(Insert(x, r, key)) == multiset(r) + multiset{x}
    decreases |r|
  {
    if r != [] && key(r[0]) <= key(x) {
      InsertPermutes(x, r[1..], key);
      assert r == [r[0]] + r[1..];
    }
  }

  lemma {:induction false} InsertSorted<T>(x: T, r: seq<T>, key: T -> int)
    requires SortedBy(r, key)
    ensures SortedBy(Insert(x, r, key), key)
    decreases |r|
  {
    if r != [] && key(r[0]) <= key(x) {
      SortedTail(r, key);
      InsertSorted(x, r[1..], key);
      InsertPermutes(x, r[1..], key);
      var tail := Insert(x, r[1..], key);
      forall j | 0 <= j < |tail| ensures key(r[0]) <= key(tail[j]) {
        assert tail[j] in multiset(tail);
        if tail[j] in multiset(r[1..]) {
          var m :| 0 <= m < |r[1..]| && r[1..][m] == tail[j];
          assert r[m + 1] == tail[j];
        }
      }
      assert Insert(x, r, key) == [r[0]] + tail;
    }
  }

  /** The result is sorted by the key and holds the same elements. */
  lemma {:induction false} SortByKeySortedPermutation<T>(s: seq<T>, key: T -> int)
    ensures SortedBy(SortByKey(s, key), key)
    ensures multiset(SortByKey(s, key)) == multiset(s)
    decreases |s|
  {
    if s != [] {
      SortByKeySortedPermutation(s[..|s| - 1], key);
      InsertSorted(s[|s| - 1], SortByKey(s[..|s| - 1], key), key);
      InsertPermutes(s[|s| - 1], SortByKey(s[..|s| - 1], key), key);
      assert s == s[..|s| - 1] + [s[|s| - 1]];
    }
  }

  lemma {:induction false} WithKeyCons<T>(y: T, r: seq<T>, key: T -> int, k: int)
    ensures WithKey([y] + r, key, k) == (if key(y) == k then [y] else []) + WithKey(r, key, k)
    decreases |r|
  {
    if r == [] {
      assert ([y] + r)[..0] == [];
    } else {
      assert ([y] + r)[..|r|] == [y] + r[..|r| - 1];
      WithKeyCons(y, r[..|r| - 1], key, k);
    }
  }

  lemma {:induction false} WithKeyAllBelow<T>(x: T, r: seq<T>, key: T -> int)
    requires forall i :: 0 <= i < |r| ==> key(r[i]) > key(x)
    ensures WithKey(r, key, key(x)) == []
    decreases |r|
  {
    if r != [] {
      WithKeyAllBelow(x, r[..|r| - 1], key);
    }
  }

  lemma {:induction false} InsertWithKey<T>(x: T, r: seq<T>, key: T -> int, k: int)
    requires SortedBy(r, key)
    ensures WithKey(Insert(x, r, key), key, k) == WithKey(r, key, k) + (if key(x) == k then [x] else [])
    decreases |r|
  {
    if r == [] {
      assert [x][..0] == [];
    } else if key(r[0]) <= key(x) {
      SortedTail(r, key);
      InsertWithKey(x, r[1..], key, k);
      WithKeyStep(r[0], r[1..], Insert(x, r[1..], key), key, k, x);
      assert [r[0]] + r[1..] == r;
    } else {
      InsertWithKeyFront(x, r, key, k);
    }
  }

  lemma InsertWithKeyFront<T>(x: T, r: seq<T>, key: T -> int, k: int)
    requires SortedBy(r, key) && r != [] && key(r[0]) > key(x)
    ensures WithKey([x] + r, key, k) == WithKey(r, key, k) + (if key(x) == k then [x] else [])
  {
    WithKeyCons(x, r, key, k);
    if key(x) == k {
      WithKeyAllBelow(x, r, key);
    }
  }

  lemma WithKeyStep<T>(y: T, rest: seq<T>, tail: seq<T>, key: T -> int, k: int, x: T)
    requires WithKey(tail, key, k) == WithKey(rest, key, k) + (if key(x) == k then [x] else [])
    ensures WithKey([y] + tail, key, k) == WithKey([y] + rest, key, k) + (if key(x) == k then [x] else [])
  {
    WithKeyCons(y, tail, key, k);
    WithKeyCons(y, rest, key, k);
    PrependSnoc(if key(y) == k then [y] else [], WithKey(rest, key, k), if key(x) == k then [x] else [],
      WithKey(tail, key, k), WithKey([y] + tail, key, k), WithKey([y] + rest, key, k));
  }

  lemma PrependSnoc<T>(h: seq<T>, b: seq<T>, t: seq<T>, bt: seq<T>, hbt: seq<T>, hb: seq<T>)
    requires bt == b + t && hbt == h + bt && hb == h + b
    ensures hbt == hb + t
  {
  }

  /** Stability: for every key, the elements with that key come out in the
      order they went in. */
  lemma {:induction false} SortByKeyStable<T>(s: seq<T>, key: T -> int, k: int)
    ensures WithKey(SortByKey(s, key), key, k) == WithKey(s, key, k)
    decreases |s|
  {
    if s != [] {
      SortByKeySortedPermutation(s[..|s| - 1], key);
      SortByKeyStable(s[..|s| - 1], key, k);
      InsertWithKey(s[|s| - 1], SortByKey(s[..|s| - 1], key), key, k);
    }
  }

  // ------------------------------------------------------------- distinct keys

  /** No two elements share a key. */
  predicate DistinctKeys<T>(s: seq<T>, key: T -> int) {
    forall i, j :: 0 <= i < j < |s| ==> key(s[i]) != key(s[j])
  }

  lemma {:induction false} WithKeyNone<T>(s: seq<T>, key: T -> int, k: int)
    requires forall i :: 0 <= i < |s| ==> key(s[i]) != k
    ensures WithKey(s, key, k) == []
    decreases |s|
  {
    if s != [] {
      WithKeyNone(s[..|s| - 1], key, k);
    }
  }

  lemma {:induction false} WithKeyAtMostOne<T>(s: seq<T>, key: T -> int, k: int)
    requires DistinctKeys(s, key)
    ensures |WithKey(s, key, k)| <= 1
    decreases |s|
  {
    if s != [] {
      var init := s[..|s| - 1];
      forall i, j | 0 <= i < j < |init| ensures key(init[i]) != key(init[j]) {
        assert init[i] == s[i] && init[j] == s[j];
      }
      WithKeyAtMostOne(init, key, k);
      if key(s[|s| - 1]) == k {
        forall i | 0 <= i < |init| ensures key(init[i]) != k {
          assert init[i] == s[i];
        }
        WithKeyNone(init, key, k);
      }
    }
  }

  lemma {:induction false} WithKeyHas<T>(s: seq<T>, key: T -> int, i: nat)
    requires i < |s|
    ensures |WithKey(s, key, key(s[i]))| >= 1
    decreases |s|
  {
    if i < |s| - 1 {
      var init := s[..|s| - 1];
      assert init[i] == s[i];
      WithKeyHas(init, key, i);
    }
  }

  lemma {:induction false} WithKeyTwo<T>(s: seq<T>, key: T -> int, i: nat, j: nat)
    requires i < j < |s| && key(s[i]) == key(s[j])
    ensures |WithKey(s, key, key(s[i]))| >= 2
    decreases |s|
  {
    var init := s[..|s| - 1];
    assert init[i] == s[i];
    if j == |s| - 1 {
      WithKeyHas(init, key, i);
    } else {
      assert init[j] == s[j];
      WithKeyTwo(init, key, i, j);
    }
  }

  /** Sorting keeps the keys distinct. */
  lemma SortByKeyDistinct<T>(s: seq<T>, key: T -> int)
    requires DistinctKeys(s, key)
    ensures DistinctKeys(SortByKey(s, key), key)
  {
    var r := SortByKey(s, key);
    forall i, j | 0 <= i < j < |r| ensures key(r[i]) != key(r[j]) {
      if key(r[i]) == key(r[j]) {
        WithKeyTwo(r, key, i, j);
        SortByKeyStable(s, key, key(r[i]));
        WithKeyAtMostOne(s, key, key(r[i]));
      }
    }
  }

  lemma {:induction false} KeyAtLeast<T>(r: seq<T>, key: T -> int, k: nat)
    requires SortedBy(r, key) && DistinctKeys(r, key) && k < |r|
    requires forall i :: 0 <= i < |r| ==> 0 <= key(r[i])
    ensures key(r[k]) >= k
    decreases k
  {
    if k > 0 {
      KeyAtLeast(r, key, k - 1);
    }
  }

  lemma {:induction false} KeyAtMost<T>(r: seq<T>, key: T -> int, k: nat)
    requires SortedBy(r, key) && DistinctKeys(r, key) && k < |r|
    requires forall i :: 0 <= i < |r| ==> key(r[i]) < |r|
    ensures key(r[k]) <= k
    decreases |r| - k
  {
    if k < |r| - 1 {
      KeyAtMost(r, key, k + 1);
    }
  }

  /** Sorting elements whose keys are 0, 1, ..., n - 1 in some order puts the
      element with key `k` at position `k`. */
  lemma SortByKeyIndices<T>(s: seq<T>, key: T -> int)
    requires DistinctKeys(s, key)
    requires forall i :: 0 <= i < |s| ==> 0 <= key(s[i]) < |s|
    ensures forall k :: 0 <= k < |s| ==> key(SortByKey(s, key)[k]) == k && SortByKey(s, key)[k] in s
  {
    var r := SortByKey(s, key);
    SortByKeySortedPermutation(s, key);
    SortByKeyDistinct(s, key);
    forall i | 0 <= i < |r| ensures r[i] in s && 0 <= key(r[i]) < |r| {
      assert r[i] in multiset(r);
      var m :| 0 <= m < |s| && s[m] == r[i];
    }
    forall k | 0 <= k < |r| ensures key(r[k]) == k {
      KeyAtLeast(r, key, k);
      KeyAtMost(r, key, k);
    }
  }
}
