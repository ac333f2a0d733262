/**
 * `Array.prototype.sort` with a comparator that subtracts two numeric keys. The
 * library sort is stable, so its result is the one a stable insertion sort by
 * the same key produces.
 */
module Sorting {

  predicate SortedBy<T>(s: seq<T>, key: T -> int) {
    forall i, j :: 0 <= i < j < |s| ==> key(s[i]) <= key(s[j])
  }

  /** Places `x` after the last element whose key is at most `key(x)`. */
  function Insert<T>(s: seq<T>, x: T, key: T -> int): (r: seq<T>)
    ensures |r| == |s| + 1
  {
    if s == [] || key(s[|s| - 1]) <= key(x) then s + [x]
    else Insert(s[..|s| - 1], x, key) + [s[|s| - 1]]
  }

  lemma {:induction false} InsertPermutes<T>(s: seq<T>, x: T, key: T -> int)
    ensures multiset(Insert(s, x, key)) == multiset(s) + multiset{x}
  {
    if s != [] && key(s[|s| - 1]) > key(x) {
      var n := |s| - 1;
      InsertPermutes(s[..n], x, key);
      assert s == s[..n] + [s[n]];
    }
  }

  lemma {:induction false} InsertSorted<T>(s: seq<T>, x: T, key: T -> int)
    requires SortedBy(s, key)
    ensures SortedBy(Insert(s, x, key), key)
  {
    if s != [] && key(s[|s| - 1]) > key(x) {
      var n := |s| - 1;
      var rest := Insert(s[..n], x, key);
      InsertSorted(s[..n], x, key);
      InsertPermutes(s[..n], x, key);
      var r := rest + [s[n]];
      forall i | 0 <= i < |rest|
        ensures key(rest[i]) <= key(s[n])
      {
        assert rest[i] in multiset(rest);
        if rest[i] != x {
          assert rest[i] in multiset(s[..n]);
          var k :| 0 <= k < n && s[..n][k] == rest[i];
          assert s[k] == rest[i];
        }
      }
      assert Insert(s, x, key) == r;
    }
  }

  /** The stable sort of `s` by `key`. */
  function InsertionSort<T>(s: seq<T>, key: T -> int): (r: seq<T>)
    ensures multiset(r) == multiset(s)
    ensures |r| == |s|
    ensures SortedBy(r, key)
  {
    if s == [] then []
    else
      assert s == s[..|s| - 1] + [s[|s| - 1]];
      var sorted := InsertionSort(s[..|s| - 1], key);
      InsertSorted(sorted, s[|s| - 1], key);
      InsertPermutes(sorted, s[|s| - 1], key);
      Insert(sorted, s[|s| - 1], key)
  }

  /** Inserting at the first position after which every key is larger is what Insert does. */
  lemma {:induction false} InsertAt<T>(s: seq<T>, x: T, key: T -> int, p: nat)
    requires p <= |s|
    requires forall k :: p <= k < |s| ==> key(s[k]) > key(x)
    requires p == 0 || key(s[p - 1]) <= key(x)
    ensures Insert(s, x, key) == s[..p] + [x] + s[p..]
    decreases |s|
  {
    if p < |s| {
      var n := |s| - 1;
      assert key(s[n]) > key(x);
      var init := s[..n];
      assert forall k :: p <= k < |init| ==> init[k] == s[k];
      assert p == 0 || init[p - 1] == s[p - 1];
      InsertAt(init, x, key, p);
      assert Insert(s, x, key) == Insert(init, x, key) + [s[n]];
      assert init[..p] == s[..p];
      assert init[p..] + [s[n]] == s[p..];
    } else {
      assert s[..p] == s;
    }
  }

  /** Finds, from the back, the place where `x` goes and inserts it there. */
  method InsertBack<T>(r: seq<T>, x: T, key: T -> int) returns (r': seq<T>)
    ensures r' == Insert(r, x, key)
  {
    var p := |r|;
    while p > 0 && key(r[p - 1]) > key(x)
      invariant 0 <= p <= |r|
      invariant forall k :: p <= k < |r| ==> key(r[k]) > key(x)
    {
      p := p - 1;
    }
    InsertAt(r, x, key, p);
    r' := r[..p] + [x] + r[p..];
  }

  /** The library sort: inserts the elements one by one into a sorted prefix. */
  method Sort<T>(s: seq<T>, key: T -> int) returns (r: seq<T>)
    ensures r == InsertionSort(s, key)
    ensures SortedBy(r, key) && multiset(r) == multiset(s)
  {
    r := [];
    var i := 0;
    while i < |s|
      invariant 0 <= i <= |s|
      invariant r == InsertionSort(s[..i], key)
    {
      r := InsertBack(r, s[i], key);
      assert s[..i + 1][..i] == s[..i];
      i := i + 1;
    }
    assert s[..i] == s;
  }
}
