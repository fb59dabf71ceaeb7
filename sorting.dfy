/** `Array.prototype.sort` with a numeric comparator `(a, b) => key(a) - key(b)`.
    Since ES2019 that sort is stable, so it is modelled by insertion sort,
    which puts an element before the equal-keyed elements that came after it. */
module StableSort {

  predicate SortedBy<T>(s: seq<T>, key: T -> int)
  {
    forall i, j :: 0 <= i < j < |s| ==> key(s[i]) <= key(s[j])
  }

  /** The elements of `s` whose key is `v`, in their order in `s`. */
  function WithKey<T>(s: seq<T>, key: T -> int, v: int): (r: seq<T>)
    ensures |r| <= |s|
    ensures forall i :: 0 <= i < |r| ==> key(r[i]) == v
  {
    if s == [] then []
    else (if key(s[0]) == v then [s[0]] else []) + WithKey(s[1..], key, v)
  }

  /** Inserts `x` before the first element whose key is not smaller. */
  function Insert<T>(x: T, s: seq<T>, key: T -> int): (r: seq<T>)
    ensures |r| == |s| + 1
  {
    if s == [] || key(x) <= key(s[0]) then [x] + s
    else [s[0]] + Insert(x, s[1..], key)
  }

  /** Inserting adds `x` and loses nothing. */
  lemma {:induction false} InsertPermutes<T>(x: T, s: seq<T>, key: T -> int)
    ensures multiset(Insert(x, s, key)) == multiset(s) + multiset{x}
  {
    if s != [] && key(x) > key(s[0]) {
      InsertPermutes(x, s[1..], key);
      assert s == [s[0]] + s[1..];
    }
  }

  /** A lower bound on the keys of `x` and of `s` bounds the keys after
      the insertion. */
  lemma {:induction false} InsertBounded<T>(x: T, s: seq<T>, key: T -> int, lo: int)
    requires lo <= key(x) && forall i :: 0 <= i < |s| ==> lo <= key(s[i])
    ensures forall i :: 0 <= i < |Insert(x, s, key)| ==> lo <= key(Insert(x, s, key)[i])
  {
    var r := Insert(x, s, key);
    if s != [] && key(x) > key(s[0]) {
      var tail := Insert(x, s[1..], key);
      InsertBounded(x, s[1..], key, lo);
      forall i | 0 < i < |r| ensures lo <= key(r[i]) {
        assert r[i] == tail[i - 1];
      }
    } else {
      forall i | 0 < i < |r| ensures lo <= key(r[i]) {
        assert r[i] == s[i - 1];
      }
    }
  }

  /** Inserting into a sorted sequence keeps it sorted. */
  lemma {:induction false} InsertSorted<T>(x: T, s: seq<T>, key: T -> int)
    requires SortedBy(s, key)
    ensures SortedBy(Insert(x, s, key), key)
  {
    var r := Insert(x, s, key);
    if s == [] || key(x) <= key(s[0]) {
      forall i, j | 0 <= i < j < |r| ensures key(r[i]) <= key(r[j]) {
        if i > 0 {
          assert r[i] == s[i - 1] && r[j] == s[j - 1];
        } else if j > 1 {
          assert r[j] == s[j - 1];
        }
      }
    } else {
      var tail := Insert(x, s[1..], key);
      InsertSorted(x, s[1..], key);
      assert forall i :: 0 <= i < |s[1..]| ==> key(s[0]) <= key(s[1..][i]);
      InsertBounded(x, s[1..], key, key(s[0]));
      forall i, j | 0 <= i < j < |r| ensures key(r[i]) <= key(r[j]) {
        if i > 0 {
          assert r[i] == tail[i - 1] && r[j] == tail[j - 1];
        } else {
          assert r[j] == tail[j - 1];
        }
      }
    }
  }

  /** The sorted order: ascending by key, a permutation of the input. */
  function Sort<T>(s: seq<T>, key: T -> int): (r: seq<T>)
    ensures |r| == |s|
    ensures multiset(r) == multiset(s)
    ensures SortedBy(r, key)
  {
    if s == [] then []
    else
      assert s == [s[0]] + s[1..];
      InsertSorted(s[0], Sort(s[1..], key), key);
      InsertPermutes(s[0], Sort(s[1..], key), key);
      Insert(s[0], Sort(s[1..], key), key)
  }

  /** `WithKey` on a sequence with a known first element. */
  lemma WithKeyCons<T>(y: T, s: seq<T>, key: T -> int, v: int)
    ensures WithKey([y] + s, key, v) == (if key(y) == v then [y] else []) + WithKey(s, key, v)
  {
    assert ([y] + s)[1..] == s;
  }

  /** `x` lands before every element with a key greater than its own, so
      among the elements keyed `v` it is added at the front. */
  lemma {:induction false} InsertWithKey<T>(x: T, s: seq<T>, key: T -> int, v: int)
    ensures WithKey(Insert(x, s, key), key, v) == WithKey([x] + s, key, v)
  {
    if s != [] && key(x) > key(s[0]) {
      var tail := Insert(x, s[1..], key);
      var w := WithKey(s[1..], key, v);
      var hx: seq<T> := if key(x) == v then [x] else [];
      var h0: seq<T> := if key(s[0]) == v then [s[0]] else [];
      assert Insert(x, s, key) == [s[0]] + tail;
      WithKeyCons(s[0], tail, key, v);
      InsertWithKey(x, s[1..], key, v);
      WithKeyCons(x, s[1..], key, v);
      assert WithKey(Insert(x, s, key), key, v) == h0 + (hx + w);
      WithKeyCons(x, s, key, v);
      assert s == [s[0]] + s[1..];
      WithKeyCons(s[0], s[1..], key, v);
      assert WithKey([x] + s, key, v) == hx + (h0 + w);
      assert hx == [] || h0 == [];
    }
  }

  /** Stability: for every key value the sorted output lists the elements with
      that key in exactly their input order. */
  lemma {:induction false} SortIsStable<T>(s: seq<T>, key: T -> int, v: int)
    ensures WithKey(Sort(s, key), key, v) == WithKey(s, key, v)
  {
    if s != [] {
      SortIsStable(s[1..], key, v);
      InsertWithKey(s[0], Sort(s[1..], key), key, v);
      assert ([s[0]] + Sort(s[1..], key))[1..] == Sort(s[1..], key);
      assert ([s[0]] + s[1..]) == s;
    }
  }
}
