/** A plain JavaScript object used as a dictionary with string keys: an
    association list whose order is the insertion order of its keys (the order
    `Object.entries` and `Object.values` report). Assigning to a key that is
    already present keeps its position; a new key goes to the end. */
module Dict {

  type Dict<V> = seq<(string, V)>

  predicate DistinctKeys<V>(d: Dict<V>)
  {
    forall i, j :: 0 <= i < j < |d| ==> d[i].0 != d[j].0
  }

  predicate HasKey<V>(d: Dict<V>, k: string)
  {
    exists i :: 0 <= i < |d| && d[i].0 == k
  }

  /** The keys in insertion order (`Object.keys`). */
  function Keys<V>(d: Dict<V>): (ks: seq<string>)
    ensures |ks| == |d|
    ensures forall i :: 0 <= i < |d| ==> ks[i] == d[i].0
  {
    if d == [] then [] else [d[0].0] + Keys(d[1..])
  }

  /** `d[k] || fallback` for a key that may be missing. */
  function Get<V>(d: Dict<V>, k: string, fallback: V): V
  {
    if d == [] then fallback
    else if d[0].0 == k then d[0].1
    else Get(d[1..], k, fallback)
  }

  /** A missing key reads as the fallback; a present one, with distinct
      keys, as its value. */
  lemma {:induction false} GetSpec<V>(d: Dict<V>, k: string, fallback: V)
    ensures !HasKey(d, k) ==> Get(d, k, fallback) == fallback
    ensures forall i :: 0 <= i < |d| && d[i].0 == k && DistinctKeys(d) ==> Get(d, k, fallback) == d[i].1
  {
    if d != [] && d[0].0 != k {
      GetSpec(d[1..], k, fallback);
      assert forall i :: 1 <= i < |d| ==> d[1..][i - 1] == d[i];
      if HasKey(d[1..], k) {
        var i :| 0 <= i < |d[1..]| && d[1..][i].0 == k;
        assert d[i + 1].0 == k;
      }
    }
  }

  /** `d[k] = v`. */
  function Put<V>(d: Dict<V>, k: string, v: V): Dict<V>
  {
    if d == [] then [(k, v)]
    else if d[0].0 == k then [(k, v)] + d[1..]
    else [d[0]] + Put(d[1..], k, v)
  }

  lemma HasKeyTail<V>(d: Dict<V>, k: string)
    requires d != [] && d[0].0 != k
    ensures HasKey(d, k) <==> HasKey(d[1..], k)
  {
    if HasKey(d, k) {
      var i :| 0 <= i < |d| && d[i].0 == k;
      assert d[1..][i - 1].0 == k;
    }
    if HasKey(d[1..], k) {
      var i :| 0 <= i < |d[1..]| && d[1..][i].0 == k;
      assert d[i + 1].0 == k;
    }
  }

  /** A new key is appended at the end; an existing one keeps the length. */
  lemma {:induction false} PutShape<V>(d: Dict<V>, k: string, v: V)
    ensures HasKey(d, k) ==> |Put(d, k, v)| == |d|
    ensures !HasKey(d, k) ==> Put(d, k, v) == d + [(k, v)]
  {
    if d != [] && d[0].0 != k {
      PutShape(d[1..], k, v);
      HasKeyTail(d, k);
      if !HasKey(d, k) {
        assert d == [d[0]] + d[1..];
      }
    } else if d != [] {
      assert d[0].0 == k;
    }
  }

  /** Assignment overwrites the entry for `k` in place and leaves every
      other entry where it was. */
  lemma {:induction false} PutEntries<V>(d: Dict<V>, k: string, v: V)
    ensures forall i :: 0 <= i < |d| && d[i].0 != k ==> i < |Put(d, k, v)| && Put(d, k, v)[i] == d[i]
    ensures DistinctKeys(d) ==> forall i :: 0 <= i < |d| && d[i].0 == k ==> i < |Put(d, k, v)| && Put(d, k, v)[i] == (k, v)
  {
    if d != [] && d[0].0 != k {
      PutEntries(d[1..], k, v);
      var r, r' := Put(d, k, v), Put(d[1..], k, v);
      assert r == [d[0]] + r';
      assert forall i :: 1 <= i < |d| ==> d[1..][i - 1] == d[i];
      if DistinctKeys(d) {
        assert DistinctKeys(d[1..]) by {
          forall i, j | 0 <= i < j < |d[1..]| ensures d[1..][i].0 != d[1..][j].0 {
            assert d[1..][i] == d[i + 1] && d[1..][j] == d[j + 1];
          }
        }
      }
    }
  }

  /** `Object.keys` after assignment: unchanged for an existing key, `k`
      added at the end for a new one. */
  lemma {:induction false} PutKeys<V>(d: Dict<V>, k: string, v: V)
    ensures Keys(Put(d, k, v)) == if HasKey(d, k) then Keys(d) else Keys(d) + [k]
  {
    if d != [] && d[0].0 != k {
      PutKeys(d[1..], k, v);
      HasKeyTail(d, k);
      var r, r' := Put(d, k, v), Put(d[1..], k, v);
      assert r == [d[0]] + r';
      assert Keys(r) == [d[0].0] + Keys(r');
      assert Keys(d) == [d[0].0] + Keys(d[1..]);
    } else if d != [] {
      assert HasKey(d, k) by { assert d[0].0 == k; }
      assert Keys(Put(d, k, v)) == [k] + Keys(d[1..]);
    }
  }

  lemma HasKeyIffInKeys<V>(d: Dict<V>, k: string)
    ensures HasKey(d, k) <==> k in Keys(d)
  {
    if k in Keys(d) {
      var i :| 0 <= i < |d| && Keys(d)[i] == k;
      assert d[i].0 == k;
    }
  }

  /** Assignment keeps the keys distinct. */
  lemma PutKeepsDistinct<V>(d: Dict<V>, k: string, v: V)
    requires DistinctKeys(d)
    ensures DistinctKeys(Put(d, k, v))
  {
    var r := Put(d, k, v);
    PutShape(d, k, v);
    PutEntries(d, k, v);
    PutKeys(d, k, v);
    if !HasKey(d, k) {
      forall i, j | 0 <= i < j < |r| ensures r[i].0 != r[j].0 {
        if j == |d| {
          assert r[i] == d[i];
        }
      }
    } else {
      forall i, j | 0 <= i < j < |r| ensures r[i].0 != r[j].0 {
        assert r[i].0 == Keys(r)[i] == Keys(d)[i] == d[i].0;
        assert r[j].0 == Keys(r)[j] == Keys(d)[j] == d[j].0;
      }
    }
  }

  /** After assignment the keys are the old ones plus `k`. */
  lemma HasKeyPut<V>(d: Dict<V>, k: string, v: V, k': string)
    ensures HasKey(Put(d, k, v), k') <==> HasKey(d, k') || k' == k
  {
    PutKeys(d, k, v);
    HasKeyIffInKeys(d, k);
    HasKeyIffInKeys(d, k');
    HasKeyIffInKeys(Put(d, k, v), k');
  }

  /** After assignment `k` maps to `v` and every other key keeps its value. */
  lemma GetPut<V>(d: Dict<V>, k: string, v: V, k': string, fallback: V)
    requires DistinctKeys(d)
    ensures Get(Put(d, k, v), k', fallback) == if k' == k then v else Get(d, k', fallback)
  {
    var r := Put(d, k, v);
    PutShape(d, k, v);
    PutEntries(d, k, v);
    PutKeepsDistinct(d, k, v);
    HasKeyPut(d, k, v, k');
    GetSpec(r, k', fallback);
    GetSpec(d, k', fallback);
    if k' == k {
      if HasKey(d, k) {
        var i :| 0 <= i < |d| && d[i].0 == k;
        assert r[i] == (k, v);
      } else {
        assert r[|d|] == (k, v);
      }
    } else if HasKey(d, k') {
      var i :| 0 <= i < |d| && d[i].0 == k';
      assert r[i] == d[i];
    }
  }

  /** The sum of the values (`Object.values(d).reduce((s, v) => s + v, 0)`). */
  function Sum(d: Dict<int>): int
  {
    if d == [] then 0 else d[0].1 + Sum(d[1..])
  }

  /** Assigning `v` to `k` changes the sum by `v` minus what `k` held before
      (nothing, for a new key). */
  lemma {:induction false} SumPut(d: Dict<int>, k: string, v: int)
    requires DistinctKeys(d)
    ensures Sum(Put(d, k, v)) == Sum(d) - Get(d, k, 0) + v
  {
    if d == [] {
    } else if d[0].0 == k {
      assert Put(d, k, v) == [(k, v)] + d[1..];
      assert (([(k, v)] + d[1..])[1..]) == d[1..];
    } else {
      assert DistinctKeys(d[1..]) by {
        forall i, j | 0 <= i < j < |d[1..]| ensures d[1..][i].0 != d[1..][j].0 {
          assert d[1..][i] == d[i + 1] && d[1..][j] == d[j + 1];
        }
      }
      SumPut(d[1..], k, v);
      assert Put(d, k, v) == [d[0]] + Put(d[1..], k, v);
      assert ([d[0]] + Put(d[1..], k, v))[1..] == Put(d[1..], k, v);
    }
  }
}
