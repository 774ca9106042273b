/**
 * Python dictionaries keep their keys in insertion order. A dictionary is
 * modelled as its list of entries; `Put` is `d[k] = v` (replace in place,
 * or append a new key at the end) and `Update` is `d.update(e)`.
 */
module Dicts {
  import opened Wrappers

  type Dict<K, V> = seq<(K, V)>

  /** `d.get(k)`: the value of the first entry with key `k`. */
  function Get<K(==, !new), V>(d: Dict<K, V>, k: K): Option<V>
  {
    if |d| == 0 then None
    else if d[0].0 == k then Some(d[0].1)
    else Get(d[1..], k)
  }

  predicate HasKey<K(==, !new), V>(d: Dict<K, V>, k: K)
  {
    Get(d, k).Some?
  }

  /** `d.get(k, default)` */
  function GetOr<K(==, !new), V>(d: Dict<K, V>, k: K, default: V): V
  {
    match Get(d, k)
    case Some(v) => v
    case None => default
  }

  function KeySet<K, V>(d: Dict<K, V>): set<K>
  {
    set i | 0 <= i < |d| :: d[i].0
  }

  lemma KeySetCons<K, V>(d: Dict<K, V>)
    requires |d| > 0
    ensures KeySet(d) == {d[0].0} + KeySet(d[1..])
  {
    forall x | x in KeySet(d) ensures x in {d[0].0} + KeySet(d[1..]) {
      var i :| 0 <= i < |d| && d[i].0 == x;
      if i > 0 { assert d[1..][i - 1].0 == x; }
    }
    forall x | x in KeySet(d[1..]) ensures x in KeySet(d) {
      var i :| 0 <= i < |d[1..]| && d[1..][i].0 == x;
      assert d[i + 1].0 == x;
    }
  }

  lemma DistinctTail<K(!new), V>(d: Dict<K, V>)
    requires |d| > 0 && DistinctKeys(d)
    ensures DistinctKeys(d[1..]) && d[0].0 !in KeySet(d[1..])
  {
    forall i, j | 0 <= i < j < |d[1..]| ensures d[1..][i].0 != d[1..][j].0 {
      assert d[1..][i] == d[i + 1] && d[1..][j] == d[j + 1];
    }
    forall i | 0 <= i < |d[1..]| ensures d[1..][i].0 != d[0].0 {
      assert d[1..][i] == d[i + 1];
    }
  }

  function Keys<K, V>(d: Dict<K, V>): (ks: seq<K>)
    ensures |ks| == |d| && forall i | 0 <= i < |d| :: ks[i] == d[i].0
  {
    seq(|d|, i requires 0 <= i < |d| => d[i].0)
  }

  /** No key occurs twice: true of every real Python dictionary. */
  predicate DistinctKeys<K(==, !new), V>(d: Dict<K, V>)
  {
    forall i, j | 0 <= i < j < |d| :: d[i].0 != d[j].0
  }

  /** The value of the LAST entry with key `k`: what a left-to-right sequence of writes leaves behind. */
  function Last<K(==, !new), V>(d: Dict<K, V>, k: K): (r: Option<V>)
    ensures r.Some? <==> HasKey(d, k)
  {
    if |d| == 0 then None
    else
      var later := Last(d[1..], k);
      if later.Some? then later
      else if d[0].0 == k then Some(d[0].1)
      else None
  }

  lemma {:induction false} HasKeyIsKeySet<K(!new), V>(d: Dict<K, V>, k: K)
    ensures HasKey(d, k) <==> k in KeySet(d)
  {
    if |d| > 0 {
      HasKeyIsKeySet(d[1..], k);
      KeySetCons(d);
    }
  }

  /** On a dictionary without repeated keys the first and the last entry for a key are the same entry. */
  lemma {:induction false} GetIsLast<K(!new), V>(d: Dict<K, V>, k: K)
    requires DistinctKeys(d)
    ensures Get(d, k) == Last(d, k)
  {
    if |d| > 0 {
      DistinctTail(d);
      GetIsLast(d[1..], k);
      if d[0].0 == k {
        HasKeyIsKeySet(d[1..], k);
      }
    }
  }

  /** A key that is present has a first position, and `get` returns the value there. */
  lemma {:induction false} KeyIndex<K(!new), V>(d: Dict<K, V>, k: K) returns (i: nat)
    requires Get(d, k).Some?
    ensures i < |d| && d[i].0 == k && Get(d, k) == Some(d[i].1)
    ensures forall j | 0 <= j < i :: d[j].0 != k
  {
    if d[0].0 == k {
      i := 0;
    } else {
      var j := KeyIndex(d[1..], k);
      i := j + 1;
    }
  }

  /** The entry at position `i` of a dictionary without repeated keys is what `get` finds. */
  lemma {:induction false} GetAt<K(!new), V>(d: Dict<K, V>, i: nat)
    requires DistinctKeys(d) && i < |d|
    ensures Get(d, d[i].0) == Some(d[i].1)
  {
    if i > 0 {
      assert d[0].0 != d[i].0;
      DistinctTail(d);
      assert d[1..][i - 1] == d[i];
      GetAt(d[1..], i - 1);
    }
  }

  /**
   * `d[k] = v`: afterwards `k` maps to `v`, every other key keeps its value,
   * an existing key keeps its position and a new key goes to the end.
   */
  function Put<K(==, !new), V>(d: Dict<K, V>, k: K, v: V): (r: Dict<K, V>)
    ensures Get(r, k) == Some(v)
    ensures forall k' | k' != k :: Get(r, k') == Get(d, k')
    ensures KeySet(r) == KeySet(d) + {k}
    ensures !HasKey(d, k) ==> r == d + [(k, v)]
    ensures HasKey(d, k) ==> |r| == |d|
    ensures DistinctKeys(d) ==> DistinctKeys(r)
  {
    if |d| == 0 then [(k, v)]
    else if d[0].0 == k then
      var r := [(k, v)] + d[1..];
      assert r[1..] == d[1..];
      KeySetCons(r);
      KeySetCons(d);
      assert DistinctKeys(d) ==> DistinctKeys(r) by {
        if DistinctKeys(d) {
          forall i, j | 0 <= i < j < |r| ensures r[i].0 != r[j].0 {
            assert r[i].0 == d[i].0 && r[j].0 == d[j].0;
          }
        }
      }
      r
    else
      var t := Put(d[1..], k, v);
      var r := [d[0]] + t;
      assert r[1..] == t;
      KeySetCons(r);
      KeySetCons(d);
      assert DistinctKeys(d) ==> DistinctKeys(r) by {
        if DistinctKeys(d) {
          DistinctTail(d);
          forall i, j | 0 <= i < j < |r| ensures r[i].0 != r[j].0 {
            if i == 0 {
              assert r[j].0 in KeySet(t);
            } else {
              assert r[i] == t[i - 1] && r[j] == t[j - 1];
            }
          }
        }
      }
      assert !HasKey(d, k) ==> r == d + [(k, v)] by {
        if !HasKey(d, k) {
          assert t == d[1..] + [(k, v)];
          assert [d[0]] + (d[1..] + [(k, v)]) == d + [(k, v)];
        }
      }
      r
  }

  /** Writing the value a key already has changes nothing. */
  lemma {:induction false} PutExisting<K(!new), V>(d: Dict<K, V>, k: K, v: V)
    requires Get(d, k) == Some(v)
    ensures Put(d, k, v) == d
  {
    if d[0].0 != k {
      PutExisting(d[1..], k, v);
    } else {
      assert [(k, v)] + d[1..] == d;
    }
  }

  /**
   * `d.update(e)`: the entries of `e` written one after another. A key of `e`
   * ends with the value of its last entry in `e`; every other key keeps its value.
   */
  function Update<K(==, !new), V>(d: Dict<K, V>, e: Dict<K, V>): (r: Dict<K, V>)
    ensures forall k :: Get(r, k) == if HasKey(e, k) then Last(e, k) else Get(d, k)
    ensures KeySet(r) == KeySet(d) + KeySet(e)
    ensures DistinctKeys(d) ==> DistinctKeys(r)
    decreases |e|
  {
    if |e| == 0 then
      assert KeySet(e) == {};
      d
    else
      var d' := Put(d, e[0].0, e[0].1);
      var r := Update(d', e[1..]);
      KeySetCons(e);
      assert forall k :: Get(r, k) == if HasKey(e, k) then Last(e, k) else Get(d, k) by {
        forall k ensures Get(r, k) == if HasKey(e, k) then Last(e, k) else Get(d, k) {
          if !HasKey(e[1..], k) && e[0].0 != k {
            assert Get(r, k) == Get(d', k) == Get(d, k);
          }
        }
      }
      r
  }

  lemma {:induction false} UpdateAppend<K(!new), V>(d: Dict<K, V>, e1: Dict<K, V>, e2: Dict<K, V>)
    ensures Update(d, e1 + e2) == Update(Update(d, e1), e2)
    decreases |e1|
  {
    if |e1| == 0 {
      assert e1 + e2 == e2;
    } else {
      assert (e1 + e2)[0] == e1[0];
      assert (e1 + e2)[1..] == e1[1..] + e2;
      UpdateAppend(Put(d, e1[0].0, e1[0].1), e1[1..], e2);
    }
  }

  /** Updating with entries that are all already present with their values changes nothing. */
  lemma {:induction false} UpdatePresent<K(!new), V>(d: Dict<K, V>, e: Dict<K, V>)
    requires forall i | 0 <= i < |e| :: Get(d, e[i].0) == Some(e[i].1)
    ensures Update(d, e) == d
    decreases |e|
  {
    if |e| > 0 {
      PutExisting(d, e[0].0, e[0].1);
      forall i | 0 <= i < |e[1..]| ensures Get(d, e[1..][i].0) == Some(e[1..][i].1) {
        assert e[1..][i] == e[i + 1];
      }
      UpdatePresent(d, e[1..]);
    }
  }

  /** Merging the same dictionary twice in a row is the same as merging it once. */
  lemma UpdateIdempotent<K(!new), V>(d: Dict<K, V>, e: Dict<K, V>)
    requires DistinctKeys(e)
    ensures Update(Update(d, e), e) == Update(d, e)
  {
    var r := Update(d, e);
    forall i | 0 <= i < |e| ensures Get(r, e[i].0) == Some(e[i].1) {
      assert HasKey(e, e[i].0) by { GetAt(e, i); }
      GetAt(e, i);
      GetIsLast(e, e[i].0);
    }
    UpdatePresent(r, e);
  }
}
