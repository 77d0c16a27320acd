/**
 * Python dictionaries with string keys where insertion ORDER is observable:
 * a sequence of (key, value) pairs. Assigning to an existing key keeps its
 * position; a new key goes last.
 */
module PyDict {
  import opened Wrappers

  type Dict<V> = seq<(string, V)>

  /** `list(d.keys())`. */
  function Keys<V>(d: Dict<V>): (ks: seq<string>)
    ensures |ks| == |d|
    ensures forall i :: 0 <= i < |d| ==> ks[i] == d[i].0
  {
    if |d| == 0 then [] else [d[0].0] + Keys(d[1..])
  }

  predicate DistinctKeys<V>(d: Dict<V>) {
    forall i, j :: 0 <= i < j < |d| ==> d[i].0 != d[j].0
  }

  /** `d.get(k)`. */
  function Get<V>(d: Dict<V>, k: string): Option<V> {
    if |d| == 0 then None
    else if d[0].0 == k then Some(d[0].1)
    else Get(d[1..], k)
  }

  /** `d[k] = v`. */
  function Set<V>(d: Dict<V>, k: string, v: V): Dict<V> {
    if |d| == 0 then [(k, v)]
    else if d[0].0 == k then [(k, v)] + d[1..]
    else [d[0]] + Set(d[1..], k, v)
  }

  /** `d.update(e)`: the pairs of `e` assigned in order. */
  function Update<V>(d: Dict<V>, e: Dict<V>): Dict<V>
    decreases |e|
  {
    if |e| == 0 then d else Update(Set(d, e[0].0, e[0].1), e[1..])
  }

  /** A key is found exactly when it is among the keys. */
  lemma {:induction false} GetIffKey<V>(d: Dict<V>, k: string)
    ensures Get(d, k).Some? <==> k in Keys(d)
  {
    if |d| > 0 {
      GetIffKey(d[1..], k);
      assert Keys(d) == [d[0].0] + Keys(d[1..]);
    }
  }

  /** After `d[k] = v`, `k` reads `v` and every other key reads as before. */
  lemma {:induction false} GetSet<V>(d: Dict<V>, k: string, v: V, k': string)
    ensures Get(Set(d, k, v), k') == if k' == k then Some(v) else Get(d, k')
  {
    if |d| > 0 && d[0].0 != k {
      GetSet(d[1..], k, v, k');
      assert ([d[0]] + Set(d[1..], k, v))[1..] == Set(d[1..], k, v);
    } else if |d| > 0 {
      assert ([(k, v)] + d[1..])[1..] == d[1..];
    }
  }

  /** `d[k] = v` keeps an existing key in place and appends a new one. */
  lemma {:induction false} KeysSet<V>(d: Dict<V>, k: string, v: V)
    ensures Keys(Set(d, k, v)) == if k in Keys(d) then Keys(d) else Keys(d) + [k]
  {
    if |d| > 0 {
      assert Keys(d) == [d[0].0] + Keys(d[1..]);
      if d[0].0 != k {
        KeysSet(d[1..], k, v);
        var r := [d[0]] + Set(d[1..], k, v);
        assert r[1..] == Set(d[1..], k, v);
        assert Keys(r) == [d[0].0] + Keys(r[1..]);
      } else {
        var r := [(k, v)] + d[1..];
        assert r[1..] == d[1..];
        assert Keys(r) == [k] + Keys(r[1..]);
      }
    }
  }

  /** In a dictionary without duplicate keys, a key reads the value of its one pair. */
  lemma {:induction false} GetDistinct<V>(d: Dict<V>, key: string)
    requires DistinctKeys(d)
    ensures forall i :: 0 <= i < |d| && d[i].0 == key ==> Get(d, key) == Some(d[i].1)
  {
    if |d| > 0 {
      assert DistinctKeys(d[1..]) by {
        forall i, j | 0 <= i < j < |d[1..]| ensures d[1..][i].0 != d[1..][j].0 {
          assert d[1..][i] == d[i + 1] && d[1..][j] == d[j + 1];
        }
      }
      GetDistinct(d[1..], key);
      forall i | 0 <= i < |d| && d[i].0 == key ensures Get(d, key) == Some(d[i].1) {
        if i > 0 {
          assert d[1..][i - 1] == d[i];
        }
      }
    }
  }

  /** Assigning a key that is not there appends the pair at the end. */
  lemma {:induction false} SetAppends<V>(d: Dict<V>, k: string, v: V)
    requires k !in Keys(d)
    ensures Set(d, k, v) == d + [(k, v)]
  {
    if |d| > 0 {
      assert Keys(d) == [d[0].0] + Keys(d[1..]);
      SetAppends(d[1..], k, v);
      assert d == [d[0]] + d[1..];
    }
  }

  /** Assignment never introduces a duplicate key. */
  lemma SetDistinct<V>(d: Dict<V>, k: string, v: V)
    requires DistinctKeys(d)
    ensures DistinctKeys(Set(d, k, v))
  {
    KeysSet(d, k, v);
    var r := Set(d, k, v);
    assert forall i :: 0 <= i < |r| ==> r[i].0 == Keys(r)[i];
  }

  /** After `d.update(e)` every key of `e` reads its last value in `e`, and every other key reads as in `d`. */
  lemma {:induction false} GetUpdate<V>(d: Dict<V>, e: Dict<V>, k: string)
    ensures Get(Update(d, e), k) == if k in Keys(e) then LastValue(e, k) else Get(d, k)
    decreases |e|
  {
    if |e| > 0 {
      GetUpdate(Set(d, e[0].0, e[0].1), e[1..], k);
      GetSet(d, e[0].0, e[0].1, k);
      assert Keys(e) == [e[0].0] + Keys(e[1..]);
    }
  }

  /** The value the last pair with key `k` carries. */
  function LastValue<V>(e: Dict<V>, k: string): Option<V>
    decreases |e|
  {
    if |e| == 0 then None
    else if k in Keys(e[1..]) then LastValue(e[1..], k)
    else if e[0].0 == k then Some(e[0].1)
    else None
  }

  /** `d.update(e)` keeps the keys of `d` in place and appends the new ones. */
  lemma {:induction false} KeysUpdatePrefix<V>(d: Dict<V>, e: Dict<V>)
    ensures |Keys(d)| <= |Keys(Update(d, e))|
    ensures Keys(Update(d, e))[..|Keys(d)|] == Keys(d)
    decreases |e|
  {
    if |e| > 0 {
      var d' := Set(d, e[0].0, e[0].1);
      KeysSet(d, e[0].0, e[0].1);
      KeysUpdatePrefix(d', e[1..]);
      assert Keys(d')[..|Keys(d)|] == Keys(d);
    }
  }

  /** The keys after `d.update(e)` are exactly those of `d` and `e`. */
  lemma {:induction false} KeysUpdate<V>(d: Dict<V>, e: Dict<V>, k: string)
    ensures k in Keys(Update(d, e)) <==> k in Keys(d) || k in Keys(e)
    decreases |e|
  {
    if |e| > 0 {
      var d' := Set(d, e[0].0, e[0].1);
      KeysSet(d, e[0].0, e[0].1);
      KeysUpdate(d', e[1..], k);
      assert Keys(e) == [e[0].0] + Keys(e[1..]);
    }
  }

  lemma {:induction false} UpdateDistinct<V>(d: Dict<V>, e: Dict<V>)
    requires DistinctKeys(d)
    ensures DistinctKeys(Update(d, e))
    decreases |e|
  {
    if |e| > 0 {
      SetDistinct(d, e[0].0, e[0].1);
      UpdateDistinct(Set(d, e[0].0, e[0].1), e[1..]);
    }
  }
}
