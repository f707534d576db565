/**
 * Python dictionaries with string keys, as the modelled code uses them: an
 * association list in insertion order. Assigning to an existing key keeps
 * its position and replaces the value; assigning to a new key appends it.
 * Subscripting a missing key raises KeyError.
 */
module Dicts {
  import opened Base
  import opened Seqs

  type Dict<V> = seq<(string, V)>

  /** The keys in insertion order (`list(d)`). */
  function Keys<V>(d: Dict<V>): (ks: seq<string>)
    ensures |ks| == |d|
    ensures forall i :: 0 <= i < |d| ==> ks[i] == d[i].0
  {
    if |d| == 0 then [] else [d[0].0] + Keys(d[1..])
  }

  /** `d.get(key)`: the value stored under the first entry with that key. */
  function Get<V>(d: Dict<V>, key: string): (r: Option<V>)
    ensures r.None? <==> key !in Keys(d)
    ensures r.Some? ==> exists i :: 0 <= i < |d| && d[i] == (key, r.value)
  {
    if |d| == 0 then None
    else if d[0].0 == key then Some(d[0].1)
    else
      var r := Get(d[1..], key);
      assert r.Some? ==> exists i :: 0 <= i < |d| && d[i] == (key, r.value) by {
        if r.Some? {
          var i :| 0 <= i < |d[1..]| && d[1..][i] == (key, r.value);
          assert d[i + 1] == (key, r.value);
        }
      }
      r
  }

  /** The dictionary literal pairing `ks[i]` with `vs[i]`. */
  function Zip<V>(ks: seq<string>, vs: seq<V>): (d: Dict<V>)
    requires |ks| == |vs|
    ensures Keys(d) == ks
    ensures |d| == |ks| && forall i :: 0 <= i < |d| ==> d[i] == (ks[i], vs[i])
  {
    if |ks| == 0 then [] else [(ks[0], vs[0])] + Zip(ks[1..], vs[1..])
  }

  /** The entry at index `i` is the one `Get` finds when no earlier entry has its key. */
  lemma {:induction false} GetFirst<V>(d: Dict<V>, i: nat)
    requires i < |d|
    requires forall j :: 0 <= j < i ==> d[j].0 != d[i].0
    ensures Get(d, d[i].0) == Some(d[i].1)
  {
    if i > 0 {
      GetFirst(d[1..], i - 1);
    }
  }

  /** `d[key]`: the value, or KeyError naming the key. */
  function Lookup<V>(d: Dict<V>, key: string): (r: Result<V>)
    ensures r.Err? <==> key !in Keys(d)
    ensures r.Err? ==> r.error == KeyError(key)
    ensures r.Ok? ==> Get(d, key) == Some(r.value)
  {
    match Get(d, key)
    case None => Err(KeyError(key))
    case Some(v) => Ok(v)
  }

  /** `d[key] = value`. */
  function Put<V>(d: Dict<V>, key: string, value: V): (r: Dict<V>)
    ensures Get(r, key) == Some(value)
    ensures forall k :: k != key ==> Get(r, k) == Get(d, k)
  {
    if |d| == 0 then [(key, value)]
    else if d[0].0 == key then [(key, value)] + d[1..]
    else
      var rest := Put(d[1..], key, value);
      assert ([d[0]] + rest)[1..] == rest;
      [d[0]] + rest
  }

  /** Assignment keeps the key order: an existing key stays where it is, a new key goes last. */
  lemma {:induction false} PutKeys<V>(d: Dict<V>, key: string, value: V)
    ensures Keys(Put(d, key, value)) == if key in Keys(d) then Keys(d) else Keys(d) + [key]
  {
    if |d| > 0 && d[0].0 != key {
      PutKeys(d[1..], key, value);
      var r := Put(d, key, value);
      assert r == [d[0]] + Put(d[1..], key, value);
      assert r[1..] == Put(d[1..], key, value);
    } else if |d| > 0 {
      var r := Put(d, key, value);
      assert r[1..] == d[1..];
    }
  }

  lemma DistinctSnoc(ks: seq<string>, k: string)
    requires Distinct(ks) && k !in ks
    ensures Distinct(ks + [k])
  {
  }

  /** Assignment never makes a key appear twice. */
  lemma PutDistinct<V>(d: Dict<V>, key: string, value: V)
    requires Distinct(Keys(d))
    ensures Distinct(Keys(Put(d, key, value)))
  {
    PutKeys(d, key, value);
    if key !in Keys(d) {
      DistinctSnoc(Keys(d), key);
    }
  }
}
