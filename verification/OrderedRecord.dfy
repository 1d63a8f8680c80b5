/** JavaScript objects used as dictionaries: string keys that keep the order in which they were first inserted. */
module OrderedRecord {

  datatype RawRecord<V> = RawRecord(keys: seq<string>, vals: map<string, V>)

  predicate Distinct(s: seq<string>) {
    s == [] || (s[|s| - 1] !in s[..|s| - 1] && Distinct(s[..|s| - 1]))
  }

  function Members(s: seq<string>): set<string> { set k | k in s }

  ghost predicate WellFormed<V>(r: RawRecord<V>) { Members(r.keys) == r.vals.Keys && Distinct(r.keys) }

  type Record<V> = r: RawRecord<V> | WellFormed(r) witness RawRecord([], map[])

  function Empty<V>(): Record<V> { RawRecord([], map[]) }

  lemma DistinctSnoc(s: seq<string>, x: string)
    ensures Distinct(s + [x]) <==> x !in s && Distinct(s)
    ensures Members(s + [x]) == Members(s) + {x}
  {
    assert (s + [x])[..|s|] == s;
  }

  lemma {:induction false} DistinctAt(s: seq<string>, i: nat, j: nat)
    requires Distinct(s) && i < j < |s|
    ensures s[i] != s[j]
  {
    if j < |s| - 1 { DistinctAt(s[..|s| - 1], i, j); }
  }

  /** `{...r, [key]: v}` or `r[key] = v`: a key that is already present keeps its place. */
  function Put<V>(r: Record<V>, key: string, v: V): (s: Record<V>)
    ensures s.vals == r.vals[key := v]
    ensures s.keys == if key in r.vals then r.keys else r.keys + [key]
  {
    DistinctSnoc(r.keys, key);
    assert key in Members(r.keys) <==> key in r.vals;
    if key in r.vals then RawRecord(r.keys, r.vals[key := v])
    else RawRecord(r.keys + [key], r.vals[key := v])
  }

  function Without(keys: seq<string>, key: string): (s: seq<string>)
    ensures Members(s) == Members(keys) - {key}
    ensures Distinct(keys) ==> Distinct(s)
  {
    if keys == [] then []
    else
      var n := |keys| - 1;
      var rest := Without(keys[..n], key);
      assert keys == keys[..n] + [keys[n]];
      DistinctSnoc(keys[..n], keys[n]);
      DistinctSnoc(rest, keys[n]);
      assert keys[n] in rest <==> keys[n] in Members(rest);
      if keys[n] == key then rest else rest + [keys[n]]
  }

  /** `delete r[key]` */
  function Delete<V>(r: Record<V>, key: string): (s: Record<V>)
    ensures s.vals == r.vals - {key}
    ensures s.keys == Without(r.keys, key)
  {
    RawRecord(Without(r.keys, key), r.vals - {key})
  }

  function Lookup<V>(keys: seq<string>, vals: map<string, V>): (s: seq<V>)
    requires Members(keys) <= vals.Keys
    ensures |s| == |keys|
    ensures forall i :: 0 <= i < |s| ==> keys[i] in vals && s[i] == vals[keys[i]]
  {
    if keys == [] then []
    else
      var n := |keys| - 1;
      assert keys[n] in Members(keys) && Members(keys[..n]) <= Members(keys);
      Lookup(keys[..n], vals) + [vals[keys[n]]]
  }

  /** `Object.values(r)` */
  function Values<V>(r: Record<V>): seq<V> { Lookup(r.keys, r.vals) }

  lemma ValuesAreVals<V>(r: Record<V>, v: V)
    ensures v in Values(r) <==> exists k :: k in r.vals && r.vals[k] == v
  {
    if k :| k in r.vals && r.vals[k] == v {
      assert k in Members(r.keys);
      var i :| 0 <= i < |r.keys| && r.keys[i] == k;
      assert Values(r)[i] == v;
    }
    if v in Values(r) {
      var i :| 0 <= i < |r.keys| && Values(r)[i] == v;
      assert r.keys[i] in r.vals;
    }
  }
}
