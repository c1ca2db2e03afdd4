/** Python dictionaries, as their entries in insertion order: `m.get(key)`,
    `m[key] = value` and the `{**a, **b}` spread. */
module Dict {
  import opened Wrappers

  // The operations below hold for any key and value types.

  function Keys<K, V>(m: seq<(K, V)>): (ks: seq<K>)
    ensures |ks| == |m| && forall i :: 0 <= i < |m| ==> ks[i] == m[i].0
  {
    if m == [] then [] else [m[0].0] + Keys(m[1..])
  }

  predicate DistinctKeys<K(==), V>(m: seq<(K, V)>) {
    forall i, j :: 0 <= i < j < |m| ==> m[i].0 != m[j].0
  }

  /** `m.get(key)`. */
  function Lookup<K(==), V>(m: seq<(K, V)>, key: K): (r: Option<V>)
    ensures r.None? <==> key !in Keys(m)
  {
    if m == [] then None
    else if m[0].0 == key then Some(m[0].1)
    else Lookup(m[1..], key)
  }

  /** `m[key] = value`. */
  function Put<K(==), V>(m: seq<(K, V)>, key: K, value: V): seq<(K, V)>
    decreases |m|
  {
    if m == [] then [(key, value)]
    else if m[0].0 == key then [(key, value)] + m[1..]
    else [m[0]] + Put(m[1..], key, value)
  }

  /** After `m[key] = value` the key maps to `value` and every other key
      to what it mapped to before. */
  lemma {:induction false} PutLookup<K, V>(m: seq<(K, V)>, key: K, value: V, k: K)
    ensures Lookup(Put(m, key, value), k) == if k == key then Some(value) else Lookup(m, k)
    decreases |m|
  {
    if m != [] {
      var r := Put(m, key, value);
      if m[0].0 == key {
        assert r[1..] == m[1..];
      } else {
        assert r[0] == m[0] && r[1..] == Put(m[1..], key, value);
        PutLookup(m[1..], key, value, k);
      }
    }
  }

  /** A key already present keeps its place; a new key goes last. */
  lemma {:induction false} PutKeys<K, V>(m: seq<(K, V)>, key: K, value: V)
    ensures Keys(Put(m, key, value)) == if key in Keys(m) then Keys(m) else Keys(m) + [key]
    decreases |m|
  {
    if m != [] {
      var r := Put(m, key, value);
      if m[0].0 == key {
        assert r[1..] == m[1..];
      } else {
        assert r[0] == m[0] && r[1..] == Put(m[1..], key, value);
        PutKeys(m[1..], key, value);
        assert key in Keys(m) <==> key in Keys(m[1..]);
      }
    }
  }

  /** `{**m, **extra}`: the entries of `extra` are put into `m` in order. */
  function Merge<K(==), V>(m: seq<(K, V)>, extra: seq<(K, V)>): seq<(K, V)>
    decreases |extra|
  {
    if extra == [] then m else Merge(Put(m, extra[0].0, extra[0].1), extra[1..])
  }

  /** Later spreads override earlier ones: a key of `extra` takes its value
      from `extra`, every other key keeps the one it had in `m`. */
  lemma {:induction false} MergeLookup<K, V>(m: seq<(K, V)>, extra: seq<(K, V)>, key: K)
    requires DistinctKeys(extra)
    ensures Lookup(Merge(m, extra), key) ==
            if key in Keys(extra) then Lookup(extra, key) else Lookup(m, key)
    decreases |extra|
  {
    if extra != [] {
      var rest := extra[1..];
      assert DistinctKeys(rest);
      PutLookup(m, extra[0].0, extra[0].1, key);
      MergeLookup(Put(m, extra[0].0, extra[0].1), rest, key);
      if key == extra[0].0 {
        assert key !in Keys(rest);
      }
    }
  }

  /** Putting a key the dictionary lacks appends it. */
  lemma {:induction false} PutFresh<K, V>(m: seq<(K, V)>, key: K, value: V)
    requires key !in Keys(m)
    ensures Put(m, key, value) == m + [(key, value)]
    decreases |m|
  {
    if m != [] {
      assert m[0].0 == Keys(m)[0];
      assert Keys(m[1..]) == Keys(m)[1..];
      PutFresh(m[1..], key, value);
      assert [m[0]] + (m[1..] + [(key, value)]) == m + [(key, value)];
    }
  }

  /** A spread whose keys are all new appends its entries in order, so
      nothing is overridden. */
  lemma {:induction false} MergeFresh<K, V>(m: seq<(K, V)>, extra: seq<(K, V)>)
    requires DistinctKeys(extra)
    requires forall i :: 0 <= i < |extra| ==> extra[i].0 !in Keys(m)
    ensures Merge(m, extra) == m + extra
    decreases |extra|
  {
    if extra != [] {
      var e, rest := extra[0], extra[1..];
      var m' := m + [e];
      calc {
        Merge(m, extra);
        Merge(Put(m, e.0, e.1), rest);
        { PutFresh(m, e.0, e.1); }
        Merge(m', rest);
        { MergeFreshStep(m, extra);
          MergeFresh(m', rest); }
        m' + rest;
        { assert extra == [e] + rest; }
        m + extra;
      }
    }
  }

  /** The keys of the rest of a fresh spread are fresh in the dictionary
      its first entry was appended to. */
  lemma MergeFreshStep<K, V>(m: seq<(K, V)>, extra: seq<(K, V)>)
    requires extra != [] && DistinctKeys(extra)
    requires forall i :: 0 <= i < |extra| ==> extra[i].0 !in Keys(m)
    ensures DistinctKeys(extra[1..])
    ensures forall i :: 0 <= i < |extra| - 1 ==> extra[1..][i].0 !in Keys(m + [extra[0]])
  {
    var e, rest := extra[0], extra[1..];
    KeysAppend(m, [e]);
    assert Keys(m + [e]) == Keys(m) + [e.0];
    forall i | 0 <= i < |rest|
      ensures rest[i].0 !in Keys(m + [e])
    {
      assert rest[i] == extra[i + 1];
    }
  }

  lemma {:induction false} KeysAppend<K, V>(a: seq<(K, V)>, b: seq<(K, V)>)
    ensures Keys(a + b) == Keys(a) + Keys(b)
  {
  }
}
