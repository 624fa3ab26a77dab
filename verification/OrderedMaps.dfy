/** JavaScript's `Map` with numeric keys: a finite map that also remembers the
    order in which its keys were first inserted.  Setting a key that is present
    keeps its place; deleting and setting it again moves it to the end. */
module OrderedMaps {
  import opened Wrappers

  datatype JsMap<V> = JsMap(keys: seq<int>, vals: map<int, V>) {
    /** What every map built from `Empty` with `Put` and `Remove` satisfies. */
    ghost predicate Valid() {
      && NoDuplicates(keys)
      && forall k :: k in keys <==> k in vals
    }
  }

  ghost predicate NoDuplicates(keys: seq<int>) {
    forall i, j :: 0 <= i < j < |keys| ==> keys[i] != keys[j]
  }

  function Without(keys: seq<int>, k: int): (r: seq<int>)
    ensures forall x :: x in r <==> x in keys && x != k
    ensures NoDuplicates(keys) ==> NoDuplicates(r)
  {
    if keys == [] then []
    else if keys[0] == k then Without(keys[1..], k)
    else
      var rest := Without(keys[1..], k);
      assert NoDuplicates(keys) ==> keys[0] !in keys[1..];
      [keys[0]] + rest
  }

  function Empty<V>(): JsMap<V> {
    JsMap([], map[])
  }

  function Put<V>(m: JsMap<V>, k: int, v: V): (r: JsMap<V>)
    ensures r.vals == m.vals[k := v]
    ensures k in m.vals ==> r.keys == m.keys
    ensures k !in m.vals ==> r.keys == m.keys + [k]
  {
    if k in m.vals then JsMap(m.keys, m.vals[k := v])
    else JsMap(m.keys + [k], m.vals[k := v])
  }

  function Remove<V>(m: JsMap<V>, k: int): (r: JsMap<V>)
    ensures r.vals == m.vals - {k}
    ensures r.keys == Without(m.keys, k)
  {
    JsMap(Without(m.keys, k), m.vals - {k})
  }

  predicate Picked<V>(vals: map<int, V>, k: int, p: V -> bool) {
    k in vals && p(vals[k])
  }

  /** The keys, in insertion order, whose values satisfy `p`. */
  function Select<V>(keys: seq<int>, vals: map<int, V>, p: V -> bool): (r: seq<int>)
    ensures forall k :: k in r <==> k in keys && Picked(vals, k, p)
  {
    if keys == [] then []
    else
      var rest := Select(keys[1..], vals, p);
      if Picked(vals, keys[0], p) then [keys[0]] + rest else rest
  }

  /** `Array.from(map.values()).find(p)`, as the key of the entry found. */
  function Find<V>(keys: seq<int>, vals: map<int, V>, p: V -> bool): (r: Option<int>)
    ensures r.Some? ==> r.value in keys && Picked(vals, r.value, p)
    ensures r.None? ==> forall k :: k in keys ==> !Picked(vals, k, p)
  {
    if keys == [] then None
    else if Picked(vals, keys[0], p) then Some(keys[0])
    else Find(keys[1..], vals, p)
  }

  lemma PutTwice<V>(m: JsMap<V>, k: int, a: V, b: V)
    ensures Put(Put(m, k, a), k, b) == Put(m, k, b)
  {
    assert m.vals[k := a][k := b] == m.vals[k := b];
  }

  // ----- How Select moves when the map does -----

  lemma {:induction false} FindIsFirstSelected<V>(keys: seq<int>, vals: map<int, V>, p: V -> bool)
    ensures Find(keys, vals, p) == if Select(keys, vals, p) == [] then None else Some(Select(keys, vals, p)[0])
  {
    if keys != [] {
      FindIsFirstSelected(keys[1..], vals, p);
    }
  }

  lemma {:induction false} SelectAppend<V>(keys: seq<int>, k: int, vals: map<int, V>, p: V -> bool)
    requires k in vals
    ensures Select(keys + [k], vals, p) == Select(keys, vals, p) + (if p(vals[k]) then [k] else [])
  {
    if keys == [] {
      assert [k][1..] == [];
    } else {
      SelectAppend(keys[1..], k, vals, p);
      assert (keys + [k])[1..] == keys[1..] + [k];
    }
  }

  lemma {:induction false} SelectSameOn<V>(keys: seq<int>, a: map<int, V>, b: map<int, V>, p: V -> bool)
    requires forall k :: k in keys ==> (Picked(a, k, p) <==> Picked(b, k, p))
    ensures Select(keys, a, p) == Select(keys, b, p)
  {
    if keys != [] {
      SelectSameOn(keys[1..], a, b, p);
    }
  }

  lemma {:induction false} SelectWithout<V>(keys: seq<int>, k: int, vals: map<int, V>, p: V -> bool)
    ensures Select(Without(keys, k), vals - {k}, p) == Without(Select(keys, vals, p), k)
  {
    if keys != [] {
      SelectWithout(keys[1..], k, vals, p);
    }
  }

  lemma {:induction false} WithoutAbsent(keys: seq<int>, k: int)
    requires k !in keys
    ensures Without(keys, k) == keys
  {
    if keys != [] {
      WithoutAbsent(keys[1..], k);
    }
  }

  lemma WithoutHead(keys: seq<int>)
    requires keys != [] && NoDuplicates(keys)
    ensures Without(keys, keys[0]) == keys[1..]
  {
    WithoutAbsent(keys[1..], keys[0]);
  }

  lemma {:induction false} SelectNoDuplicates<V>(keys: seq<int>, vals: map<int, V>, p: V -> bool)
    requires NoDuplicates(keys)
    ensures NoDuplicates(Select(keys, vals, p))
  {
    if keys != [] {
      SelectNoDuplicates(keys[1..], vals, p);
    }
  }

  /** Selecting from a map in which one key now fails `p` drops just that key. */
  lemma {:induction false} SelectUpdateOut<V>(keys: seq<int>, vals: map<int, V>, k: int, v: V, p: V -> bool)
    requires !p(v)
    ensures Select(keys, vals[k := v], p) == Without(Select(keys, vals, p), k)
  {
    if keys != [] {
      SelectUpdateOut(keys[1..], vals, k, v, p);
    }
  }
}
