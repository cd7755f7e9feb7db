/** Python dicts as the clients use them: insertion-ordered sequences of
    (key, value) entries with no key twice. Assigning an existing key keeps
    its position; assigning a new key appends it. */
module Dicts {

  import opened Common

  /** No key occurs twice: what every Python dict satisfies. */
  predicate DistinctKeys<V>(d: seq<(string, V)>)
  {
    forall i, j :: 0 <= i < j < |d| ==> d[i].0 != d[j].0
  }

  /** The keys of `d`, in insertion order. */
  function Keys<V>(d: seq<(string, V)>): (ks: seq<string>)
    ensures |ks| == |d|
    ensures forall i :: 0 <= i < |d| ==> ks[i] == d[i].0
  {
    if d == [] then [] else [d[0].0] + Keys(d[1..])
  }

  /** `d.get(k)`: the value of the first entry with key `k`. */
  function Get<V>(d: seq<(string, V)>, k: string): (r: Option<V>)
    ensures r.Some? <==> k in Keys(d)
    ensures r.Some? ==> (k, r.value) in d
  {
    if d == [] then None
    else if d[0].0 == k then Some(d[0].1)
    else Get(d[1..], k)
  }

  /** In a dict, the value stored at any entry is what looking up its key
      gives. */
  lemma {:induction false} GetAt<V>(d: seq<(string, V)>, i: nat)
    requires DistinctKeys(d)
    requires i < |d|
    ensures Get(d, d[i].0) == Some(d[i].1)
  {
    if i > 0 {
      assert d[1..][i - 1] == d[i];
      GetAt(d[1..], i - 1);
    }
  }

  /** Dropping the first entry of a dict leaves a dict. */
  lemma {:induction false} DistinctTail<V>(d: seq<(string, V)>)
    requires DistinctKeys(d) && d != []
    ensures DistinctKeys(d[1..])
    ensures d[0].0 !in Keys(d[1..])
  {
    forall i, j | 0 <= i < j < |d| - 1 ensures d[1..][i].0 != d[1..][j].0 {
      assert d[1..][i] == d[i + 1] && d[1..][j] == d[j + 1];
    }
    forall i | 0 <= i < |d| - 1 ensures Keys(d[1..])[i] != d[0].0 {
      assert d[1..][i] == d[i + 1];
    }
  }

  /** Putting a new key in front of a dict leaves a dict. */
  lemma {:induction false} DistinctCons<V>(e: (string, V), t: seq<(string, V)>)
    requires DistinctKeys(t) && e.0 !in Keys(t)
    ensures DistinctKeys([e] + t)
  {
    var r := [e] + t;
    forall i, j | 0 <= i < j < |r| ensures r[i].0 != r[j].0 {
      assert r[j] == t[j - 1];
      if i > 0 {
        assert r[i] == t[i - 1];
      } else {
        assert Keys(t)[j - 1] == t[j - 1].0;
      }
    }
  }

  /** What `d[k] = v` promises, for a result `r` built from `d`. */
  ghost predicate Assigned<V>(d: seq<(string, V)>, k: string, v: V, r: seq<(string, V)>)
  {
    && DistinctKeys(r)
    && (k in Keys(d) ==> Keys(r) == Keys(d))
    && (k !in Keys(d) ==> r == d + [(k, v)])
    && Get(r, k) == Some(v)
    && (forall x :: x != k ==> Get(r, x) == Get(d, x))
  }

  /** Assigning a key other than the first one leaves the first entry in
      front of the assignment done on the rest. */
  lemma {:induction false} AssignedCons<V>(d: seq<(string, V)>, k: string, v: V, t: seq<(string, V)>)
    requires DistinctKeys(d) && d != [] && d[0].0 != k
    requires Assigned(d[1..], k, v, t)
    ensures Assigned(d, k, v, [d[0]] + t)
  {
    ConsShape(d, k, v, t);
    ConsGet(d, k, v, t);
  }

  /** The keys of `[d[0]] + t` for such a `t`: still distinct, in the order
      of `d` or with `k` appended. */
  lemma {:induction false} ConsShape<V>(d: seq<(string, V)>, k: string, v: V, t: seq<(string, V)>)
    requires DistinctKeys(d) && d != [] && d[0].0 != k
    requires Assigned(d[1..], k, v, t)
    ensures DistinctKeys([d[0]] + t)
    ensures k in Keys(d) ==> Keys([d[0]] + t) == Keys(d)
    ensures k !in Keys(d) ==> [d[0]] + t == d + [(k, v)]
  {
    DistinctTail(d);
    var r := [d[0]] + t;
    assert r[1..] == t;
    assert Keys(r) == [d[0].0] + Keys(t);
    assert Keys(d) == [d[0].0] + Keys(d[1..]);
    assert d[0].0 !in Keys(t) by {
      assert Get(t, d[0].0) == Get(d[1..], d[0].0) == None;
    }
    DistinctCons(d[0], t);
    if k !in Keys(d) {
      assert d + [(k, v)] == [d[0]] + (d[1..] + [(k, v)]);
    }
  }

  /** The lookups in `[d[0]] + t` for such a `t`: `k` gives `v`, every other
      key what it gives in `d`. */
  lemma {:induction false} ConsGet<V>(d: seq<(string, V)>, k: string, v: V, t: seq<(string, V)>)
    requires DistinctKeys(d) && d != [] && d[0].0 != k
    requires Assigned(d[1..], k, v, t)
    ensures Get([d[0]] + t, k) == Some(v)
    ensures forall x :: x != k ==> Get([d[0]] + t, x) == Get(d, x)
  {
    var r := [d[0]] + t;
    assert r[1..] == t;
    assert Get(r, k) == Get(t, k);
    forall x | x != k ensures Get(r, x) == Get(d, x) {
      if x != d[0].0 {
        assert Get(r, x) == Get(t, x) == Get(d[1..], x);
      }
    }
  }

  /** `d[k] = v`: replaces the value of `k` in place when `k` is present and
      appends the entry otherwise. */
  function Set<V>(d: seq<(string, V)>, k: string, v: V): (r: seq<(string, V)>)
    requires DistinctKeys(d)
    ensures Assigned(d, k, v, r)
  {
    if d == [] then [(k, v)]
    else if d[0].0 == k then
      var r := [(k, v)] + d[1..];
      assert forall i :: 0 <= i < |d| ==> r[i].0 == d[i].0;
      assert Keys(r) == Keys(d);
      r
    else
      DistinctTail(d);
      var t := Set(d[1..], k, v);
      AssignedCons(d, k, v, t);
      [d[0]] + t
  }

  /** `d.update(other)`: assigns every entry of `other`, in its order. */
  function Update<V>(d: seq<(string, V)>, other: seq<(string, V)>): (r: seq<(string, V)>)
    requires DistinctKeys(d)
    ensures DistinctKeys(r)
    ensures Keys(d) <= Keys(r)
    ensures forall x :: x in Keys(r) <==> x in Keys(d) || x in Keys(other)
    ensures forall x :: x !in Keys(other) ==> Get(r, x) == Get(d, x)
    decreases |other|
  {
    if other == [] then d
    else
      var d' := Set(d, other[0].0, other[0].1);
      SetKeys(d, other[0].0, other[0].1);
      assert Keys(other) == [other[0].0] + Keys(other[1..]);
      Update(d', other[1..])
  }

  /** `d[k] = v` adds `k` to the keys and no other key. */
  lemma {:induction false} SetKeys<V>(d: seq<(string, V)>, k: string, v: V)
    requires DistinctKeys(d)
    ensures forall x :: x in Keys(Set(d, k, v)) <==> x in Keys(d) || x == k
  {
    var r := Set(d, k, v);
    forall x ensures x in Keys(r) <==> x in Keys(d) || x == k {
      if x != k {
        assert Get(r, x) == Get(d, x);
      }
    }
  }

  /** The keys of `keys` that are not in `known`, each once, in the order
      of their first occurrence. */
  function NewKeys(known: seq<string>, keys: seq<string>): (r: seq<string>)
    ensures forall x :: x in r <==> x in keys && x !in known
    ensures forall i, j :: 0 <= i < j < |r| ==> r[i] != r[j]
    decreases |keys|
  {
    if keys == [] then []
    else if keys[0] in known then NewKeys(known, keys[1..])
    else
      var k := keys[0];
      var t := NewKeys(known + [k], keys[1..]);
      var r := [k] + t;
      assert k in known + [k];
      assert forall i :: 1 <= i < |r| ==> r[i] == t[i - 1] && r[i] != k;
      r
  }

  /** Every element of `r` occurs earlier in `keys` than the elements after
      it in `r`: `r` keeps the relative order of `keys`. */
  ghost predicate InOrder(keys: seq<string>, r: seq<string>)
  {
    forall i, j :: 0 <= i < j < |r| ==> FirstAt(keys, r[i]) < FirstAt(keys, r[j])
  }

  /** `NewKeys` lists the new keys in the order of their first occurrence
      in `keys`. */
  lemma {:induction false} NewKeysOrder(known: seq<string>, keys: seq<string>)
    ensures InOrder(keys, NewKeys(known, keys))
    decreases |keys|
  {
    if keys != [] {
      var k, rest := keys[0], keys[1..];
      if k in known {
        NewKeysOrder(known, rest);
        OrderSkip(keys, NewKeys(known, rest));
      } else {
        NewKeysOrder(known + [k], rest);
        assert k in known + [k];
        OrderCons(keys, NewKeys(known + [k], rest));
      }
    }
  }

  /** A sequence in the order of `keys[1..]` that lacks `keys[0]` is in the
      order of `keys`. */
  lemma OrderSkip(keys: seq<string>, r: seq<string>)
    requires keys != [] && keys[0] !in r && InOrder(keys[1..], r)
    ensures InOrder(keys, r)
  {
    forall i, j | 0 <= i < j < |r| ensures FirstAt(keys, r[i]) < FirstAt(keys, r[j]) {
      assert r[i] in r && r[j] in r;
      assert FirstAt(keys, r[i]) == 1 + FirstAt(keys[1..], r[i]);
      assert FirstAt(keys, r[j]) == 1 + FirstAt(keys[1..], r[j]);
    }
  }

  /** Putting `keys[0]` in front of such a sequence keeps it in the order
      of `keys`. */
  lemma OrderCons(keys: seq<string>, t: seq<string>)
    requires keys != [] && keys[0] !in t && InOrder(keys[1..], t)
    ensures InOrder(keys, [keys[0]] + t)
  {
    var r := [keys[0]] + t;
    OrderSkip(keys, t);
    forall i, j | 0 <= i < j < |r| ensures FirstAt(keys, r[i]) < FirstAt(keys, r[j]) {
      assert r[j] == t[j - 1] && r[j] in t;
      assert FirstAt(keys, r[j]) == 1 + FirstAt(keys[1..], r[j]);
      if i > 0 {
        assert r[i] == t[i - 1];
      }
    }
  }

  /** The position of the first occurrence of `x` in `ks`, or `|ks|` when
      `x` does not occur. */
  function FirstAt(ks: seq<string>, x: string): (i: nat)
    ensures i <= |ks|
    ensures i < |ks| <==> x in ks
    ensures i < |ks| ==> ks[i] == x && x !in ks[..i]
  {
    if ks == [] then 0
    else if ks[0] == x then 0
    else 1 + FirstAt(ks[1..], x)
  }

  /** The keys that `d[k] = v` adds: `k` when it is new, else none. */
  function Added(ks: seq<string>, k: string): seq<string>
  {
    if k in ks then [] else [k]
  }

  /** `d[k] = v` keeps the keys of `d` in place and appends `k` when it is
      new. */
  lemma {:induction false} SetOrder<V>(d: seq<(string, V)>, k: string, v: V)
    requires DistinctKeys(d)
    ensures Keys(Set(d, k, v)) == Keys(d) + Added(Keys(d), k)
  {
    if k !in Keys(d) {
      var r := d + [(k, v)];
      assert forall i :: 0 <= i < |d| ==> r[i] == d[i];
      assert Keys(r) == Keys(d) + [k];
    }
  }

  /** One step of `NewKeys`. */
  lemma NewKeysCons(ks: seq<string>, k: string, rest: seq<string>)
    ensures NewKeys(ks, [k] + rest) == Added(ks, k) + NewKeys(ks + Added(ks, k), rest)
  {
    assert ([k] + rest)[1..] == rest;
    assert ks + [] == ks;
  }

  /** `d.update(other)` assigns the first entry of `other`, then the rest. */
  lemma UpdateStep<V>(d: seq<(string, V)>, other: seq<(string, V)>)
    requires DistinctKeys(d) && other != []
    ensures Update(d, other) == Update(Set(d, other[0].0, other[0].1), other[1..])
  {
  }

  lemma KeysStep<V>(d: seq<(string, V)>)
    requires d != []
    ensures Keys(d) == [d[0].0] + Keys(d[1..])
  {
  }

  /** Regrouping one step of `UpdateOrder`, on key sequences alone. */
  lemma OrderStep(u: seq<string>, ks: seq<string>, e: seq<string>, ko: seq<string>, rest: seq<string>)
    requires u == (ks + e) + NewKeys(ks + e, rest)
    requires NewKeys(ks, ko) == e + NewKeys(ks + e, rest)
    ensures u == ks + NewKeys(ks, ko)
  {
  }

  /** `d.update(other)` keeps the keys of `d` where they are and appends
      the keys of `other` that `d` lacks, in `other`'s order. */
  lemma {:induction false} UpdateOrder<V>(d: seq<(string, V)>, other: seq<(string, V)>)
    requires DistinctKeys(d)
    ensures Keys(Update(d, other)) == Keys(d) + NewKeys(Keys(d), Keys(other))
    decreases |other|
  {
    if other != [] {
      var (k, v) := other[0];
      var ks, rest, e := Keys(d), Keys(other[1..]), Added(Keys(d), k);
      var d' := Set(d, k, v);
      UpdateStep(d, other);
      KeysStep(other);
      SetOrder(d, k, v);
      UpdateOrder(d', other[1..]);
      NewKeysCons(ks, k, rest);
      OrderStep(Keys(Update(d, other)), ks, e, Keys(other), rest);
    } else {
      assert Update(d, other) == d;
      assert Keys(other) == [];
    }
  }

  /** After `d.update(other)` every key of `other` has the value `other`
      gives it. */
  lemma {:induction false} UpdateGet<V>(d: seq<(string, V)>, other: seq<(string, V)>, x: string)
    requires DistinctKeys(d) && DistinctKeys(other)
    requires x in Keys(other)
    ensures Get(Update(d, other), x) == Get(other, x)
    decreases |other|
  {
    var d' := Set(d, other[0].0, other[0].1);
    assert Keys(other) == [other[0].0] + Keys(other[1..]);
    DistinctTail(other);
    if other[0].0 != x {
      UpdateGet(d', other[1..], x);
    }
  }

  /** After `d.update(other)` every key of `other` has the value `other`
      gives it, and every other key keeps its value from `d`. */
  lemma {:induction false} UpdateWins<V>(d: seq<(string, V)>, other: seq<(string, V)>)
    requires DistinctKeys(d) && DistinctKeys(other)
    ensures forall x :: x in Keys(other) ==> Get(Update(d, other), x) == Get(other, x)
    ensures forall x :: x !in Keys(other) ==> Get(Update(d, other), x) == Get(d, x)
  {
    forall x | x in Keys(other) ensures Get(Update(d, other), x) == Get(other, x) {
      UpdateGet(d, other, x);
    }
  }

  lemma {:induction false} AppendFirst<V>(d: seq<(string, V)>, other: seq<(string, V)>)
    requires other != []
    ensures (d + [other[0]]) + other[1..] == d + other
  {
    assert other == [other[0]] + other[1..];
  }

  /** When no key of `other` is in `d`, `d.update(other)` appends `other`. */
  lemma {:induction false} UpdateFresh<V>(d: seq<(string, V)>, other: seq<(string, V)>)
    requires DistinctKeys(d) && DistinctKeys(other)
    requires forall x :: x in Keys(other) ==> x !in Keys(d)
    ensures Update(d, other) == d + other
    decreases |other|
  {
    if other != [] {
      var e := other[0];
      assert e.0 in Keys(other);
      var d' := Set(d, e.0, e.1);
      assert d' == d + [e];
      assert DistinctKeys(other[1..]) by { DistinctTail(other); }
      assert forall x :: x in Keys(other[1..]) ==> x !in Keys(d') by {
        DistinctTail(other);
        assert Keys(other) == [e.0] + Keys(other[1..]);
        assert Keys(d') == Keys(d) + [e.0];
      }
      UpdateFresh(d', other[1..]);
      AppendFirst(d, other);
    }
  }

  /** The dict as a finite map, forgetting the order of its entries. */
  function ToMap<V>(d: seq<(string, V)>): (m: map<string, V>)
    requires DistinctKeys(d)
    ensures forall x :: x in m <==> x in Keys(d)
    ensures forall x :: x in m ==> Get(d, x) == Some(m[x])
  {
    map x | x in Keys(d) :: Get(d, x).value
  }

  /** One key of `d.update(other)`: its value is the one `other` gives it,
      else the one `d` gives it. */
  lemma {:induction false} OverrideAt<V>(d: seq<(string, V)>, other: seq<(string, V)>, x: string)
    requires DistinctKeys(d) && DistinctKeys(other)
    requires x in ToMap(Update(d, other))
    ensures x in ToMap(d) + ToMap(other)
    ensures ToMap(Update(d, other))[x] == (ToMap(d) + ToMap(other))[x]
  {
    var r := Update(d, other);
    if x in Keys(other) {
      UpdateGet(d, other, x);
      assert Get(r, x) == Get(other, x);
    } else {
      assert Get(r, x) == Get(d, x);
    }
  }

  /** `d.update(other)` is map override: the keys of `other` win. */
  lemma {:induction false} UpdateIsOverride<V>(d: seq<(string, V)>, other: seq<(string, V)>)
    requires DistinctKeys(d) && DistinctKeys(other)
    ensures ToMap(Update(d, other)) == ToMap(d) + ToMap(other)
  {
    var m, m' := ToMap(Update(d, other)), ToMap(d) + ToMap(other);
    forall x | x in m ensures x in m' && m[x] == m'[x] {
      OverrideAt(d, other, x);
    }
    MapsEqual(m, m');
  }

  /** Two maps with the same keys and the same value at each key are equal. */
  lemma MapsEqual<V>(m: map<string, V>, m': map<string, V>)
    requires forall x :: x in m ==> x in m' && m[x] == m'[x]
    requires forall x :: x in m' ==> x in m
    ensures m == m'
  {
  }
}
