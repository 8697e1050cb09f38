/** Keyed collections in enumeration order: the properties of a script object and
    the entries of a host Dictionary. Both are written with "set or overwrite"
    (`results[key] = value`, `object->Set(key, value)`): an existing key keeps
    its place and takes the new value, a new key is appended. */
module Pairs {
  import opened Wrappers
  import opened Values

  function Keys<V>(ps: seq<Pair<V>>): set<string> {
    set i | 0 <= i < |ps| :: ps[i].key
  }

  predicate DistinctKeys<V>(ps: seq<Pair<V>>) {
    forall i, j :: 0 <= i < j < |ps| ==> ps[i].key != ps[j].key
  }

  /** The value stored under `k` (the first pair with that key). */
  function Lookup<V>(ps: seq<Pair<V>>, k: string): Option<V> {
    if ps == [] then None
    else if ps[0].key == k then Some(ps[0].value)
    else Lookup(ps[1..], k)
  }

  /** The value of the last pair with key `k`: what a sequence of writes leaves. */
  function LastValue<V>(ps: seq<Pair<V>>, k: string): Option<V> {
    if ps == [] then None
    else if ps[|ps| - 1].key == k then Some(ps[|ps| - 1].value)
    else LastValue(ps[..|ps| - 1], k)
  }

  lemma KeysCons<V>(a: Pair<V>, ps: seq<Pair<V>>)
    ensures Keys([a] + ps) == {a.key} + Keys(ps)
  {
    var r := [a] + ps;
    forall x | x in Keys(r) ensures x in {a.key} + Keys(ps) {
      var i :| 0 <= i < |r| && r[i].key == x;
      if i > 0 { assert ps[i - 1].key == x; }
    }
    forall x | x in Keys(ps) ensures x in Keys(r) {
      var i :| 0 <= i < |ps| && ps[i].key == x;
      assert r[i + 1].key == x;
    }
    assert r[0].key == a.key;
  }

  lemma DistinctCons<V>(a: Pair<V>, ps: seq<Pair<V>>)
    requires DistinctKeys(ps) && a.key !in Keys(ps)
    ensures DistinctKeys([a] + ps)
  {
    var r := [a] + ps;
    forall i, j | 0 <= i < j < |r| ensures r[i].key != r[j].key {
      assert r[j] == ps[j - 1];
      if i > 0 { assert r[i] == ps[i - 1]; }
    }
  }

  /** One write `d[k] = v`. */
  function Upsert<V>(ps: seq<Pair<V>>, k: string, v: V): (r: seq<Pair<V>>)
    ensures Keys(r) == Keys(ps) + {k}
    ensures k !in Keys(ps) ==> r == ps + [Pair(k, v)]
    ensures DistinctKeys(ps) ==> DistinctKeys(r)
  {
    if ps == [] then
      assert Keys([Pair(k, v)]) == {k} by { assert [Pair(k, v)][0].key == k; }
      [Pair(k, v)]
    else
      KeysCons(ps[0], ps[1..]);
      assert [ps[0]] + ps[1..] == ps;
      if ps[0].key == k then
        KeysCons(Pair(k, v), ps[1..]);
        assert DistinctKeys(ps) ==> DistinctKeys(ps[1..]) && k !in Keys(ps[1..]);
        if DistinctKeys(ps) then DistinctCons(Pair(k, v), ps[1..]); [Pair(k, v)] + ps[1..]
        else [Pair(k, v)] + ps[1..]
      else
        var rest := Upsert(ps[1..], k, v);
        KeysCons(ps[0], rest);
        assert DistinctKeys(ps) ==> DistinctKeys(ps[1..]) && ps[0].key !in Keys(ps[1..]);
        if DistinctKeys(ps) then DistinctCons(ps[0], rest); [ps[0]] + rest
        else [ps[0]] + rest
  }

  /** After `d[k] = v`, `d[k]` is `v` and every other key reads as before. */
  lemma {:induction false} UpsertLookup<V>(ps: seq<Pair<V>>, k: string, v: V, j: string)
    ensures Lookup(Upsert(ps, k, v), j) == if j == k then Some(v) else Lookup(ps, j)
  {
    if ps != [] && ps[0].key != k {
      UpsertLookup(ps[1..], k, v, j);
    }
  }

  lemma KeysSnoc<V>(ps: seq<Pair<V>>)
    requires ps != []
    ensures Keys(ps) == Keys(ps[..|ps| - 1]) + {ps[|ps| - 1].key}
  {
    var n := |ps| - 1;
    forall x | x in Keys(ps) ensures x in Keys(ps[..n]) + {ps[n].key} {
      var i :| 0 <= i < |ps| && ps[i].key == x;
      if i < n { assert ps[..n][i].key == x; }
    }
    forall x | x in Keys(ps[..n]) ensures x in Keys(ps) {
      var i :| 0 <= i < n && ps[..n][i].key == x;
      assert ps[i].key == x;
    }
  }

  /** The writes of `ps`, in order, into an empty collection: they leave
      exactly the keys written, each once. */
  function UpsertAll<V>(ps: seq<Pair<V>>): (r: seq<Pair<V>>)
    ensures Keys(r) == Keys(ps)
    ensures DistinctKeys(r)
  {
    if ps == [] then []
    else
      KeysSnoc(ps);
      Upsert(UpsertAll(ps[..|ps| - 1]), ps[|ps| - 1].key, ps[|ps| - 1].value)
  }

  /** The value left under each key is the last one written to it. */
  lemma {:induction false} UpsertAllLookup<V>(ps: seq<Pair<V>>, k: string)
    ensures Lookup(UpsertAll(ps), k) == LastValue(ps, k)
  {
    if ps != [] {
      var n := |ps| - 1;
      UpsertAllLookup(ps[..n], k);
      UpsertLookup(UpsertAll(ps[..n]), ps[n].key, ps[n].value, k);
    }
  }

  /** Writing pairwise distinct keys builds the sequence itself, in order. */
  lemma {:induction false} UpsertAllDistinct<V>(ps: seq<Pair<V>>)
    requires DistinctKeys(ps)
    ensures UpsertAll(ps) == ps
  {
    if ps != [] {
      var n := |ps| - 1;
      var init := ps[..n];
      assert DistinctKeys(init);
      UpsertAllDistinct(init);
      assert ps[n].key !in Keys(init) by {
        forall i | 0 <= i < n ensures init[i].key != ps[n].key {
          assert init[i] == ps[i];
        }
      }
      assert UpsertAll(ps) == Upsert(init, ps[n].key, ps[n].value);
      assert Pair(ps[n].key, ps[n].value) == ps[n];
      assert init + [ps[n]] == ps;
    }
  }

  /** Writing the result of a sequence of writes again changes nothing. */
  lemma UpsertAllIdempotent<V>(ps: seq<Pair<V>>)
    ensures UpsertAll(UpsertAll(ps)) == UpsertAll(ps)
  {
    UpsertAllDistinct(UpsertAll(ps));
  }

  function MapValues<V, W>(ps: seq<Pair<V>>, f: V -> W): (r: seq<Pair<W>>)
    ensures |r| == |ps|
    ensures forall i :: 0 <= i < |ps| ==> r[i] == Pair(ps[i].key, f(ps[i].value))
  {
    seq(|ps|, i requires 0 <= i < |ps| => Pair(ps[i].key, f(ps[i].value)))
  }

  lemma MapValuesCons<V, W>(p: Pair<V>, rest: seq<Pair<V>>, f: V -> W)
    ensures MapValues([p] + rest, f) == [Pair(p.key, f(p.value))] + MapValues(rest, f)
  {
    var l := MapValues([p] + rest, f);
    var r := [Pair(p.key, f(p.value))] + MapValues(rest, f);
    assert |l| == |r|;
    forall i | 0 <= i < |l| ensures l[i] == r[i] {
      if i > 0 {
        assert ([p] + rest)[i] == rest[i - 1];
      }
    }
  }

  /** Converting the values commutes with a write. */
  lemma {:induction false} MapValuesUpsert<V, W>(ps: seq<Pair<V>>, k: string, v: V, f: V -> W)
    ensures MapValues(Upsert(ps, k, v), f) == Upsert(MapValues(ps, f), k, f(v))
  {
    if ps == [] {
      MapValuesCons(Pair(k, v), [], f);
      assert [Pair(k, v)] + [] == [Pair(k, v)];
    } else {
      var m := MapValues(ps, f);
      MapValuesCons(ps[0], ps[1..], f);
      assert [ps[0]] + ps[1..] == ps;
      assert m == [Pair(ps[0].key, f(ps[0].value))] + MapValues(ps[1..], f);
      assert m[1..] == MapValues(ps[1..], f);
      if ps[0].key == k {
        MapValuesCons(Pair(k, v), ps[1..], f);
      } else {
        MapValuesUpsert(ps[1..], k, v, f);
        MapValuesCons(ps[0], Upsert(ps[1..], k, v), f);
      }
    }
  }

  /** Converting the values commutes with a whole sequence of writes. */
  lemma {:induction false} MapValuesUpsertAll<V, W>(ps: seq<Pair<V>>, f: V -> W)
    ensures MapValues(UpsertAll(ps), f) == UpsertAll(MapValues(ps, f))
  {
    if ps != [] {
      var n := |ps| - 1;
      MapValuesUpsertAll(ps[..n], f);
      MapValuesUpsert(UpsertAll(ps[..n]), ps[n].key, ps[n].value, f);
      assert MapValues(ps, f)[..n] == MapValues(ps[..n], f);
    }
  }

  /** Every value left by the writes is one of the values written. */
  lemma {:induction false} UpsertAllValues<V>(ps: seq<Pair<V>>, P: V -> bool)
    requires forall i :: 0 <= i < |ps| ==> P(ps[i].value)
    ensures forall i :: 0 <= i < |UpsertAll(ps)| ==> P(UpsertAll(ps)[i].value)
  {
    if ps != [] {
      var n := |ps| - 1;
      UpsertAllValues(ps[..n], P);
      UpsertValues(UpsertAll(ps[..n]), ps[n].key, ps[n].value, P);
    }
  }

  lemma {:induction false} UpsertValues<V>(ps: seq<Pair<V>>, k: string, v: V, P: V -> bool)
    requires forall i :: 0 <= i < |ps| ==> P(ps[i].value)
    requires P(v)
    ensures forall i :: 0 <= i < |Upsert(ps, k, v)| ==> P(Upsert(ps, k, v)[i].value)
  {
    if ps != [] && ps[0].key != k {
      UpsertValues(ps[1..], k, v, P);
    }
  }

  /** The last value written under a key is one of the values written. */
  lemma {:induction false} LastValueValues<V>(ps: seq<Pair<V>>, k: string, P: V -> bool)
    requires forall i :: 0 <= i < |ps| ==> P(ps[i].value)
    ensures LastValue(ps, k).Some? ==> P(LastValue(ps, k).value)
  {
    if ps != [] && ps[|ps| - 1].key != k {
      var n := |ps| - 1;
      assert forall i :: 0 <= i < n ==> ps[..n][i] == ps[i];
      LastValueValues(ps[..n], k, P);
    }
  }

  /** Converting the values keeps the keys. */
  lemma MapValuesKeys<V, W>(ps: seq<Pair<V>>, f: V -> W)
    ensures Keys(MapValues(ps, f)) == Keys(ps)
    ensures DistinctKeys(ps) ==> DistinctKeys(MapValues(ps, f))
  {
    var r := MapValues(ps, f);
    forall x | x in Keys(r) ensures x in Keys(ps) {
      var i :| 0 <= i < |r| && r[i].key == x;
      assert ps[i].key == x;
    }
    forall x | x in Keys(ps) ensures x in Keys(r) {
      var i :| 0 <= i < |ps| && ps[i].key == x;
      assert r[i].key == x;
    }
  }

  /** The last value written under `k`, converted, is the last converted value
      written under `k`. */
  lemma {:induction false} LastValueMapValues<V, W>(ps: seq<Pair<V>>, f: V -> W, k: string)
    ensures LastValue(MapValues(ps, f), k) ==
      match LastValue(ps, k) case Some(v) => Some(f(v)) case None => None
  {
    if ps != [] {
      var n := |ps| - 1;
      assert MapValues(ps, f)[..n] == MapValues(ps[..n], f);
      LastValueMapValues(ps[..n], f, k);
    }
  }

  /** One more write at the end of the sequence. */
  lemma UpsertAllSnoc<V>(ps: seq<Pair<V>>, p: Pair<V>)
    ensures UpsertAll(ps + [p]) == Upsert(UpsertAll(ps), p.key, p.value)
  {
    assert (ps + [p])[..|ps|] == ps;
  }
}
