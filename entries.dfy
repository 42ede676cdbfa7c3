/**
 * Insertion-ordered string-keyed dictionaries, the way a JavaScript object
 * with non-numeric keys behaves: assigning an existing key keeps its place,
 * assigning a new key appends it, and `Object.values`/`Object.entries`
 * enumerate in that order.
 */
module Entries {
  import opened Wrappers

  type Entries<V> = seq<(string, V)>

  /** The keys in enumeration order. */
  function Keys<V>(m: Entries<V>): (ks: seq<string>)
    ensures |ks| == |m|
    ensures forall i :: 0 <= i < |m| ==> ks[i] == m[i].0
  {
    if m == [] then [] else [m[0].0] + Keys(m[1..])
  }

  /** The values in enumeration order (`Object.values`). */
  function Values<V>(m: Entries<V>): (vs: seq<V>)
    ensures |vs| == |m|
    ensures forall i :: 0 <= i < |m| ==> vs[i] == m[i].1
  {
    if m == [] then [] else [m[0].1] + Values(m[1..])
  }

  /** No key occurs twice, as in every JavaScript object. */
  predicate UniqueKeys<V>(m: Entries<V>)
  {
    forall i, j :: 0 <= i < j < |m| ==> m[i].0 != m[j].0
  }

  /** `m[k]`: the value stored under `k`, or `None` (`undefined`). */
  function Get<V>(m: Entries<V>, k: string): (r: Option<V>)
    ensures r.None? <==> k !in Keys(m)
    ensures r.Some? ==> exists i :: 0 <= i < |m| && m[i] == (k, r.value)
  {
    if m == [] then None
    else if m[0].0 == k then Some(m[0].1)
    else Get(m[1..], k)
  }

  /** `m[k] = v`: overwrite in place when `k` is present, append otherwise. */
  function Put<V>(m: Entries<V>, k: string, v: V): (r: Entries<V>)
    ensures Keys(r) == if k in Keys(m) then Keys(m) else Keys(m) + [k]
    ensures Get(r, k) == Some(v)
    ensures forall k' :: k' != k ==> Get(r, k') == Get(m, k')
  {
    PutKeys(m, k, v);
    PutGet(m, k, v);
    assert forall k' :: k' != k ==> Get(Assign(m, k, v), k') == Get(m, k') by {
      forall k' | k' != k
        ensures Get(Assign(m, k, v), k') == Get(m, k')
      {
        PutOther(m, k, v, k');
      }
    }
    Assign(m, k, v)
  }

  /** The assignment itself, walking to the key's place. */
  function Assign<V>(m: Entries<V>, k: string, v: V): Entries<V>
  {
    if m == [] then [(k, v)]
    else if m[0].0 == k then [(k, v)] + m[1..]
    else [m[0]] + Assign(m[1..], k, v)
  }

  lemma {:induction false} PutKeys<V>(m: Entries<V>, k: string, v: V)
    ensures Keys(Assign(m, k, v)) == if k in Keys(m) then Keys(m) else Keys(m) + [k]
  {
    if m != [] {
      var r := Assign(m, k, v);
      assert Keys(m) == [m[0].0] + Keys(m[1..]);
      if m[0].0 == k {
        assert r[1..] == m[1..];
        assert Keys(r) == [k] + Keys(m[1..]);
      } else {
        PutKeys(m[1..], k, v);
        assert r[1..] == Assign(m[1..], k, v);
        assert Keys(r) == [m[0].0] + Keys(Assign(m[1..], k, v));
      }
    }
  }

  lemma {:induction false} PutGet<V>(m: Entries<V>, k: string, v: V)
    ensures Get(Assign(m, k, v), k) == Some(v)
  {
    if m != [] && m[0].0 != k {
      PutGet(m[1..], k, v);
      assert Assign(m, k, v)[1..] == Assign(m[1..], k, v);
    }
  }

  lemma {:induction false} PutOther<V>(m: Entries<V>, k: string, v: V, k': string)
    requires k' != k
    ensures Get(Assign(m, k, v), k') == Get(m, k')
  {
    var r := Assign(m, k, v);
    if m == [] {
      assert r[1..] == [];
    } else if m[0].0 == k {
      assert r[1..] == m[1..];
    } else {
      PutOther(m[1..], k, v, k');
      assert r[1..] == Assign(m[1..], k, v);
    }
  }

  /** `{ ...a, ...b }`: the entries of `b` assigned, in order, over `a`. */
  function Spread<V>(a: Entries<V>, b: Entries<V>): (r: Entries<V>)
    decreases |b|
  {
    if b == [] then a else Spread(Put(a, b[0].0, b[0].1), b[1..])
  }

  /** Put never introduces a duplicate key. */
  lemma {:induction false} PutKeepsUnique<V>(m: Entries<V>, k: string, v: V)
    requires UniqueKeys(m)
    ensures UniqueKeys(Put(m, k, v))
  {
    var r := Put(m, k, v);
    var ks := Keys(r);
    assert forall i :: 0 <= i < |r| ==> r[i].0 == ks[i];
    if k in Keys(m) {
      assert ks == Keys(m);
    } else {
      assert ks == Keys(m) + [k];
    }
  }

  /** A key of a spread comes from the right operand if it has it, else from the left. */
  lemma {:induction false} SpreadGet<V>(a: Entries<V>, b: Entries<V>, k: string)
    requires UniqueKeys(b)
    ensures Get(Spread(a, b), k) == if k in Keys(b) then Get(b, k) else Get(a, k)
    decreases |b|
  {
    if b != [] {
      assert Keys(b) == [b[0].0] + Keys(b[1..]);
      SpreadGet(Put(a, b[0].0, b[0].1), b[1..], k);
      if b[0].0 == k {
        assert k !in Keys(b[1..]);
      }
    }
  }
}
