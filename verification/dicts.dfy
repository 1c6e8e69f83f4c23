/**
 * JavaScript plain objects used as dictionaries (`obj[key]`,
 * `Object.keys`, `Object.values`): a value per key, and the keys in the
 * order they were first set.
 */
module Dicts {
  import opened Base

  datatype Dict<V> = Dict(keys: seq<string>, values: map<string, V>)

  /** Each key is listed once, and exactly the keys with a value are listed. */
  ghost predicate Valid<V>(d: Dict<V>) {
    && (forall i, j :: 0 <= i < j < |d.keys| ==> d.keys[i] != d.keys[j])
    && (forall k :: k in d.values <==> k in d.keys)
  }

  function Empty<V>(): (d: Dict<V>)
    ensures Valid(d) && d.keys == []
  {
    Dict([], map[])
  }

  /** `obj[k] = v`: an existing key keeps its place, a new key goes last. */
  function Put<V>(d: Dict<V>, k: string, v: V): (r: Dict<V>)
    ensures Valid(d) ==> Valid(r)
    ensures r.values == d.values[k := v]
    ensures k in d.keys ==> r.keys == d.keys
    ensures k !in d.keys ==> r.keys == d.keys + [k]
  {
    if k in d.keys then Dict(d.keys, d.values[k := v]) else Dict(d.keys + [k], d.values[k := v])
  }

  /** `obj[k]`, undefined when the key is absent. */
  function Lookup<V>(d: Dict<V>, k: string): (r: Option<V>)
    ensures r.Some? <==> k in d.values
    ensures r.Some? ==> r.value == d.values[k]
  {
    if k in d.values then Some(d.values[k]) else None
  }

  /** A counter read the way `if (!obj[k]) obj[k] = 0` reads it: absent is 0. */
  function Count(d: Dict<nat>, k: string): nat {
    if k in d.values then d.values[k] else 0
  }

  /** The sum of `f` over the values of `keys`, absent keys counting 0. */
  function SumBy<V>(keys: seq<string>, m: map<string, V>, f: V -> nat): nat {
    if keys == [] then 0
    else SumBy(keys[..|keys| - 1], m, f) + (if keys[|keys| - 1] in m then f(m[keys[|keys| - 1]]) else 0)
  }

  function Identity(n: nat): nat {
    n
  }

  /** The sum of all counters of a dictionary. */
  function Total(d: Dict<nat>): nat {
    SumBy(d.keys, d.values, Identity)
  }

  /** Keys outside the list do not take part in the sum. */
  lemma {:induction false} SumByIgnoresOthers<V>(keys: seq<string>, m: map<string, V>, f: V -> nat, k: string, v: V)
    requires k !in keys
    ensures SumBy(keys, m[k := v], f) == SumBy(keys, m, f)
  {
    if keys != [] {
      SumByIgnoresOthers(keys[..|keys| - 1], m, f, k, v);
    }
  }

  /** Replacing the value of a listed key changes the sum by the difference. */
  lemma {:induction false} SumByReplace<V>(keys: seq<string>, m: map<string, V>, f: V -> nat, k: string, v: V)
    requires forall i, j :: 0 <= i < j < |keys| ==> keys[i] != keys[j]
    requires k in keys && k in m
    ensures SumBy(keys, m[k := v], f) + f(m[k]) == SumBy(keys, m, f) + f(v)
  {
    var last := keys[|keys| - 1];
    var init := keys[..|keys| - 1];
    if last == k {
      assert k !in init by {
        forall i | 0 <= i < |init|
          ensures init[i] != k
        {
          assert init[i] == keys[i];
        }
      }
      SumByIgnoresOthers(init, m, f, k, v);
    } else {
      assert k in init by {
        var i :| 0 <= i < |keys| && keys[i] == k;
        assert init[i] == k;
      }
      SumByReplace(init, m, f, k, v);
    }
  }

  /** Putting a value under a key adds its weight and removes the weight of the value it replaces. */
  lemma PutSumBy<V>(d: Dict<V>, k: string, v: V, f: V -> nat)
    requires Valid(d)
    ensures var r := Put(d, k, v);
            SumBy(r.keys, r.values, f) + (if k in d.values then f(d.values[k]) else 0) == SumBy(d.keys, d.values, f) + f(v)
  {
    if k in d.keys {
      SumByReplace(d.keys, d.values, f, k, v);
    } else {
      var r := Put(d, k, v);
      assert r.keys[..|r.keys| - 1] == d.keys;
      SumByIgnoresOthers(d.keys, d.values, f, k, v);
    }
  }

  /** `if (!obj[k]) obj[k] = 0; obj[k]++;` */
  function Increment(d: Dict<nat>, k: string): (r: Dict<nat>)
    ensures Valid(d) ==> Valid(r)
    ensures Count(r, k) == Count(d, k) + 1
    ensures forall k' :: k' != k ==> Count(r, k') == Count(d, k')
    ensures forall k' :: k' in r.values <==> k' in d.values || k' == k
  {
    Put(d, k, Count(d, k) + 1)
  }

  /** Incrementing a counter adds one to the total of the counters. */
  lemma IncrementTotal(d: Dict<nat>, k: string)
    requires Valid(d)
    ensures Total(Increment(d, k)) == Total(d) + 1
  {
    var n := Count(d, k);
    PutSumBy(d, k, n + 1, Identity);
    assert (if k in d.values then Identity(d.values[k]) else 0) == n;
  }

  /** Sums agree over two maps whose listed values weigh the same. */
  lemma {:induction false} SumByAgree<V>(keys: seq<string>, m: map<string, V>, m': map<string, V>, f: V -> nat)
    requires forall k :: k in keys ==> (k in m <==> k in m')
    requires forall k :: k in keys && k in m ==> f(m[k]) == f(m'[k])
    ensures SumBy(keys, m, f) == SumBy(keys, m', f)
  {
    if keys != [] {
      SumByAgree(keys[..|keys| - 1], m, m', f);
    }
  }

  /** One counter is at most the total of all of them. */
  lemma {:induction false} SumByAtLeastOne<V>(keys: seq<string>, m: map<string, V>, f: V -> nat, k: string)
    requires k in keys && k in m
    ensures f(m[k]) <= SumBy(keys, m, f)
  {
    if keys[|keys| - 1] != k {
      var init := keys[..|keys| - 1];
      var i :| 0 <= i < |keys| && keys[i] == k;
      assert init[i] == k;
      SumByAtLeastOne(init, m, f, k);
    }
  }

  lemma CountAtMostTotal(d: Dict<nat>, k: string)
    requires Valid(d)
    ensures Count(d, k) <= Total(d)
  {
    if k in d.values {
      SumByAtLeastOne(d.keys, d.values, Identity, k);
    }
  }
}
