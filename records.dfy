/**
 * A JavaScript object used as a dictionary (`Record<string, V>`), kept as
 * the sequence of its own (key, value) properties in enumeration order:
 * the order `Object.keys` and `Object.entries` report. Keys are distinct.
 */
module Records {
  import opened Options

  predicate DistinctKeys<V>(r: seq<(string, V)>) {
    forall i, j :: 0 <= i < j < |r| ==> r[i].0 != r[j].0
  }

  type Record<V> = r: seq<(string, V)> | DistinctKeys(r) witness []

  /** `Object.keys(r)`. */
  function Keys<V>(r: Record<V>): (ks: seq<string>)
    ensures |ks| == |r|
    ensures forall i :: 0 <= i < |r| ==> ks[i] == r[i].0
  {
    seq(|r|, i requires 0 <= i < |r| => r[i].0)
  }

  /** `r[k]`, absent keys giving `None`. */
  function Get<V>(r: seq<(string, V)>, k: string): (v: Option<V>)
    ensures v.Some? <==> exists i :: 0 <= i < |r| && r[i].0 == k
    decreases |r|
  {
    if |r| == 0 then None
    else if r[0].0 == k then Some(r[0].1)
    else
      var v := Get(r[1..], k);
      assert v.Some? ==> exists i :: 0 <= i < |r| && r[i].0 == k by {
        if v.Some? {
          var i :| 0 <= i < |r[1..]| && r[1..][i].0 == k;
          assert r[i + 1].0 == k;
        }
      }
      assert (exists i :: 0 <= i < |r| && r[i].0 == k) ==> v.Some? by {
        if exists i :: 0 <= i < |r| && r[i].0 == k {
          var i :| 0 <= i < |r| && r[i].0 == k;
          assert i > 0 && r[1..][i - 1].0 == k;
        }
      }
      v
  }

  /** With distinct keys, looking up the key at position `i` finds that position's value. */
  lemma {:induction false} GetAt<V>(r: Record<V>, i: nat)
    requires i < |r|
    ensures Get(r, r[i].0) == Some(r[i].1)
    decreases |r|
  {
    if i > 0 {
      assert r[0].0 != r[i].0;
      var tail: Record<V> := r[1..];
      GetAt(tail, i - 1);
    }
  }

  /** The universally quantified form of `GetAt`. */
  lemma GetAtEvery<V>(r: Record<V>)
    ensures forall i :: 0 <= i < |r| ==> Get(r, r[i].0) == Some(r[i].1)
  {
    forall i | 0 <= i < |r| ensures Get(r, r[i].0) == Some(r[i].1) {
      GetAt(r, i);
    }
  }

  /** A found value is the value stored under that key. */
  lemma GetFound<V>(r: Record<V>, k: string)
    requires Get(r, k).Some?
    ensures exists i :: 0 <= i < |r| && r[i] == (k, Get(r, k).value)
  {
    var i :| 0 <= i < |r| && r[i].0 == k;
    GetAt(r, i);
  }

  /** A key is present exactly when it is one of `Keys(r)`. */
  lemma GetSomeIffKey<V>(r: Record<V>, k: string)
    ensures Get(r, k).Some? <==> k in Keys(r)
  {
    if Get(r, k).Some? {
      var i :| 0 <= i < |r| && r[i].0 == k;
      assert Keys(r)[i] == k;
    }
  }

  /** The universally quantified form of `GetSomeIffKey`. */
  lemma KeysAreTheLookupDomain<V>(r: Record<V>)
    ensures forall k :: Get(r, k).Some? <==> k in Keys(r)
  {
    forall k ensures Get(r, k).Some? <==> k in Keys(r) {
      GetSomeIffKey(r, k);
    }
  }

  /** `Object.keys` of an object lists no key twice. */
  lemma KeysDistinct<V>(r: Record<V>)
    ensures forall i, j :: 0 <= i < j < |Keys(r)| ==> Keys(r)[i] != Keys(r)[j]
  {
  }

  /**
   * Assigning a property (`obj[k] = v`, an object spread followed by `k: v`,
   * or `URLSearchParams.set` on distinct names): an existing key keeps its
   * place and takes the new value; a new key goes last. The order holds for
   * `URLSearchParams` and for object keys that are not integer-like, such as
   * `timeoutMs`; JavaScript enumerates integer-like object keys first, which
   * this model does not capture. `GetSet` states what a lookup then finds.
   */
  function Set<V>(r: Record<V>, k: string, v: V): (s: Record<V>)
    ensures Keys(s) == if k in Keys(r) then Keys(r) else Keys(r) + [k]
    ensures k !in Keys(r) ==> s == r + [(k, v)]
  {
    KeysAreTheLookupDomain(r);
    if k in Keys(r) then
      var i :| 0 <= i < |r| && r[i].0 == k;
      var s := r[i := (k, v)];
      assert Keys(s) == Keys(r);
      s
    else
      var s := r + [(k, v)];
      assert DistinctKeys(s);
      s
  }

  /** After `Set(r, k, v)`, `k` finds `v` and every other key finds what it found before. */
  lemma GetSet<V>(r: Record<V>, k: string, v: V, k': string)
    ensures Get(Set(r, k, v), k') == if k' == k then Some(v) else Get(r, k')
  {
    var s := Set(r, k, v);
    KeysAreTheLookupDomain(r);
    if k in Keys(r) {
      var i :| 0 <= i < |r| && r[i].0 == k;
      assert s == r[i := (k, v)];
      GetAt(s, i);
      if k' != k && Get(r, k').Some? {
        var j :| 0 <= j < |r| && r[j].0 == k';
        GetAt(r, j);
        GetAt(s, j);
      }
    } else {
      GetAt(s, |r|);
      if k' != k && Get(r, k').Some? {
        var j :| 0 <= j < |r| && r[j].0 == k';
        GetAt(r, j);
        GetAt(s, j);
      }
    }
  }

  /** Setting a key no pair carries appends it. */
  lemma SetFresh<V>(r: Record<V>, k: string, v: V)
    requires forall i :: 0 <= i < |r| ==> r[i].0 != k
    ensures Set(r, k, v) == r + [(k, v)]
  {
    assert k !in Keys(r);
  }

  /** Setting a key missing from a record of one, two, three or four pairs appends it. */
  lemma SetOntoOne<V>(a: (string, V), k: string, v: V)
    requires a.0 != k
    ensures Set([a], k, v) == [a, (k, v)]
  {
    SetFresh([a], k, v);
  }

  lemma SetOntoTwo<V>(a: (string, V), b: (string, V), k: string, v: V)
    requires a.0 != b.0 && a.0 != k && b.0 != k
    ensures Set([a, b], k, v) == [a, b, (k, v)]
  {
    SetFresh([a, b], k, v);
  }

  lemma SetOntoThree<V>(a: (string, V), b: (string, V), c: (string, V), k: string, v: V)
    requires a.0 != b.0 && a.0 != c.0 && b.0 != c.0 && a.0 != k && b.0 != k && c.0 != k
    ensures Set([a, b, c], k, v) == [a, b, c, (k, v)]
  {
    SetFresh([a, b, c], k, v);
  }

  lemma SetOntoFour<V>(a: (string, V), b: (string, V), c: (string, V), d: (string, V), k: string, v: V)
    requires a.0 != b.0 && a.0 != c.0 && a.0 != d.0 && b.0 != c.0 && b.0 != d.0 && c.0 != d.0
    requires a.0 != k && b.0 != k && c.0 != k && d.0 != k
    ensures Set([a, b, c, d], k, v) == [a, b, c, d, (k, v)]
  {
    SetFresh([a, b, c, d], k, v);
  }

  /** Four assignments of distinct keys to an empty record list them in assignment order. */
  lemma SetFourFresh<V>(k1: string, k2: string, k3: string, k4: string, v1: V, v2: V, v3: V, v4: V)
    requires k1 != k2 && k1 != k3 && k1 != k4 && k2 != k3 && k2 != k4 && k3 != k4
    ensures Set(Set(Set(Set([], k1, v1), k2, v2), k3, v3), k4, v4) == [(k1, v1), (k2, v2), (k3, v3), (k4, v4)]
  {
    SetFresh([], k1, v1);
    assert [] + [(k1, v1)] == [(k1, v1)];
    SetOntoOne((k1, v1), k2, v2);
    SetOntoTwo((k1, v1), (k2, v2), k3, v3);
    SetOntoThree((k1, v1), (k2, v2), (k3, v3), k4, v4);
  }

  /** A fifth assignment of a key distinct from the four goes last. */
  lemma SetFiveFresh<V>(k1: string, k2: string, k3: string, k4: string, k5: string, v1: V, v2: V, v3: V, v4: V, v5: V)
    requires k1 != k2 && k1 != k3 && k1 != k4 && k2 != k3 && k2 != k4 && k3 != k4
    requires k1 != k5 && k2 != k5 && k3 != k5 && k4 != k5
    ensures Set(Set(Set(Set(Set([], k1, v1), k2, v2), k3, v3), k4, v4), k5, v5)
         == [(k1, v1), (k2, v2), (k3, v3), (k4, v4), (k5, v5)]
  {
    SetFourFresh(k1, k2, k3, k4, v1, v2, v3, v4);
    SetOntoFour((k1, v1), (k2, v2), (k3, v3), (k4, v4), k5, v5);
  }

  /** A record of four pairs with distinct keys: its keys, and what each key finds. */
  lemma FourPairs<V>(a: (string, V), b: (string, V), c: (string, V), d: (string, V), k: string)
    requires a.0 != b.0 && a.0 != c.0 && a.0 != d.0 && b.0 != c.0 && b.0 != d.0 && c.0 != d.0
    requires k != a.0 && k != b.0 && k != c.0 && k != d.0
    ensures DistinctKeys([a, b, c, d])
    ensures Keys([a, b, c, d]) == [a.0, b.0, c.0, d.0]
    ensures Get([a, b, c, d], a.0) == Some(a.1) && Get([a, b, c, d], b.0) == Some(b.1)
    ensures Get([a, b, c, d], c.0) == Some(c.1) && Get([a, b, c, d], d.0) == Some(d.1)
    ensures Get([a, b, c, d], k) == None
  {
    var r: Record<V> := [a, b, c, d];
    GetAt(r, 0); GetAt(r, 1); GetAt(r, 2); GetAt(r, 3);
    GetSomeIffKey(r, k);
  }

  /** A record of five pairs with distinct keys: its keys, and what each key finds. */
  lemma FivePairs<V>(a: (string, V), b: (string, V), c: (string, V), d: (string, V), e: (string, V))
    requires a.0 != b.0 && a.0 != c.0 && a.0 != d.0 && b.0 != c.0 && b.0 != d.0 && c.0 != d.0
    requires e.0 != a.0 && e.0 != b.0 && e.0 != c.0 && e.0 != d.0
    ensures DistinctKeys([a, b, c, d, e])
    ensures Keys([a, b, c, d, e]) == [a.0, b.0, c.0, d.0, e.0]
    ensures Get([a, b, c, d, e], a.0) == Some(a.1) && Get([a, b, c, d, e], b.0) == Some(b.1)
    ensures Get([a, b, c, d, e], c.0) == Some(c.1) && Get([a, b, c, d, e], d.0) == Some(d.1)
    ensures Get([a, b, c, d, e], e.0) == Some(e.1)
  {
    var r: Record<V> := [a, b, c, d, e];
    GetAt(r, 0); GetAt(r, 1); GetAt(r, 2); GetAt(r, 3); GetAt(r, 4);
  }

  /** Applies `f` to every value, keeping each key in its place. */
  function MapValues<V, W>(r: Record<V>, f: V -> W): (m: Record<W>)
    ensures |m| == |r|
    ensures forall i :: 0 <= i < |r| ==> m[i] == (r[i].0, f(r[i].1))
    ensures Keys(m) == Keys(r)
  {
    var m := seq(|r|, i requires 0 <= i < |r| => (r[i].0, f(r[i].1)));
    assert DistinctKeys(m) by {
      forall i, j | 0 <= i < j < |m| ensures m[i].0 != m[j].0 {
        assert m[i].0 == r[i].0 && m[j].0 == r[j].0;
      }
    }
    m
  }

  /** A lookup in a value-mapped record is the mapped lookup. */
  lemma GetMapValues<V, W>(r: Record<V>, f: V -> W, k: string)
    ensures Get(MapValues(r, f), k) == if Get(r, k).Some? then Some(f(Get(r, k).value)) else None
  {
    var m := MapValues(r, f);
    if Get(r, k).Some? {
      var i :| 0 <= i < |r| && r[i].0 == k;
      GetAt(r, i);
      GetAt(m, i);
    }
  }
}
