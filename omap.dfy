/** A JavaScript `Map` with string keys: besides the key/value dictionary it
    remembers the order in which keys were first set, which is the order in
    which `keys()`, `values()` and `entries()` enumerate them. Setting an
    existing key keeps its position; deleting a key removes it from the order. */
module OrderedMaps {
  import opened Wrappers
  import opened Seqs

  /** The keys of `s` other than `k`, in order. */
  function Without(s: seq<string>, k: string): (r: seq<string>)
    ensures k !in r
    ensures forall x :: x in r <==> x in s && x != k
  {
    var r := Filter(s, x => x != k);
    assert forall x :: x in r ==> x in s && x != k by {
      forall x | x in r ensures x in s && x != k {
        var i :| 0 <= i < |r| && r[i] == x;
      }
    }
    assert forall x :: x in s && x != k ==> x in r by {
      forall x | x in s && x != k ensures x in r {
        var i :| 0 <= i < |s| && s[i] == x;
      }
    }
    r
  }

  lemma WithoutAbsent(s: seq<string>, k: string)
    requires k !in s
    ensures Without(s, k) == s
  {
    FilterKeepsAll(s, x => x != k);
  }

  lemma WithoutOnly(k: string)
    ensures Without([k], k) == []
  {
    assert [k][1..] == [];
  }

  lemma WithoutAppend(a: seq<string>, b: seq<string>, k: string)
    ensures Without(a + b, k) == Without(a, k) + Without(b, k)
  {
    FilterAppend(a, b, x => x != k);
  }

  lemma {:induction false} WithoutKeepsDistinct(s: seq<string>, k: string)
    requires Distinct(s)
    ensures Distinct(Without(s, k))
  {
    if s != [] {
      WithoutKeepsDistinct(s[1..], k);
      assert s == [s[0]] + s[1..];
      WithoutAppend([s[0]], s[1..], k);
      assert s[0] !in s[1..];
      assert Without([s[0]], k) == if s[0] == k then [] else [s[0]];
    }
  }

  datatype OMap<V> = OMap(keys: seq<string>, m: map<string, V>) {

    /** The order lists every key of the dictionary exactly once. */
    ghost predicate Valid() {
      Distinct(keys) && forall k :: k in m <==> k in keys
    }

    lemma SizeIsKeyCount()
      requires Valid()
      ensures |keys| == |m|
    {
      DistinctCardinality(keys);
      assert m.Keys == set x | x in keys;
    }

    /** `map.get(k)`. */
    function Get(k: string): Option<V> {
      if k in m then Some(m[k]) else None
    }

    /** `map.set(k, v)`. */
    function Set(k: string, v: V): (r: OMap<V>)
      ensures Valid() ==> r.Valid()
      ensures r.m == m[k := v]
      ensures r.keys == if k in keys then keys else keys + [k]
    {
      OMap(if k in keys then keys else keys + [k], m[k := v])
    }

    /** `map.delete(k)`. */
    function Delete(k: string): (r: OMap<V>)
      ensures Valid() ==> r.Valid()
      ensures r.m == m - {k}
      ensures r.keys == Without(keys, k)
      ensures |r.m| == if k in m then |m| - 1 else |m|
    {
      assert Distinct(keys) ==> Distinct(Without(keys, k)) by {
        if Distinct(keys) { WithoutKeepsDistinct(keys, k); }
      }
      assert (m - {k}).Keys == if k in m then m.Keys - {k} else m.Keys;
      OMap(Without(keys, k), m - {k})
    }

    /** `Array.from(map.values())`. */
    function Values(): (r: seq<V>)
      requires Valid()
      ensures |r| == |keys|
      ensures forall i :: 0 <= i < |keys| ==> r[i] == m[keys[i]]
    {
      ValuesAt(keys, m)
    }

    lemma ValuesMembers(x: V)
      requires Valid()
      ensures x in Values() <==> x in m.Values
    {
      var r := Values();
      if x in r {
        var i :| 0 <= i < |r| && r[i] == x;
        assert keys[i] in m;
      }
      if x in m.Values {
        var k :| k in m && m[k] == x;
        var i :| 0 <= i < |keys| && keys[i] == k;
        assert r[i] == x;
      }
    }

    /** `Array.from(map.entries())`, which is also what `Object.entries` gives
        for the plain object the source builds from the map. */
    function Entries(): (r: seq<(string, V)>)
      requires Valid()
      ensures |r| == |keys|
      ensures forall i :: 0 <= i < |keys| ==> r[i] == (keys[i], m[keys[i]])
    {
      seq(|keys|, i requires 0 <= i < |keys| => (keys[i], m[keys[i]]))
    }
  }

  /** The values stored under `keys`, in the order of `keys`. */
  function ValuesAt<V>(keys: seq<string>, m: map<string, V>): (r: seq<V>)
    requires forall k :: k in keys ==> k in m
    ensures |r| == |keys|
    ensures forall i :: 0 <= i < |keys| ==> r[i] == m[keys[i]]
  {
    if keys == [] then [] else [m[keys[0]]] + ValuesAt(keys[1..], m)
  }

  /** The keys in `keys` whose value passes `p`. */
  ghost function KeysWhere<V>(keys: seq<string>, m: map<string, V>, p: V -> bool): set<string>
    requires forall k :: k in keys ==> k in m
  {
    set k | k in keys && p(m[k])
  }

  /** Counting the values that pass a test counts the keys whose value passes it. */
  lemma {:induction false} CountValuesAt<V>(keys: seq<string>, m: map<string, V>, p: V -> bool)
    requires Distinct(keys) && forall k :: k in keys ==> k in m
    ensures |Filter(ValuesAt(keys, m), p)| == |KeysWhere(keys, m, p)|
  {
    if keys != [] {
      var rest := keys[1..];
      CountValuesAt(rest, m, p);
      var vs := ValuesAt(keys, m);
      assert vs[0] == m[keys[0]] && vs[1..] == ValuesAt(rest, m);
      assert keys[0] !in rest;
      assert KeysWhere(keys, m, p) == (if p(m[keys[0]]) then {keys[0]} else {}) + KeysWhere(rest, m, p);
    }
  }

  /** The one key a plain object does not store as an own property. */
  const ProtoKey: string := "__proto__"

  function OwnProperty(): ((string, nat)) -> bool {
    (e: (string, nat)) => e.0 != ProtoKey
  }

  /** `obj[k] = count` for each entry, on a fresh `{}`, and then `Object.entries(obj)`.
      Assigning to `__proto__` calls `Object.prototype`'s setter, which ignores a
      value that is not an object, so that entry is lost; every other key becomes
      an own property, in assignment order. */
  function ObjectEntries(entries: seq<(string, nat)>): (r: seq<(string, nat)>)
    ensures forall e :: e in r <==> e in entries && e.0 != ProtoKey
    ensures |r| <= |entries|
  {
    var r := Filter(entries, OwnProperty());
    assert forall e :: e in r <==> e in entries && e.0 != ProtoKey by {
      forall e ensures e in r <==> e in entries && e.0 != ProtoKey {
        FilterMembers(entries, OwnProperty(), e);
      }
    }
    r
  }

  /** A map copied into a plain object keeps every key's count except that of
      `__proto__`, which never appears. */
  lemma ObjectOfMap(c: OMap<nat>, k: string)
    requires c.Valid()
    ensures k in c.m && k != ProtoKey ==> (k, c.m[k]) in ObjectEntries(c.Entries())
    ensures forall v :: (ProtoKey, v) !in ObjectEntries(c.Entries())
    ensures forall e :: e in ObjectEntries(c.Entries()) ==> e.0 in c.m && e.1 == c.m[e.0]
  {
    var es := c.Entries();
    if k in c.m {
      var i :| 0 <= i < |c.keys| && c.keys[i] == k;
      assert es[i] == (k, c.m[k]);
    }
    forall e | e in ObjectEntries(es) ensures e.0 in c.m && e.1 == c.m[e.0] {
      var i :| 0 <= i < |es| && es[i] == e;
    }
  }

  /** `new Map()`. */
  function Empty<V>(): (r: OMap<V>)
    ensures r.Valid() && r.m == map[] && r.keys == []
  {
    OMap([], map[])
  }
}
