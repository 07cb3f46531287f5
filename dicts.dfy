/** The insertion-ordered dictionaries mental.py builds with
    `Series.to_dict()` (mental.py:21 and mental.py:46). A Python dict keeps
    each key at the position where it was first inserted; inserting a key
    that is already present replaces its value and leaves the order alone. */
module Dicts {

  /** A dict: its keys in insertion order, and the key-to-value mapping. */
  datatype Dict<K, V> = Dict(keys: seq<K>, entries: map<K, V>)

  predicate Distinct<K(==)>(s: seq<K>) {
    forall i, j :: 0 <= i < j < |s| ==> s[i] != s[j]
  }

  /** The key list holds each key of the mapping exactly once. */
  ghost predicate Valid<K(!new), V>(d: Dict<K, V>) {
    Distinct(d.keys) && forall k :: k in d.entries <==> k in d.keys
  }

  /** `d[k] = v`. */
  function Insert<K, V>(d: Dict<K, V>, k: K, v: V): Dict<K, V> {
    Dict(if k in d.entries then d.keys else d.keys + [k], d.entries[k := v])
  }

  /** The dict `Series.to_dict()` returns for a series with index `ks` and
      values `vs`: the pairs inserted one after the other. Its keys are those
      of `ks`, each listed once. */
  function FromPairs<K(!new), V>(ks: seq<K>, vs: seq<V>): (d: Dict<K, V>)
    requires |ks| == |vs|
    ensures Valid(d)
    ensures forall k :: k in d.entries <==> k in ks
  {
    if ks == [] then Dict([], map[])
    else
      assert ks == ks[..|ks| - 1] + [ks[|ks| - 1]];
      Insert(FromPairs(ks[..|ks| - 1], vs[..|vs| - 1]), ks[|ks| - 1], vs[|vs| - 1])
  }

  /** The position of the first occurrence of `k` in `s`. */
  function FirstIndex<K(==)>(s: seq<K>, k: K): (i: nat)
    requires k in s
    ensures i < |s| && s[i] == k
    ensures forall j :: 0 <= j < i ==> s[j] != k
  {
    if s[0] == k then 0 else 1 + FirstIndex(s[1..], k)
  }

  /** The position of the last occurrence of `k` in `s`. */
  function LastIndex<K(==)>(s: seq<K>, k: K): (i: nat)
    requires k in s
    ensures i < |s| && s[i] == k
    ensures forall j :: i < j < |s| ==> s[j] != k
  {
    if s[|s| - 1] == k then |s| - 1
    else
      assert k in s[..|s| - 1] by {
        var i :| 0 <= i < |s| && s[i] == k;
        assert s[..|s| - 1][i] == k;
      }
      LastIndex(s[..|s| - 1], k)
  }

  /** The loop `Series.to_dict()` runs: one `d[k] = v` per element, in order. */
  method BuildDict<K(!new), V>(ks: seq<K>, vs: seq<V>) returns (d: Dict<K, V>)
    requires |ks| == |vs|
    ensures d == FromPairs(ks, vs)
  {
    var keys: seq<K> := [];
    var entries: map<K, V> := map[];
    var i := 0;
    while i < |ks|
      invariant 0 <= i <= |ks|
      invariant Dict(keys, entries) == FromPairs(ks[..i], vs[..i])
    {
      assert ks[..i + 1][..i] == ks[..i] && vs[..i + 1][..i] == vs[..i];
      if ks[i] !in entries {
        keys := keys + [ks[i]];
      }
      entries := entries[ks[i] := vs[i]];
      i := i + 1;
    }
    assert ks[..i] == ks && vs[..i] == vs;
    d := Dict(keys, entries);
  }

  // ---------------------------------------------------------------------------
  // Lemmas

  /** Last write wins: every key is bound to the value of its last pair. */
  lemma {:induction false} FromPairsLastWins<K(!new), V>(ks: seq<K>, vs: seq<V>, k: K)
    requires |ks| == |vs| && k in ks
    ensures FromPairs(ks, vs).entries[k] == vs[LastIndex(ks, k)]
  {
    var n := |ks|;
    var ks', vs' := ks[..n - 1], vs[..n - 1];
    var prev := FromPairs(ks', vs');
    assert FromPairs(ks, vs) == Insert(prev, ks[n - 1], vs[n - 1]);
    if ks[n - 1] != k {
      assert k in ks' by {
        var i :| 0 <= i < n && ks[i] == k;
        assert ks'[i] == k;
      }
      FromPairsLastWins(ks', vs', k);
      assert LastIndex(ks, k) == LastIndex(ks', k);
    }
  }

  /** The first occurrence of a key in a prefix is its first occurrence. */
  lemma FirstIndexPrefix<K>(s: seq<K>, m: nat, k: K)
    requires m <= |s| && k in s[..m]
    ensures FirstIndex(s, k) == FirstIndex(s[..m], k)
  {
    var p := s[..m];
    var i, j := FirstIndex(s, k), FirstIndex(p, k);
    assert p[j] == s[j];
    assert i <= j;
    assert p[i] == s[i];
  }

  /** The key list follows the order of each key's first occurrence. */
  lemma FromPairsKeyOrder<K(!new), V>(ks: seq<K>, vs: seq<V>)
    requires |ks| == |vs|
    ensures forall a, b :: 0 <= a < b < |FromPairs(ks, vs).keys| ==>
      FirstIndex(ks, FromPairs(ks, vs).keys[a]) < FirstIndex(ks, FromPairs(ks, vs).keys[b])
  {
    forall a, b | 0 <= a < b < |FromPairs(ks, vs).keys|
      ensures FirstIndex(ks, FromPairs(ks, vs).keys[a]) < FirstIndex(ks, FromPairs(ks, vs).keys[b])
    {
      KeyOrderAt(ks, vs, a, b);
    }
  }

  /** `FromPairsKeyOrder` for one pair of positions in the key list. */
  lemma {:induction false} KeyOrderAt<K(!new), V>(ks: seq<K>, vs: seq<V>, a: nat, b: nat)
    requires |ks| == |vs| && a < b < |FromPairs(ks, vs).keys|
    ensures FirstIndex(ks, FromPairs(ks, vs).keys[a]) < FirstIndex(ks, FromPairs(ks, vs).keys[b])
  {
    var n := |ks|;
    var ks', vs' := ks[..n - 1], vs[..n - 1];
    var prev := FromPairs(ks', vs');
    var k := ks[n - 1];
    assert FromPairs(ks, vs) == Insert(prev, k, vs[n - 1]);
    var keys := FromPairs(ks, vs).keys;
    assert keys == prev.keys || keys == prev.keys + [k];
    assert keys[a] == prev.keys[a];
    FirstIndexPrefix(ks, n - 1, keys[a]);
    if b < |prev.keys| {
      assert keys[b] == prev.keys[b];
      KeyOrderAt(ks', vs', a, b);
      FirstIndexPrefix(ks, n - 1, keys[b]);
    } else {
      assert keys[b] == k && k !in ks';
      assert FirstIndex(ks, k) == n - 1;
    }
  }

  /** The key list depends only on the keys, not on the values. */
  lemma {:induction false} FromPairsKeysIgnoreValues<K(!new), V, W>(ks: seq<K>, vs: seq<V>, ws: seq<W>)
    requires |ks| == |vs| == |ws|
    ensures FromPairs(ks, vs).keys == FromPairs(ks, ws).keys
  {
    if ks != [] {
      FromPairsKeysIgnoreValues(ks[..|ks| - 1], vs[..|vs| - 1], ws[..|ws| - 1]);
    }
  }
}
