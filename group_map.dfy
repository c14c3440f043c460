/**
 * The parser's result type: an insertion-ordered mapping from group name to
 * the group's lines, with the semantics of a Python `dict`: assigning to a
 * key already present keeps its position, assigning to a new key appends it.
 * `GroupMap` is the value; `GroupTable` is the mutable dictionary that the
 * parser and the merger update in place.
 */
module GroupMaps {

  /** Keys in insertion order, and the lines stored under each key. */
  datatype GroupMap = GroupMap(keys: seq<string>, values: map<string, seq<string>>)

  ghost predicate Distinct(ks: seq<string>)
  {
    forall i, j :: 0 <= i < j < |ks| ==> ks[i] != ks[j]
  }

  /** Every key is listed exactly once and the listed keys are the stored keys. */
  ghost predicate ValidMap(m: GroupMap)
  {
    && Distinct(m.keys)
    && (forall k :: k in m.values ==> k in m.keys)
    && (forall i :: 0 <= i < |m.keys| ==> m.keys[i] in m.values)
  }

  const Empty: GroupMap := GroupMap([], map[])

  lemma DistinctAppend(a: seq<string>, b: seq<string>)
    requires Distinct(a) && Distinct(b)
    requires forall x :: x in b ==> x !in a
    ensures Distinct(a + b)
  {
    forall i, j | 0 <= i < j < |a + b| ensures (a + b)[i] != (a + b)[j] {
      if i < |a| && j >= |a| {
        assert (a + b)[j] == b[j - |a|] && b[j - |a|] in b;
      }
    }
  }

  /** `m[k] = v` on a dict. */
  function Put(m: GroupMap, k: string, v: seq<string>): (r: GroupMap)
    requires ValidMap(m)
    ensures ValidMap(r)
  {
    if k in m.values then
      GroupMap(m.keys, m.values[k := v])
    else
      DistinctAppend(m.keys, [k]);
      GroupMap(m.keys + [k], m.values[k := v])
  }

  /**
   * Dict assignment: afterwards `k` maps to `v` and every other key keeps
   * its value; a key already present keeps its position, a new key goes last.
   */
  lemma PutSemantics(m: GroupMap, k: string, v: seq<string>)
    requires ValidMap(m)
    ensures k in Put(m, k, v).values && Put(m, k, v).values[k] == v
    ensures forall k' :: k' != k ==> (k' in Put(m, k, v).values <==> k' in m.values)
    ensures forall k' :: k' != k && k' in m.values ==> Put(m, k, v).values[k'] == m.values[k']
    ensures k in m.values ==> Put(m, k, v).keys == m.keys
    ensures k !in m.values ==> Put(m, k, v).keys == m.keys + [k]
  {
  }

  /** The keys of `ks`, in order, that `g` does not hold. */
  function NewKeys(g: GroupMap, ks: seq<string>): seq<string>
  {
    if ks == [] then []
    else
      var init := NewKeys(g, ks[..|ks| - 1]);
      var k := ks[|ks| - 1];
      if k in g.values then init else init + [k]
  }

  lemma {:induction false} NewKeysSpec(g: GroupMap, ks: seq<string>)
    requires Distinct(ks)
    ensures forall k :: k in NewKeys(g, ks) <==> k in ks && k !in g.values
    ensures Distinct(NewKeys(g, ks))
  {
    if ks != [] {
      var init := ks[..|ks| - 1];
      var k := ks[|ks| - 1];
      NewKeysSpec(g, init);
      assert forall x :: x in ks <==> x in init || x == k;
      if k !in g.values {
        assert k !in init;
        DistinctAppend(NewKeys(g, init), [k]);
      }
    }
  }

  lemma OverrideValid(g: GroupMap, e: GroupMap)
    requires ValidMap(g) && ValidMap(e)
    ensures ValidMap(GroupMap(g.keys + NewKeys(g, e.keys), g.values + e.values))
  {
    NewKeysSpec(g, e.keys);
    DistinctAppend(g.keys, NewKeys(g, e.keys));
  }

  /**
   * What a run of assignments recorded in `e` does to `g`: `g`'s keys keep
   * their positions, keys new to `g` follow in `e`'s order, and `e`'s values
   * win wherever `e` has the key.
   */
  function Override(g: GroupMap, e: GroupMap): (r: GroupMap)
    requires ValidMap(g) && ValidMap(e)
    ensures ValidMap(r)
  {
    OverrideValid(g, e);
    GroupMap(g.keys + NewKeys(g, e.keys), g.values + e.values)
  }

  /** A key the later map does not assign keeps its earlier lines. */
  lemma OverrideKeeps(g: GroupMap, e: GroupMap, k: string)
    requires ValidMap(g) && ValidMap(e) && k in g.values && k !in e.values
    ensures k in Override(g, e).values && Override(g, e).values[k] == g.values[k]
  {
  }

  lemma OverrideEmpty(g: GroupMap)
    requires ValidMap(g)
    ensures Override(g, Empty) == g
  {
    assert NewKeys(g, []) == [];
    assert g.keys + [] == g.keys;
    assert g.values + map[] == g.values;
  }

  lemma UnionUpdate(a: map<string, seq<string>>, b: map<string, seq<string>>, k: string, v: seq<string>)
    ensures a + b[k := v] == (a + b)[k := v]
  {
  }

  /** Overriding with one more assignment is that assignment applied to the override. */
  lemma OverridePut(g: GroupMap, e: GroupMap, k: string, v: seq<string>)
    requires ValidMap(g) && ValidMap(e)
    ensures Override(g, Put(e, k, v)) == Put(Override(g, e), k, v)
  {
    var o := Override(g, e);
    UnionUpdate(g.values, e.values, k, v);
    assert Override(g, Put(e, k, v)).values == Put(o, k, v).values;
    OverridePutKeys(g, e, k, v);
  }

  lemma OverridePutKeys(g: GroupMap, e: GroupMap, k: string, v: seq<string>)
    requires ValidMap(g) && ValidMap(e)
    ensures Override(g, Put(e, k, v)).keys == Put(Override(g, e), k, v).keys
  {
    if k !in e.values {
      OverridePutNewKey(g, e, k, v);
    }
  }

  lemma NewKeysSnoc(g: GroupMap, ks: seq<string>, k: string)
    ensures NewKeys(g, ks + [k]) == NewKeys(g, ks) + (if k in g.values then [] else [k])
  {
    assert (ks + [k])[..|ks|] == ks;
  }

  lemma OverridePutNewKey(g: GroupMap, e: GroupMap, k: string, v: seq<string>)
    requires ValidMap(g) && ValidMap(e) && k !in e.values
    ensures Override(g, Put(e, k, v)).keys == Put(Override(g, e), k, v).keys
  {
    var ns := NewKeys(g, e.keys);
    NewKeysSnoc(g, e.keys, k);
    assert Put(e, k, v).keys == e.keys + [k];
    if k !in g.values {
      assert g.keys + (ns + [k]) == (g.keys + ns) + [k];
    }
  }

  /** The first `j` entries of `m`. */
  function Take(m: GroupMap, j: nat): (r: GroupMap)
    requires ValidMap(m) && j <= |m.keys|
    ensures ValidMap(r)
  {
    var ks := m.keys[..j];
    var r := GroupMap(ks, map k | k in ks :: m.values[k]);
    r
  }

  lemma TakeNone(m: GroupMap)
    requires ValidMap(m)
    ensures Take(m, 0) == Empty
  {
    assert Take(m, 0).values == map[];
  }

  lemma TakeAll(m: GroupMap)
    requires ValidMap(m)
    ensures Take(m, |m.keys|) == m
  {
    assert m.keys[..|m.keys|] == m.keys;
    assert Take(m, |m.keys|).values == m.values;
  }

  lemma TakeNext(m: GroupMap, j: nat)
    requires ValidMap(m) && j < |m.keys|
    ensures Take(m, j + 1) == Put(Take(m, j), m.keys[j], m.values[m.keys[j]])
  {
    var k := m.keys[j];
    assert k !in m.keys[..j];
    assert m.keys[..j + 1] == m.keys[..j] + [k];
    assert Take(m, j + 1).values == Put(Take(m, j), k, m.values[k]).values;
  }

  /** The lines of the groups named in `ks`, one group after another. */
  function FlattenKeys(m: GroupMap, ks: seq<string>): seq<string>
    requires forall k :: k in ks ==> k in m.values
  {
    if ks == [] then []
    else FlattenKeys(m, ks[..|ks| - 1]) + m.values[ks[|ks| - 1]]
  }

  /** All lines of all groups, in key order: what `for channels in d.values()` visits. */
  function Flatten(m: GroupMap): seq<string>
    requires ValidMap(m)
  {
    FlattenKeys(m, m.keys)
  }

  lemma FlattenKeysNext(m: GroupMap, j: nat)
    requires ValidMap(m) && 0 < j <= |m.keys|
    ensures FlattenKeys(m, m.keys[..j]) == FlattenKeys(m, m.keys[..j - 1]) + m.values[m.keys[j - 1]]
  {
    assert m.keys[..j][..j - 1] == m.keys[..j - 1];
  }

  lemma {:induction false} FlattenKeysHas(m: GroupMap, ks: seq<string>, l: string)
    requires forall k :: k in ks ==> k in m.values
    ensures l in FlattenKeys(m, ks) <==> exists k :: k in ks && l in m.values[k]
  {
    if ks != [] {
      var init := ks[..|ks| - 1];
      FlattenKeysHas(m, init, l);
      assert forall k :: k in ks <==> k in init || k == ks[|ks| - 1];
    }
  }

  /** The dictionary the parser fills and the merger updates in place. */
  class GroupTable {
    var keys: seq<string>
    var values: map<string, seq<string>>

    function Model(): GroupMap
      reads this
    {
      GroupMap(keys, values)
    }

    ghost predicate Valid()
      reads this
    {
      ValidMap(Model())
    }

    /** `{}` */
    constructor ()
      ensures Valid() && Model() == Empty
    {
      keys := [];
      values := map[];
    }

    /** `table[name] = lines` */
    method Assign(name: string, lines: seq<string>)
      requires Valid()
      modifies this
      ensures Valid() && Model() == Put(old(Model()), name, lines)
    {
      if name !in values {
        keys := keys + [name];
      }
      values := values[name := lines];
    }
  }
}
