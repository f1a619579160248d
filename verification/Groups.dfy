/** Grouping a list by a key, in the order in which the keys first occur. */
module Groups {
  import opened Sequences

  /** A JavaScript `Map` from keys to lists, with its insertion order. */
  datatype Groups<K, V> = Groups(keys: seq<K>, members: map<K, seq<V>>)

  function HasKey<K(==), V>(key: V -> K, k: K): V -> bool {
    v => key(v) == k
  }

  ghost function Keys<K, V(!new)>(key: V -> K, values: seq<V>): set<K> {
    set v | v in values :: key(v)
  }

  /** Each key once, in `keys` as in `members`. */
  ghost predicate KeyedBy<K(!new), V(!new)>(g: Groups<K, V>, key: V -> K, values: seq<V>) {
    Distinct(g.keys) && Elements(g.keys) == g.members.Keys && g.members.Keys == Keys(key, values)
  }

  /** Under each key exactly the values with that key, in order. */
  ghost predicate Partitions<K(!new), V(!new)>(g: Groups<K, V>, key: V -> K, values: seq<V>) {
    forall k :: k in g.members ==> g.members[k] == Filter(HasKey(key, k), values)
  }

  /** The groups after one more value. */
  function Put<K(==), V>(g: Groups<K, V>, k: K, v: V): Groups<K, V> {
    Groups(if k in g.members then g.keys else g.keys + [k],
           g.members[k := (if k in g.members then g.members[k] else []) + [v]])
  }

  /** The groups of a list, value by value. */
  function GroupsOf<K(==), V>(key: V -> K, values: seq<V>): Groups<K, V> {
    if values == [] then Groups([], map[])
    else Put(GroupsOf(key, values[..|values| - 1]), key(values[|values| - 1]), values[|values| - 1])
  }

  method GroupBy<K(==), V>(values: seq<V>, key: V -> K) returns (g: Groups<K, V>)
    ensures g == GroupsOf(key, values)
  {
    g := Groups([], map[]);
    for i := 0 to |values|
      invariant g == GroupsOf(key, values[..i])
    {
      assert values[..i + 1][..i] == values[..i];
      var k := key(values[i]);
      var group := if k in g.members then g.members[k] else [];
      g := Groups(if k in g.members then g.keys else g.keys + [k], g.members[k := group + [values[i]]]);
    }
    assert values[..|values|] == values;
  }

  lemma {:induction false} GroupsKeyed<K(!new), V(!new)>(key: V -> K, values: seq<V>)
    ensures KeyedBy(GroupsOf(key, values), key, values)
  {
    if values != [] {
      var front, last := values[..|values| - 1], values[|values| - 1];
      GroupsKeyed(key, front);
      var g, k := GroupsOf(key, front), key(last);
      assert values == front + [last];
      assert Keys(key, values) == Keys(key, front) + {k};
      if k !in g.members {
        assert k !in Elements(g.keys);
        assert Elements(g.keys + [k]) == Elements(g.keys) + {k};
      }
    }
  }

  /** Grouping is a true partition: under each key exactly its values, in order. */
  lemma {:induction false} GroupsPartition<K(!new), V(!new)>(key: V -> K, values: seq<V>)
    ensures Partitions(GroupsOf(key, values), key, values)
  {
    var g := GroupsOf(key, values);
    if values != [] {
      var front, last := values[..|values| - 1], values[|values| - 1];
      GroupsPartition(key, front);
      assert values == front + [last];
      forall k | k in g.members
        ensures g.members[k] == Filter(HasKey(key, k), values)
      {
        FilterSnoc(HasKey(key, k), front, last);
        if k !in GroupsOf(key, front).members {
          GroupsKeyed(key, front);
          NoneWithKey(key, front, k);
        }
      }
    }
  }

  lemma {:induction false} NoneWithKey<K, V(!new)>(key: V -> K, values: seq<V>, k: K)
    requires k !in Keys(key, values)
    ensures Filter(HasKey(key, k), values) == []
  {
    if values != [] {
      assert values[0] in values;
      assert key(values[0]) in Keys(key, values);
      assert Keys(key, values[1..]) <= Keys(key, values);
      NoneWithKey(key, values[1..], k);
    }
  }

  /** Every value is in the group of its key, as often as in the list, and in no other group. */
  lemma GroupedOnce<K(!new), V(!new)>(key: V -> K, values: seq<V>, v: V)
    ensures var g := GroupsOf(key, values);
            forall k :: k in g.members ==> multiset(g.members[k])[v] == if k == key(v) then multiset(values)[v] else 0
    ensures v in values ==> key(v) in GroupsOf(key, values).members
  {
    var g := GroupsOf(key, values);
    GroupsPartition(key, values);
    GroupsKeyed(key, values);
    assert v in values ==> key(v) in Keys(key, values);
    forall k | k in g.members
      ensures multiset(g.members[k])[v] == if k == key(v) then multiset(values)[v] else 0
    {
      FilterMultiset(HasKey(key, k), values, v);
    }
  }

  // ----- Groups that agree on a tag

  ghost predicate Unanimous<K, V(!new), L>(key: V -> K, tag: V -> L, values: seq<V>, k: K) {
    forall v, w :: v in values && w in values && key(v) == k && key(w) == k ==> tag(v) == tag(w)
  }

  ghost function Agrees<K, V(!new), L>(key: V -> K, tag: V -> L, values: seq<V>): K -> bool {
    k => Unanimous(key, tag, values, k)
  }

  ghost function AgreeingKeys<K, V(!new), L>(key: V -> K, tag: V -> L, values: seq<V>): (r: set<K>)
    ensures r <= Keys(key, values)
  {
    set k | k in Keys(key, values) && Unanimous(key, tag, values, k)
  }

  /** Equal keys have equal tags, throughout. */
  ghost predicate Consistent<K, V(!new), L>(key: V -> K, tag: V -> L, values: seq<V>) {
    forall v, w :: v in values && w in values && key(v) == key(w) ==> tag(v) == tag(w)
  }

  lemma ConsistentKeys<K, V(!new), L>(key: V -> K, tag: V -> L, values: seq<V>)
    ensures Consistent(key, tag, values) <==> AgreeingKeys(key, tag, values) == Keys(key, values)
  {
    if AgreeingKeys(key, tag, values) == Keys(key, values) {
      forall v, w | v in values && w in values && key(v) == key(w)
        ensures tag(v) == tag(w)
      {
        assert key(v) in AgreeingKeys(key, tag, values);
      }
    }
  }

  /** The set of tags of a group has one element exactly when the group is unanimous. */
  lemma OneTag<K, V(!new), L>(key: V -> K, tag: V -> L, values: seq<V>, k: K, tags: set<L>)
    requires k in Keys(key, values)
    requires tags == set v | v in Filter(HasKey(key, k), values) :: tag(v)
    ensures |tags| == 1 <==> Unanimous(key, tag, values, k)
    ensures |tags| >= 1
  {
    var v :| v in values && key(v) == k;
    FilterMember(HasKey(key, k), values, v);
    assert {tag(v)} <= tags;
    SubsetSize({tag(v)}, tags);
    if Unanimous(key, tag, values, k) {
      forall w | w in Filter(HasKey(key, k), values)
        ensures tag(w) == tag(v)
      {
        FilterMember(HasKey(key, k), values, w);
      }
      assert tags == {tag(v)};
    }
    if tags == {tag(v)} {
      forall w | w in values && key(w) == k
        ensures tag(w) == tag(v)
      {
        FilterMember(HasKey(key, k), values, w);
        assert tag(w) in tags;
      }
    }
  }

  lemma CountNext<K(!new), V(!new), L>(key: V -> K, tag: V -> L, values: seq<V>, g: Groups<K, V>, i: nat)
    requires g == GroupsOf(key, values) && i < |g.keys|
    ensures g.keys[i] in g.members
    ensures var tags := set v | v in g.members[g.keys[i]] :: tag(v); var agrees := Agrees(key, tag, values);
            |tags| >= 1
            && |Filter(agrees, g.keys[..i + 1])| == |Filter(agrees, g.keys[..i])| + if |tags| == 1 then 1 else 0
  {
    GroupsPartition(key, values);
    GroupsKeyed(key, values);
    var k := g.keys[i];
    assert k in Elements(g.keys);
    OneTag(key, tag, values, k, set v | v in g.members[k] :: tag(v));
    FilterSnoc(Agrees(key, tag, values), g.keys[..i], k);
    assert g.keys[..i + 1] == g.keys[..i] + [k];
  }

  lemma CountAll<K(!new), V(!new), L>(key: V -> K, tag: V -> L, values: seq<V>)
    ensures var g := GroupsOf(key, values);
            |g.keys| == |Keys(key, values)|
            && |Filter(Agrees(key, tag, values), g.keys)| == |AgreeingKeys(key, tag, values)|
  {
    var g, agrees := GroupsOf(key, values), Agrees(key, tag, values);
    GroupsKeyed(key, values);
    forall k
      ensures k in g.keys <==> k in Keys(key, values)
      ensures k in Filter(agrees, g.keys) <==> k in AgreeingKeys(key, tag, values)
    {
      FilterMember(agrees, g.keys, k);
      assert k in g.keys <==> k in Elements(g.keys);
    }
    DistinctCount(g.keys, Keys(key, values));
    FilterDistinct(agrees, g.keys);
    DistinctCount(Filter(agrees, g.keys), AgreeingKeys(key, tag, values));
  }

  /** How many groups agree, and how many there are. */
  method CountAgreeing<K(==,!new), V(==,!new), L(==)>(values: seq<V>, key: V -> K, tag: V -> L)
    returns (agreeing: nat, groups: nat)
    ensures agreeing == |AgreeingKeys(key, tag, values)|
    ensures groups == |Keys(key, values)|
  {
    var g := GroupBy(values, key);
    agreeing := 0;
    groups := |g.keys|;
    for i := 0 to |g.keys|
      invariant agreeing == |Filter(Agrees(key, tag, values), g.keys[..i])|
    {
      CountNext(key, tag, values, g, i);
      var group := g.members[g.keys[i]];
      var tags := set v | v in group :: tag(v);
      if |tags| == 1 {
        agreeing := agreeing + 1;
      }
    }
    assert g.keys[..|g.keys|] == g.keys;
    CountAll(key, tag, values);
  }
}
