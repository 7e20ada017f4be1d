/**
 The Properties object: a map of properties, a map of key positions and a counter,
 as a refinement of the ordered association list of PropertyList.dfy.
 */
module PropertiesObject {
  import opened Wrappers
  import opened Text
  import opened Escaping
  import opened PropertyList
  import opened PropertyOrder
  import opened PropertyText

  datatype KeyIndex = KeyIndex(key: string, index: nat)

  /** The two maps and the counter agree with the order of the keys. */
  ghost predicate Agrees(properties: map<string, Property>, keys: map<string, KeyIndex>, next: nat,
                         order: seq<string>)
  {
    && properties.Keys == keys.Keys
    && NoDuplicates(order)
    && (forall k :: k in order <==> k in keys)
    && (forall k :: k in keys ==> keys[k].key == k && properties[k].key == k && keys[k].index < next)
    && Rising(order, keys)
  }

  /** The properties in the given order. */
  function Listed(properties: map<string, Property>, order: seq<string>): Entries
    requires forall k :: k in order ==> k in properties
  {
    seq(|order|, i requires 0 <= i < |order| => properties[order[i]])
  }

  lemma ListedSpec(properties: map<string, Property>, keys: map<string, KeyIndex>, next: nat, order: seq<string>)
    requires Agrees(properties, keys, next, order)
    ensures Keys(Listed(properties, order)) == order && Distinct(Listed(properties, order))
    ensures forall k :: Lookup(Listed(properties, order), k) == At(properties, k)
  {
    var r := Listed(properties, order);
    assert Keys(r) == order;
    forall k ensures Lookup(r, k) == if k in properties then Some(properties[k]) else None {
      if k in properties {
        var i :| 0 <= i < |order| && order[i] == k;
        LookupAt(r, i);
      }
    }
  }

  lemma PutRefines(properties: map<string, Property>, keys: map<string, KeyIndex>, next: nat, order: seq<string>,
                   p: Property)
    requires Agrees(properties, keys, next, order)
    ensures
      var isNew := p.key !in properties;
      var keys' := if isNew then keys[p.key := KeyIndex(p.key, next)] else keys;
      var order' := if isNew then order + [p.key] else order;
      && Agrees(properties[p.key := p], keys', if isNew then next + 1 else next, order')
      && Listed(properties[p.key := p], order') == PropertyList.Put(Listed(properties, order), p)
  {
    hide *;
    PutAgrees(properties, keys, next, order, p);
    if p.key in properties {
      ListedAfterPut(properties, keys, next, order, properties[p.key := p], keys, next, order, p);
    } else {
      ListedAfterPut(properties, keys, next, order, properties[p.key := p], keys[p.key := KeyIndex(p.key, next)],
                     next + 1, order + [p.key], p);
    }
  }

  lemma ListedAfterPut(properties: map<string, Property>, keys: map<string, KeyIndex>, next: nat, order: seq<string>,
                       properties': map<string, Property>, keys': map<string, KeyIndex>, next': nat,
                       order': seq<string>, p: Property)
    requires Agrees(properties, keys, next, order) && Agrees(properties', keys', next', order')
    requires properties' == properties[p.key := p]
    requires p.key in properties ==> order' == order
    requires p.key !in properties ==> order' == order + [p.key]
    ensures (forall k :: k in order ==> k in properties) && (forall k :: k in order' ==> k in properties')
    ensures Listed(properties', order') == PropertyList.Put(Listed(properties, order), p)
  {
    hide Lookup, PropertyList.Put, PropertyList.Delete, Listed, Keys, Agrees, NoDuplicates, Rising, Without, KeySet;
    AgreesDomain(properties, keys, next, order);
    AgreesDomain(properties', keys', next', order');
    ListedSpec(properties, keys, next, order);
    ListedSpec(properties', keys', next', order');
    var l, l' := Listed(properties, order), Listed(properties', order');
    PutSpec(l, p);
    if p.key in properties {
      assert Keys(PropertyList.Put(l, p)) == order';
    } else {
      assert Keys(PropertyList.Put(l, p)) == order';
    }
    SameKeysAndLookups(l', PropertyList.Put(l, p));
  }

  lemma AgreesDomain(properties: map<string, Property>, keys: map<string, KeyIndex>, next: nat, order: seq<string>)
    requires Agrees(properties, keys, next, order)
    ensures forall k :: k in order <==> k in properties
  {
  }

  lemma PutAgrees(properties: map<string, Property>, keys: map<string, KeyIndex>, next: nat, order: seq<string>,
                  p: Property)
    requires Agrees(properties, keys, next, order)
    ensures
      var isNew := p.key !in properties;
      var keys' := if isNew then keys[p.key := KeyIndex(p.key, next)] else keys;
      var order' := if isNew then order + [p.key] else order;
      && Agrees(properties[p.key := p], keys', if isNew then next + 1 else next, order')
      && forall k :: k in order' ==> k in properties[p.key := p]
  {
    hide NoDuplicates, Rising;
    if p.key !in properties {
      NoDuplicatesAppend(order, p.key);
      RisingAppend(order, p.key, next, keys);
      assert forall k :: k in order + [p.key] <==> k in order || k == p.key;
    }
  }

  lemma NoDuplicatesEmpty()
    ensures NoDuplicates<string>([])
  {
  }

  lemma NoDuplicatesAppend(ks: seq<string>, k: string)
    requires NoDuplicates(ks) && k !in ks
    ensures NoDuplicates(ks + [k])
  {
  }

  lemma RisingAppend(ks: seq<string>, k: string, n: nat, keys: map<string, KeyIndex>)
    requires Rising(ks, keys) && k !in ks && forall x :: x in ks ==> keys[x].index < n
    ensures Rising(ks + [k], keys[k := KeyIndex(k, n)])
  {
    var all, keys' := ks + [k], keys[k := KeyIndex(k, n)];
    forall i | 0 <= i < |all|
      ensures all[i] in keys' && (i < |ks| ==> all[i] == ks[i] && keys'[all[i]] == keys[ks[i]])
    {
      if i < |ks| {
        assert ks[i] in ks;
      }
    }
  }

  lemma DeleteRefines(properties: map<string, Property>, keys: map<string, KeyIndex>, next: nat, order: seq<string>,
                      key: string)
    requires Agrees(properties, keys, next, order)
    ensures Agrees(properties - {key}, keys - {key}, next, Without(order, {key}))
    ensures Listed(properties - {key}, Without(order, {key})) == PropertyList.Delete(Listed(properties, order), key)
  {
    hide Lookup, PropertyList.Put, PropertyList.Delete, Listed, Keys, Agrees, NoDuplicates, Rising, Without, KeySet;
    DeleteAgrees(properties, keys, next, order, key);
    AgreesDomain(properties, keys, next, order);
    ListedSpec(properties, keys, next, order);
    ListedSpec(properties - {key}, keys - {key}, next, Without(order, {key}));
    var l, l' := Listed(properties, order), Listed(properties - {key}, Without(order, {key}));
    DeleteSpec(l, key);
    forall k ensures Lookup(l', k) == Lookup(PropertyList.Delete(l, key), k) {
      assert Lookup(l', k) == At(properties - {key}, k) && Lookup(l, k) == At(properties, k);
    }
    SameKeysAndLookups(l', PropertyList.Delete(l, key));
  }

  lemma DeleteAgrees(properties: map<string, Property>, keys: map<string, KeyIndex>, next: nat, order: seq<string>,
                     key: string)
    requires Agrees(properties, keys, next, order)
    ensures Agrees(properties - {key}, keys - {key}, next, Without(order, {key}))
    ensures forall k :: k in Without(order, {key}) ==> k in properties - {key}
  {
    WithoutSpec(order, {key});
    WithoutKeepsOrder(order, key, keys);
    hide NoDuplicates, Without;
    RisingRestrict(Without(order, {key}), key, keys);
    hide Rising;
  }

  lemma RisingRestrict(ks: seq<string>, key: string, keys: map<string, KeyIndex>)
    requires Rising(ks, keys) && key !in ks
    ensures Rising(ks, keys - {key})
  {
    assert forall i :: 0 <= i < |ks| ==> ks[i] in ks;
  }

  class Properties {
    var properties: map<string, Property>
    var keys: map<string, KeyIndex>
    var nextKeyIndex: nat
    ghost var order: seq<string>   // the keys by ascending index

    ghost predicate Valid()
      reads this
    {
      Agrees(properties, keys, nextKeyIndex, order)
    }

    /** The list the object stands for. */
    ghost function Contents(): (r: Entries)
      requires Valid()
      reads this
      ensures Keys(r) == order && Distinct(r)
      ensures forall k :: Lookup(r, k) == At(properties, k)
    {
      ListedSpec(properties, keys, nextKeyIndex, order);
      Listed(properties, order)
    }

    constructor ()
      ensures Valid() && Contents() == []
    {
      properties, keys, nextKeyIndex := map[], map[], 0;
      order := [];
    }

    method Get(key: string) returns (p: Option<Property>)
      requires Valid()
      ensures p == Lookup(Contents(), key)
    {
      if key !in properties {
        return None;
      }
      return Some(properties[key]);
    }

    method Len() returns (n: nat)
      requires Valid()
      ensures n == |Contents()|
    {
      EntriesCount(Contents());
      assert KeySet(Contents()) == keys.Keys;
      n := |keys|;
    }

    method Put(p: Property)
      requires Valid()
      modifies this
      ensures Valid() && Contents() == PropertyList.Put(old(Contents()), p)
    {
      hide Agrees, Listed, PropertyList.Put;
      PutRefines(properties, keys, nextKeyIndex, order, p);
      if p.key !in properties {
        keys := keys[p.key := KeyIndex(p.key, nextKeyIndex)];
        nextKeyIndex := nextKeyIndex + 1;
        order := order + [p.key];
      }
      properties := properties[p.key := p];
    }

    method Delete(key: string)
      requires Valid()
      modifies this
      ensures Valid() && Contents() == PropertyList.Delete(old(Contents()), key)
    {
      hide Agrees, Listed, PropertyList.Delete;
      DeleteRefines(properties, keys, nextKeyIndex, order, key);
      keys := keys - {key};
      properties := properties - {key};
      order := Without(order, {key});
    }

    /** The keys by ascending index, whatever the order in which the map is walked. */
    method OrderedKeys() returns (r: seq<string>)
      requires Valid()
      ensures r == Keys(Contents())
    {
      var list: seq<KeyIndex> := [];
      var todo := keys.Keys;
      while todo != {}
        invariant todo <= keys.Keys
        invariant forall x :: x in list ==> x.key in keys && x == keys[x.key] && x.key !in todo
        invariant forall k :: k in keys && k !in todo ==> keys[k] in list
        invariant SortedByIndex(list)
        decreases todo
      {
        var k :| k in todo;
        assert forall x :: x in list ==> x.index != keys[k].index by {
          forall x | x in list ensures x.index != keys[k].index {
            DifferentKeys(x.key, k);
          }
        }
        list := InsertByIndex(list, keys[k]);
        todo := todo - {k};
      }
      r := [];
      for i := 0 to |list|
        invariant |r| == i && forall j :: 0 <= j < i ==> r[j] == list[j].key
      {
        r := r + [list[i].key];
      }
      SameOrder(list, r);
    }

    /** Takes over the properties of m; with defaultsOnly, only where this has no value. */
    method MergeWith(m: Properties?, defaultsOnly: bool)
      requires Valid() && (m != null ==> m != this && m.Valid())
      modifies this
      ensures Valid()
      ensures m == null ==> Contents() == old(Contents())
      ensures m != null ==> m.Valid() && Contents() == Merged(defaultsOnly, old(Contents()), m.Contents())
    {
      hide Agrees, PropertyList.Put;
      if m == null {
        return;
      }
      ghost var before, theirs := Contents(), m.Contents();
      var ks := m.OrderedKeys();
      assert theirs[0..] == theirs;
      for i := 0 to |ks|
        invariant Valid() && m.Valid() && m.Contents() == theirs
        invariant Merged(defaultsOnly, Contents(), theirs[i..]) == Merged(defaultsOnly, before, theirs)
      {
        assert theirs[i..][0] == theirs[i] && theirs[i..][1..] == theirs[i + 1..];
        LookupAt(theirs, i);
        var key := ks[i];
        if !(defaultsOnly && key in properties && !properties[key].IsEmpty()) {
          Put(m.properties[key]);
        }
      }
      assert theirs[|ks|..] == [];
    }

    method Merge(m: Properties?)
      requires Valid() && (m != null ==> m != this && m.Valid())
      modifies this
      ensures Valid()
      ensures m == null ==> Contents() == old(Contents())
      ensures m != null ==> m.Valid() && Contents() == PropertyList.Merge(old(Contents()), m.Contents())
    {
      MergeWith(m, false);
    }

    method MergeDefaults(m: Properties?)
      requires Valid() && (m != null ==> m != this && m.Valid())
      modifies this
      ensures Valid()
      ensures m == null ==> Contents() == old(Contents())
      ensures m != null ==> m.Valid() && Contents() == PropertyList.MergeDefaults(old(Contents()), m.Contents())
    {
      MergeWith(m, true);
    }

    lemma KeysOfContents()
      requires Valid()
      ensures properties.Keys == keys.Keys == KeySet(Contents()) && |keys| == |Contents()|
      ensures forall k :: k in Keys(Contents()) <==> k in keys
      ensures forall k :: k in properties ==> properties[k].key == k
    {
      EntriesCount(Contents());
      assert KeySet(Contents()) == keys.Keys;
      assert |keys| == |keys.Keys|;
    }

    /** Equal to an object that binds the same keys to the same values; never to none. */
    method Equal(t: Properties?) returns (equal: bool)
      requires Valid() && (t != null ==> t.Valid())
      ensures equal <==> t != null && EqualEntries(Contents(), t.Contents())
    {
      if t == null {
        return false;
      }
      hide Agrees, Lookup, Listed, KeySet, NoDuplicates, EqualEntries;
      KeysOfContents();
      t.KeysOfContents();
      EqualOfMaps(Contents(), t.Contents(), properties, t.properties);
      if |keys| != |t.keys| {
        return false;
      }
      equal := CoversAll(properties, t.properties, t.keys.Keys);
    }

    /** The keys on which the two objects disagree, with both properties; empty against none. */
    method Diff(m: Properties?) returns (diff: map<string, (Property, Property)>)
      requires Valid() && (m != null ==> m.Valid())
      ensures diff == if m == null then map[] else DiffEntries(Contents(), m.Contents())
    {
      if m == null {
        return map[];
      }
      hide Agrees, Lookup, Listed, KeySet, NoDuplicates, DiffEntries;
      KeysOfContents();
      m.KeysOfContents();
      diff := DiffMaps(properties, m.properties, keys.Keys + m.keys.Keys);
      DiffOfMaps(Contents(), m.Contents(), properties, m.properties, diff);
    }

    /** Renumbers the keys in alphabetical order. */
    method Sort()
      requires Valid()
      modifies this
      ensures Valid() && Contents() == SortEntries(old(Contents()))
    {
      hide Agrees, Lookup, Listed, SortEntries, SortKeys, NoDuplicates;
      ghost var before := Contents();
      KeysOfContents();
      var list := CollectKeys();
      var sorted := SortStrings(list);
      SortKeysSpec(list);
      AscendingHaveNoDuplicates(sorted);
      keys, nextKeyIndex := Renumber(keys, sorted);
      order := sorted;
      RenumberedAgrees(properties, keys, nextKeyIndex, sorted);
      SortedContents(before, Contents(), list);
    }

    /** The text form. */
    method String() returns (text: string)
      requires Valid()
      ensures text == Print(Contents())
    {
      var ks := OrderedKeys();
      text := PrintAll(properties, ks);
    }

    method Set(key: string, value: string)
      requires Valid()
      modifies this
      ensures Valid() && Contents() == PropertyList.Put(old(Contents()), Property(key, value, ""))
    {
      Put(Property(key, value, ""));
    }

    /** The keys in whatever order the map is walked. */
    method CollectKeys() returns (list: seq<string>)
      ensures NoDuplicates(list) && forall k :: k in list <==> k in keys
    {
      hide NoDuplicates;
      list := [];
      assert NoDuplicates(list) by { NoDuplicatesEmpty(); }
      var todo := keys.Keys;
      while todo != {}
        invariant todo <= keys.Keys && NoDuplicates(list)
        invariant forall k :: k in list <==> k in keys && k !in todo
        decreases todo
      {
        var k :| k in todo;
        NoDuplicatesAppend(list, k);
        list := list + [k];
        todo := todo - {k};
      }
    }

    lemma DifferentKeys(a: string, b: string)
      requires Valid() && a in keys && b in keys && a != b
      ensures keys[a].index != keys[b].index
    {
      var i :| 0 <= i < |order| && order[i] == a;
      var j :| 0 <= j < |order| && order[j] == b;
    }

    /** Two arrangements of the keys by ascending index are the same. */
    lemma SameOrder(list: seq<KeyIndex>, r: seq<string>)
      requires Valid() && SortedByIndex(list) && |r| == |list|
      requires forall j :: 0 <= j < |r| ==> r[j] == list[j].key
      requires forall x :: x in list ==> x.key in keys && x == keys[x.key]
      requires forall k :: k in keys ==> keys[k] in list
      ensures r == order
    {
      hide Rising, SortedByIndex;
      ListRises(list, r, keys);
      forall k ensures k in r <==> k in order {
        if k in r {
          var i :| 0 <= i < |r| && r[i] == k;
          assert list[i] in list;
        }
        if k in order {
          assert keys[k] in list;
          var i :| 0 <= i < |list| && list[i] == keys[k];
          assert r[i] == k;
        }
      }
      RisingIsUnique(r, order, keys);
    }
  }

  lemma ListRises(list: seq<KeyIndex>, r: seq<string>, keys: map<string, KeyIndex>)
    requires SortedByIndex(list) && |r| == |list|
    requires forall j :: 0 <= j < |r| ==> r[j] == list[j].key
    requires forall x :: x in list ==> x.key in keys && x == keys[x.key]
    ensures Rising(r, keys)
  {
    forall j | 0 <= j < |r| ensures r[j] in keys && keys[r[j]] == list[j] {
      assert list[j] in list;
    }
  }

  ghost predicate Rising(ks: seq<string>, keys: map<string, KeyIndex>) {
    (forall k :: k in ks ==> k in keys) &&
    forall i, j :: 0 <= i < j < |ks| ==> keys[ks[i]].index < keys[ks[j]].index
  }

  lemma RisingCons(k: string, ks: seq<string>, keys: map<string, KeyIndex>)
    ensures Rising([k] + ks, keys) <==>
            k in keys && Rising(ks, keys) && forall x :: x in ks ==> x in keys && keys[k].index < keys[x].index
  {
    var all := [k] + ks;
    assert forall x :: x in all <==> x == k || x in ks;
    assert forall i :: 0 <= i < |ks| ==> all[i + 1] == ks[i];
    assert forall i :: 0 < i < |all| ==> all[i] == ks[i - 1];
    if Rising(all, keys) {
      forall i, j | 0 <= i < j < |ks| ensures keys[ks[i]].index < keys[ks[j]].index {
        assert keys[all[i + 1]].index < keys[all[j + 1]].index;
      }
      forall x | x in ks ensures keys[k].index < keys[x].index {
        var j :| 0 <= j < |ks| && ks[j] == x;
        assert all[0] == k && all[j + 1] == x;
      }
    }
  }

  lemma {:induction false} WithoutMembers(ks: seq<string>, key: string)
    ensures forall k :: k in Without(ks, {key}) ==> k in ks
  {
    if ks != [] {
      WithoutMembers(ks[1..], key);
    }
  }

  lemma {:induction false} WithoutKeepsOrder(ks: seq<string>, key: string, keys: map<string, KeyIndex>)
    requires Rising(ks, keys)
    ensures Rising(Without(ks, {key}), keys)
  {
    hide Rising;
    if ks != [] {
      assert ks == [ks[0]] + ks[1..];
      RisingCons(ks[0], ks[1..], keys);
      WithoutKeepsOrder(ks[1..], key, keys);
      WithoutMembers(ks[1..], key);
      RisingCons(ks[0], Without(ks[1..], {key}), keys);
      if ks[0] == key {
        assert Without(ks, {key}) == Without(ks[1..], {key});
      }
    }
  }

  ghost predicate SortedByIndex(list: seq<KeyIndex>) {
    forall i, j :: 0 <= i < j < |list| ==> list[i].index < list[j].index
  }

  method InsertByIndex(list: seq<KeyIndex>, x: KeyIndex) returns (r: seq<KeyIndex>)
    requires SortedByIndex(list) && forall y :: y in list ==> y.index != x.index
    ensures SortedByIndex(r) && forall y :: y in r <==> y == x || y in list
  {
    var i := |list|;
    while i > 0 && x.index < list[i - 1].index
      invariant 0 <= i <= |list|
      invariant i < |list| ==> x.index < list[i].index
    {
      i := i - 1;
    }
    assert i > 0 ==> list[i - 1] in list;
    SplicedIsSorted(list, x, i);
    r := list[..i] + [x] + list[i..];
  }

  lemma SplicedIsSorted(list: seq<KeyIndex>, x: KeyIndex, n: nat)
    requires SortedByIndex(list) && n <= |list|
    requires n < |list| ==> x.index < list[n].index
    requires n > 0 ==> list[n - 1].index < x.index
    ensures SortedByIndex(list[..n] + [x] + list[n..])
    ensures forall y :: y in list[..n] + [x] + list[n..] <==> y == x || y in list
  {
    var r := list[..n] + [x] + list[n..];
    assert r[n] == x;
    assert forall k :: 0 <= k < n ==> r[k] == list[k] && list[k].index < x.index;
    assert forall k :: n < k < |r| ==> r[k] == list[k - 1] && x.index < list[k - 1].index;
    SplicedMembers(list, x, n);
  }

  lemma SplicedMembers(list: seq<KeyIndex>, x: KeyIndex, n: nat)
    requires n <= |list|
    ensures forall y :: y in list[..n] + [x] + list[n..] <==> y == x || y in list
  {
    assert list == list[..n] + list[n..];
  }

  lemma {:induction false} RisingIsUnique(a: seq<string>, b: seq<string>, keys: map<string, KeyIndex>)
    requires forall k :: k in a <==> k in b
    requires Rising(a, keys) && Rising(b, keys)
    ensures a == b
    decreases |a|
  {
    hide Rising;
    if a != [] && b != [] {
      assert a == [a[0]] + a[1..] && b == [b[0]] + b[1..];
      RisingCons(a[0], a[1..], keys);
      RisingCons(b[0], b[1..], keys);
      assert a[0] in b && b[0] in a;
      assert a[0] == b[0];
      assert forall k :: k in a <==> k == a[0] || k in a[1..];
      assert forall k :: k in b <==> k == b[0] || k in b[1..];
      RisingIsUnique(a[1..], b[1..], keys);
    } else {
      if a != [] { MemberOf(a); }
      if b != [] { MemberOf(b); }
    }
  }

  function Merged(defaultsOnly: bool, l: Entries, m: Entries): Entries {
    if defaultsOnly then PropertyList.MergeDefaults(l, m) else PropertyList.Merge(l, m)
  }

  function At(properties: map<string, Property>, k: string): Option<Property> {
    if k in properties then Some(properties[k]) else None
  }

  /** Every one of the keys is in p, with an equal property. */
  method CoversAll(p: map<string, Property>, t: map<string, Property>, ks: set<string>) returns (all: bool)
    requires ks == t.Keys
    ensures all <==> forall k :: k in t ==> k in p && p[k].Equals(t[k])
  {
    var todo := ks;
    while todo != {}
      invariant todo <= ks
      invariant forall k :: k in ks && k !in todo ==> k in p && p[k].Equals(t[k])
      decreases todo
    {
      var k :| k in todo;
      if k !in p || !p[k].Equals(t[k]) {
        return false;
      }
      todo := todo - {k};
    }
    return true;
  }

  lemma EqualOfMaps(l: Entries, m: Entries, p: map<string, Property>, t: map<string, Property>)
    requires forall k :: Lookup(l, k) == At(p, k)
    requires forall k :: Lookup(m, k) == At(t, k)
    ensures EqualEntries(l, m) <==> |l| == |m| && forall k :: k in t ==> k in p && p[k].Equals(t[k])
  {
    assert forall k :: k in Keys(m) <==> k in t by {
      forall k ensures k in Keys(m) <==> k in t {
        assert Lookup(m, k) == At(t, k);
      }
    }
  }

  method DiffMaps(p: map<string, Property>, m: map<string, Property>, ks: set<string>)
    returns (diff: map<string, (Property, Property)>)
    requires ks == p.Keys + m.Keys
    ensures forall k :: k in diff <==> k in ks && !Agree(At(p, k), At(m, k))
    ensures forall k :: k in diff ==> diff[k] == (OrEmpty(At(p, k)), OrEmpty(At(m, k)))
  {
    diff := map[];
    var todo := ks;
    while todo != {}
      invariant todo <= ks
      invariant forall k :: k in diff <==> k in ks && k !in todo && !Agree(At(p, k), At(m, k))
      invariant forall k :: k in diff ==> diff[k] == (OrEmpty(At(p, k)), OrEmpty(At(m, k)))
      decreases todo
    {
      var k :| k in todo;
      if k in p && k in m && p[k].Equals(m[k]) {
      } else if k in p && k !in m {
        diff := diff[k := (p[k], NO_PROPERTY)];
      } else if k !in p && k in m {
        diff := diff[k := (NO_PROPERTY, m[k])];
      } else {
        diff := diff[k := (p[k], m[k])];
      }
      todo := todo - {k};
    }
  }

  lemma DiffOfMaps(l: Entries, m: Entries, p: map<string, Property>, t: map<string, Property>,
                   diff: map<string, (Property, Property)>)
    requires forall k :: Lookup(l, k) == At(p, k)
    requires forall k :: Lookup(m, k) == At(t, k)
    requires KeySet(l) == p.Keys && KeySet(m) == t.Keys
    requires forall k :: k in diff <==> k in p.Keys + t.Keys && !Agree(At(p, k), At(t, k))
    requires forall k :: k in diff ==> diff[k] == (OrEmpty(At(p, k)), OrEmpty(At(t, k)))
    ensures diff == DiffEntries(l, m)
  {
    hide Lookup, KeySet, At, Agree, OrEmpty;
    var d := DiffEntries(l, m);
    forall k ensures k in d <==> k in diff {
      assert Lookup(l, k) == At(p, k) && Lookup(m, k) == At(t, k);
    }
    forall k | k in d ensures d[k] == diff[k] {
      assert Lookup(l, k) == At(p, k) && Lookup(m, k) == At(t, k);
    }
  }

  method Renumber(keys: map<string, KeyIndex>, sorted: seq<string>) returns (r: map<string, KeyIndex>, next: nat)
    requires NoDuplicates(sorted) && forall k :: k in sorted ==> k in keys
    ensures r.Keys == keys.Keys && next == |sorted|
    ensures forall j :: 0 <= j < |sorted| ==> r[sorted[j]] == KeyIndex(sorted[j], j)
  {
    r, next := keys, 0;
    for i := 0 to |sorted|
      invariant next == i && r.Keys == keys.Keys
      invariant forall j :: 0 <= j < i ==> sorted[j] in r && r[sorted[j]] == KeyIndex(sorted[j], j)
    {
      assert sorted[i] in sorted;
      r := r[sorted[i] := KeyIndex(sorted[i], next)];
      next := next + 1;
    }
  }

  method PrintAll(properties: map<string, Property>, ks: seq<string>) returns (text: string)
    requires forall k :: k in ks ==> k in properties
    ensures text == Print(Listed(properties, ks))
  {
    var l := Listed(properties, ks);
    text := "";
    assert l[0..] == l;
    PrintNothing();
    hide Escape, Print, PrintProperty;
    for i := 0 to |ks|
      invariant text + Print(l[i..]) == Print(l)
    {
      assert ks[i] in ks;
      PrintStep(l, i);
      var line := PrintOne(properties[ks[i]]);
      ConcatAssociative(text, line, Print(l[i + 1..]));
      text := text + line;
    }
    assert l[|ks|..] == [];
    assert text + "" == text;
  }

  method PrintOne(p: Property) returns (line: string)
    ensures line == PrintProperty(p) + "\n"
  {
    line := "";
    if p.IsValid() {
      var escaped := EscapeSeparators(p.key);
      line := escaped + "=" + p.value;
    }
    line := line + "\n";
  }

  lemma ConcatAssociative(a: string, b: string, c: string)
    ensures (a + b) + c == a + (b + c)
  {
  }

  lemma PrintNothing()
    ensures Print([]) == ""
  {
  }

  lemma PrintStep(l: Entries, i: nat)
    requires i < |l|
    ensures Print(l[i..]) == (PrintProperty(l[i]) + "\n") + Print(l[i + 1..])
  {
    assert l[i..][0] == l[i] && l[i..][1..] == l[i + 1..];
  }

  lemma RenumberedAgrees(properties: map<string, Property>, keys: map<string, KeyIndex>, next: nat, sorted: seq<string>)
    requires properties.Keys == keys.Keys && NoDuplicates(sorted) && next == |sorted|
    requires forall k :: k in sorted <==> k in keys
    requires forall j :: 0 <= j < |sorted| ==> keys[sorted[j]] == KeyIndex(sorted[j], j)
    requires forall k :: k in properties ==> properties[k].key == k
    ensures Agrees(properties, keys, next, sorted)
  {
    forall k | k in keys ensures keys[k].key == k && keys[k].index < next {
      var j :| 0 <= j < |sorted| && sorted[j] == k;
    }
  }

  lemma SortedContents(before: Entries, after: Entries, list: seq<string>)
    requires Distinct(before) && NoDuplicates(list) && forall k :: k in list <==> k in Keys(before)
    requires Distinct(after) && Keys(after) == SortKeys(list) && forall k :: Lookup(after, k) == Lookup(before, k)
    ensures after == SortEntries(before)
  {
    hide Lookup, SortEntries, NoDuplicates;
    SortSpec(before);
    SortKeysSpec(list);
    assert forall k :: k in Keys(SortEntries(before)) <==> k in Keys(before) by {
      forall k ensures k in Keys(SortEntries(before)) <==> k in Keys(before) {
        assert Lookup(SortEntries(before), k) == Lookup(before, k);
      }
    }
    AscendingIsUnique(Keys(after), Keys(SortEntries(before)));
    SameKeysAndLookups(after, SortEntries(before));
  }

  method InsertString(s: seq<string>, k: string) returns (r: seq<string>)
    ensures r == InsertKey(s, k)
  {
    var i := |s|;
    assert s[..i] == s;
    while i > 0 && Less(k, s[i - 1])
      invariant 0 <= i <= |s|
      invariant InsertKey(s, k) == InsertKey(s[..i], k) + s[i..]
    {
      assert s[..i][..i - 1] == s[..i - 1];
      assert s[i - 1..] == [s[i - 1]] + s[i..];
      i := i - 1;
    }
    r := s[..i] + [k] + s[i..];
  }

  method SortStrings(s: seq<string>) returns (r: seq<string>)
    ensures r == SortKeys(s)
  {
    r := [];
    for i := 0 to |s|
      invariant r == SortKeys(s[..i])
    {
      assert s[..i + 1][..i] == s[..i];
      r := InsertString(r, s[i]);
    }
    assert s[..|s|] == s;
  }

  // ---------------------------------------------------------------------------
  // Loading

  /** A line that holds a complete property. */
  method NewPropertyFromString(prop: string, comment: string) returns (p: Option<Property>)
    ensures p == ParseProperty(prop, comment)
  {
    var idx := GetSeparator(prop);
    if idx.None? || idx.value == 0 {
      return None;
    }
    var key := UnescapeSeparators(Trim(prop[..idx.value]));
    var value := Trim(prop[idx.value + 1..]);
    return Some(Property(key, value, comment));
  }

  /** Parses lines; null stands for the error. */
  method ParseLines(lines: seq<string>) returns (r: Properties?)
    ensures r == null <==> ReadLines(START, lines).None?
    ensures r != null ==> fresh(r) && r.Valid() && Some(r.Contents()) == ReadLines(START, lines)
  {
    var properties := new Properties();
    var property, comment := "", "";
    assert lines[0..] == lines;
    for i := 0 to |lines|
      invariant fresh(properties) && properties.Valid()
      invariant ReadLines(Progress(property, comment, properties.Contents()), lines[i..]) == ReadLines(START, lines)
    {
      assert lines[i..][0] == lines[i] && lines[i..][1..] == lines[i + 1..];
      var line := Trim(lines[i]);
      if line == "" {
        property, comment := "", "";
      } else if IsComment(line) {
        comment := comment + line + "\n";
      } else if IsContinued(line) {
        property := property + line[..|line| - 1];
      } else {
        property := property + line;
        var p := NewPropertyFromString(property, comment);
        if p.None? {
          return null;
        }
        property, comment := "", "";
        properties.Put(p.value);
      }
    }
    r := properties;
  }

  /** Parses a text. */
  method NewFromString(text: string) returns (r: Properties?)
    ensures r == null <==> Parse(text).None?
    ensures r != null ==> fresh(r) && r.Valid() && Some(r.Contents()) == Parse(text)
  {
    r := ParseLines(Lines(text));
  }
}
