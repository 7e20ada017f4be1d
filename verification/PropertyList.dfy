/**
 The ordered association list that a Properties object stands for, its operations
 and their laws.
 */
module PropertyList {
  import opened Wrappers
  import opened Selections

  datatype Property = Property(key: string, value: string, comment: string) {
    /** Comments are not compared. */
    predicate Equals(t: Property) {
      key == t.key && value == t.value
    }

    predicate IsValid() {
      key != ""
    }

    predicate IsEmpty() {
      key == "" || value == ""
    }
  }

  type Entries = seq<Property>

  function Keys(l: Entries): (r: seq<string>)
    ensures |r| == |l| && forall i :: 0 <= i < |l| ==> r[i] == l[i].key
  {
    seq(|l|, i requires 0 <= i < |l| => l[i].key)
  }

  ghost predicate NoDuplicates<T(!new)>(s: seq<T>) {
    forall i, j :: 0 <= i < j < |s| ==> s[i] != s[j]
  }

  ghost predicate Distinct(l: Entries) {
    NoDuplicates(Keys(l))
  }

  function Lookup(l: Entries, key: string): (r: Option<Property>)
    ensures r.Some? ==> r.value in l && r.value.key == key
    ensures r.Some? <==> key in Keys(l)
  {
    if l == [] then None
    else
      assert Keys(l) == [l[0].key] + Keys(l[1..]);
      if l[0].key == key then Some(l[0]) else Lookup(l[1..], key)
  }

  /** Replaces the entry of the same key in its place, or appends. */
  function Put(l: Entries, p: Property): Entries {
    if l == [] then [p]
    else if l[0].key == p.key then [p] + l[1..]
    else [l[0]] + Put(l[1..], p)
  }

  function Delete(l: Entries, key: string): Entries {
    if l == [] then []
    else (if l[0].key == key then [] else [l[0]]) + Delete(l[1..], key)
  }

  function Merge(l: Entries, m: Entries): Entries
    decreases |m|
  {
    if m == [] then l else Merge(Put(l, m[0]), m[1..])
  }

  /** Only keys that l lacks, or has without a value, are taken from m. */
  function MergeDefaults(l: Entries, m: Entries): Entries
    decreases |m|
  {
    if m == [] then l
    else
      var mine := Lookup(l, m[0].key);
      MergeDefaults(if mine.Some? && !mine.value.IsEmpty() then l else Put(l, m[0]), m[1..])
  }

  /** The keys of ks that are not in seen, in order. */
  function Without(ks: seq<string>, seen: set<string>): seq<string> {
    if ks == [] then []
    else (if ks[0] in seen then [] else [ks[0]]) + Without(ks[1..], seen)
  }

  lemma {:induction false} WithoutIsFilter(ks: seq<string>, seen: set<string>, keep: string -> bool)
    requires forall k :: keep(k) <==> k !in seen
    ensures Without(ks, seen) == Filter(ks, keep)
  {
    if ks != [] {
      WithoutIsFilter(ks[1..], seen, keep);
      assert ks == [ks[0]] + ks[1..];
      FilterFirst(ks[0], ks[1..], keep);
    }
  }

  function KeySet(l: Entries): set<string> {
    set k | k in Keys(l)
  }

  // ---------------------------------------------------------------------------
  // Lookup determines a list with given keys

  lemma {:induction false} LookupAt(l: Entries, i: nat)
    requires Distinct(l) && i < |l|
    ensures Lookup(l, l[i].key) == Some(l[i])
  {
    if i > 0 {
      assert Keys(l)[0] != Keys(l)[i];
      assert Keys(l[1..]) == Keys(l)[1..];
      LookupAt(l[1..], i - 1);
    }
  }

  lemma SameKeysAndLookups(l: Entries, m: Entries)
    requires Distinct(l) && Distinct(m) && Keys(l) == Keys(m)
    requires forall k :: Lookup(l, k) == Lookup(m, k)
    ensures l == m
  {
    forall i | 0 <= i < |l| ensures l[i] == m[i] {
      LookupAt(l, i);
      LookupAt(m, i);
      assert Keys(l)[i] == Keys(m)[i];
    }
  }

  /** A nonempty distinct list, taken apart. */
  lemma Uncons(l: Entries)
    requires l != []
    ensures Keys(l) == [l[0].key] + Keys(l[1..])
    ensures Distinct(l) <==> l[0].key !in Keys(l[1..]) && Distinct(l[1..])
    ensures forall k :: Lookup(l, k) == if k == l[0].key then Some(l[0]) else Lookup(l[1..], k)
  {
    var ks, rest := Keys(l), Keys(l[1..]);
    assert ks == [l[0].key] + rest;
    if l[0].key !in rest && NoDuplicates(rest) {
      forall i, j | 0 <= i < j < |ks| ensures ks[i] != ks[j] {
        assert ks[j] == rest[j - 1];
        if i > 0 {
          assert ks[i] == rest[i - 1];
        }
      }
    }
    if NoDuplicates(ks) {
      forall i, j | 0 <= i < j < |rest| ensures rest[i] != rest[j] {
        assert rest[i] == ks[i + 1] && rest[j] == ks[j + 1];
      }
    }
  }

  lemma Cons(p: Property, l: Entries)
    ensures Keys([p] + l) == [p.key] + Keys(l)
    ensures Distinct([p] + l) <==> p.key !in Keys(l) && Distinct(l)
    ensures forall k :: Lookup([p] + l, k) == if k == p.key then Some(p) else Lookup(l, k)
  {
    assert ([p] + l)[1..] == l;
    Uncons([p] + l);
  }

  // ---------------------------------------------------------------------------
  // Put and Delete

  lemma {:induction false} PutSpec(l: Entries, p: Property)
    requires Distinct(l)
    ensures Keys(Put(l, p)) == if p.key in Keys(l) then Keys(l) else Keys(l) + [p.key]
    ensures Distinct(Put(l, p))
    ensures forall k :: Lookup(Put(l, p), k) == if k == p.key then Some(p) else Lookup(l, k)
  {
    hide Lookup, Keys, NoDuplicates;
    if l == [] {
      assert [p] == [p] + [];
      Cons(p, []);
      assert Keys([]) == [];
    } else {
      Uncons(l);
      if l[0].key == p.key {
        Cons(p, l[1..]);
      } else {
        PutSpec(l[1..], p);
        Cons(l[0], Put(l[1..], p));
      }
    }
  }

  lemma {:induction false} WithoutSpec(ks: seq<string>, seen: set<string>)
    requires NoDuplicates(ks)
    ensures forall k :: k in Without(ks, seen) <==> k in ks && k !in seen
    ensures NoDuplicates(Without(ks, seen))
  {
    if ks != [] {
      WithoutSpec(ks[1..], seen);
      assert ks == [ks[0]] + ks[1..];
      assert ks[0] !in ks[1..];
    }
  }

  lemma {:induction false} DeleteSpec(l: Entries, key: string)
    requires Distinct(l)
    ensures Keys(Delete(l, key)) == Without(Keys(l), {key})
    ensures Distinct(Delete(l, key))
    ensures forall k :: k in Keys(Delete(l, key)) <==> k in Keys(l) && k != key
    ensures forall k :: Lookup(Delete(l, key), k) == if k == key then None else Lookup(l, k)
  {
    hide Lookup, Keys, NoDuplicates;
    if l == [] {
      assert Keys(l) == [];
    } else {
      Uncons(l);
      DeleteSpec(l[1..], key);
      assert Keys(l)[1..] == Keys(l[1..]);
      if l[0].key == key {
        assert Delete(l, key) == Delete(l[1..], key);
      } else {
        Cons(l[0], Delete(l[1..], key));
      }
    }
  }

  // ---------------------------------------------------------------------------
  // Merge

  lemma {:induction false} WithoutMore(ks: seq<string>, seen: set<string>, k: string)
    requires k !in ks
    ensures Without(ks, seen + {k}) == Without(ks, seen)
  {
    if ks != [] {
      WithoutMore(ks[1..], seen, k);
    }
  }

  /** The keys after one more entry has been put, and then others. */
  lemma PutThenOthers(l: Entries, p: Property, rest: seq<string>)
    requires Distinct(l) && p.key !in rest
    ensures Keys(Put(l, p)) + Without(rest, KeySet(Put(l, p))) == Keys(l) + Without([p.key] + rest, KeySet(l))
  {
    hide *;
    PutSpec(l, p);
    PutKeySet(l, p);
    var ks, ks', seen, seen' := Keys(l), Keys(Put(l, p)), KeySet(l), KeySet(Put(l, p));
    if p.key in ks {
      KeptKey(l, p.key, rest);
      assert ks' == ks && seen' == seen;
    } else {
      WithoutMore(rest, seen, p.key);
      NewKey(rest, seen, p.key);
      assert ks' == ks + [p.key] && seen' == seen + {p.key};
      assert ks + [p.key] + Without(rest, seen) == ks + ([p.key] + Without(rest, seen));
    }
  }

  lemma PutKeySet(l: Entries, p: Property)
    requires Distinct(l)
    ensures p.key in KeySet(l) <==> p.key in Keys(l)
    ensures KeySet(Put(l, p)) == if p.key in Keys(l) then KeySet(l) else KeySet(l) + {p.key}
  {
    PutSpec(l, p);
    hide Put, Lookup, NoDuplicates, Keys;
  }

  lemma NewKey(rest: seq<string>, seen: set<string>, key: string)
    requires key !in seen
    ensures Without([key] + rest, seen) == [key] + Without(rest, seen)
  {
    assert ([key] + rest)[1..] == rest;
  }

  /** Merging keeps l's order, appends m's new keys in m's order, and takes m's entries. */
  lemma {:induction false} MergeSpec(l: Entries, m: Entries)
    requires Distinct(l) && Distinct(m)
    ensures Keys(Merge(l, m)) == Keys(l) + Without(Keys(m), KeySet(l))
    ensures Distinct(Merge(l, m))
    ensures forall k :: Lookup(Merge(l, m), k) == if Lookup(m, k).Some? then Lookup(m, k) else Lookup(l, k)
    decreases |m|
  {
    hide Lookup, Keys, NoDuplicates, KeySet, Put;
    if m == [] {
      assert Keys(m) == [];
    } else {
      Uncons(m);
      PutSpec(l, m[0]);
      MergeSpec(Put(l, m[0]), m[1..]);
      PutThenOthers(l, m[0], Keys(m[1..]));
    }
  }

  lemma {:induction false} WithoutTwice(ks: seq<string>, a: set<string>, b: set<string>)
    ensures Without(Without(ks, a), b) == Without(ks, a + b)
  {
    if ks != [] {
      WithoutTwice(ks[1..], a, b);
      if ks[0] !in a {
        assert Without(ks, a) == [ks[0]] + Without(ks[1..], a);
        assert Without(ks, a)[1..] == Without(ks[1..], a);
      } else {
        assert Without(ks, a) == Without(ks[1..], a);
      }
    }
  }

  lemma {:induction false} WithoutAppend(ks: seq<string>, more: seq<string>, a: set<string>)
    ensures Without(ks + more, a) == Without(ks, a) + Without(more, a)
  {
    if ks == [] {
      assert ks + more == more;
    } else {
      assert (ks + more)[1..] == ks[1..] + more;
      WithoutAppend(ks[1..], more, a);
    }
  }

  lemma MergedKeySet(l: Entries, m: Entries)
    requires Distinct(l) && Distinct(m)
    ensures KeySet(Merge(l, m)) == KeySet(l) + KeySet(m)
  {
    MergeSpec(l, m);
    WithoutSpec(Keys(m), KeySet(l));
  }

  /** Merging is associative. */
  lemma MergeAssociative(a: Entries, b: Entries, c: Entries)
    requires Distinct(a) && Distinct(b) && Distinct(c)
    ensures Merge(Merge(a, b), c) == Merge(a, Merge(b, c))
  {
    hide Merge, Lookup, Keys, NoDuplicates, KeySet, Without;
    MergeSpec(a, b);
    MergeSpec(Merge(a, b), c);
    MergeSpec(b, c);
    MergeSpec(a, Merge(b, c));
    var ka, kb, kc := KeySet(a), Keys(b), Keys(c);
    WithoutAppend(kb, Without(kc, KeySet(b)), ka);
    WithoutTwice(kc, KeySet(b), ka);
    MergedKeySet(a, b);
    assert ka + KeySet(b) == KeySet(b) + ka;
    SameKeysAndLookups(Merge(Merge(a, b), c), Merge(a, Merge(b, c)));
  }

  /** What a key is bound to after default merging. */
  function Defaulted(mine: Option<Property>, other: Option<Property>): Option<Property> {
    if mine.Some? && !mine.value.IsEmpty() then mine
    else if other.Some? then other
    else mine
  }

  /** Default merging keeps l's order and every value l has; m fills what is missing or empty. */
  lemma {:induction false} MergeDefaultsSpec(l: Entries, m: Entries)
    requires Distinct(l) && Distinct(m)
    ensures Keys(MergeDefaults(l, m)) == Keys(l) + Without(Keys(m), KeySet(l))
    ensures Distinct(MergeDefaults(l, m))
    ensures forall k :: Lookup(MergeDefaults(l, m), k) == Defaulted(Lookup(l, k), Lookup(m, k))
    decreases |m|
  {
    hide Lookup, Keys, NoDuplicates, KeySet, Put;
    if m == [] {
      assert Keys(m) == [];
    } else {
      Uncons(m);
      var p, rest := m[0], m[1..];
      PutSpec(l, p);
      var mine := Lookup(l, p.key);
      if mine.Some? && !mine.value.IsEmpty() {
        MergeDefaultsSpec(l, rest);
        KeptKey(l, p.key, Keys(rest));
      } else {
        MergeDefaultsSpec(Put(l, p), rest);
        PutThenOthers(l, p, Keys(rest));
      }
    }
  }

  lemma KeptKey(l: Entries, key: string, rest: seq<string>)
    requires key in Keys(l)
    ensures Without([key] + rest, KeySet(l)) == Without(rest, KeySet(l))
  {
    assert ([key] + rest)[1..] == rest;
  }
}
