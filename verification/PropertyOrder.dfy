/** Comparison, difference and alphabetical order of property lists. */
module PropertyOrder {
  import opened Wrappers
  import opened PropertyList

  // ---------------------------------------------------------------------------
  // Equality and difference

  /** Equal: as many keys, and every key of m is in l with an equal property. */
  predicate EqualEntries(l: Entries, m: Entries) {
    |l| == |m| &&
    forall k :: k in Keys(m) ==> Lookup(l, k).Some? && Lookup(l, k).value.Equals(Lookup(m, k).value)
  }

  const NO_PROPERTY := Property("", "", "")

  function OrEmpty(p: Option<Property>): Property {
    if p.Some? then p.value else NO_PROPERTY
  }

  predicate Agree(p: Option<Property>, q: Option<Property>) {
    if p.Some? && q.Some? then p.value.Equals(q.value) else p.None? && q.None?
  }

  /** l and m bind the same keys to the same values. */
  ghost predicate SameBindings(l: Entries, m: Entries) {
    forall k :: Agree(Lookup(l, k), Lookup(m, k))
  }

  /** Diff: the keys on which l and m do not agree, each with both properties. */
  function DiffEntries(l: Entries, m: Entries): map<string, (Property, Property)> {
    map k | k in KeySet(l) + KeySet(m) && !Agree(Lookup(l, k), Lookup(m, k)) ::
      (OrEmpty(Lookup(l, k)), OrEmpty(Lookup(m, k)))
  }

  lemma {:induction false} KeySetSize(ks: seq<string>)
    requires NoDuplicates(ks)
    ensures |set k | k in ks| == |ks|
  {
    if ks != [] {
      var init, last := ks[..|ks| - 1], ks[|ks| - 1];
      KeySetSize(init);
      assert (set k | k in ks) == (set k | k in init) + {last};
    }
  }

  lemma SubsetOfSameSize<T>(a: set<T>, b: set<T>)
    requires a <= b && |a| == |b|
    ensures a == b
  {
    assert b == a + (b - a);
    assert |b - a| == |b| - |a|;
  }

  lemma EntriesCount(l: Entries)
    requires Distinct(l)
    ensures |KeySet(l)| == |l|
    ensures forall k :: k in KeySet(l) <==> Lookup(l, k).Some?
  {
    KeySetSize(Keys(l));
    assert KeySet(l) == set k | k in Keys(l);
  }

  /** Equal means that the two bind the same keys to the same values. */
  lemma EqualMeansAgreement(l: Entries, m: Entries)
    requires Distinct(l) && Distinct(m)
    ensures EqualEntries(l, m) <==> SameBindings(l, m)
  {
    hide *;
    if EqualEntries(l, m) {
      EqualAgrees(l, m);
    }
    if SameBindings(l, m) {
      AgreementIsEqual(l, m);
    }
  }

  lemma EqualAgrees(l: Entries, m: Entries)
    requires Distinct(l) && Distinct(m) && EqualEntries(l, m)
    ensures SameBindings(l, m)
  {
    EntriesCount(l);
    EntriesCount(m);
    hide Distinct, KeySet;
    forall k | k in KeySet(m) ensures k in KeySet(l) {
      assert k in Keys(m);
    }
    SubsetOfSameSize(KeySet(m), KeySet(l));
    forall k ensures Agree(Lookup(l, k), Lookup(m, k)) {
      assert k in Keys(m) <==> k in KeySet(l);
    }
  }

  lemma AgreementIsEqual(l: Entries, m: Entries)
    requires Distinct(l) && Distinct(m) && SameBindings(l, m)
    ensures EqualEntries(l, m)
  {
    EntriesCount(l);
    EntriesCount(m);
    hide Distinct, KeySet;
    forall k ensures k in KeySet(l) <==> k in KeySet(m) {
      assert Agree(Lookup(l, k), Lookup(m, k));
    }
    assert KeySet(l) == KeySet(m);
    forall k | k in Keys(m) ensures Lookup(l, k).Some? && Lookup(l, k).value.Equals(Lookup(m, k).value) {
      assert Agree(Lookup(l, k), Lookup(m, k));
    }
  }

  /** A key is in the difference exactly when the two disagree on it, with the property of each side. */
  lemma InDiff(l: Entries, m: Entries, k: string)
    requires Distinct(l) && Distinct(m)
    ensures k in DiffEntries(l, m) <==> !Agree(Lookup(l, k), Lookup(m, k))
    ensures k in DiffEntries(l, m) ==>
      && (Lookup(l, k).Some? ==> DiffEntries(l, m)[k].0 == Lookup(l, k).value)
      && (Lookup(m, k).Some? ==> DiffEntries(l, m)[k].1 == Lookup(m, k).value)
      && (Lookup(l, k).None? ==> DiffEntries(l, m)[k].0 == Property("", "", ""))
      && (Lookup(m, k).None? ==> DiffEntries(l, m)[k].1 == Property("", "", ""))
  {
    EntriesCount(l);
    EntriesCount(m);
    hide KeySet, Distinct, Lookup;
  }

  /** Equal holds exactly when Diff is empty. */
  lemma EqualIffNoDiff(l: Entries, m: Entries)
    requires Distinct(l) && Distinct(m)
    ensures EqualEntries(l, m) <==> DiffEntries(l, m) == map[]
  {
    EqualMeansAgreement(l, m);
    hide EqualEntries, DiffEntries, Lookup, Agree, NoDuplicates;
    if DiffEntries(l, m) == map[] {
      forall k ensures Agree(Lookup(l, k), Lookup(m, k)) {
        InDiff(l, m, k);
      }
    } else {
      var k :| k in DiffEntries(l, m);
      InDiff(l, m, k);
    }
  }

  // ---------------------------------------------------------------------------
  // Alphabetical order

  predicate Less(a: string, b: string) {
    b != "" && (a == "" || a[0] < b[0] || (a[0] == b[0] && Less(a[1..], b[1..])))
  }

  /** Where a and b first differ, a has the smaller character. */
  ghost predicate IsSmallerWhereTheyDiffer(a: string, b: string) {
    exists i :: 0 <= i < |a| && i < |b| && a[..i] == b[..i] && a[i] < b[i]
  }

  lemma DifferLater(a: string, b: string)
    requires a != "" && b != "" && a[0] == b[0]
    ensures IsSmallerWhereTheyDiffer(a, b) <==> IsSmallerWhereTheyDiffer(a[1..], b[1..])
    ensures a <= b && a != b <==> a[1..] <= b[1..] && a[1..] != b[1..]
  {
    var x, y := a[1..], b[1..];
    assert a == [a[0]] + x && b == [b[0]] + y;
    if i :| 0 <= i < |x| && i < |y| && x[..i] == y[..i] && x[i] < y[i] {
      assert a[..i + 1] == [a[0]] + x[..i] && b[..i + 1] == [b[0]] + y[..i];
      assert a[i + 1] < b[i + 1];
    }
    if i :| 0 <= i < |a| && i < |b| && a[..i] == b[..i] && a[i] < b[i] {
      assert i > 0 && x[..i - 1] == a[..i][1..] && y[..i - 1] == b[..i][1..];
      assert x[i - 1] < y[i - 1];
    }
  }

  lemma DifferAtOnce(a: string, b: string)
    requires a != "" && b != "" && a[0] != b[0]
    ensures IsSmallerWhereTheyDiffer(a, b) <==> a[0] < b[0]
    ensures !(a <= b)
  {
    assert a[..0] == b[..0];
    forall i | 0 < i < |a| && i < |b| ensures a[..i] != b[..i] {
      assert a[..i][0] == a[0] && b[..i][0] == b[0];
    }
  }

  /** a comes before b: it ends where b goes on, or has the smaller character where they first differ. */
  lemma {:induction false} LessIsLexicographic(a: string, b: string)
    ensures Less(a, b) <==> (a <= b && a != b) || IsSmallerWhereTheyDiffer(a, b)
  {
    if a != "" && b != "" {
      hide IsSmallerWhereTheyDiffer;
      if a[0] == b[0] {
        DifferLater(a, b);
        LessIsLexicographic(a[1..], b[1..]);
      } else {
        DifferAtOnce(a, b);
      }
    }
  }

  lemma {:induction false} LessIsStrict(a: string, b: string)
    ensures !(Less(a, b) && Less(b, a))
    ensures Less(a, b) || a == b || Less(b, a)
    decreases |a| + |b|
  {
    if a != "" {
      if b != "" && a[0] == b[0] {
        LessIsStrict(a[1..], b[1..]);
        if a[1..] == b[1..] {
          assert a == [a[0]] + a[1..] && b == [b[0]] + b[1..];
        }
      }
    }
  }

  lemma {:induction false} LessIsTransitive(a: string, b: string, c: string)
    requires Less(a, b) && Less(b, c)
    ensures Less(a, c)
    decreases |a|
  {
    if a != "" && a[0] == b[0] == c[0] {
      LessIsTransitive(a[1..], b[1..], c[1..]);
    }
  }

  ghost predicate Ascending(ks: seq<string>) {
    forall i, j :: 0 <= i < j < |ks| ==> Less(ks[i], ks[j])
  }

  lemma AscendingHaveNoDuplicates(ks: seq<string>)
    requires Ascending(ks)
    ensures NoDuplicates(ks)
  {
    forall i, j | 0 <= i < j < |ks| ensures ks[i] != ks[j] {
      LessIsStrict(ks[i], ks[j]);
    }
  }

  lemma MemberOf(a: seq<string>)
    requires a != []
    ensures exists k :: k in a
  {
    assert a[0] in a;
  }

  /** There is one ascending arrangement of a set of keys. */
  lemma {:induction false} AscendingIsUnique(a: seq<string>, b: seq<string>)
    requires Ascending(a) && Ascending(b)
    requires forall k :: k in a <==> k in b
    ensures a == b
    decreases |a|
  {
    if a != [] && b != [] {
      assert a[0] in b && b[0] in a;
      if a[0] != b[0] {
        LessIsStrict(a[0], b[0]);
        assert false;
      }
      AscendingHaveNoDuplicates(a);
      AscendingHaveNoDuplicates(b);
      forall k ensures k in a[1..] <==> k in b[1..] {
        assert a == [a[0]] + a[1..] && b == [b[0]] + b[1..];
        assert a[0] !in a[1..] && b[0] !in b[1..];
        assert k in a <==> k == a[0] || k in a[1..];
        assert k in b <==> k == b[0] || k in b[1..];
      }
      AscendingIsUnique(a[1..], b[1..]);
    } else {
      assert forall k :: k in a ==> k in b;
      assert forall k :: k in b ==> k in a;
      if a != [] { MemberOf(a); }
      if b != [] { MemberOf(b); }
    }
  }

  function InsertKey(s: seq<string>, k: string): seq<string> {
    if s == [] || !Less(k, s[|s| - 1]) then s + [k]
    else InsertKey(s[..|s| - 1], k) + [s[|s| - 1]]
  }

  function SortKeys(s: seq<string>): seq<string> {
    if s == [] then [] else InsertKey(SortKeys(s[..|s| - 1]), s[|s| - 1])
  }

  lemma {:induction false} InsertKeySpec(s: seq<string>, k: string)
    requires Ascending(s) && k !in s
    ensures Ascending(InsertKey(s, k))
    ensures forall x :: x in InsertKey(s, k) <==> x == k || x in s
  {
    if s != [] {
      var init, last := s[..|s| - 1], s[|s| - 1];
      assert s == init + [last];
      LessIsStrict(k, last);
      if Less(k, last) {
        InsertKeySpec(init, k);
        forall x | x in InsertKey(init, k) ensures Less(x, last) {
          if x in init {
            var i :| 0 <= i < |init| && init[i] == x;
            assert s[i] == x;
          }
        }
      } else {
        forall i | 0 <= i < |s| ensures Less(s[i], k) {
          if i < |s| - 1 {
            LessIsTransitive(s[i], last, k);
          }
        }
      }
    }
  }

  lemma {:induction false} SortKeysSpec(s: seq<string>)
    requires NoDuplicates(s)
    ensures Ascending(SortKeys(s))
    ensures forall x :: x in SortKeys(s) <==> x in s
  {
    if s != [] {
      var init, last := s[..|s| - 1], s[|s| - 1];
      assert s == init + [last];
      SortKeysSpec(init);
      InsertKeySpec(SortKeys(init), last);
    }
  }

  /** The entries of l for the given keys, in their order. */
  function Arrange(l: Entries, ks: seq<string>): Entries {
    if ks == [] then []
    else [OrEmpty(Lookup(l, ks[0]))] + Arrange(l, ks[1..])
  }

  /** Sort: the same entries, with ascending keys. */
  function SortEntries(l: Entries): Entries {
    Arrange(l, SortKeys(Keys(l)))
  }

  lemma {:induction false} ArrangeSpec(l: Entries, ks: seq<string>)
    requires NoDuplicates(ks) && forall k :: k in ks ==> k in Keys(l)
    ensures Keys(Arrange(l, ks)) == ks
    ensures forall k :: Lookup(Arrange(l, ks), k) == if k in ks then Lookup(l, k) else None
    ensures forall i :: 0 <= i < |ks| ==> Arrange(l, ks)[i] == OrEmpty(Lookup(l, ks[i]))
  {
    if ks != [] {
      assert ks == [ks[0]] + ks[1..];
      ArrangeSpec(l, ks[1..]);
      var p := OrEmpty(Lookup(l, ks[0]));
      assert ks[0] in Keys(l);
      assert p.key == ks[0];
      Cons(p, Arrange(l, ks[1..]));
    }
  }

  /** Sorting orders the keys and changes no binding. */
  lemma SortSpec(l: Entries)
    requires Distinct(l)
    ensures Ascending(Keys(SortEntries(l))) && Distinct(SortEntries(l))
    ensures forall k :: Lookup(SortEntries(l), k) == Lookup(l, k)
  {
    SortKeysSpec(Keys(l));
    AscendingHaveNoDuplicates(SortKeys(Keys(l)));
    ArrangeSpec(l, SortKeys(Keys(l)));
  }

  /** Equal lists become, once sorted, the same keys and values in the same order. */
  lemma SortIsCanonical(l: Entries, m: Entries)
    requires Distinct(l) && Distinct(m) && EqualEntries(l, m)
    ensures
      var s, t := SortEntries(l), SortEntries(m);
      |s| == |t| && forall i :: 0 <= i < |s| ==> s[i].Equals(t[i])
  {
    EqualMeansAgreement(l, m);
    SortSpec(l);
    SortSpec(m);
    var s, t := SortEntries(l), SortEntries(m);
    forall k ensures k in Keys(s) <==> k in Keys(t) {
      assert Agree(Lookup(l, k), Lookup(m, k));
      assert k in Keys(s) <==> Lookup(s, k).Some?;
      assert k in Keys(t) <==> Lookup(t, k).Some?;
    }
    AscendingIsUnique(Keys(s), Keys(t));
    forall i | 0 <= i < |s| ensures s[i].Equals(t[i]) {
      LookupAt(s, i);
      LookupAt(t, i);
      assert Keys(s)[i] == Keys(t)[i];
      assert Agree(Lookup(l, s[i].key), Lookup(m, s[i].key));
    }
  }
}
