/** The log directories of a broker are never dropped from its configuration. */
module LogDirs {
  import opened Wrappers
  import opened Text
  import opened Escaping
  import opened PropertyList
  import opened PropertyOrder
  import opened PropertyText
  import opened BrokerConfig

  /** A path that can stand in log.dirs and be read back. */
  predicate IsCleanPath(p: string) {
    p != "" && ',' !in p && IsPrintableValue(p)
  }

  /** A mount path from which such a path is made. */
  predicate IsCleanMount(m: string) {
    ',' !in m && '\n' !in m && (m == "" || !IsSpace(m[0]))
  }

  ghost predicate AllClean(paths: seq<string>) {
    forall p :: p in paths ==> IsCleanPath(p)
  }

  /** What the source and its users are relied on for: distinct printable entries and clean paths. */
  ghost predicate IsCleanInput(input: Input) {
    && Distinct(input.readOnly) && Distinct(input.generated)
    && AllPrintable(input.readOnly) && AllPrintable(input.generated)
    && IsPrintableValue(input.superUsers)
    && (forall m :: m in input.mounts ==> IsCleanMount(m))
    && AllClean(SplitDirs(Lookup(Merge(input.readOnly, input.generated), LOG_DIRS)))
    && AreCleanUsers(SuperUsers(OperatorUsers(input)), SuperUsers(Lookup(input.readOnly, SUPER_USERS)))
  }

  /** What the operator itself sets for super.users. */
  function OperatorUsers(input: Input): Option<Property> {
    if input.superUsers == "" then Lookup(input.generated, SUPER_USERS)
    else Some(Property(SUPER_USERS, input.superUsers, ""))
  }

  /** When both sides have users, all of them together can be printed and read back. */
  ghost predicate AreCleanUsers(target: seq<string>, source: seq<string>) {
    target != [] && source != [] ==>
      forall users :: IsUserUnion(users, target, source) ==> IsPrintableValue(Join(users, ';'))
  }

  lemma CleanUsersPrint(source: Option<Property>, target: Option<Property>)
    requires AreCleanUsers(SuperUsers(target), SuperUsers(source))
    ensures IsPrintableValue(MergedSuperUsers(source, target))
  {
    AddUsersSpec(SuperUsers(target), SuperUsers(source));
  }

  // ---------------------------------------------------------------------------
  // Clean paths

  lemma MountMakesCleanPath(m: string)
    requires IsCleanMount(m)
    ensures IsCleanPath(m + KAFKA_DIR)
  {
    var p := m + KAFKA_DIR;
    assert p[|p| - 1] == 'a';
    assert p[0] == if m == "" then '/' else m[0];
  }

  lemma StorageConfigIsClean(mounts: seq<string>)
    requires forall m :: m in mounts ==> IsCleanMount(m)
    ensures AllClean(StorageConfig(mounts))
  {
    forall p | p in StorageConfig(mounts) ensures IsCleanPath(p) {
      var i :| 0 <= i < |mounts| && StorageConfig(mounts)[i] == p;
      MountMakesCleanPath(mounts[i]);
    }
  }

  lemma {:induction false} JoinOfClean(paths: seq<string>)
    requires paths != [] && AllClean(paths)
    ensures Join(paths, ',') != "" && IsPrintableValue(Join(paths, ','))
  {
    assert IsCleanPath(paths[0]);
    if |paths| > 1 {
      JoinOfClean(paths[1..]);
      var rest := Join(paths[1..], ',');
      var s := Join(paths, ',');
      assert s == paths[0] + [','] + rest;
      assert s[|s| - 1] == rest[|rest| - 1];
    }
  }

  // ---------------------------------------------------------------------------
  // One generation

  lemma PutKeepsPrintable(l: Entries, p: Property)
    requires AllPrintable(l) && IsPrintable(p)
    ensures AllPrintable(Put(l, p))
  {
    if l != [] {
      assert l == [l[0]] + l[1..];
      PutKeepsPrintable(l[1..], p);
    }
  }

  lemma PrintableByLookup(l: Entries)
    requires Distinct(l)
    requires forall k :: Lookup(l, k).Some? ==> IsPrintable(Lookup(l, k).value)
    ensures AllPrintable(l)
  {
    forall p | p in l ensures IsPrintable(p) {
      var i :| 0 <= i < |l| && l[i] == p;
      LookupAt(l, i);
      assert Lookup(l, p.key).Some?;
    }
  }

  lemma CombinedSpec(readOnly: Entries, generated: Entries)
    requires Distinct(readOnly) && Distinct(generated)
    requires AllPrintable(readOnly) && AllPrintable(generated)
    requires IsPrintableValue(MergedSuperUsers(Lookup(readOnly, SUPER_USERS), Lookup(generated, SUPER_USERS)))
    ensures Distinct(Combined(readOnly, generated)) && AllPrintable(Combined(readOnly, generated))
    ensures forall k :: Lookup(Combined(readOnly, generated), k) ==
                        if k in {MIGRATION_QUORUM, MIGRATION_KRAFT} then None
                        else if Lookup(WithMergedUsers(readOnly, generated), k).Some? then
                          Lookup(WithMergedUsers(readOnly, generated), k)
                        else Lookup(readOnly, k)
    ensures forall k :: k != SUPER_USERS ==> Lookup(WithMergedUsers(readOnly, generated), k) == Lookup(generated, k)
    ensures Lookup(Combined(readOnly, generated), LOG_DIRS) ==
      if Lookup(generated, LOG_DIRS).Some? then Lookup(generated, LOG_DIRS) else Lookup(readOnly, LOG_DIRS)
  {
    hide WithMergedUsers, MergedSuperUsers, IsPrintable, Lookup, Merge, Delete, Put, NoDuplicates, AllPrintable;
    var g := WithMergedUsers(readOnly, generated);
    MergedUsersSpec(readOnly, generated);
    var m := Merge(readOnly, g);
    MergeSpec(readOnly, g);
    MergePrintable(readOnly, g);
    DeleteKeeps(m, MIGRATION_QUORUM);
    DeleteKeeps(Delete(m, MIGRATION_QUORUM), MIGRATION_KRAFT);
    assert |LOG_DIRS| == 8 && |SUPER_USERS| == 11 && |MIGRATION_QUORUM| == 46 && |MIGRATION_KRAFT| == 26;
  }

  lemma MergedUsersSpec(readOnly: Entries, generated: Entries)
    requires Distinct(generated) && AllPrintable(generated)
    requires IsPrintableValue(MergedSuperUsers(Lookup(readOnly, SUPER_USERS), Lookup(generated, SUPER_USERS)))
    ensures
      var g := WithMergedUsers(readOnly, generated);
      var users := MergedSuperUsers(Lookup(readOnly, SUPER_USERS), Lookup(generated, SUPER_USERS));
      && Distinct(g) && AllPrintable(g) && (forall k :: k != SUPER_USERS ==> Lookup(g, k) == Lookup(generated, k))
      && Lookup(g, SUPER_USERS) ==
         if users != "" then Some(Property(SUPER_USERS, users, "")) else Lookup(generated, SUPER_USERS)
  {
    var users := MergedSuperUsers(Lookup(readOnly, SUPER_USERS), Lookup(generated, SUPER_USERS));
    var p := Property(SUPER_USERS, users, "");
    assert IsPrintableKey(SUPER_USERS);
    assert IsPrintable(p);
    hide MergedSuperUsers, IsPrintable, Lookup, Put, NoDuplicates, AllPrintable;
    if users != "" {
      PutSpec(generated, p);
      PutKeepsPrintable(generated, p);
    }
  }

  lemma MergePrintable(l: Entries, m: Entries)
    requires Distinct(l) && Distinct(m) && AllPrintable(l) && AllPrintable(m)
    ensures AllPrintable(Merge(l, m))
  {
    MergeSpec(l, m);
    PrintableByLookup(Merge(l, m));
  }

  lemma DeleteKeeps(l: Entries, key: string)
    requires Distinct(l) && AllPrintable(l)
    ensures Distinct(Delete(l, key)) && AllPrintable(Delete(l, key))
    ensures forall k :: Lookup(Delete(l, key), k) == if k == key then None else Lookup(l, k)
  {
    DeleteSpec(l, key);
    PrintableByLookup(Delete(l, key));
  }

  lemma GeneratedSpec(text: string, input: Input)
    requires IsCleanInput(input) && AllClean(Paths(text, input))
    ensures Distinct(Generated(text, input)) && AllPrintable(Generated(text, input))
    ensures
      var paths := Paths(text, input);
      Lookup(Generated(text, input), LOG_DIRS) ==
        if paths != [] then Some(Property(LOG_DIRS, Join(paths, ','), "")) else Lookup(input.generated, LOG_DIRS)
    ensures Lookup(Generated(text, input), SUPER_USERS) == OperatorUsers(input)
  {
    hide Generated, Lookup, NoDuplicates, AllPrintable, Paths, Join, MaybePut, AllClean, IsCleanInput;
    var paths := Paths(text, input);
    var p, q := Property(LOG_DIRS, Join(paths, ','), ""), Property(SUPER_USERS, input.superUsers, "");
    GeneratedParts(text, input);
    MaybePutSpec(input.generated, paths != [], p);
    MaybePutSpec(MaybePut(input.generated, paths != [], p), input.superUsers != "", q);
    GeneratedIsPuts(text, input);
  }

  lemma GeneratedParts(text: string, input: Input)
    requires IsCleanInput(input) && AllClean(Paths(text, input))
    ensures Distinct(input.generated) && AllPrintable(input.generated)
    ensures Paths(text, input) != [] ==> IsPrintable(Property(LOG_DIRS, Join(Paths(text, input), ','), ""))
    ensures IsPrintable(Property(SUPER_USERS, input.superUsers, ""))
  {
    hide Paths, Merge, MergedSuperUsers, Join;
    if Paths(text, input) != [] {
      JoinOfClean(Paths(text, input));
    }
    assert IsPrintableKey(SUPER_USERS) && IsPrintableKey(LOG_DIRS);
  }

  function MaybePut(l: Entries, puts: bool, p: Property): Entries {
    if puts then Put(l, p) else l
  }

  lemma MaybePutSpec(l: Entries, puts: bool, p: Property)
    requires Distinct(l) && AllPrintable(l) && (puts ==> IsPrintable(p))
    ensures Distinct(MaybePut(l, puts, p)) && AllPrintable(MaybePut(l, puts, p))
    ensures forall k :: Lookup(MaybePut(l, puts, p), k) == if puts && k == p.key then Some(p) else Lookup(l, k)
  {
    PutSpec(l, p);
    if puts {
      PutKeepsPrintable(l, p);
    }
  }

  lemma GeneratedIsPuts(text: string, input: Input)
    ensures
      var paths := Paths(text, input);
      Generated(text, input) ==
        MaybePut(MaybePut(input.generated, paths != [], Property(LOG_DIRS, Join(paths, ','), "")),
                 input.superUsers != "", Property(SUPER_USERS, input.superUsers, ""))
    ensures LOG_DIRS != SUPER_USERS
  {
    hide Put, Paths, Join;
    assert |LOG_DIRS| != |SUPER_USERS|;
  }

  /** Reading log.dirs back from the printed configuration. */
  lemma MountPathsOfPrinted(l: Entries)
    requires Distinct(l) && AllPrintable(l)
    ensures MountPathsOf(Print(SortEntries(l))) == SplitDirs(Lookup(l, LOG_DIRS))
  {
    SortSpec(l);
    SortedIsPrintable(l);
    var s := SortEntries(l);
    PrintParseRoundTrip(s);
    EqualMeansAgreement(UncommentedAll(s), s);
    assert Agree(Lookup(UncommentedAll(s), LOG_DIRS), Lookup(s, LOG_DIRS));
  }

  /** The next text holds the old paths and those of the storage, and they are clean. */
  lemma NextTextKeepsPaths(text: string, input: Input)
    requires IsCleanInput(input) && AllClean(MountPathsOf(text))
    ensures AllClean(MountPathsOf(NextText(text, input)))
    ensures forall p :: p in MountPathsOf(text) ==> p in MountPathsOf(NextText(text, input))
    ensures forall m :: m in input.mounts ==> m + KAFKA_DIR in MountPathsOf(NextText(text, input))
  {
    hide *;
    PathsAreClean(text, input);
    NextDirs(text, input);
    if Paths(text, input) == [] {
      assert MountPathsOf(text) == [] by { NoPaths(text, input); }
    }
    MountsAreStored(input.mounts);
  }

  lemma NoPaths(text: string, input: Input)
    requires forall p :: p in MountPathsOf(text) ==> p in Paths(text, input)
    requires Paths(text, input) == []
    ensures MountPathsOf(text) == []
  {
    hide Paths;
    if MountPathsOf(text) != [] {
      MemberOf(MountPathsOf(text));
    }
  }

  lemma MountsAreStored(mounts: seq<string>)
    ensures forall m :: m in mounts ==> m + KAFKA_DIR in StorageConfig(mounts)
  {
    forall m | m in mounts ensures m + KAFKA_DIR in StorageConfig(mounts) {
      var i :| 0 <= i < |mounts| && mounts[i] == m;
      assert StorageConfig(mounts)[i] in StorageConfig(mounts);
    }
  }

  lemma CleanParts(text: string, input: Input)
    requires IsCleanInput(input) && AllClean(Paths(text, input))
    ensures Distinct(input.readOnly) && Distinct(input.generated) && AllPrintable(input.readOnly)
    ensures AllClean(SplitDirs(Lookup(Merge(input.readOnly, input.generated), LOG_DIRS)))
    ensures IsPrintableValue(MergedSuperUsers(Lookup(input.readOnly, SUPER_USERS),
                                              Lookup(Generated(text, input), SUPER_USERS)))
  {
    hide Generated, Merge, NoDuplicates, AllPrintable, MergedSuperUsers, Paths, Lookup, AllClean, IsPrintableValue,
         AreCleanUsers, SuperUsers;
    GeneratedSpec(text, input);
    CleanUsersPrint(Lookup(input.readOnly, SUPER_USERS), Lookup(Generated(text, input), SUPER_USERS));
  }

  /** log.dirs of the next text: the merged paths, or what the configuration itself says when there are none. */
  lemma NextDirs(text: string, input: Input)
    requires IsCleanInput(input) && AllClean(Paths(text, input))
    ensures Paths(text, input) != [] ==> MountPathsOf(NextText(text, input)) == Paths(text, input)
    ensures AllClean(MountPathsOf(NextText(text, input)))
  {
    hide Generated, Combined, Merge, MountPathsOf, SortEntries, Print, NoDuplicates, AllPrintable, MergedSuperUsers,
         Paths, IsCleanInput, Lookup, Join, Split, AllClean, IsPrintableValue;
    var paths := Paths(text, input);
    GeneratedSpec(text, input);
    CleanParts(text, input);
    CombinedSpec(input.readOnly, Generated(text, input));
    MountPathsOfPrinted(Configuration(text, input));
    MergeSpec(input.readOnly, input.generated);
    if paths != [] {
      JoinOfClean(paths);
      CleanHaveNoComma(paths);
      SplitOfJoin(paths, ',');
    }
  }

  lemma CleanHaveNoComma(paths: seq<string>)
    requires AllClean(paths)
    ensures forall p :: p in paths ==> ',' !in p
  {
  }

  lemma PathsAreClean(text: string, input: Input)
    requires IsCleanInput(input) && AllClean(MountPathsOf(text))
    ensures AllClean(Paths(text, input))
    ensures forall p :: p in MountPathsOf(text) ==> p in Paths(text, input)
    ensures forall p :: p in StorageConfig(input.mounts) ==> p in Paths(text, input)
  {
    MissingFromSpec(MountPathsOf(text), StorageConfig(input.mounts));
    StorageConfigIsClean(input.mounts);
  }

  // ---------------------------------------------------------------------------
  // Any number of generations

  ghost function Texts(text: string, inputs: seq<Input>): string
    decreases |inputs|
  {
    if inputs == [] then text else Texts(NextText(text, inputs[0]), inputs[1..])
  }

  /**
   Over any sequence of changes to the cluster the log directories only grow, and
   every directory that was ever asked for stays.
   */
  lemma {:induction false} LogDirsNeverShrink(text: string, inputs: seq<Input>)
    requires AllClean(MountPathsOf(text))
    requires forall x :: x in inputs ==> IsCleanInput(x)
    ensures AllClean(MountPathsOf(Texts(text, inputs)))
    ensures forall p :: p in MountPathsOf(text) ==> p in MountPathsOf(Texts(text, inputs))
    ensures forall x, m :: x in inputs && m in x.mounts ==> m + KAFKA_DIR in MountPathsOf(Texts(text, inputs))
    decreases |inputs|
  {
    hide MountPathsOf, NextText, IsCleanInput, AllClean;
    if inputs != [] {
      assert inputs == [inputs[0]] + inputs[1..];
      NextTextKeepsPaths(text, inputs[0]);
      LogDirsNeverShrink(NextText(text, inputs[0]), inputs[1..]);
    }
  }
}
