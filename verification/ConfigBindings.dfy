/** What the generated configuration text binds, read back from the text. */
module ConfigBindings {
  import opened Wrappers
  import opened Text
  import opened PropertyList
  import opened PropertyOrder
  import opened PropertyText
  import opened Selections
  import opened BrokerConfig
  import opened LogDirs

  function ValueAt(l: Entries, key: string): Option<string> {
    var p := Lookup(l, key);
    if p.None? then None else Some(p.value.value)
  }

  predicate HasUsers(value: Option<string>) {
    value.Some? && value.value != ""
  }

  /** The operator's own value for super.users. */
  function OwnUsers(input: Input): Option<string> {
    if input.superUsers != "" then Some(input.superUsers) else ValueAt(input.generated, "super.users")
  }

  /** The value of super.users holds the users of both sides, those of the operator first. */
  ghost predicate HoldsUsers(value: Option<string>, own: Option<string>, custom: Option<string>) {
    if HasUsers(own) && HasUsers(custom) then
      value.Some? && IsUserUnion(Split(value.value, ';'), Split(own.value, ';'), Split(custom.value, ';'))
    else value == if own.Some? then own else custom
  }

  /** The operator's entries win over the read-only ones. */
  ghost predicate HoldsEntries(config: Entries, generated: Entries, readOnly: Entries) {
    forall k :: k !in {"log.dirs", "super.users", MIGRATION_QUORUM, MIGRATION_KRAFT} ==>
      ValueAt(config, k) == if ValueAt(generated, k).Some? then ValueAt(generated, k) else ValueAt(readOnly, k)
  }

  /** The paths of the storage in their order, then the old paths that are not among them in theirs. */
  ghost predicate HoldsPaths(value: Option<string>, mounts: seq<string>, before: seq<string>) {
    var paths := seq(|mounts|, i requires 0 <= i < |mounts| => mounts[i] + "/kafka");
    mounts != [] || before != [] ==>
      && value.Some?
      && Split(value.value, ',') == paths + Filter(before, (p: string) => p !in paths)
  }

  /** log.dirs of the generated text. */
  lemma NextTextPaths(text: string, input: Input)
    requires IsCleanInput(input) && AllClean(MountPathsOf(text))
    ensures Parse(NextText(text, input)).Some?
    ensures HoldsPaths(ValueAt(Parse(NextText(text, input)).value, "log.dirs"), input.mounts, MountPathsOf(text))
  {
    hide IsCleanInput, AllClean, NextText, Parse, Lookup;
    PathsAreClean(text, input);
    ReadBack(text, input);
    NextDirs(text, input);
    var paths := seq(|input.mounts|, i requires 0 <= i < |input.mounts| => input.mounts[i] + "/kafka");
    assert StorageConfig(input.mounts) == paths;
    MissingIsFilter(MountPathsOf(text), paths, (p: string) => p !in paths);
    hide MountPathsOf;
    if input.mounts != [] {
      assert paths[0] in Paths(text, input);
    } else if MountPathsOf(text) != [] {
      assert MountPathsOf(text)[0] in MountPathsOf(text);
    }
  }

  /**
   The generated text reads back: no user of either side is missing from
   super.users, the operator's come first, every other entry of the operator and
   every read-only entry that the operator does not set keeps its value, and the
   two flags of a migration are gone.
   */
  lemma NextTextBindings(text: string, input: Input)
    requires IsCleanInput(input) && AllClean(MountPathsOf(text))
    ensures Parse(NextText(text, input)).Some?
    ensures
      var config := Parse(NextText(text, input)).value;
      && HoldsEntries(config, input.generated, input.readOnly)
      && HoldsUsers(ValueAt(config, "super.users"), OwnUsers(input), ValueAt(input.readOnly, "super.users"))
      && ValueAt(config, "migration.broker.controllerQuorumConfigEnabled").None?
      && ValueAt(config, "migration.broker.kRaftMode").None?
  {
    hide *;
    PathsAreClean(text, input);
    ReadBack(text, input);
    CleanParts(text, input);
    GeneratedOthers(text, input);
    GeneratedSpec(text, input);
    CombinedSpec(input.readOnly, Generated(text, input));
    MergedUsersSpec(input.readOnly, Generated(text, input));
    BindingsOfCombined(Parse(NextText(text, input)).value, input, Generated(text, input));
  }

  /** Parsing the text gives the values of the configuration. */
  lemma ReadBack(text: string, input: Input)
    requires IsCleanInput(input) && AllClean(Paths(text, input))
    ensures Parse(NextText(text, input)).Some?
    ensures forall k ::
      ValueAt(Parse(NextText(text, input)).value, k) == ValueAt(Combined(input.readOnly, Generated(text, input)), k)
  {
    hide Generated, Combined, SortEntries, Print, NoDuplicates, AllPrintable, MergedSuperUsers, Paths, IsCleanInput,
         Lookup, AllClean, IsPrintableValue, Parse, UncommentedAll;
    GeneratedSpec(text, input);
    CleanParts(text, input);
    CombinedSpec(input.readOnly, Generated(text, input));
    var l := Configuration(text, input);
    var s := SortEntries(l);
    SortSpec(l);
    SortedIsPrintable(l);
    PrintParseRoundTrip(s);
    UncommentedIsDistinct(s);
    EqualMeansAgreement(UncommentedAll(s), s);
    forall k ensures ValueAt(UncommentedAll(s), k) == ValueAt(l, k) {
      assert Agree(Lookup(UncommentedAll(s), k), Lookup(s, k));
    }
  }

  lemma UncommentedIsDistinct(l: Entries)
    requires Distinct(l)
    ensures Distinct(UncommentedAll(l))
  {
    assert Keys(UncommentedAll(l)) == Keys(l);
  }

  /** Apart from log.dirs and super.users the operator's entries are those it started with. */
  lemma GeneratedOthers(text: string, input: Input)
    requires IsCleanInput(input) && AllClean(Paths(text, input))
    ensures forall k :: k !in {LOG_DIRS, SUPER_USERS} ==>
      Lookup(Generated(text, input), k) == Lookup(input.generated, k)
  {
    hide *;
    var paths := Paths(text, input);
    var p, q := Property(LOG_DIRS, Join(paths, ','), ""), Property(SUPER_USERS, input.superUsers, "");
    GeneratedParts(text, input);
    MaybePutSpec(input.generated, paths != [], p);
    MaybePutSpec(MaybePut(input.generated, paths != [], p), input.superUsers != "", q);
    GeneratedIsPuts(text, input);
  }

  lemma BindingsOfCombined(config: Entries, input: Input, generated: Entries)
    requires forall k :: ValueAt(config, k) == ValueAt(Combined(input.readOnly, generated), k)
    requires forall k :: k !in {LOG_DIRS, SUPER_USERS} ==> Lookup(generated, k) == Lookup(input.generated, k)
    requires Lookup(generated, SUPER_USERS) == OperatorUsers(input)
    requires forall k :: Lookup(Combined(input.readOnly, generated), k) ==
                         if k in {MIGRATION_QUORUM, MIGRATION_KRAFT} then None
                         else if Lookup(WithMergedUsers(input.readOnly, generated), k).Some? then
                           Lookup(WithMergedUsers(input.readOnly, generated), k)
                         else Lookup(input.readOnly, k)
    requires
      var g := WithMergedUsers(input.readOnly, generated);
      var users := MergedSuperUsers(Lookup(input.readOnly, SUPER_USERS), Lookup(generated, SUPER_USERS));
      && (forall k :: k != SUPER_USERS ==> Lookup(g, k) == Lookup(generated, k))
      && Lookup(g, SUPER_USERS) ==
         if users != "" then Some(Property(SUPER_USERS, users, "")) else Lookup(generated, SUPER_USERS)
    ensures HoldsEntries(config, input.generated, input.readOnly)
    ensures HoldsUsers(ValueAt(config, "super.users"), OwnUsers(input), ValueAt(input.readOnly, "super.users"))
    ensures ValueAt(config, "migration.broker.controllerQuorumConfigEnabled").None?
    ensures ValueAt(config, "migration.broker.kRaftMode").None?
  {
    hide Combined, WithMergedUsers, Lookup, MergedSuperUsers, HoldsUsers;
    assert |SUPER_USERS| == 11 && |MIGRATION_QUORUM| == 46 && |MIGRATION_KRAFT| == 26;
    UsersAreMerged(Lookup(input.readOnly, SUPER_USERS), Lookup(generated, SUPER_USERS));
  }

  /** What the merged value is, given the two sides. */
  lemma UsersAreMerged(custom: Option<Property>, own: Option<Property>)
    requires own.Some? ==> own.value.key == SUPER_USERS
    requires custom.Some? ==> custom.value.key == SUPER_USERS
    ensures
      var users := MergedSuperUsers(custom, own);
      var value := if users != "" then Some(users) else if own.Some? then Some(own.value.value)
                   else if custom.Some? then Some(custom.value.value) else None;
      HoldsUsers(value, if own.Some? then Some(own.value.value) else None,
                 if custom.Some? then Some(custom.value.value) else None)
  {
    var first, second := SuperUsers(own), SuperUsers(custom);
    hide Split, AddUsers, IsUserUnion;
    if first != [] && second != [] {
      var users := AddUsers(first, second);
      AddUsersSpec(first, second);
      JoinOfSplit(own.value.value, ';');
      JoinOfSplit(custom.value.value, ';');
      UnionParts(users, first, second);
      SplitOfJoin(users, ';');
      assert |users| > 1 ==> Join(users, ';') != "";
    }
  }

  lemma UnionParts(users: seq<string>, first: seq<string>, second: seq<string>)
    requires IsUserUnion(users, first, second)
    requires forall u :: u in first || u in second ==> ';' !in u
    ensures |first| <= |users| && (|users| == |first| ==> users == first)
    ensures forall u :: u in users ==> ';' !in u
  {
  }
}
