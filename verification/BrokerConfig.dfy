/**
 The broker configuration text and its log.dirs entry
 (pkg/resources/kafka/configmap.go), on values and on Properties objects.
 */
module BrokerConfig {
  import opened Wrappers
  import opened Text
  import opened Selections
  import opened PropertyList
  import opened PropertyOrder
  import opened PropertyText
  import opened PropertiesObject

  const LOG_DIRS := "log.dirs"
  const SUPER_USERS := "super.users"
  const MIGRATION_QUORUM := "migration.broker.controllerQuorumConfigEnabled"
  const MIGRATION_KRAFT := "migration.broker.kRaftMode"
  const KAFKA_DIR := "/kafka"

  // ---------------------------------------------------------------------------
  // Mount paths

  function MissingFrom(oldPaths: seq<string>, newPaths: seq<string>): seq<string> {
    if oldPaths == [] then []
    else
      var last := oldPaths[|oldPaths| - 1];
      MissingFrom(oldPaths[..|oldPaths| - 1], newPaths) + if last in newPaths then [] else [last]
  }

  lemma {:induction false} MissingFromSpec(oldPaths: seq<string>, newPaths: seq<string>)
    ensures forall p :: p in MissingFrom(oldPaths, newPaths) <==> p in oldPaths && p !in newPaths
  {
    if oldPaths != [] {
      assert oldPaths == oldPaths[..|oldPaths| - 1] + [oldPaths[|oldPaths| - 1]];
      MissingFromSpec(oldPaths[..|oldPaths| - 1], newPaths);
    }
  }

  lemma {:induction false} MissingIsFilter(oldPaths: seq<string>, newPaths: seq<string>, keep: string -> bool)
    requires forall p :: keep(p) <==> p !in newPaths
    ensures MissingFrom(oldPaths, newPaths) == Filter(oldPaths, keep)
  {
    if oldPaths != [] {
      MissingIsFilter(oldPaths[..|oldPaths| - 1], newPaths, keep);
    }
  }

  /** The new paths, then every old path that is no longer among them; and whether there is one. */
  method MergeMountPaths(oldPaths: seq<string>, newPaths: seq<string>) returns (merged: seq<string>, removed: bool)
    ensures merged == newPaths + MissingFrom(oldPaths, newPaths)
    ensures forall p :: p in merged <==> p in oldPaths || p in newPaths
    ensures removed <==> exists p :: p in oldPaths && p !in newPaths
  {
    MissingFromSpec(oldPaths, newPaths);
    merged := newPaths;
    removed := false;
    for i := 0 to |oldPaths|
      invariant merged == newPaths + MissingFrom(oldPaths[..i], newPaths)
      invariant removed <==> exists p :: p in oldPaths[..i] && p !in newPaths
    {
      assert oldPaths[..i + 1][..i] == oldPaths[..i];
      assert oldPaths[..i + 1] == oldPaths[..i] + [oldPaths[i]];
      var found := false;
      for k := 0 to |newPaths|
        invariant found <==> oldPaths[i] in newPaths[..k]
      {
        assert newPaths[..k + 1] == newPaths[..k] + [newPaths[k]];
        if oldPaths[i] == newPaths[k] {
          found := true;
          break;
        }
      }
      assert newPaths[..|newPaths|] == newPaths;
      if !found {
        merged := merged + [oldPaths[i]];
        removed := true;
      }
    }
    assert oldPaths[..|oldPaths|] == oldPaths;
  }

  /** The value of log.dirs as a list of paths. */
  function SplitDirs(p: Option<Property>): seq<string> {
    if p.None? || p.value.value == "" then [] else Split(p.value.value, ',')
  }

  /** The mount paths in a configuration text; none when it does not parse. */
  function MountPathsOf(text: string): seq<string> {
    var config := Parse(text);
    if config.None? then [] else SplitDirs(Lookup(config.value, LOG_DIRS))
  }

  method GetMountPaths(text: string) returns (paths: seq<string>)
    ensures paths == MountPathsOf(text)
  {
    var config := NewFromString(text);
    if config == null {
      return [];
    }
    var dirs := config.Get(LOG_DIRS);
    if dirs.None? || dirs.value.value == "" {
      return [];
    }
    return Split(dirs.value.value, ',');
  }

  function StorageConfig(mounts: seq<string>): seq<string> {
    seq(|mounts|, i requires 0 <= i < |mounts| => mounts[i] + KAFKA_DIR)
  }

  method GenerateStorageConfig(mounts: seq<string>) returns (paths: seq<string>)
    ensures paths == StorageConfig(mounts)
  {
    paths := [];
    for i := 0 to |mounts|
      invariant paths == StorageConfig(mounts[..i])
    {
      paths := paths + [mounts[i] + KAFKA_DIR];
    }
  }

  // ---------------------------------------------------------------------------
  // Super users

  /** The target users, then each source user that is not yet among them. */
  function AddUsers(target: seq<string>, source: seq<string>): seq<string> {
    if source == [] then target
    else
      var last := source[|source| - 1];
      var users := AddUsers(target, source[..|source| - 1]);
      if last in users then users else users + [last]
  }

  /** In s, a occurs before any b does. */
  ghost predicate ComesFirst(s: seq<string>, a: string, b: string) {
    exists k :: 0 <= k < |s| && s[k] == a && b !in s[..k]
  }

  /** The users of `first`, then those of `second` that are new, each once and in the order of `second`. */
  ghost predicate IsUserUnion(users: seq<string>, first: seq<string>, second: seq<string>) {
    && first <= users && (forall u :: u in users <==> u in first || u in second)
    && var added := users[|first|..];
    && (forall u :: u in added ==> u !in first)
    && (forall i, j :: 0 <= i < j < |added| ==> added[i] != added[j] && ComesFirst(second, added[i], added[j]))
  }

  lemma {:induction false} AddUsersSpec(target: seq<string>, source: seq<string>)
    ensures IsUserUnion(AddUsers(target, source), target, source)
  {
    hide IsUserUnion;
    if source == [] {
      NoUsersAdded(target);
    } else {
      var front, last := source[..|source| - 1], source[|source| - 1];
      AddUsersSpec(target, front);
      assert source == front + [last];
      UnionGrows(AddUsers(target, front), target, front, last);
    }
  }

  lemma NoUsersAdded(target: seq<string>)
    ensures IsUserUnion(target, target, [])
  {
  }

  lemma ComesFirstLater(s: seq<string>, last: string, a: string, b: string)
    requires ComesFirst(s, a, b)
    ensures ComesFirst(s + [last], a, b)
  {
    var k :| 0 <= k < |s| && s[k] == a && b !in s[..k];
    assert (s + [last])[..k] == s[..k] && (s + [last])[k] == a;
  }

  lemma ComesFirstOfNew(s: seq<string>, last: string, a: string)
    requires a in s && last !in s
    ensures ComesFirst(s + [last], a, last)
  {
    var k :| 0 <= k < |s| && s[k] == a;
    assert (s + [last])[..k] == s[..k] && (s + [last])[k] == a;
  }

  /** One more user of the second list is new or is there already. */
  lemma UnionGrows(users: seq<string>, target: seq<string>, front: seq<string>, last: string)
    requires IsUserUnion(users, target, front)
    ensures IsUserUnion(if last in users then users else users + [last], target, front + [last])
  {
    hide ComesFirst;
    var added, source := users[|target|..], front + [last];
    forall i, j | 0 <= i < j < |added| ensures ComesFirst(source, added[i], added[j]) {
      ComesFirstLater(front, last, added[i], added[j]);
    }
    if last !in users {
      var more := (users + [last])[|target|..];
      assert more == added + [last];
      forall i | 0 <= i < |added| ensures added[i] != last && ComesFirst(source, added[i], last) {
        assert added[i] in added && added[i] in users;
        ComesFirstOfNew(front, last, added[i]);
      }
    }
  }

  function SuperUsers(p: Option<Property>): seq<string> {
    if p.None? || p.value.IsEmpty() then [] else Split(p.value.value, ';')
  }

  /** The merged value of super.users; "" when there is nothing to add. */
  function MergedSuperUsers(source: Option<Property>, target: Option<Property>): string {
    if SuperUsers(source) == [] || SuperUsers(target) == [] then ""
    else
      var users := AddUsers(SuperUsers(target), SuperUsers(source));
      if |users| > |SuperUsers(target)| then Join(users, ';') else ""
  }

  method MergeSuperUsers(source: Properties, target: Properties) returns (merged: string)
    requires source.Valid() && target.Valid()
    ensures merged == MergedSuperUsers(Lookup(source.Contents(), SUPER_USERS), Lookup(target.Contents(), SUPER_USERS))
  {
    var sourceVal := source.Get(SUPER_USERS);
    if sourceVal.None? || sourceVal.value.IsEmpty() {
      return "";
    }
    var targetVal := target.Get(SUPER_USERS);
    if targetVal.None? || targetVal.value.IsEmpty() {
      return "";
    }
    var users, inserted := AppendUsers(Split(targetVal.value.value, ';'), Split(sourceVal.value.value, ';'));
    if inserted {
      return Join(users, ';');
    }
    return "";
  }

  method AppendUsers(target: seq<string>, source: seq<string>) returns (users: seq<string>, inserted: bool)
    ensures users == AddUsers(target, source)
    ensures inserted <==> |users| > |target|
  {
    users := target;
    inserted := false;
    for i := 0 to |source|
      invariant users == AddUsers(target, source[..i])
      invariant inserted <==> |users| > |target|
      invariant |users| >= |target|
    {
      assert source[..i + 1][..i] == source[..i];
      var found := false;
      for k := 0 to |users|
        invariant found <==> source[i] in users[..k]
      {
        assert users[..k + 1] == users[..k] + [users[k]];
        if source[i] == users[k] {
          found := true;
          break;
        }
      }
      assert users[..|users|] == users;
      if !found {
        inserted := true;
        users := users + [source[i]];
      }
    }
    assert source[..|source|] == source;
  }

  // ---------------------------------------------------------------------------
  // The configuration text

  /** What one generation of a broker's configuration starts from. */
  datatype Input = Input(
    readOnly: Entries,    // the read-only configuration of the cluster and the broker
    generated: Entries,   // the operator's entries before log.dirs and super.users are set
    mounts: seq<string>,  // the mount paths of the broker's storage
    superUsers: string)   // the operator's super users, joined

  function Paths(text: string, input: Input): seq<string> {
    var newPaths := StorageConfig(input.mounts);
    newPaths + MissingFrom(MountPathsOf(text), newPaths)
  }

  /** The operator's entries, with log.dirs and super.users. */
  function Generated(text: string, input: Input): Entries {
    var paths := Paths(text, input);
    var l := if paths != [] then Put(input.generated, Property(LOG_DIRS, Join(paths, ','), "")) else input.generated;
    if input.superUsers != "" then Put(l, Property(SUPER_USERS, input.superUsers, "")) else l
  }

  function WithMergedUsers(readOnly: Entries, generated: Entries): Entries {
    var users := MergedSuperUsers(Lookup(readOnly, SUPER_USERS), Lookup(generated, SUPER_USERS));
    if users != "" then Put(generated, Property(SUPER_USERS, users, "")) else generated
  }

  /** All entries of the new configuration. */
  function Combined(readOnly: Entries, generated: Entries): Entries {
    Delete(Delete(Merge(readOnly, WithMergedUsers(readOnly, generated)), MIGRATION_QUORUM), MIGRATION_KRAFT)
  }

  function Configuration(text: string, input: Input): Entries {
    Combined(input.readOnly, Generated(text, input))
  }

  /** The configuration text that replaces the given one. */
  function NextText(text: string, input: Input): string {
    Print(SortEntries(Configuration(text, input)))
  }

  /** Sets log.dirs and super.users in the operator's entries. */
  method SetStorageAndUsers(config: Properties, text: string, input: Input)
    requires config.Valid() && config.Contents() == input.generated
    modifies config
    ensures config.Valid() && config.Contents() == Generated(text, input)
  {
    var oldPaths := GetMountPaths(text);
    var newPaths := GenerateStorageConfig(input.mounts);
    var merged, removed := MergeMountPaths(oldPaths, newPaths);
    if |merged| != 0 {
      config.Set(LOG_DIRS, Join(merged, ','));
    }
    if input.superUsers != "" {
      config.Set(SUPER_USERS, input.superUsers);
    }
  }

  /** Combines the two sets of entries and prints them in alphabetical order. */
  method GenerateBrokerConfig(readOnly: Properties, config: Properties, text: string, input: Input) returns (r: string)
    requires readOnly != config && readOnly.Valid() && config.Valid()
    requires readOnly.Contents() == input.readOnly && config.Contents() == input.generated
    modifies readOnly, config
    ensures r == NextText(text, input)
  {
    hide Generated, Put, Merge, Delete, SortEntries, Print, MergedSuperUsers;
    SetStorageAndUsers(config, text, input);
    var users := MergeSuperUsers(readOnly, config);
    if users != "" {
      config.Set(SUPER_USERS, users);
    }
    readOnly.Merge(config);
    readOnly.Delete(MIGRATION_QUORUM);
    readOnly.Delete(MIGRATION_KRAFT);
    readOnly.Sort();
    r := readOnly.String();
  }
}
