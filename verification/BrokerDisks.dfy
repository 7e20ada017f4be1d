/**
 The disks of a broker, computed twice: the list of storage configs the broker
 mounts, and the map of log dirs and sizes given to Cruise Control.
 */
module BrokerDisks {
  import opened Wrappers
  import opened ScaleParameters
  import BrokerConfig

  const MIN_LOG_DIR_SIZE_IN_MB := 1

  /** A storage config: its size in MB, and the rest of its claim. */
  datatype Disk = Disk(path: string, sizeInMB: int, claim: string)

  /** A broker's own storage configs, if it has a config, and the name of its group, or "". */
  datatype Broker = Broker(group: string, config: Option<seq<Disk>>)

  type Groups = map<string, seq<Disk>>

  function OwnDisks(b: Broker): seq<Disk> {
    if b.config.Some? then b.config.value else []
  }

  function GroupDisks(b: Broker, groups: Groups): seq<Disk> {
    if b.group != "" && b.group in groups then groups[b.group] else []
  }

  function Paths(disks: seq<Disk>): set<string> {
    set i | 0 <= i < |disks| :: disks[i].path
  }

  /** The first disk at a path. */
  function FirstAt(disks: seq<Disk>, path: string): Disk
    requires path in Paths(disks)
  {
    if disks[0].path == path then disks[0] else
      assert path in Paths(disks[1..]) by { InRest(disks, path); }
      FirstAt(disks[1..], path)
  }

  /** The last disk at a path. */
  function LastAt(disks: seq<Disk>, path: string): Disk
    requires path in Paths(disks)
  {
    if disks[|disks| - 1].path == path then disks[|disks| - 1] else
      assert path in Paths(disks[..|disks| - 1]) by { InFront(disks, path); }
      LastAt(disks[..|disks| - 1], path)
  }

  lemma InRest(disks: seq<Disk>, path: string)
    requires path in Paths(disks) && disks[0].path != path
    ensures path in Paths(disks[1..])
  {
    var i :| 0 <= i < |disks| && disks[i].path == path;
    assert disks[1..][i - 1].path == path;
  }

  lemma InFront(disks: seq<Disk>, path: string)
    requires path in Paths(disks) && disks[|disks| - 1].path != path
    ensures path in Paths(disks[..|disks| - 1])
  {
    var i :| 0 <= i < |disks| && disks[i].path == path;
    assert disks[..|disks| - 1][i].path == path;
  }

  lemma PathsAppend(a: seq<Disk>, b: seq<Disk>)
    ensures Paths(a + b) == Paths(a) + Paths(b)
  {
    assert forall i :: 0 <= i < |a| ==> (a + b)[i] == a[i];
    assert forall i :: 0 <= i < |b| ==> (a + b)[|a| + i] == b[i];
  }

  lemma {:induction false} FirstAtAppend(a: seq<Disk>, b: seq<Disk>, path: string)
    requires path in Paths(a) + Paths(b)
    ensures path in Paths(a + b)
    ensures FirstAt(a + b, path) == if path in Paths(a) then FirstAt(a, path) else FirstAt(b, path)
    decreases |a|
  {
    PathsAppend(a, b);
    if a == [] {
      assert a + b == b;
    } else {
      assert a == [a[0]] + a[1..] && (a + b)[1..] == a[1..] + b;
      PathsAppend([a[0]], a[1..]);
      if a[0].path == path {
        assert (a + b)[0] == a[0];
      } else {
        assert path in Paths(a[1..]) + Paths(b);
        FirstAtAppend(a[1..], b, path);
      }
    }
  }

  ghost predicate DistinctPaths(disks: seq<Disk>) {
    forall i, j :: 0 <= i < j < |disks| ==> disks[i].path != disks[j].path
  }

  // ---------------------------------------------------------------------------
  // The list the broker mounts

  /** Keeps the first disk of each path. */
  method DedupStorageConfigs(elements: seq<Disk>) returns (result: seq<Disk>)
    ensures DistinctPaths(result) && Paths(result) == Paths(elements)
    ensures forall p :: p in Paths(elements) ==> FirstAt(result, p) == FirstAt(elements, p)
  {
    var encountered: set<string> := {};
    result := [];
    for i := 0 to |elements|
      invariant encountered == Paths(elements[..i]) == Paths(result) && DistinctPaths(result)
      invariant forall p :: p in Paths(elements[..i]) ==> FirstAt(result, p) == FirstAt(elements[..i], p)
    {
      var v := elements[i];
      assert elements[..i + 1] == elements[..i] + [v];
      PathsAppend(elements[..i], [v]);
      PathsAppend(result, [v]);
      assert Paths([v]) == {v.path};
      forall p | p in Paths(elements[..i])
        ensures FirstAt(elements[..i + 1], p) == FirstAt(elements[..i], p) == FirstAt(result + [v], p)
      {
        FirstAtAppend(elements[..i], [v], p);
        FirstAtAppend(result, [v], p);
      }
      if v.path !in encountered {
        FirstAtAppend(elements[..i], [v], v.path);
        FirstAtAppend(result, [v], v.path);
        encountered := encountered + {v.path};
        result := result + [v];
      }
    }
    assert elements[..|elements|] == elements;
  }

  /** The storage part of a broker's config; None when its group is missing. */
  method GetBrokerConfig(b: Broker, groups: Groups) returns (r: Option<seq<Disk>>)
    ensures r.None? <==> b.group != "" && b.group !in groups
    ensures r.Some? ==> IsMounted(b, groups, r.value)
    ensures r.Some? && b.group != "" ==> DistinctPaths(r.value)
  {
    if b.group == "" {
      r := Some(OwnDisks(b));
      assert OwnDisks(b) + [] == OwnDisks(b);
      return;
    }
    if b.group !in groups {
      return None;
    }
    var all := OwnDisks(b) + groups[b.group];
    var disks := DedupStorageConfigs(all);
    return Some(disks);
  }

  /** A list with the broker's own disks and those of its group, where the first disk at a path counts. */
  ghost predicate IsMounted(b: Broker, groups: Groups, disks: seq<Disk>) {
    var all := OwnDisks(b) + GroupDisks(b, groups);
    Paths(disks) == Paths(all) && forall p :: p in Paths(all) ==> FirstAt(disks, p) == FirstAt(all, p)
  }

  // ---------------------------------------------------------------------------
  // The map given to Cruise Control

  /** m with the disks put in one after the other. */
  function Overridden(m: map<string, Disk>, disks: seq<Disk>): map<string, Disk> {
    if disks == [] then m else Overridden(m, disks[..|disks| - 1])[disks[|disks| - 1].path := disks[|disks| - 1]]
  }

  lemma {:induction false} OverriddenSpec(m: map<string, Disk>, disks: seq<Disk>)
    ensures Overridden(m, disks).Keys == m.Keys + Paths(disks)
    ensures forall p :: p in Paths(disks) ==> Overridden(m, disks)[p] == LastAt(disks, p)
    ensures forall p :: p in m && p !in Paths(disks) ==> Overridden(m, disks)[p] == m[p]
  {
    if disks != [] {
      var front, last := disks[..|disks| - 1], disks[|disks| - 1];
      assert disks == front + [last];
      PathsAppend(front, [last]);
      assert Paths([last]) == {last.path};
      OverriddenSpec(m, front);
    }
  }

  method PutAll(m: map<string, Disk>, disks: seq<Disk>) returns (r: map<string, Disk>)
    ensures r == Overridden(m, disks)
  {
    r := m;
    for i := 0 to |disks|
      invariant r == Overridden(m, disks[..i])
    {
      assert disks[..i + 1][..i] == disks[..i];
      r := r[disks[i].path := disks[i]];
    }
    assert disks[..|disks|] == disks;
  }

  function DiskMap(b: Broker, groups: Groups): map<string, Disk> {
    Overridden(Overridden(map[], GroupDisks(b, groups)), OwnDisks(b))
  }

  /** The log dirs and sizes of a broker's disks; None when some disk is too small. */
  method GenerateBrokerDisks(b: Broker, groups: Groups) returns (r: Option<map<string, string>>)
    ensures r.None? <==> exists p :: p in DiskMap(b, groups) && DiskMap(b, groups)[p].sizeInMB < MIN_LOG_DIR_SIZE_IN_MB
    ensures r.Some? ==> r.value.Keys == set p | p in DiskMap(b, groups) :: p + BrokerConfig.KAFKA_DIR
    ensures r.Some? ==> forall p :: p in DiskMap(b, groups) ==>
      DiskMap(b, groups)[p].sizeInMB >= 0 && r.value[p + BrokerConfig.KAFKA_DIR] == Itoa(DiskMap(b, groups)[p].sizeInMB)
  {
    var configs: map<string, Disk> := map[];
    if b.group != "" {
      if b.group in groups {
        configs := PutAll(configs, groups[b.group]);
      }
    }
    if b.config.Some? {
      configs := PutAll(configs, b.config.value);
    }
    assert configs == DiskMap(b, groups);
    r := SizesOf(configs);
  }

  method SizesOf(configs: map<string, Disk>) returns (r: Option<map<string, string>>)
    ensures r.None? <==> exists p :: p in configs && configs[p].sizeInMB < MIN_LOG_DIR_SIZE_IN_MB
    ensures r.Some? ==> r.value.Keys == set p | p in configs :: p + BrokerConfig.KAFKA_DIR
    ensures r.Some? ==> forall p :: p in configs ==>
      configs[p].sizeInMB >= 0 && r.value[p + BrokerConfig.KAFKA_DIR] == Itoa(configs[p].sizeInMB)
  {
    hide Itoa;
    var logDirs: map<string, string> := map[];
    var left := configs.Keys;
    while left != {}
      invariant left <= configs.Keys
      invariant logDirs.Keys == set p | p in configs.Keys - left :: p + BrokerConfig.KAFKA_DIR
      invariant forall p :: p in configs.Keys - left ==>
        configs[p].sizeInMB >= MIN_LOG_DIR_SIZE_IN_MB &&
          logDirs[p + BrokerConfig.KAFKA_DIR] == Itoa(configs[p].sizeInMB)
      decreases |left|
    {
      var path :| path in left;
      var size := configs[path].sizeInMB;
      if size < MIN_LOG_DIR_SIZE_IN_MB {
        return None;
      }
      forall p | p in configs && p != path ensures p + BrokerConfig.KAFKA_DIR != path + BrokerConfig.KAFKA_DIR {
        MountPathIsInjective(p, path);
      }
      logDirs := logDirs[path + BrokerConfig.KAFKA_DIR := Itoa(size)];
      left := left - {path};
    }
    return Some(logDirs);
  }

  lemma MountPathIsInjective(a: string, b: string)
    ensures a + BrokerConfig.KAFKA_DIR == b + BrokerConfig.KAFKA_DIR ==> a == b
  {
    assert (a + BrokerConfig.KAFKA_DIR)[..|a|] == a && (b + BrokerConfig.KAFKA_DIR)[..|b|] == b;
  }

  // ---------------------------------------------------------------------------
  // The two agree

  /** The list that decides about a path: the broker's own, if the path is in it, or its group's. */
  function Deciding(b: Broker, groups: Groups, path: string): seq<Disk> {
    if path in Paths(OwnDisks(b)) then OwnDisks(b) else GroupDisks(b, groups)
  }

  /**
   Cruise Control is told about exactly the paths that the broker mounts, and
   about the same disk at a path exactly when the first and the last entry for
   it in the deciding list are the same.
   */
  lemma DisksAgree(b: Broker, groups: Groups, disks: seq<Disk>)
    requires IsMounted(b, groups, disks)
    ensures DiskMap(b, groups).Keys == Paths(disks)
    ensures forall p :: p in Paths(disks) ==> p in Paths(Deciding(b, groups, p))
    ensures forall p :: p in Paths(disks) ==>
      (DiskMap(b, groups)[p] == FirstAt(disks, p) <==>
        FirstAt(Deciding(b, groups, p), p) == LastAt(Deciding(b, groups, p), p))
  {
    var own, others := OwnDisks(b), GroupDisks(b, groups);
    PathsAppend(own, others);
    OverriddenSpec(map[], others);
    OverriddenSpec(Overridden(map[], others), own);
    forall p | p in Paths(disks)
      ensures p in Paths(Deciding(b, groups, p))
      ensures FirstAt(disks, p) == FirstAt(Deciding(b, groups, p), p)
    {
      FirstAtAppend(own, others, p);
    }
  }

  /** In particular for every path, when no list names a path twice. */
  lemma DisksAgreeWhenDistinct(b: Broker, groups: Groups, disks: seq<Disk>, path: string)
    requires IsMounted(b, groups, disks) && path in Paths(disks)
    requires DistinctPaths(OwnDisks(b)) && DistinctPaths(GroupDisks(b, groups))
    ensures path in DiskMap(b, groups) && DiskMap(b, groups)[path] == FirstAt(disks, path)
  {
    DisksAgree(b, groups, disks);
    FirstIsLast(Deciding(b, groups, path), path);
  }

  lemma {:induction false} FirstIsSome(disks: seq<Disk>, path: string)
    requires path in Paths(disks)
    ensures FirstAt(disks, path) in disks && FirstAt(disks, path).path == path
  {
    if disks[0].path != path {
      InRest(disks, path);
      FirstIsSome(disks[1..], path);
    }
  }

  lemma {:induction false} LastIsSome(disks: seq<Disk>, path: string)
    requires path in Paths(disks)
    ensures LastAt(disks, path) in disks && LastAt(disks, path).path == path
  {
    if disks[|disks| - 1].path != path {
      InFront(disks, path);
      LastIsSome(disks[..|disks| - 1], path);
    }
  }

  lemma FirstIsLast(disks: seq<Disk>, path: string)
    requires DistinctPaths(disks) && path in Paths(disks)
    ensures FirstAt(disks, path) == LastAt(disks, path)
  {
    FirstIsSome(disks, path);
    LastIsSome(disks, path);
    hide FirstAt, LastAt;
    var i :| 0 <= i < |disks| && disks[i] == FirstAt(disks, path);
    var j :| 0 <= j < |disks| && disks[j] == LastAt(disks, path);
  }

  /** The log dirs Cruise Control is told about are those the broker is configured with. */
  lemma LogDirsAgree(b: Broker, groups: Groups, disks: seq<Disk>, dir: string)
    requires IsMounted(b, groups, disks)
    ensures
      var told := set p | p in DiskMap(b, groups) :: p + BrokerConfig.KAFKA_DIR;
      var mounts := seq(|disks|, i requires 0 <= i < |disks| => disks[i].path);
      dir in told <==> dir in BrokerConfig.StorageConfig(mounts)
  {
    DisksAgree(b, groups, disks);
    var mounts := seq(|disks|, i requires 0 <= i < |disks| => disks[i].path);
    var dirs := BrokerConfig.StorageConfig(mounts);
    if dir in dirs {
      var i :| 0 <= i < |dirs| && dirs[i] == dir;
      assert disks[i].path in Paths(disks) && dir == disks[i].path + BrokerConfig.KAFKA_DIR;
    }
    if p :| p in DiskMap(b, groups) && dir == p + BrokerConfig.KAFKA_DIR {
      assert p in Paths(disks);
      var i :| 0 <= i < |disks| && disks[i].path == p;
      assert dirs[i] == dir;
    }
  }

  /** A path listed twice with different sizes: the broker mounts the first one, Cruise Control is told the last one. */
  lemma DuplicatePathDisagrees()
    ensures
      var first, last := Disk("/a", 10, ""), Disk("/a", 20, "");
      var b := Broker("", Some([first, last]));
      IsMounted(b, map[], [first, last]) && DiskMap(b, map[]) == map["/a" := last] &&
        FirstAt([first, last], "/a") == first
  {
    var first, last := Disk("/a", 10, ""), Disk("/a", 20, "");
    var b := Broker("", Some([first, last]));
    var disks := [first, last];
    assert disks + [] == disks;
    assert OwnDisks(b) == disks && GroupDisks(b, map[]) == [];
    assert disks[..1] == [first] && [first][..0] == [];
    assert disks[0].path in Paths(disks);
    assert Overridden(map[], []) == map[];
    assert Overridden(map[], [first]) == map["/a" := first];
    assert Overridden(map[], disks) == map["/a" := first]["/a" := last];
  }
}
