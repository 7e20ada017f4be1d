/**
 The parameters of an operation: the task controller prints broker ids and log
 dirs into one text, and the scaler parses that text before it calls Cruise
 Control.
 */
module ScaleParameters {
  import opened Wrappers
  import opened Text

  // ---------------------------------------------------------------------------
  // Numbers

  const INT32_LIMIT: nat := 0x8000_0000

  predicate IsDigits(s: string) {
    forall i :: 0 <= i < |s| ==> '0' <= s[i] <= '9'
  }

  function DigitsValue(s: string): nat
    requires IsDigits(s)
  {
    if s == "" then 0 else 10 * DigitsValue(s[..|s| - 1]) + (s[|s| - 1] as int - '0' as int)
  }

  /** A number as a broker id is written. */
  function Itoa(n: nat): string {
    if n < 10 then [(n + '0' as int) as char] else Itoa(n / 10) + [(n % 10 + '0' as int) as char]
  }

  /** A signed decimal number from -limit to limit - 1; None stands for a syntax or range error. */
  function ParseInt(s: string, limit: nat): Option<int> {
    var body := if s != "" && (s[0] == '+' || s[0] == '-') then s[1..] else s;
    if body == "" || !IsDigits(body) then None
    else if s[0] == '-' then if DigitsValue(body) <= limit then Some(0 - DigitsValue(body)) else None
    else if DigitsValue(body) < limit then Some(DigitsValue(body)) else None
  }

  function ParseInt32(s: string): Option<int> {
    ParseInt(s, INT32_LIMIT)
  }

  lemma {:induction false} ItoaSpec(n: nat)
    ensures Itoa(n) != "" && IsDigits(Itoa(n)) && DigitsValue(Itoa(n)) == n
  {
    if n >= 10 {
      ItoaSpec(n / 10);
      assert Itoa(n)[..|Itoa(n)| - 1] == Itoa(n / 10);
    }
  }

  /** A broker id survives being written and parsed exactly when it fits 32 bits. */
  lemma ItoaParses(n: nat)
    ensures ParseInt32(Itoa(n)) == if n < INT32_LIMIT then Some(n) else None
    ensures ',' !in Itoa(n) && '-' !in Itoa(n)
  {
    ItoaSpec(n);
  }

  // ---------------------------------------------------------------------------
  // Lists of broker ids

  function ParseAll(parts: seq<string>): Option<seq<int>> {
    if parts == [] then Some([])
    else
      var front, last := ParseAll(parts[..|parts| - 1]), ParseInt32(parts[|parts| - 1]);
      if front.Some? && last.Some? then Some(front.value + [last.value]) else None
  }

  method ParseBrokerIds(text: string) returns (r: Option<seq<int>>)
    ensures r == ParseAll(Split(text, ','))
  {
    hide ParseInt32, Split;
    var parts := Split(text, ',');
    var ids := [];
    for i := 0 to |parts|
      invariant ParseAll(parts[..i]) == Some(ids)
    {
      assert parts[..i + 1][..i] == parts[..i];
      var id := ParseInt32(parts[i]);
      if id.None? {
        ParseStops(parts, i + 1);
        return None;
      }
      ids := ids + [id.value];
    }
    assert parts[..|parts|] == parts;
    return Some(ids);
  }

  lemma {:induction false} ParseStops(parts: seq<string>, k: nat)
    requires k <= |parts| && ParseAll(parts[..k]).None?
    ensures ParseAll(parts).None?
    decreases |parts|
  {
    if k == |parts| {
      assert parts[..k] == parts;
    } else {
      assert parts[..|parts| - 1][..k] == parts[..k];
      ParseStops(parts[..|parts| - 1], k);
    }
  }

  function Names(ids: seq<nat>): seq<string> {
    seq(|ids|, i requires 0 <= i < |ids| => Itoa(ids[i]))
  }

  lemma {:induction false} ParseAllNames(ids: seq<nat>)
    ensures ParseAll(Names(ids)) == if forall i :: 0 <= i < |ids| ==> ids[i] < INT32_LIMIT then Some(ids) else None
  {
    if ids != [] {
      var front := ids[..|ids| - 1];
      ParseAllNames(front);
      assert Names(ids)[..|ids| - 1] == Names(front);
      ItoaParses(ids[|ids| - 1]);
      assert ids == front + [ids[|ids| - 1]];
      assert forall i :: 0 <= i < |front| ==> front[i] == ids[i];
    }
  }

  /** The list of ids comes back exactly when there is one and every id fits 32 bits. */
  lemma BrokerIdsRoundTrip(ids: seq<nat>)
    ensures ParseAll(Split(Join(Names(ids), ','), ',')) == Some(ids) <==>
      ids != [] && forall i :: 0 <= i < |ids| ==> ids[i] < INT32_LIMIT
  {
    if ids != [] {
      forall p | p in Names(ids) ensures ',' !in p {
        var i :| 0 <= i < |ids| && p == Names(ids)[i];
        ItoaParses(ids[i]);
      }
      SplitOfJoin(Names(ids), ',');
      ParseAllNames(ids);
    } else {
      assert Split("", ',') == [""];
      assert [""][..0] == [];
      assert ParseAll([""]).None?;
    }
  }

  // ---------------------------------------------------------------------------
  // Log dirs by broker

  /** A map as the log dirs of each broker, in the order they are listed. */
  type LogDirs = map<int, seq<string>>

  function ParsePair(pair: string): Option<(int, string)> {
    var i := IndexFrom(pair, '-', 0);
    if i == |pair| then None
    else
      var id := ParseInt32(pair[..i]);
      if id.None? then None else Some((id.value, pair[i + 1..]))
  }

  function DirsOf(m: LogDirs, id: int): seq<string> {
    if id in m then m[id] else []
  }

  function Collect(parts: seq<string>): Option<LogDirs> {
    if parts == [] then Some(map[])
    else
      var front, last := Collect(parts[..|parts| - 1]), ParsePair(parts[|parts| - 1]);
      if front.None? || last.None? then None
      else Some(front.value[last.value.0 := DirsOf(front.value, last.value.0) + [last.value.1]])
  }

  function ParseLogDirsSpec(text: string): Option<LogDirs> {
    if text == "" then Some(map[]) else Collect(Split(text, ','))
  }

  method ParseLogDirs(text: string) returns (r: Option<LogDirs>)
    ensures r == ParseLogDirsSpec(text)
  {
    hide ParsePair, Split;
    var dirs: LogDirs := map[];
    if |text| == 0 {
      return Some(dirs);
    }
    var pairs := Split(text, ',');
    for i := 0 to |pairs|
      invariant Collect(pairs[..i]) == Some(dirs)
    {
      assert pairs[..i + 1][..i] == pairs[..i];
      var pair := ParsePair(pairs[i]);
      if pair.None? {
        CollectStops(pairs, i + 1);
        return None;
      }
      var known := if pair.value.0 in dirs then dirs[pair.value.0] else [];
      dirs := dirs[pair.value.0 := known + [pair.value.1]];
    }
    assert pairs[..|pairs|] == pairs;
    return Some(dirs);
  }

  lemma {:induction false} CollectStops(parts: seq<string>, k: nat)
    requires k <= |parts| && Collect(parts[..k]).None?
    ensures Collect(parts).None?
    decreases |parts|
  {
    if k == |parts| {
      assert parts[..k] == parts;
    } else {
      assert parts[..|parts| - 1][..k] == parts[..k];
      CollectStops(parts[..|parts| - 1], k);
    }
  }

  /** The pairs of one broker. */
  function PairsOf(id: string, dirs: seq<string>): seq<string> {
    seq(|dirs|, i requires 0 <= i < |dirs| => id + "-" + dirs[i])
  }

  /** The pairs of all brokers, walked in the given order. */
  function AllPairs(order: seq<string>, dirs: map<string, seq<string>>): seq<string>
    requires forall id :: id in order ==> id in dirs
  {
    if order == [] then []
    else AllPairs(order[..|order| - 1], dirs) + PairsOf(order[|order| - 1], dirs[order[|order| - 1]])
  }

  ghost predicate IsOrderOf(order: seq<string>, keys: set<string>) {
    (forall k :: k in order <==> k in keys) && NoRepeats(order)
  }

  /** Prints the log dirs; the map is walked in any order. */
  method PrintLogDirs(dirs: map<string, seq<string>>) returns (text: string, order: seq<string>)
    ensures IsOrderOf(order, dirs.Keys) && text == Join(AllPairs(order, dirs), ',')
  {
    var pairs: seq<string> := [];
    order := [];
    var left := dirs.Keys;
    while left != {}
      invariant left <= dirs.Keys && IsOrderOf(order, dirs.Keys - left)
      invariant pairs == AllPairs(order, dirs)
      decreases |left|
    {
      var id :| id in left;
      var before := pairs;
      for i := 0 to |dirs[id]|
        invariant pairs == before + PairsOf(id, dirs[id])[..i]
      {
        pairs := pairs + [id + "-" + dirs[id][i]];
      }
      assert (order + [id])[..|order|] == order;
      order := order + [id];
      left := left - {id};
    }
    text := Join(pairs, ',');
  }

  /** A broker id as the scaler understands it. */
  predicate IsId(id: string) {
    '-' !in id && ',' !in id && ParseInt32(id).Some?
  }

  /** Different texts of ids mean different brokers. */
  ghost predicate AreIds(ids: set<string>) {
    && (forall id :: id in ids ==> IsId(id))
    && forall a, b :: a in ids && b in ids && ParseInt32(a) == ParseInt32(b) ==> a == b
  }

  /** m holds exactly the brokers with at least one log dir, each with its log dirs in order. */
  ghost predicate Restores(m: LogDirs, keys: set<string>, dirs: map<string, seq<string>>)
    requires keys <= dirs.Keys && AreIds(keys)
  {
    && (forall id :: id in keys ==> DirsOf(m, ParseInt32(id).value) == dirs[id])
    && (forall n :: n in m ==> m[n] != [] && exists id :: id in keys && ParseInt32(id) == Some(n))
  }

  lemma PairParses(id: string, dir: string)
    requires IsId(id)
    ensures ParsePair(id + "-" + dir) == Some((ParseInt32(id).value, dir))
  {
    var pair := id + "-" + dir;
    assert forall k :: 0 <= k < |id| ==> pair[k] == id[k];
    IndexIsFirst(pair, '-', 0, |id|);
    assert pair[..|id|] == id && pair[|id| + 1..] == dir;
  }

  lemma CollectOne(front: seq<string>, pair: string)
    requires Collect(front).Some? && ParsePair(pair).Some?
    ensures
      var m, (n, dir) := Collect(front).value, ParsePair(pair).value;
      Collect(front + [pair]) == Some(m[n := DirsOf(m, n) + [dir]])
  {
    hide ParsePair;
    assert (front + [pair])[..|front|] == front;
  }

  /** The pairs of one broker are appended to the log dirs of that broker. */
  lemma {:induction false} CollectBroker(front: seq<string>, id: string, dirs: seq<string>)
    requires IsId(id) && Collect(front).Some?
    ensures
      var n, m, r := ParseInt32(id).value, Collect(front).value, Collect(front + PairsOf(id, dirs));
      r == Some(if dirs == [] then m else m[n := DirsOf(m, n) + dirs])
  {
    hide ParsePair, ParseInt32, Collect;
    var n, m := ParseInt32(id).value, Collect(front).value;
    if dirs == [] {
      assert front + PairsOf(id, dirs) == front;
    } else {
      var k := |dirs| - 1;
      CollectBroker(front, id, dirs[..k]);
      PairParses(id, dirs[k]);
      CollectOne(front + PairsOf(id, dirs[..k]), id + "-" + dirs[k]);
      assert front + PairsOf(id, dirs[..k]) + [id + "-" + dirs[k]] == front + PairsOf(id, dirs);
      var m' := Collect(front + PairsOf(id, dirs[..k])).value;
      assert DirsOf(m', n) == DirsOf(m, n) + dirs[..k];
      assert DirsOf(m', n) + [dirs[k]] == DirsOf(m, n) + dirs;
      assert m'[n := DirsOf(m, n) + dirs] == m[n := DirsOf(m, n) + dirs];
    }
  }

  lemma CollectNothing()
    ensures Collect([]) == Some(map[])
  {
  }

  ghost predicate NoRepeats(order: seq<string>) {
    forall i, j :: 0 <= i < j < |order| ==> order[i] != order[j]
  }

  ghost function KeysOf(order: seq<string>): set<string> {
    set k | k in order
  }

  lemma {:induction false} CollectAllPairs(order: seq<string>, dirs: map<string, seq<string>>)
    requires NoRepeats(order) && (forall id :: id in order ==> id in dirs) && AreIds(KeysOf(order))
    ensures Collect(AllPairs(order, dirs)).Some?
    ensures Restores(Collect(AllPairs(order, dirs)).value, KeysOf(order), dirs)
  {
    hide Collect, ParseInt32, PairsOf, Restores;
    if order == [] {
      CollectNothing();
      RestoresNothing(dirs);
      assert KeysOf(order) == {};
    } else {
      var front, id := order[..|order| - 1], order[|order| - 1];
      assert order == front + [id];
      assert KeysOf(order) == KeysOf(front) + {id};
      CollectAllPairs(front, dirs);
      assert id in KeysOf(order) && id !in front;
      CollectBroker(AllPairs(front, dirs), id, dirs[id]);
      RestoresOneMore(Collect(AllPairs(front, dirs)).value, KeysOf(front), dirs, id);
    }
  }

  lemma RestoresNothing(dirs: map<string, seq<string>>)
    ensures AreIds({}) && Restores(map[], {}, dirs)
  {
  }

  lemma RestoresOneMore(m: LogDirs, keys: set<string>, dirs: map<string, seq<string>>, id: string)
    requires id in dirs && id !in keys && keys <= dirs.Keys
    requires AreIds(keys + {id}) && AreIds(keys) && Restores(m, keys, dirs)
    ensures
      var n := ParseInt32(id).value;
      Restores(if dirs[id] == [] then m else m[n := DirsOf(m, n) + dirs[id]], keys + {id}, dirs)
  {
    hide ParseInt32;
    var n := ParseInt32(id).value;
    assert n !in m;
    assert DirsOf(m, n) + dirs[id] == dirs[id];
    assert id in keys + {id};
  }

  /** Every log dir that was parsed is free of commas. */
  lemma {:induction false} ParsedDirsHaveNoComma(parts: seq<string>)
    requires (forall p :: p in parts ==> ',' !in p) && Collect(parts).Some?
    ensures forall n, d :: n in Collect(parts).value && d in Collect(parts).value[n] ==> ',' !in d
  {
    if parts != [] {
      var front, last := parts[..|parts| - 1], parts[|parts| - 1];
      ParsedDirsHaveNoComma(front);
      assert last in parts;
    }
  }

  ghost predicate CommaFree(dirs: map<string, seq<string>>) {
    forall id, d :: id in dirs && d in dirs[id] ==> ',' !in d
  }

  lemma {:induction false} PairsAreCommaFree(order: seq<string>, dirs: map<string, seq<string>>)
    requires (forall id :: id in order ==> id in dirs && IsId(id)) && CommaFree(dirs)
    ensures forall p :: p in AllPairs(order, dirs) ==> p != "" && ',' !in p
  {
    if order != [] {
      var front, id := order[..|order| - 1], order[|order| - 1];
      PairsAreCommaFree(front, dirs);
      forall p | p in PairsOf(id, dirs[id]) ensures p != "" && ',' !in p {
        var i :| 0 <= i < |dirs[id]| && p == id + "-" + dirs[id][i];
        assert dirs[id][i] in dirs[id] && id in order;
      }
    }
  }

  /**
   Whatever order the map is walked in, parsing the printed text restores the
   log dirs of every broker that has one exactly when no log dir holds a comma.
   */
  lemma LogDirsRoundTrip(order: seq<string>, dirs: map<string, seq<string>>)
    requires IsOrderOf(order, dirs.Keys) && AreIds(dirs.Keys)
    ensures
      var parsed := ParseLogDirsSpec(Join(AllPairs(order, dirs), ','));
      (parsed.Some? && Restores(parsed.value, dirs.Keys, dirs)) <==> CommaFree(dirs)
  {
    hide Collect, ParseInt32, PairsOf, AllPairs, Split;
    var pairs := AllPairs(order, dirs);
    var text := Join(pairs, ',');
    var parsed := ParseLogDirsSpec(text);
    CollectNothing();
    assert KeysOf(order) == dirs.Keys;
    if CommaFree(dirs) {
      CollectAllPairs(order, dirs);
      PairsAreCommaFree(order, dirs);
      if pairs != [] {
        SplitOfJoin(pairs, ',');
        assert pairs[0] in pairs;
        assert text != "";
      }
    }
    if parsed.Some? && Restores(parsed.value, dirs.Keys, dirs) {
      JoinOfSplit(text, ',');
      if text != "" {
        ParsedDirsHaveNoComma(Split(text, ','));
      }
      forall id, d | id in dirs && d in dirs[id] ensures ',' !in d {
        assert d in DirsOf(parsed.value, ParseInt32(id).value);
      }
    }
  }

  /** Ids written as numbers of 32 bits are ids in this sense. */
  lemma NumbersAreIds(ns: set<nat>)
    requires forall n :: n in ns ==> n < INT32_LIMIT
    ensures AreIds(set n | n in ns :: Itoa(n))
  {
    forall n | n in ns ensures IsId(Itoa(n)) && ParseInt32(Itoa(n)) == Some(n) {
      ItoaParses(n);
    }
  }
}
