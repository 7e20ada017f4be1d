/** The string operations of Go's standard library that the source uses, on ASCII text. */
module Text {

  predicate IsSpace(c: char) {
    c == ' ' || c == '\t' || c == '\n' || c == '\r' || c == 11 as char || c == 12 as char
  }

  function TrimLeft(s: string): string {
    if s != "" && IsSpace(s[0]) then TrimLeft(s[1..]) else s
  }

  function TrimRight(s: string): string {
    if s != "" && IsSpace(s[|s| - 1]) then TrimRight(s[..|s| - 1]) else s
  }

  function Trim(s: string): string {
    TrimRight(TrimLeft(s))
  }

  /** No white space at either end. */
  predicate IsTrimmed(s: string) {
    s == "" || (!IsSpace(s[0]) && !IsSpace(s[|s| - 1]))
  }

  lemma {:induction false} TrimLeftSpec(s: string)
    ensures TrimLeft(s) == "" || !IsSpace(TrimLeft(s)[0])
    ensures |TrimLeft(s)| <= |s| && TrimLeft(s) == s[|s| - |TrimLeft(s)|..]
    ensures forall i :: 0 <= i < |s| - |TrimLeft(s)| ==> IsSpace(s[i])
  {
    if s != "" && IsSpace(s[0]) {
      TrimLeftSpec(s[1..]);
    }
  }

  lemma {:induction false} TrimRightSpec(s: string)
    ensures TrimRight(s) == "" || !IsSpace(TrimRight(s)[|TrimRight(s)| - 1])
    ensures TrimRight(s) <= s
    ensures forall i :: |TrimRight(s)| <= i < |s| ==> IsSpace(s[i])
  {
    if s != "" && IsSpace(s[|s| - 1]) {
      TrimRightSpec(s[..|s| - 1]);
    }
  }

  /** Trimming cuts white space off both ends and nothing else. */
  lemma TrimSpec(s: string) returns (i: nat, j: nat)
    ensures i <= j <= |s| && Trim(s) == s[i..j] && IsTrimmed(Trim(s))
    ensures forall k :: 0 <= k < i || j <= k < |s| ==> IsSpace(s[k])
  {
    TrimLeftSpec(s);
    TrimRightSpec(TrimLeft(s));
    var t := TrimLeft(s);
    i := |s| - |t|;
    j := i + |Trim(s)|;
    assert forall k :: 0 <= k < |t| ==> t[k] == s[i + k];
    forall k | j <= k < |s| ensures IsSpace(s[k]) {
      assert t[k - i] == s[k];
    }
  }

  lemma TrimFixed(s: string)
    ensures Trim(s) == s <==> IsTrimmed(s)
  {
    var _, _ := TrimSpec(s);
  }

  // ---------------------------------------------------------------------------
  // Lines

  function DropCR(s: string): string {
    if s != "" && s[|s| - 1] == '\r' then s[..|s| - 1] else s
  }

  /** The position of the first c at or after i, or the length. */
  function IndexFrom(s: string, c: char, i: nat): (r: nat)
    requires i <= |s|
    ensures i <= r <= |s|
    ensures forall k :: i <= k < r ==> s[k] != c
    ensures r < |s| ==> s[r] == c
    decreases |s| - i
  {
    if i == |s| || s[i] == c then i else IndexFrom(s, c, i + 1)
  }

  lemma IndexIsFirst(s: string, c: char, i: nat, r: nat)
    requires i <= r <= |s|
    requires forall k :: i <= k < r ==> s[k] != c
    requires r < |s| ==> s[r] == c
    ensures IndexFrom(s, c, i) == r
  {
  }

  /** The lines a scanner yields: the end-of-line marks are dropped, and so is an empty last line. */
  function Lines(s: string): seq<string>
    decreases |s|
  {
    if s == "" then []
    else
      var i := IndexFrom(s, '\n', 0);
      if i == |s| then [DropCR(s)] else [DropCR(s[..i])] + Lines(s[i + 1..])
  }

  lemma LinesOfLine(line: string, rest: string)
    requires '\n' !in line
    ensures Lines(line + "\n" + rest) == [DropCR(line)] + Lines(rest)
  {
    var s := line + "\n" + rest;
    assert forall k :: 0 <= k < |line| ==> s[k] == line[k];
    IndexIsFirst(s, '\n', 0, |line|);
    assert s[..|line|] == line && s[|line| + 1..] == rest;
  }

  lemma {:induction false} LinesHaveNoNewline(s: string)
    ensures forall l :: l in Lines(s) ==> '\n' !in l
    decreases |s|
  {
    if s != "" {
      var i := IndexFrom(s, '\n', 0);
      assert '\n' !in s[..i] && '\n' !in DropCR(s[..i]);
      if i < |s| {
        LinesHaveNoNewline(s[i + 1..]);
        assert Lines(s) == [DropCR(s[..i])] + Lines(s[i + 1..]);
      } else {
        assert s[..i] == s;
      }
    }
  }

  // ---------------------------------------------------------------------------
  // Split and join on one character

  function Split(s: string, c: char): (r: seq<string>)
    ensures r != []
    decreases |s|
  {
    var i := IndexFrom(s, c, 0);
    if i == |s| then [s] else [s[..i]] + Split(s[i + 1..], c)
  }

  function Join(parts: seq<string>, c: char): string {
    if parts == [] then ""
    else if |parts| == 1 then parts[0]
    else parts[0] + [c] + Join(parts[1..], c)
  }

  lemma SplitAtFirst(head: string, rest: string, c: char)
    requires c !in head
    ensures Split(head + [c] + rest, c) == [head] + Split(rest, c)
  {
    var s := head + [c] + rest;
    assert forall k :: 0 <= k < |head| ==> s[k] == head[k];
    IndexIsFirst(s, c, 0, |head|);
    assert s[..|head|] == head && s[|head| + 1..] == rest;
  }

  /** Splitting what was joined gives the parts back, if there are any and none holds the separator. */
  lemma {:induction false} SplitOfJoin(parts: seq<string>, c: char)
    requires parts != [] && forall p :: p in parts ==> c !in p
    ensures Split(Join(parts, c), c) == parts
  {
    assert c !in parts[0];
    if |parts| == 1 {
      IndexIsFirst(parts[0], c, 0, |parts[0]|);
    } else {
      SplitOfJoin(parts[1..], c);
      SplitAtFirst(parts[0], Join(parts[1..], c), c);
      hide Split;
    }
  }

  /** Joining what was split gives the text back. */
  lemma {:induction false} JoinOfSplit(s: string, c: char)
    ensures Join(Split(s, c), c) == s
    ensures forall p :: p in Split(s, c) ==> c !in p
    decreases |s|
  {
    var i := IndexFrom(s, c, 0);
    if i < |s| {
      JoinOfSplit(s[i + 1..], c);
      assert s == s[..i] + [c] + s[i + 1..];
      assert Split(s, c)[1..] == Split(s[i + 1..], c);
    }
  }
}
