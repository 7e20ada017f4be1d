/** Picking elements out of a list without disturbing their order. */
module Selections {

  function Filter<T>(s: seq<T>, keep: T -> bool): seq<T> {
    if s == [] then []
    else Filter(s[..|s| - 1], keep) + if keep(s[|s| - 1]) then [s[|s| - 1]] else []
  }

  /** The positions of the elements that are kept. */
  function Positions<T>(s: seq<T>, keep: T -> bool): seq<nat> {
    if s == [] then []
    else Positions(s[..|s| - 1], keep) + if keep(s[|s| - 1]) then [|s| - 1] else []
  }

  /** They are exactly the positions of such elements. */
  lemma {:induction false} PositionsSpec<T>(s: seq<T>, keep: T -> bool, k: nat)
    ensures k in Positions(s, keep) <==> k < |s| && keep(s[k])
  {
    if s != [] {
      PositionsSpec(s[..|s| - 1], keep, k);
    }
  }

  /** The elements at those positions, in their order. */
  lemma {:induction false} FilterSpec<T>(s: seq<T>, keep: T -> bool)
    ensures
      var r, at := Filter(s, keep), Positions(s, keep);
      && |at| == |r| && (forall i :: 0 <= i < |r| ==> at[i] < |s| && s[at[i]] == r[i])
      && (forall i, j :: 0 <= i < j < |r| ==> at[i] < at[j])
  {
    if s != [] {
      var front, last := s[..|s| - 1], s[|s| - 1];
      FilterSpec(front, keep);
      var r, at := Filter(front, keep), Positions(front, keep);
      assert forall i :: 0 <= i < |r| ==> s[at[i]] == front[at[i]];
      if keep(last) {
        assert Filter(s, keep) == r + [last] && Positions(s, keep) == at + [|front|];
      } else {
        assert Filter(s, keep) == r && Positions(s, keep) == at;
      }
    }
  }

  lemma {:induction false} FilterFirst<T>(x: T, s: seq<T>, keep: T -> bool)
    ensures Filter([x] + s, keep) == (if keep(x) then [x] else []) + Filter(s, keep)
  {
    if s == [] {
      assert [x] + s == [x] && [x][..0] == [];
    } else {
      FilterFirst(x, s[..|s| - 1], keep);
      assert ([x] + s)[..|s|] == [x] + s[..|s| - 1];
    }
  }
}
