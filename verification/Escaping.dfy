/**
 Escaping of the key/value separators of the properties format
 (properties/pkg/utils.go).  Strings are sequences of ASCII characters: the source
 mixes byte and rune positions, which agree only there.
 */
module Escaping {
  import opened Wrappers

  const ESCAPE: char := '\\'
  const SEPARATORS: string := "=: "

  predicate IsSeparator(c: char) {
    c == '=' || c == ':' || c == ' '
  }

  predicate IsEscapedAt(s: string, i: nat)
    requires i < |s|
  {
    i > 0 && s[i - 1] == ESCAPE
  }

  /** Every separator gets an escape in front unless it already has one. */
  function Escape(s: string): string {
    if s == "" then ""
    else
      var n := |s| - 1;
      Escape(s[..n]) + if IsSeparator(s[n]) && !IsEscapedAt(s, n) then [ESCAPE, s[n]] else [s[n]]
  }

  /** Every separator loses the escape in front of it. */
  function Unescape(s: string): string {
    if s == "" then ""
    else
      var n := |s| - 1;
      (if IsSeparator(s[n]) && IsEscapedAt(s, n) then Unescape(s[..n - 1]) else Unescape(s[..n])) + [s[n]]
  }

  /** The position of the first separator that is not escaped. */
  ghost predicate IsFirstSeparator(s: string, i: nat) {
    i < |s| && IsSeparator(s[i]) && !IsEscapedAt(s, i) &&
    forall j :: 0 <= j < i ==> !IsSeparator(s[j]) || IsEscapedAt(s, j)
  }

  function FirstSeparatorFrom(s: string, i: nat): Option<nat>
    requires i <= |s|
    decreases |s| - i
  {
    if i == |s| then None
    else if IsSeparator(s[i]) && !IsEscapedAt(s, i) then Some(i)
    else FirstSeparatorFrom(s, i + 1)
  }

  function FirstSeparator(s: string): Option<nat> {
    FirstSeparatorFrom(s, 0)
  }

  /** The inner loop of the three scans: is c one of the separators? */
  method MatchSeparator(c: char) returns (found: bool)
    ensures found <==> IsSeparator(c)
  {
    for j := 0 to |SEPARATORS|
      invariant forall k :: 0 <= k < j ==> c != SEPARATORS[k]
    {
      if c == SEPARATORS[j] {
        return true;
      }
    }
    assert SEPARATORS[0] == '=' && SEPARATORS[1] == ':' && SEPARATORS[2] == ' ';
    return false;
  }

  lemma EscapeNothing()
    ensures Escape("") == "" && Unescape("") == ""
  {
  }

  /** Escaping one more character. */
  lemma EscapeAppend(s: string, c: char)
    ensures
      var escapes := IsSeparator(c) && !(s != "" && s[|s| - 1] == ESCAPE);
      Escape(s + [c]) == Escape(s) + if escapes then [ESCAPE, c] else [c]
  {
    assert (s + [c])[..|s|] == s;
  }

  lemma EscapeKeepStep(out: string, s: string, start: nat, i: nat)
    requires start <= i < |s| && out + s[start..i] == Escape(s[..i])
    requires !IsSeparator(s[i]) || IsEscapedAt(s, i)
    ensures out + s[start..i + 1] == Escape(s[..i + 1])
  {
    hide Escape;
    EscapeAppend(s[..i], s[i]);
    assert s[..i + 1] == s[..i] + [s[i]];
    assert s[start..i + 1] == s[start..i] + [s[i]];
  }

  lemma EscapeInsertStep(out: string, s: string, start: nat, i: nat)
    requires start <= i < |s| && out + s[start..i] == Escape(s[..i])
    requires IsSeparator(s[i]) && !IsEscapedAt(s, i)
    ensures (out + s[start..i] + [ESCAPE, s[i]]) + s[i + 1..i + 1] == Escape(s[..i + 1])
  {
    hide Escape;
    EscapeAppend(s[..i], s[i]);
    assert s[..i + 1] == s[..i] + [s[i]];
  }

  /** The rest of the text is copied at the end. */
  lemma FinishStep(out: string, s: string, start: nat)
    requires start <= |s|
    ensures s[..|s|] == s
    ensures out + s[start..|s|] == if start <= |s| - 1 then out + s[start..] else out
  {
  }

  method EscapeSeparators(orig: string) returns (r: string)
    ensures r == Escape(orig)
  {
    hide Escape;
    EscapeNothing();
    if |orig| == 0 {
      return orig;
    }
    var newSlice := "";
    var startIdx := 0;
    assert orig[..0] == "" && newSlice + orig[0..0] == "";
    for idx := 0 to |orig|
      invariant startIdx <= idx
      invariant newSlice + orig[startIdx..idx] == Escape(orig[..idx])
    {
      var c, prevIdx := orig[idx], if idx == 0 then 0 else idx - 1;
      var matches := MatchSeparator(c);
      if matches && orig[prevIdx] != ESCAPE {
        EscapeInsertStep(newSlice, orig, startIdx, idx);
        newSlice := newSlice + orig[startIdx..idx];
        newSlice := newSlice + [ESCAPE, c];
        startIdx := idx + 1;
      } else {
        EscapeKeepStep(newSlice, orig, startIdx, idx);
      }
    }
    FinishStep(newSlice, orig, startIdx);
    if startIdx <= |orig| - 1 {
      newSlice := newSlice + orig[startIdx..];
    }
    return newSlice;
  }

  /** Unescaping one more character. */
  lemma UnescapeStep(s: string, i: nat)
    requires i < |s|
    ensures IsSeparator(s[i]) && IsEscapedAt(s, i) ==>
      Unescape(s[..i]) != "" && Unescape(s[..i])[|Unescape(s[..i])| - 1] == ESCAPE &&
      Unescape(s[..i + 1]) == Unescape(s[..i])[..|Unescape(s[..i])| - 1] + [s[i]]
    ensures !(IsSeparator(s[i]) && IsEscapedAt(s, i)) ==> Unescape(s[..i + 1]) == Unescape(s[..i]) + [s[i]]
  {
    assert s[..i + 1][..i] == s[..i];
    if i > 0 {
      assert s[..i + 1][..i - 1] == s[..i][..i - 1];
    }
  }

  lemma UnescapeKeepStep(out: string, s: string, start: nat, i: nat)
    requires start <= i < |s| && out + s[start..i] == Unescape(s[..i])
    requires !(IsSeparator(s[i]) && IsEscapedAt(s, i))
    ensures out + s[start..i + 1] == Unescape(s[..i + 1])
  {
    UnescapeStep(s, i);
    hide Unescape;
    assert s[start..i + 1] == s[start..i] + [s[i]];
  }

  lemma UnescapeDropStep(out: string, s: string, start: nat, i: nat)
    requires start <= i < |s| && out + s[start..i] == Unescape(s[..i])
    requires IsSeparator(s[i]) && IsEscapedAt(s, i) && start < i
    ensures (out + s[start..i - 1] + [s[i]]) + s[i + 1..i + 1] == Unescape(s[..i + 1])
  {
    UnescapeStep(s, i);
    hide Unescape;
    var u := out + s[start..i];
    assert u[..|u| - 1] == out + s[start..i - 1];
  }

  method UnescapeSeparators(orig: string) returns (r: string)
    ensures r == Unescape(orig)
  {
    hide Unescape;
    EscapeNothing();
    if |orig| == 0 {
      return orig;
    }
    var newSlice := "";
    var startIdx := 0;
    assert orig[..0] == "" && newSlice + orig[0..0] == "";
    for idx := 0 to |orig|
      invariant startIdx <= idx
      invariant newSlice + orig[startIdx..idx] == Unescape(orig[..idx])
      invariant startIdx == idx && idx > 0 ==> IsSeparator(orig[idx - 1])
    {
      var c, prevIdx := orig[idx], if idx == 0 then 0 else idx - 1;
      var matches := MatchSeparator(c);
      if matches && orig[prevIdx] == ESCAPE {
        UnescapeDropStep(newSlice, orig, startIdx, idx);
        newSlice := newSlice + orig[startIdx..prevIdx];
        newSlice := newSlice + [c];
        startIdx := idx + 1;
      } else {
        UnescapeKeepStep(newSlice, orig, startIdx, idx);
      }
    }
    FinishStep(newSlice, orig, startIdx);
    if startIdx <= |orig| - 1 {
      newSlice := newSlice + orig[startIdx..];
    }
    return newSlice;
  }

  /** Position and presence of the separator; None stands for the error. */
  method GetSeparator(s: string) returns (r: Option<nat>)
    ensures r == FirstSeparator(s)
    ensures r.Some? ==> IsFirstSeparator(s, r.value)
    ensures r.None? ==> forall i :: 0 <= i < |s| ==> !IsSeparator(s[i]) || IsEscapedAt(s, i)
  {
    if |s| == 0 {
      return None;
    }
    for idx := 0 to |s|
      invariant forall i :: 0 <= i < idx ==> !IsSeparator(s[i]) || IsEscapedAt(s, i)
      invariant FirstSeparator(s) == FirstSeparatorFrom(s, idx)
    {
      var prevIdx := if idx == 0 then 0 else idx - 1;
      var matches := MatchSeparator(s[idx]);
      if matches && s[prevIdx] != ESCAPE {
        return Some(idx);
      }
    }
    return None;
  }

  lemma {:induction false} FirstSeparatorSpec(s: string, i: nat)
    requires i <= |s|
    requires forall j :: 0 <= j < i ==> !IsSeparator(s[j]) || IsEscapedAt(s, j)
    ensures match FirstSeparatorFrom(s, i)
      case Some(n) => IsFirstSeparator(s, n)
      case None => forall n :: !IsFirstSeparator(s, n)
    decreases |s| - i
  {
    if i < |s| && !(IsSeparator(s[i]) && !IsEscapedAt(s, i)) {
      FirstSeparatorSpec(s, i + 1);
    }
  }

  // ---------------------------------------------------------------------------
  // Laws

  ghost predicate HasEscapedSeparator(s: string) {
    exists i :: 0 < i < |s| && IsSeparator(s[i]) && s[i - 1] == ESCAPE
  }

  ghost predicate AllEscaped(s: string) {
    forall i :: 0 <= i < |s| && IsSeparator(s[i]) ==> IsEscapedAt(s, i)
  }

  lemma {:induction false} EscapeKeepsLast(s: string)
    ensures s != "" ==> Escape(s) != "" && Escape(s)[|Escape(s)| - 1] == s[|s| - 1]
    ensures s == "" ==> Escape(s) == ""
  {
  }

  lemma {:induction false} EscapeEscapesAll(s: string)
    ensures AllEscaped(Escape(s))
  {
    if s != "" {
      var n := |s| - 1;
      EscapeEscapesAll(s[..n]);
      EscapeKeepsLast(s[..n]);
    }
  }

  lemma {:induction false} EscapedIsFixed(s: string)
    requires AllEscaped(s)
    ensures Escape(s) == s
  {
    if s != "" {
      var n := |s| - 1;
      assert forall i :: 0 <= i < n && IsSeparator(s[..n][i]) ==> IsEscapedAt(s, i);
      EscapedIsFixed(s[..n]);
      assert s == s[..n] + [s[n]];
    }
  }

  /** Escaping twice is escaping once. */
  lemma EscapeIdempotent(s: string)
    ensures Escape(Escape(s)) == Escape(s)
  {
    EscapeEscapesAll(s);
    EscapedIsFixed(Escape(s));
  }

  lemma UnescapePlain(s: string, c: char)
    requires !IsSeparator(c)
    ensures Unescape(s + [c]) == Unescape(s) + [c]
  {
    assert (s + [c])[..|s|] == s;
  }

  lemma UnescapeEscaped(s: string, c: char)
    requires IsSeparator(c)
    ensures Unescape(s + [ESCAPE, c]) == Unescape(s) + [c]
  {
    var t := s + [ESCAPE, c];
    assert t[..|t| - 2] == s;
  }

  lemma EscapedSeparatorAppend(init: string, c: char)
    ensures HasEscapedSeparator(init + [c]) <==>
            HasEscapedSeparator(init) || (IsSeparator(c) && init != "" && init[|init| - 1] == ESCAPE)
  {
    var k := init + [c];
    if i :| 0 < i < |init| && IsSeparator(init[i]) && init[i - 1] == ESCAPE {
      assert IsSeparator(k[i]) && k[i - 1] == ESCAPE;
    }
    if i :| 0 < i < |k| && IsSeparator(k[i]) && k[i - 1] == ESCAPE {
      if i < |init| {
        assert IsSeparator(init[i]) && init[i - 1] == ESCAPE;
      }
    }
    if IsSeparator(c) && init != "" && init[|init| - 1] == ESCAPE {
      assert IsSeparator(k[|init|]) && k[|init| - 1] == ESCAPE;
    }
  }

  lemma NothingIsEscaped()
    ensures !HasEscapedSeparator("")
  {
  }

  /** A separator that is escaped already is left alone, together with its escape. */
  lemma EscapeOfEscaped(k: string)
    requires |k| > 1 && IsSeparator(k[|k| - 1]) && k[|k| - 2] == ESCAPE
    ensures Escape(k) == Escape(k[..|k| - 2]) + [ESCAPE, k[|k| - 1]]
  {
    hide Escape;
    var front, c := k[..|k| - 2], k[|k| - 1];
    var init := front + [ESCAPE];
    assert k == init + [c];
    EscapeAppend(front, ESCAPE);
    EscapeAppend(init, c);
    assert Escape(front) + [ESCAPE] + [c] == Escape(front) + [ESCAPE, c];
  }

  lemma {:induction false} UnescapeOfEscape(k: string)
    ensures |Unescape(Escape(k))| <= |k|
    ensures HasEscapedSeparator(k) ==> |Unescape(Escape(k))| < |k|
    ensures !HasEscapedSeparator(k) ==> Unescape(Escape(k)) == k
    decreases |k|
  {
    hide Escape, Unescape, HasEscapedSeparator;
    if k == "" {
      EscapeNothing();
      NothingIsEscaped();
    } else {
      var n := |k| - 1;
      var init, c := k[..n], k[n];
      assert k == init + [c];
      UnescapeOfEscape(init);
      EscapedSeparatorAppend(init, c);
      EscapeAppend(init, c);
      if !IsSeparator(c) {
        UnescapePlain(Escape(init), c);
      } else if IsEscapedAt(k, n) {
        UnescapeOfEscape(init[..n - 1]);
        EscapeOfEscaped(k);
        UnescapeEscaped(Escape(init[..n - 1]), c);
        assert init[..n - 1] == k[..n - 1];
      } else {
        UnescapeEscaped(Escape(init), c);
      }
    }
  }

  /** Unescaping undoes escaping exactly when the key has no escape in front of a separator. */
  lemma EscapeRoundTrip(k: string)
    ensures Unescape(Escape(k)) == k <==> !HasEscapedSeparator(k)
  {
    UnescapeOfEscape(k);
  }

  /** A printed key ends at the `=` that follows it exactly when it does not end in an escape. */
  lemma SeparatorOfPrinted(k: string, v: string)
    ensures IsFirstSeparator(Escape(k) + "=" + v, |Escape(k)|) <==> k == "" || k[|k| - 1] != ESCAPE
    ensures FirstSeparator(Escape(k) + "=" + v) == Some(|Escape(k)|) <==> k == "" || k[|k| - 1] != ESCAPE
  {
    var e := Escape(k);
    var s := e + "=" + v;
    EscapeEscapesAll(k);
    EscapeKeepsLast(k);
    assert forall i :: 0 <= i < |e| ==> s[i] == e[i];
    assert s[|e|] == '=';
    FirstSeparatorSpec(s, 0);
  }

  lemma {:induction false} UnescapeKeepsLast(s: string)
    requires s != ""
    ensures Unescape(s) != "" && Unescape(s)[|Unescape(s)| - 1] == s[|s| - 1]
  {
  }
}
