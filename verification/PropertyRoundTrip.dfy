/**
 Which properties survive printing and parsing: the printability conditions are
 not only sufficient but exact.
 */
module PropertyRoundTrip {
  import opened Wrappers
  import opened Text
  import opened Escaping
  import opened PropertyList
  import opened PropertyText

  // ---------------------------------------------------------------------------
  // Nothing that was parsed holds a newline

  predicate IsOneLine(p: Property) {
    '\n' !in p.key && '\n' !in p.value
  }

  lemma {:induction false} UnescapeAddsNothing(s: string, c: char)
    requires c !in s
    ensures c !in Unescape(s)
    decreases |s|
  {
    if s != "" {
      var n := |s| - 1;
      UnescapeAddsNothing(s[..n], c);
      if n > 0 {
        UnescapeAddsNothing(s[..n - 1], c);
      }
    }
  }

  lemma TrimAddsNothing(s: string, c: char)
    requires c !in s
    ensures c !in Trim(s)
  {
    var i, j := TrimSpec(s);
  }

  lemma ParsedIsOneLine(prop: string, comment: string)
    requires '\n' !in prop && ParseProperty(prop, comment).Some?
    ensures IsOneLine(ParseProperty(prop, comment).value)
  {
    var idx := FirstSeparator(prop).value;
    FirstSeparatorSpec(prop, 0);
    TrimAddsNothing(prop[..idx], '\n');
    UnescapeAddsNothing(Trim(prop[..idx]), '\n');
    TrimAddsNothing(prop[idx + 1..], '\n');
  }

  lemma {:induction false} PutKeepsOneLine(l: Entries, p: Property)
    requires (forall x :: x in l ==> IsOneLine(x)) && IsOneLine(p)
    ensures forall x :: x in Put(l, p) ==> IsOneLine(x)
  {
    if l != [] {
      PutKeepsOneLine(l[1..], p);
    }
  }

  lemma {:induction false} ReadKeepsOneLine(st: Progress, lines: seq<string>)
    requires '\n' !in st.property && (forall x :: x in st.entries ==> IsOneLine(x))
    requires forall l :: l in lines ==> '\n' !in l
    requires ReadLines(st, lines).Some?
    ensures forall x :: x in ReadLines(st, lines).value ==> IsOneLine(x)
    decreases |lines|
  {
    if lines != [] {
      var line := Trim(lines[0]);
      TrimAddsNothing(lines[0], '\n');
      var next := ReadLine(st, line).value;
      if line != "" && !IsComment(line) && !IsContinued(line) {
        ParsedIsOneLine(st.property + line, st.comment);
        PutKeepsOneLine(st.entries, ParseProperty(st.property + line, st.comment).value);
      }
      ReadKeepsOneLine(next, lines[1..]);
    }
  }

  // ---------------------------------------------------------------------------
  // Unescaping a text that goes on

  lemma {:induction false} UnescapeExtends(s: string, w: string)
    requires s != "" && s[|s| - 1] != ESCAPE
    ensures Unescape(s) <= Unescape(s + w)
    decreases |w|
  {
    hide Unescape;
    if w == "" {
      assert s + w == s;
    } else {
      var t, n := s + w, |s + w| - 1;
      assert t[..n] == s + w[..|w| - 1] && t[..n + 1] == t;
      UnescapeExtends(s, w[..|w| - 1]);
      UnescapeStep(t, n);
      UnescapeKeepsLast(s);
    }
  }

  lemma {:induction false} UnescapeFirst(s: string)
    requires s != ""
    ensures Unescape(s) != "" && (Unescape(s)[0] == s[0] || IsSeparator(Unescape(s)[0]))
    decreases |s|
  {
    var n := |s| - 1;
    if n > 0 {
      UnescapeFirst(s[..n]);
      if n > 1 {
        UnescapeFirst(s[..n - 1]);
      }
    }
  }

  /** Unescape(Escape(k)) is k, or differs from k at a position inside both. */
  ghost predicate SameOrDiverges(k: string) {
    var u := Unescape(Escape(k));
    u == k || exists p :: 0 <= p < |u| && p < |k| && u[p] != k[p]
  }

  /** How Unescape(Escape(k)) grows with k: an escape in front of the last separator is lost. */
  lemma RoundTripStep(k: string)
    requires k != ""
    ensures
      var n := |k| - 1;
      if IsSeparator(k[n]) && IsEscapedAt(k, n)
      then Unescape(Escape(k)) == Unescape(Escape(k[..n - 1])) + [k[n]]
      else Unescape(Escape(k)) == Unescape(Escape(k[..n])) + [k[n]]
  {
    hide Unescape;
    var n := |k| - 1;
    if !IsSeparator(k[n]) {
      UnescapePlain(Escape(k[..n]), k[n]);
    } else if IsEscapedAt(k, n) {
      EscapeOfEscaped(k);
      UnescapeEscaped(Escape(k[..n - 1]), k[n]);
    } else {
      UnescapeEscaped(Escape(k[..n]), k[n]);
    }
  }

  lemma NothingDiverges()
    ensures SameOrDiverges("")
  {
  }

  lemma {:induction false} RoundTripDiverges(k: string)
    ensures SameOrDiverges(k)
    decreases |k|
  {
    hide Escape, Unescape, SameOrDiverges;
    if k == "" {
      NothingDiverges();
    } else {
      var n := |k| - 1;
      RoundTripStep(k);
      assert k == k[..n] + [k[n]];
      if IsSeparator(k[n]) && IsEscapedAt(k, n) {
        RoundTripDiverges(k[..n - 1]);
        DivergesAfter(k[..n - 1], [k[n]], k);
      } else {
        RoundTripDiverges(k[..n]);
        DivergesAfter(k[..n], [k[n]], k);
      }
    }
  }

  lemma DivergesAfter(base: string, tail: string, k: string)
    requires SameOrDiverges(base) && base <= k && tail != ""
    requires Unescape(Escape(k)) == Unescape(Escape(base)) + tail
    requires k == base + tail || (|k| > |base| && k[|base|] != tail[0])
    ensures SameOrDiverges(k)
  {
    var u, b := Unescape(Escape(k)), Unescape(Escape(base));
    if b == base {
      if k != base + tail {
        assert u[|base|] != k[|base|];
      }
    } else {
      var p :| 0 <= p < |b| && p < |base| && b[p] != base[p];
      assert u[p] != k[p];
    }
  }

  // ---------------------------------------------------------------------------
  // The conditions are necessary

  /** The trimmed line of a printed property, as a part of it. */
  lemma TrimmedLine(s: string) returns (i: nat, j: nat)
    ensures i <= j <= |s| && Trim(DropCR(s)) == s[i..j] && IsTrimmed(s[i..j])
    ensures forall x :: 0 <= x < i || j <= x < |s| ==> IsSpace(s[x])
  {
    i, j := TrimSpec(DropCR(s));
  }

  /** The line read back as the property it was printed from. */
  ghost predicate ReadsBack(p: Property, line: string) {
    line != "" && !IsComment(line) && !IsContinued(line) && ParseProperty(line, "").Some? &&
    var q := ParseProperty(line, "").value;
    q.key == p.key && q.value == p.value
  }

  lemma ValueIsPrintable(p: Property, line: string)
    requires ReadsBack(p, line) && IsTrimmed(line) && IsOneLine(p)
    ensures IsPrintableValue(p.value)
  {
    FirstSeparatorSpec(line, 0);
    var rest := line[FirstSeparator(line).value + 1..];
    var a, b := TrimSpec(rest);
    if p.value != "" {
      assert line[|line| - 1] == rest[|rest| - 1];
      assert b == |rest|;
    }
  }

  /** What the key is read from. */
  lemma KeyPart(p: Property, line: string) returns (x: string, idx: nat)
    requires ReadsBack(p, line)
    ensures FirstSeparator(line) == Some(idx) && 0 < idx < |line|
    ensures x == Trim(line[..idx]) && p.key == Unescape(x) && IsTrimmed(x)
  {
    FirstSeparatorSpec(line, 0);
    idx := FirstSeparator(line).value;
    x := Trim(line[..idx]);
    var _, _ := TrimSpec(line[..idx]);
  }

  /** A key that reads back starts with no white space but a blank, and ends with none. */
  lemma KeyEnds(p: Property, line: string)
    requires ReadsBack(p, line) && p.key != ""
    ensures IsSpace(p.key[0]) ==> p.key[0] == ' '
    ensures !IsSpace(p.key[|p.key| - 1])
  {
    var x, idx := KeyPart(p, line);
    assert x != "";
    UnescapeFirst(x);
    UnescapeKeepsLast(x);
  }

  /** Then the trimmed line is the whole printed line. */
  lemma LineIsWhole(p: Property, i: nat, j: nat)
    requires p.key != ""
    requires var s := PrintProperty(p);
      && i <= j <= |s| && ReadsBack(p, s[i..j]) && IsTrimmed(s[i..j])
      && forall x :: 0 <= x < i || j <= x < |s| ==> IsSpace(s[x])
    requires IsOneLine(p)
    ensures var s := PrintProperty(p); i == 0 && j == |s| && s[i..j] == s
    ensures Escape(p.key) != "" && !IsSpace(Escape(p.key)[0])
    ensures p.key[0] !in {'#', '!'}
  {
    var s := PrintProperty(p);
    ValueIsPrintable(p, s[i..j]);
    KeyEnds(p, s[i..j]);
    EscapeKeepsFirst(p.key);
    assert s[0] == Escape(p.key)[0];
    assert s[|s| - 1] == if p.value == "" then '=' else p.value[|p.value| - 1];
  }

  /** A key that ends in an escape swallows the `=`: what is read as the key goes on past it. */
  lemma SwallowedSeparator(k0: string, v: string, idx: nat) returns (w: string)
    requires FirstSeparator(Escape(k0 + [ESCAPE]) + "=" + v) == Some(idx)
    requires !IsSpace(Escape(k0 + [ESCAPE])[0]) && idx < |Escape(k0 + [ESCAPE]) + "=" + v|
    ensures Trim((Escape(k0 + [ESCAPE]) + "=" + v)[..idx]) == Escape(k0) + [ESCAPE, '='] + w
  {
    var k := k0 + [ESCAPE];
    var e := Escape(k);
    var s := e + "=" + v;
    assert k[..|k0|] == k0 && e == Escape(k0) + [ESCAPE];
    EscapeEscapesAll(k);
    FirstSeparatorSpec(s, 0);
    hide Escape, Trim, FirstSeparatorFrom;
    assert forall i :: 0 <= i < |e| ==> s[i] == e[i];
    assert s[|e|] == '=' && IsEscapedAt(s, |e|);
    assert idx > |e|;
    w := SwallowedPart(s, e, idx);
    assert e + "=" == Escape(k0) + [ESCAPE, '='];
  }

  /** So it cannot be the key: the escape is missing from it. */
  lemma SwallowedIsNoKey(k0: string, w: string)
    ensures Unescape(Escape(k0) + [ESCAPE, '='] + w) != k0 + [ESCAPE]
  {
    var t, k, u := Escape(k0) + [ESCAPE, '='], k0 + [ESCAPE], Unescape(Escape(k0));
    UnescapeEscaped(Escape(k0), '=');
    UnescapeExtends(t, w);
    RoundTripDiverges(k0);
    hide Escape, Unescape;
    assert !(u + "=" <= k) by {
      if u == k0 {
        assert (u + "=")[|k0|] == '=' && k[|k0|] == ESCAPE;
      } else {
        var n :| 0 <= n < |u| && n < |k0| && u[n] != k0[n];
        assert (u + "=")[n] == u[n] && k[n] == k0[n];
      }
    }
    assert u + "=" <= Unescape(t + w);
  }

  lemma KeyEndsInNoEscape(p: Property)
    requires p.key != "" && ReadsBack(p, PrintProperty(p)) && !IsSpace(Escape(p.key)[0])
    ensures p.key[|p.key| - 1] != ESCAPE
  {
    hide Escape, Unescape, FirstSeparatorFrom, Trim, IsTrimmed;
    if p.key[|p.key| - 1] == ESCAPE {
      var x, idx := KeyPart(p, PrintProperty(p));
      var k0 := p.key[..|p.key| - 1];
      assert p.key == k0 + [ESCAPE];
      var w := SwallowedSeparator(k0, p.value, idx);
      SwallowedIsNoKey(k0, w);
      assert false;
    }
  }

  lemma SwallowedPart(s: string, e: string, idx: nat) returns (w: string)
    requires e != "" && !IsSpace(e[0]) && |e| < idx <= |s| && e + "=" <= s
    ensures Trim(s[..idx]) == e + "=" + w
  {
    var a, b := TrimSpec(s[..idx]);
    assert s[0] == e[0] && s[|e|] == '=';
    assert a == 0 && b > |e|;
    w := s[|e| + 1..b];
    assert s[..idx][a..b] == s[..b];
    assert s[..|e| + 1] == e + "=";
    assert s[..b] == s[..|e| + 1] + w;
  }

  lemma ReadBackIsPrintable(p: Property)
    requires p.key != "" && IsOneLine(p) && ReadsBack(p, PrintProperty(p))
    requires IsTrimmed(PrintProperty(p)) && !IsSpace(Escape(p.key)[0]) && p.key[0] !in {'#', '!'}
    ensures IsPrintable(p)
  {
    var s, e, k := PrintProperty(p), Escape(p.key), p.key;
    EscapeKeepsLast(k);
    hide Escape, Unescape, FirstSeparatorFrom, Trim, ReadsBack, IsPrintableValue;
    ValueIsPrintable(p, s);
    KeyEnds(p, s);
    KeyEndsInNoEscape(p);
    SeparatorOfPrinted(k, p.value);
    var x, idx := KeyPart(p, s);
    assert s[..idx] == e;
    TrimFixed(e);
    EscapeRoundTrip(k);
    assert !HasEscapedSeparator(k);
  }

  /** The text of the one property reads back as that property, up to its comment. */
  ghost predicate SurvivesPrinting(p: Property) {
    var back := Parse(Print([p]));
    back.Some? && |back.value| == 1 && back.value[0].Equals(p)
  }

  lemma OneLineParse(p: Property)
    requires '\n' !in PrintProperty(p)
    ensures Parse(Print([p])) ==
      var line := Trim(DropCR(PrintProperty(p)));
      if line == "" || IsComment(line) || IsContinued(line) then Some([])
      else if ParseProperty(line, "").None? then None
      else Some([ParseProperty(line, "").value])
  {
    hide Trim, ParseProperty, PrintProperty, DropCR;
    var line := Trim(DropCR(PrintProperty(p)));
    assert [p][1..] == [];
    assert Print([p]) == PrintProperty(p) + "\n" + "";
    LinesOfLine(PrintProperty(p), "");
    var lines := Lines(Print([p]));
    assert lines == [DropCR(PrintProperty(p))];
    assert lines[1..] == [];
    assert START.property + line == line;
    var next := ReadLine(START, line);
    assert Parse(Print([p])) == if next.None? then None else ReadLines(next.value, []);
    assert next.Some? ==> ReadLines(next.value, []) == Some(next.value.entries);
  }

  /** A property survives printing and parsing exactly when it is printable. */
  lemma SurvivesIffPrintable(p: Property)
    ensures SurvivesPrinting(p) <==> IsPrintable(p)
  {
    if IsPrintable(p) {
      assert Keys([p]) == [p.key];
      PrintParseRoundTrip([p]);
      assert UncommentedAll([p]) == [Uncommented(p)];
    }
    if SurvivesPrinting(p) {
      SurvivorIsPrintable(p);
    }
  }

  lemma SurvivorIsPrintable(p: Property)
    requires SurvivesPrinting(p)
    ensures IsPrintable(p)
  {
    var s := PrintProperty(p);
    LinesHaveNoNewline(Print([p]));
    ReadKeepsOneLine(START, Lines(Print([p])));
    assert IsOneLine(Parse(Print([p])).value[0]);
    assert IsOneLine(p);
    EscapeHasNoNewline(p.key);
    OneLineParse(p);
    var i, j := TrimmedLine(s);
    assert ReadsBack(p, s[i..j]);
    assert p.key != "";
    LineIsWhole(p, i, j);
    ReadBackIsPrintable(p);
  }
}
