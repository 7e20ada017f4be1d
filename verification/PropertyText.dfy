/**
 The text form of a property list: printing, and parsing with comments and
 continued lines.
 */
module PropertyText {
  import opened Wrappers
  import opened Text
  import opened Escaping
  import opened PropertyList
  import opened PropertyOrder

  // ---------------------------------------------------------------------------
  // Printing

  function PrintProperty(p: Property): string {
    if p.IsValid() then Escape(p.key) + "=" + p.value else ""
  }

  function Print(l: Entries): string {
    if l == [] then "" else PrintProperty(l[0]) + "\n" + Print(l[1..])
  }

  // ---------------------------------------------------------------------------
  // Parsing

  /** A line that holds a complete property; None stands for the error. */
  function ParseProperty(prop: string, comment: string): Option<Property> {
    var idx := FirstSeparator(prop);
    FirstSeparatorSpec(prop, 0);
    if idx.None? || idx.value == 0 then None
    else Some(Property(Unescape(Trim(prop[..idx.value])), Trim(prop[idx.value + 1..]), comment))
  }

  /** The builders of a property in progress and the properties read so far. */
  datatype Progress = Progress(property: string, comment: string, entries: Entries)

  predicate IsComment(line: string) {
    line != "" && line[0] in {'#', '!'}
  }

  predicate IsContinued(line: string) {
    line != "" && line[|line| - 1] == ESCAPE
  }

  /** What one trimmed line does; None stands for the error. */
  function ReadLine(st: Progress, line: string): Option<Progress> {
    if line == "" then Some(Progress("", "", st.entries))
    else if IsComment(line) then Some(st.(comment := st.comment + line + "\n"))
    else if IsContinued(line) then Some(st.(property := st.property + line[..|line| - 1]))
    else
      var p := ParseProperty(st.property + line, st.comment);
      if p.None? then None else Some(Progress("", "", Put(st.entries, p.value)))
  }

  function ReadLines(st: Progress, lines: seq<string>): Option<Entries>
    decreases |lines|
  {
    if lines == [] then Some(st.entries)
    else
      var next := ReadLine(st, Trim(lines[0]));
      if next.None? then None else ReadLines(next.value, lines[1..])
  }

  const START := Progress("", "", [])

  function Parse(text: string): Option<Entries> {
    ReadLines(START, Lines(text))
  }

  // ---------------------------------------------------------------------------
  // What can be printed and read back

  predicate IsPrintableKey(k: string) {
    && k != "" && '\n' !in k
    && k[0] !in {'#', '!'} && (IsSpace(k[0]) ==> k[0] == ' ')
    && !IsSpace(k[|k| - 1]) && k[|k| - 1] != ESCAPE
    && forall i :: 0 < i < |k| && IsSeparator(k[i]) ==> k[i - 1] != ESCAPE
  }

  predicate IsPrintableValue(v: string) {
    '\n' !in v && IsTrimmed(v) && (v == "" || v[|v| - 1] != ESCAPE)
  }

  predicate IsPrintable(p: Property) {
    IsPrintableKey(p.key) && IsPrintableValue(p.value)
  }

  ghost predicate AllPrintable(l: Entries) {
    forall p :: p in l ==> IsPrintable(p)
  }

  function Uncommented(p: Property): Property {
    p.(comment := "")
  }

  lemma {:induction false} EscapeHasNoNewline(k: string)
    ensures '\n' in Escape(k) <==> '\n' in k
  {
    if k != "" {
      EscapeHasNoNewline(k[..|k| - 1]);
      assert k == k[..|k| - 1] + [k[|k| - 1]];
    }
  }

  lemma {:induction false} EscapeKeepsFirst(k: string)
    requires k != ""
    ensures Escape(k) != ""
    ensures Escape(k)[0] == if IsSeparator(k[0]) then ESCAPE else k[0]
  {
    if |k| > 1 {
      EscapeKeepsFirst(k[..|k| - 1]);
    } else {
      assert k[..0] == "";
    }
  }

  /** A key without separators is printed as it is, then an equals sign and the value. */
  lemma {:induction false} PlainIsPrintedAsIs(p: Property)
    requires p.key != "" && forall i :: 0 <= i < |p.key| ==> p.key[i] !in {'=', ':', ' '}
    ensures PrintProperty(p) == p.key + "=" + p.value
  {
    PlainIsNotEscaped(p.key);
  }

  lemma {:induction false} PlainIsNotEscaped(k: string)
    requires forall i :: 0 <= i < |k| ==> k[i] !in {'=', ':', ' '}
    ensures Escape(k) == k
  {
    if k != "" {
      PlainIsNotEscaped(k[..|k| - 1]);
      assert k == k[..|k| - 1] + [k[|k| - 1]];
    }
  }

  /** The printed line: where it starts and ends, and that it is neither blank, comment nor continued. */
  lemma PrintedShape(p: Property)
    requires IsPrintable(p)
    ensures
      var s := PrintProperty(p);
      && s != "" && '\n' !in s && IsTrimmed(s) && DropCR(s) == s && Trim(s) == s
      && !IsComment(s) && !IsContinued(s)
    ensures IsTrimmed(Escape(p.key)) && Escape(p.key) != ""
  {
    var k, v, e, s := p.key, p.value, Escape(p.key), PrintProperty(p);
    EscapeHasNoNewline(k);
    EscapeKeepsFirst(k);
    EscapeKeepsLast(k);
    hide Escape, Trim;
    assert s[0] == e[0];
    assert s[|s| - 1] == if v == "" then '=' else v[|v| - 1];
    TrimFixed(s);
  }

  lemma PrintedParses(p: Property)
    requires IsPrintable(p)
    ensures ParseProperty(PrintProperty(p), "") == Some(Uncommented(p))
  {
    var k, v, e, s := p.key, p.value, Escape(p.key), PrintProperty(p);
    PrintedShape(p);
    SeparatorOfPrinted(k, v);
    EscapeRoundTrip(k);
    TrimFixed(e);
    TrimFixed(v);
    hide Escape, Unescape, FirstSeparatorFrom, Trim;
    assert s[..|e|] == e && s[|e| + 1..] == v;
  }

  /** A printable property is one line that reads back as itself, without its comment. */
  lemma PrintedPropertyReads(p: Property, entries: Entries)
    requires IsPrintable(p)
    ensures '\n' !in PrintProperty(p)
    ensures Trim(DropCR(PrintProperty(p))) == PrintProperty(p)
    ensures ReadLine(Progress("", "", entries), PrintProperty(p)) ==
      Some(Progress("", "", Put(entries, Uncommented(p))))
  {
    hide PrintProperty, ParseProperty, Trim, IsPrintable, IsComment, IsContinued, IsTrimmed;
    PrintedShape(p);
    PrintedParses(p);
    assert "" + PrintProperty(p) == PrintProperty(p);
  }

  lemma PutNew(l: Entries, p: Property)
    requires p.key !in Keys(l)
    ensures Put(l, p) == l + [p]
  {
    if l != [] {
      assert Keys(l)[0] == l[0].key;
      forall i | 0 <= i < |l[1..]| ensures Keys(l[1..])[i] == Keys(l)[i + 1] {
      }
      PutNew(l[1..], p);
    }
  }

  function UncommentedAll(l: Entries): Entries {
    seq(|l|, i requires 0 <= i < |l| => Uncommented(l[i]))
  }

  lemma UncommentedPut(done: Entries, p: Property)
    requires p.key !in Keys(done)
    ensures Put(UncommentedAll(done), Uncommented(p)) == UncommentedAll(done + [p])
  {
    assert Keys(UncommentedAll(done)) == Keys(done);
    PutNew(UncommentedAll(done), Uncommented(p));
  }

  lemma NextIsNew(done: Entries, l: Entries)
    requires l != [] && Distinct(done + l)
    ensures l[0].key !in Keys(done)
    ensures done + l == (done + [l[0]]) + l[1..]
  {
    var keys := Keys(done + l);
    assert keys[|done|] == l[0].key;
    forall i | 0 <= i < |done| ensures Keys(done)[i] != l[0].key {
      assert keys[i] == done[i].key;
    }
  }

  lemma {:induction false} PrintedReads(done: Entries, l: Entries)
    requires AllPrintable(l) && Distinct(done + l)
    ensures ReadLines(Progress("", "", UncommentedAll(done)), Lines(Print(l))) == Some(UncommentedAll(done + l))
    decreases |l|
  {
    hide Lines, ReadLine, UncommentedAll, Trim, DropCR, Put, PrintProperty, NoDuplicates, Keys, IsPrintable;
    if l == [] {
      assert done + l == done;
      LinesOfNothing();
    } else {
      var p, rest := l[0], l[1..];
      PrintedPropertyReads(p, UncommentedAll(done));
      LinesOfLine(PrintProperty(p), Print(rest));
      var lines := Lines(Print(l));
      assert lines[0] == DropCR(PrintProperty(p)) && lines[1..] == Lines(Print(rest));
      NextIsNew(done, l);
      UncommentedPut(done, p);
      PrintedReads(done + [p], rest);
    }
  }

  lemma LinesOfNothing()
    ensures Lines("") == []
  {
  }

  /** Parsing the printed text gives back the same keys and values in the same order, without the comments. */
  lemma PrintParseRoundTrip(l: Entries)
    requires AllPrintable(l) && Distinct(l)
    ensures Parse(Print(l)) == Some(UncommentedAll(l))
    ensures Keys(UncommentedAll(l)) == Keys(l) && EqualEntries(UncommentedAll(l), l)
  {
    hide ReadLines, Lines, Print, Lookup, Uncommented, NoDuplicates, AllPrintable;
    assert [] + l == l;
    assert UncommentedAll([]) == [];
    PrintedReads([], l);
    UncommentedAgrees(l);
  }

  /** Dropping the comments changes no key and no value. */
  lemma UncommentedAgrees(l: Entries)
    requires Distinct(l)
    ensures Keys(UncommentedAll(l)) == Keys(l) && EqualEntries(UncommentedAll(l), l)
  {
    hide Lookup;
    var u := UncommentedAll(l);
    assert Keys(u) == Keys(l);
    forall k | k in Keys(l) ensures Lookup(u, k).Some? && Lookup(u, k).value.Equals(Lookup(l, k).value) {
      var i :| 0 <= i < |l| && Keys(l)[i] == k;
      LookupAt(l, i);
      LookupAt(u, i);
    }
  }

  // ---------------------------------------------------------------------------
  // Sort then print is a canonical form

  lemma {:induction false} PrintOfEquals(l: Entries, m: Entries)
    requires |l| == |m| && forall i :: 0 <= i < |l| ==> l[i].Equals(m[i])
    ensures Print(l) == Print(m)
  {
    if l != [] {
      PrintOfEquals(l[1..], m[1..]);
    }
  }

  /** Equal lists print the same text once sorted; for printable lists the text determines the bindings. */
  lemma SortedTextIsCanonical(l: Entries, m: Entries)
    requires Distinct(l) && Distinct(m)
    ensures EqualEntries(l, m) ==> Print(SortEntries(l)) == Print(SortEntries(m))
    ensures AllPrintable(l) && AllPrintable(m) ==>
      (EqualEntries(l, m) <==> Print(SortEntries(l)) == Print(SortEntries(m)))
  {
    var s, t := SortEntries(l), SortEntries(m);
    if EqualEntries(l, m) {
      SortIsCanonical(l, m);
      PrintOfEquals(s, t);
    }
    if AllPrintable(l) && AllPrintable(m) && Print(s) == Print(t) {
      SameTextSameBindings(l, m);
    }
  }

  lemma SortedIsPrintable(l: Entries)
    requires Distinct(l) && AllPrintable(l)
    ensures AllPrintable(SortEntries(l))
  {
    SortSpec(l);
    var s := SortEntries(l);
    forall p | p in s ensures IsPrintable(p) {
      var i :| 0 <= i < |s| && s[i] == p;
      LookupAt(s, i);
      assert Lookup(l, p.key) == Some(p);
    }
  }

  lemma SameTextSameBindings(l: Entries, m: Entries)
    requires Distinct(l) && Distinct(m) && AllPrintable(l) && AllPrintable(m)
    requires Print(SortEntries(l)) == Print(SortEntries(m))
    ensures EqualEntries(l, m)
  {
    var s, t := SortEntries(l), SortEntries(m);
    SortedIsPrintable(l);
    SortedIsPrintable(m);
    SortSpec(l);
    SortSpec(m);
    PrintParseRoundTrip(s);
    PrintParseRoundTrip(t);
    EqualMeansAgreement(UncommentedAll(s), s);
    EqualMeansAgreement(UncommentedAll(t), t);
    forall k ensures Agree(Lookup(l, k), Lookup(m, k)) {
      assert Agree(Lookup(UncommentedAll(s), k), Lookup(s, k));
      assert Agree(Lookup(UncommentedAll(t), k), Lookup(t, k));
    }
    EqualMeansAgreement(l, m);
  }
}
