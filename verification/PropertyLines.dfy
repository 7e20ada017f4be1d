/**
 How the lines of a properties text work together: continued lines, comments and
 blank lines, each in any context.
 */
module PropertyLines {
  import opened Wrappers
  import opened Text
  import opened Escaping
  import opened PropertyList
  import opened PropertyOrder
  import opened PropertyText

  // ---------------------------------------------------------------------------
  // Texts and their lines

  /** The text of some lines, each with its end of line. */
  function TextOf(lines: seq<string>): string {
    if lines == [] then "" else lines[0] + "\n" + TextOf(lines[1..])
  }

  /** A trimmed line that is not blank. */
  predicate IsLine(l: string) {
    l != "" && IsTrimmed(l) && '\n' !in l
  }

  ghost predicate AreLines(lines: seq<string>) {
    forall i :: 0 <= i < |lines| ==> IsLine(lines[i])
  }

  /** A text that ends where a line ends. */
  predicate EndsLine(text: string) {
    text == "" || text[|text| - 1] == '\n'
  }

  lemma {:induction false} LinesAppend(a: string, b: string)
    requires EndsLine(a)
    ensures Lines(a + b) == Lines(a) + Lines(b)
    decreases |a|
  {
    hide Lines, DropCR;
    if a == "" {
      LinesOfNothing();
      assert a + b == b;
    } else {
      var i := IndexFrom(a, '\n', 0);
      var line, rest := a[..i], a[i + 1..];
      LinesOfFirst(line, rest, b);
      LinesAppend(rest, b);
      assert a == line + "\n" + rest;
    }
  }

  lemma LinesOfFirst(line: string, rest: string, more: string)
    requires '\n' !in line
    ensures Lines(line + "\n" + rest) == [DropCR(line)] + Lines(rest)
    ensures Lines(line + "\n" + rest + more) == [DropCR(line)] + Lines(rest + more)
  {
    hide Lines, DropCR;
    assert line + "\n" + rest + more == line + "\n" + (rest + more);
    LinesOfLine(line, rest);
    LinesOfLine(line, rest + more);
  }

  lemma LineIsWhole(line: string)
    requires IsLine(line)
    ensures '\n' !in line && DropCR(line) == line
  {
  }

  lemma {:induction false} LinesOfText(lines: seq<string>, rest: string)
    requires AreLines(lines)
    ensures Lines(TextOf(lines) + rest) == lines + Lines(rest)
    decreases |lines|
  {
    hide Lines, IsLine, DropCR;
    if lines == [] {
      assert TextOf(lines) + rest == rest;
    } else {
      var line, more := lines[0], lines[1..];
      LineIsWhole(line);
      LinesOfFirst(line, TextOf(more), rest);
      assert forall i :: 0 <= i < |more| ==> more[i] == lines[i + 1];
      LinesOfText(more, rest);
    }
  }

  // ---------------------------------------------------------------------------
  // Reading in steps

  /** The state of the parser after some lines; None stands for the error. */
  function StateAfter(st: Progress, lines: seq<string>): Option<Progress>
    decreases |lines|
  {
    if lines == [] then Some(st)
    else
      var next := ReadLine(st, Trim(lines[0]));
      if next.None? then None else StateAfter(next.value, lines[1..])
  }

  lemma {:induction false} ReadInSteps(st: Progress, a: seq<string>, b: seq<string>)
    ensures ReadLines(st, a + b) ==
      if StateAfter(st, a).None? then None else ReadLines(StateAfter(st, a).value, b)
    decreases |a|
  {
    if a == [] {
      assert a + b == b;
    } else {
      assert (a + b)[0] == a[0] && (a + b)[1..] == a[1..] + b;
      var next := ReadLine(st, Trim(a[0]));
      if next.Some? {
        ReadInSteps(next.value, a[1..], b);
      }
    }
  }

  /** Lines that do the same in every state of the parser may replace each other anywhere in a text. */
  lemma ReplaceLines(before: string, a: seq<string>, b: seq<string>, rest: string)
    requires EndsLine(before) && AreLines(a) && AreLines(b)
    requires forall st :: StateAfter(st, a) == StateAfter(st, b)
    ensures Parse(before + TextOf(a) + rest) == Parse(before + TextOf(b) + rest)
  {
    hide ReadLines, StateAfter, Lines;
    ReadText(before, a, rest);
    ReadText(before, b, rest);
  }

  lemma ReadText(before: string, lines: seq<string>, rest: string)
    requires EndsLine(before) && AreLines(lines)
    ensures Parse(before + TextOf(lines) + rest) ==
      var first := StateAfter(START, Lines(before));
      if first.None? || StateAfter(first.value, lines).None? then None
      else ReadLines(StateAfter(first.value, lines).value, Lines(rest))
  {
    hide ReadLines, StateAfter, Lines;
    assert before + TextOf(lines) + rest == before + (TextOf(lines) + rest);
    LinesAppend(before, TextOf(lines) + rest);
    LinesOfText(lines, rest);
    ReadInSteps(START, Lines(before), lines + Lines(rest));
    var first := StateAfter(START, Lines(before));
    if first.Some? {
      ReadInSteps(first.value, lines, Lines(rest));
    }
  }

  lemma StateAfterOne(st: Progress, line: string)
    requires IsLine(line)
    ensures StateAfter(st, [line]) == ReadLine(st, line)
  {
    TrimFixed(line);
    hide Trim, ReadLine;
  }

  lemma StateAfterMore(st: Progress, line: string, more: seq<string>)
    requires IsLine(line)
    ensures StateAfter(st, [line] + more) ==
      if ReadLine(st, line).None? then None else StateAfter(ReadLine(st, line).value, more)
  {
    TrimFixed(line);
    hide Trim, ReadLine;
    assert ([line] + more)[1..] == more;
  }

  // ---------------------------------------------------------------------------
  // Continued lines

  /** Lines of one property: no comment among them, and all but the last end in an escape. */
  ghost predicate IsContinuedProperty(parts: seq<string>) {
    && parts != [] && AreLines(parts)
    && (forall i :: 0 <= i < |parts| ==> parts[i][0] !in {'#', '!'})
    && (forall i :: 0 <= i < |parts| ==> (parts[i][|parts[i]| - 1] == '\\' <==> i < |parts| - 1))
  }

  /** The parts one after the other, without the escapes at the ends of lines. */
  function Joined(parts: seq<string>): string
    requires parts != [] && forall i :: 0 <= i < |parts| ==> parts[i] != ""
  {
    if |parts| == 1 then parts[0] else parts[0][..|parts[0]| - 1] + Joined(parts[1..])
  }

  lemma RestIsContinued(parts: seq<string>)
    requires IsContinuedProperty(parts) && |parts| > 1
    ensures IsContinuedProperty(parts[1..])
  {
    var more := parts[1..];
    assert forall i :: 0 <= i < |more| ==> more[i] == parts[i + 1];
  }

  lemma {:induction false} JoinedIsLine(parts: seq<string>)
    requires IsContinuedProperty(parts)
    ensures IsContinuedProperty([Joined(parts)])
    decreases |parts|
  {
    assert IsLine(parts[0]);
    if |parts| == 1 {
      assert parts == [Joined(parts)];
    } else {
      RestIsContinued(parts);
      JoinedIsLine(parts[1..]);
      var head, tail := parts[0][..|parts[0]| - 1], Joined(parts[1..]);
      assert [tail][0] == tail && IsLine(tail);
      var s := head + tail;
      assert Joined(parts) == s;
      assert s[|s| - 1] == tail[|tail| - 1];
      assert s[0] == if head == "" then tail[0] else parts[0][0];
      assert '\n' !in head;
      assert [s][0] == s && IsLine(s);
    }
  }

  lemma {:induction false} ReadsAsJoined(st: Progress, parts: seq<string>)
    requires IsContinuedProperty(parts)
    ensures StateAfter(st, parts) == StateAfter(st, [Joined(parts)])
    decreases |parts|
  {
    hide StateAfter, ParseProperty;
    if |parts| == 1 {
      assert parts == [Joined(parts)];
    } else {
      var more := parts[1..];
      var head, tail := parts[0][..|parts[0]| - 1], Joined(more);
      RestIsContinued(parts);
      JoinedIsLine(parts);
      JoinedIsLine(more);
      assert IsLine(parts[0]) && [tail][0] == tail && IsLine(tail);
      assert [head + tail][0] == head + tail && IsLine(head + tail);
      var next := st.(property := st.property + head);
      assert ReadLine(st, parts[0]) == Some(next);
      assert parts == [parts[0]] + more;
      StateAfterMore(st, parts[0], more);
      ReadsAsJoined(next, more);
      StateAfterOne(next, tail);
      StateAfterOne(st, head + tail);
      assert st.property + head + tail == st.property + (head + tail);
    }
  }

  /**
   Anywhere in a text, a property that is continued over several lines reads as
   the one line that its parts make in their order, without the escapes.
   */
  lemma ContinuedReadsAsJoined(before: string, parts: seq<string>, rest: string)
    requires EndsLine(before) && IsContinuedProperty(parts)
    ensures Parse(before + TextOf(parts) + rest) == Parse(before + (Joined(parts) + "\n") + rest)
  {
    hide Parse, StateAfter;
    JoinedIsLine(parts);
    PartsAreLines(parts);
    PartsAreLines([Joined(parts)]);
    forall st ensures StateAfter(st, parts) == StateAfter(st, [Joined(parts)]) {
      ReadsAsJoined(st, parts);
    }
    ReplaceLines(before, parts, [Joined(parts)], rest);
    assert [Joined(parts)][1..] == [];
    assert TextOf([]) == "";
    assert TextOf([Joined(parts)]) == Joined(parts) + "\n";
  }

  lemma PartsAreLines(parts: seq<string>)
    requires IsContinuedProperty(parts)
    ensures AreLines(parts)
  {
  }

  // ---------------------------------------------------------------------------
  // Comments

  ghost predicate AreComments(lines: seq<string>) {
    AreLines(lines) && forall i :: 0 <= i < |lines| ==> lines[i][0] in {'#', '!'}
  }

  /** The same keys and values in the same order, or the same error. */
  predicate SameOutcome(a: Option<Entries>, b: Option<Entries>) {
    if a.None? || b.None? then a == b else UncommentedAll(a.value) == UncommentedAll(b.value)
  }

  ghost predicate Alike(a: Progress, b: Progress) {
    a.property == b.property && UncommentedAll(a.entries) == UncommentedAll(b.entries)
  }

  lemma {:induction false} PutAlike(a: Entries, b: Entries, p: Property, q: Property)
    requires UncommentedAll(a) == UncommentedAll(b) && Uncommented(p) == Uncommented(q)
    ensures UncommentedAll(Put(a, p)) == UncommentedAll(Put(b, q))
    decreases |a|
  {
    assert |UncommentedAll(a)| == |a| && |UncommentedAll(b)| == |b|;
    if a != [] {
      assert UncommentedAll(a)[0] == UncommentedAll(b)[0];
      assert UncommentedAll(a[1..]) == UncommentedAll(a)[1..] == UncommentedAll(b)[1..] == UncommentedAll(b[1..]);
      PutAlike(a[1..], b[1..], p, q);
      UncommentedCons(a[0], Put(a[1..], p));
      UncommentedCons(b[0], Put(b[1..], q));
      UncommentedCons(p, a[1..]);
      UncommentedCons(q, b[1..]);
    }
  }

  lemma UncommentedCons(p: Property, l: Entries)
    ensures UncommentedAll([p] + l) == [Uncommented(p)] + UncommentedAll(l)
  {
  }

  lemma {:induction false} ReadAlike(a: Progress, b: Progress, lines: seq<string>)
    requires Alike(a, b)
    ensures SameOutcome(ReadLines(a, lines), ReadLines(b, lines))
    decreases |lines|
  {
    if lines != [] {
      var line := Trim(lines[0]);
      LineAlike(a, b, line);
      hide ReadLine, Trim, Alike;
      if ReadLine(a, line).Some? {
        ReadAlike(ReadLine(a, line).value, ReadLine(b, line).value, lines[1..]);
      }
    }
  }

  lemma LineAlike(a: Progress, b: Progress, line: string)
    requires Alike(a, b)
    ensures ReadLine(a, line).Some? == ReadLine(b, line).Some?
    ensures ReadLine(a, line).Some? ==> Alike(ReadLine(a, line).value, ReadLine(b, line).value)
  {
    var p, q := ParseProperty(a.property + line, a.comment), ParseProperty(b.property + line, b.comment);
    assert p.Some? == q.Some? && (p.Some? ==> Uncommented(p.value) == Uncommented(q.value));
    hide ParseProperty, UncommentedAll;
    if p.Some? {
      PutAlike(a.entries, b.entries, p.value, q.value);
    }
  }

  lemma {:induction false} CommentsOnly(st: Progress, lines: seq<string>)
    requires AreComments(lines)
    ensures StateAfter(st, lines) == Some(st.(comment := st.comment + TextOf(lines)))
    decreases |lines|
  {
    if lines == [] {
      assert st.comment + "" == st.comment;
    } else {
      var line, more := lines[0], lines[1..];
      var next := st.(comment := st.comment + line + "\n");
      assert IsLine(line);
      assert ReadLine(st, line) == Some(next);
      assert lines == [line] + more;
      StateAfterMore(st, line, more);
      CommentsOnly(next, more);
      assert st.comment + line + "\n" + TextOf(more) == st.comment + TextOf(lines);
    }
  }

  /** Comment lines anywhere in a text, also between the parts of a property, change no key and no value. */
  lemma CommentsChangeNoBinding(before: string, comments: seq<string>, rest: string)
    requires EndsLine(before) && AreComments(comments)
    ensures SameOutcome(Parse(before + TextOf(comments) + rest), Parse(before + rest))
  {
    hide ReadLines, StateAfter, Lines, TextOf, UncommentedAll;
    ReadText(before, comments, rest);
    LinesAppend(before, rest);
    ReadInSteps(START, Lines(before), Lines(rest));
    var first := StateAfter(START, Lines(before));
    if first.Some? {
      CommentsOnly(first.value, comments);
      ReadAlike(StateAfter(first.value, comments).value, first.value, Lines(rest));
    }
  }

  // ---------------------------------------------------------------------------
  // Blank lines, and a whole paragraph

  /** A line that completes nothing: a comment, or a line that ends in an escape. */
  predicate IsBegun(l: string) {
    l != "" && (l[0] in {'#', '!'} || l[|l| - 1] == '\\')
  }

  ghost predicate AreBegun(lines: seq<string>) {
    AreLines(lines) && forall i :: 0 <= i < |lines| ==> IsBegun(lines[i])
  }

  lemma {:induction false} BegunCompletesNothing(st: Progress, lines: seq<string>)
    requires AreBegun(lines)
    ensures StateAfter(st, lines).Some? && StateAfter(st, lines).value.entries == st.entries
    decreases |lines|
  {
    if lines != [] {
      var line := lines[0];
      assert IsLine(line) && ReadLine(st, line).Some?;
      assert lines == [line] + lines[1..];
      StateAfterMore(st, line, lines[1..]);
      BegunCompletesNothing(ReadLine(st, line).value, lines[1..]);
    }
  }

  lemma BlankLine(rest: string)
    ensures Lines("\n" + rest) == [""] + Lines(rest)
  {
    assert "\n" + rest == "" + "\n" + rest;
    LinesOfLine("", rest);
  }

  lemma ReadBlank(st: Progress, rest: string)
    ensures ReadLines(st, Lines("\n" + rest)) == ReadLines(Progress("", "", st.entries), Lines(rest))
  {
    BlankLine(rest);
    hide Lines;
    var lines := Lines("\n" + rest);
    assert lines[0] == "" && lines[1..] == Lines(rest);
    assert Trim("") == "";
  }

  /** A blank line, or the end of the text, discards what was begun before it: parts of a property and comments. */
  lemma BlankDiscards(before: string, begun: seq<string>, rest: string)
    requires EndsLine(before) && AreBegun(begun)
    ensures Parse(before + TextOf(begun) + ("\n" + rest)) == Parse(before + ("\n" + rest))
    ensures Parse(before + TextOf(begun)) == Parse(before)
  {
    hide ReadLines, StateAfter, Lines, TextOf;
    ReadText(before, begun, "\n" + rest);
    ReadText(before, begun, "");
    LinesAppend(before, "\n" + rest);
    ReadInSteps(START, Lines(before), Lines("\n" + rest));
    assert before + TextOf(begun) + "" == before + TextOf(begun);
    assert Lines(before) + [] == Lines(before);
    ReadInSteps(START, Lines(before), []);
    LinesOfNothing();
    var first := StateAfter(START, Lines(before));
    if first.Some? {
      BegunCompletesNothing(first.value, begun);
      ReadBlank(first.value, rest);
      ReadBlank(StateAfter(first.value, begun).value, rest);
      ReadNothing(first.value);
      ReadNothing(StateAfter(first.value, begun).value);
    }
  }

  lemma ReadNothing(st: Progress)
    ensures ReadLines(st, []) == Some(st.entries)
  {
  }

  // ---------------------------------------------------------------------------
  // One property

  /**
   A line that is not continued is split at its first separator that has no
   escape directly before it: before it stands the key, behind it the value.
   */
  lemma LineGivesProperty(left: string, separator: char, right: string)
    requires separator in {'=', ':', ' '} && left != ""
    requires forall i :: 0 <= i < |left| && left[i] in {'=', ':', ' '} ==> i > 0 && left[i - 1] == '\\'
    requires left[|left| - 1] != '\\' && IsContinuedProperty([left + [separator] + right])
    ensures Parse(left + [separator] + right) == Some([Property(Unescape(Trim(left)), Trim(right), "")])
  {
    var line := left + [separator] + right;
    assert [line][0] == line && IsLine(line);
    hide Unescape;
    assert forall i :: 0 <= i < |left| ==> line[i] == left[i];
    FirstSeparatorSpec(line, 0);
    assert IsFirstSeparator(line, |left|);
    assert line[..|left|] == left && line[|left| + 1..] == right;
    assert ParseProperty(line, "") == Some(Property(Unescape(Trim(left)), Trim(right), ""));
    hide *;
    ParseLine(line, "");
  }

  /** A text of one line. */
  lemma ParseLine(line: string, comment: string)
    requires IsContinuedProperty([line])
    ensures Parse(line) == if ParseProperty(line, "").None? then None else Some([ParseProperty(line, "").value])
    ensures ParseProperty(line, comment) ==
      if ParseProperty(line, "").None? then None else Some(ParseProperty(line, "").value.(comment := comment))
  {
    assert [line][0] == line && IsLine(line);
    assert ReadLine(START, line) ==
      if ParseProperty(line, "").None? then None else Some(Progress("", "", [ParseProperty(line, "").value])) by {
      assert "" + line == line;
    }
    LineIsWhole(line);
    assert Lines(line) == [line];
    StateAfterOne(START, line);
    ReadInSteps(START, [line], []);
    assert [line] + [] == [line];
  }

  /** After a blank line, comment lines become the comment of the property that follows, in their order. */
  lemma CommentsAreKept(before: string, comments: seq<string>, line: string)
    requires EndsLine(before) && AreComments(comments) && IsContinuedProperty([line])
    ensures Parse(line).Some? ==> |Parse(line).value| == 1
    ensures Parse(before + "\n" + TextOf(comments) + (line + "\n")) ==
      if Parse(before).None? || Parse(line).None? then None
      else Some(Put(Parse(before).value, Parse(line).value[0].(comment := TextOf(comments))))
  {
    var start := before + "\n";
    assert [line][0] == line && IsLine(line);
    ParseLine(line, TextOf(comments));
    StateAfterBlank(before);
    EndOfLine(line);
    hide Lines, ParseProperty, StateAfter, IsLine, TextOf, ReadLines;
    ReadText(start, comments, line + "\n");
    var first := StateAfter(START, Lines(start));
    if first.Some? {
      CommentsOnly(first.value, comments);
      assert "" + TextOf(comments) == TextOf(comments);
      assert first.value == Progress("", "", Parse(before).value);
      var commented := Progress("", TextOf(comments), Parse(before).value);
      ReadOne(commented, line);
    }
  }

  lemma ReadOne(st: Progress, line: string)
    requires IsContinuedProperty([line]) && st.property == ""
    ensures
      var p := ParseProperty(line, st.comment);
      ReadLines(st, [line]) == if p.None? then None else Some(Put(st.entries, p.value))
  {
    assert [line][0] == line && IsLine(line);
    TrimFixed(line);
    hide Trim, ParseProperty, IsTrimmed;
    assert "" + line == line;
    assert [line][1..] == [];
    var p := ParseProperty(line, st.comment);
    assert ReadLine(st, line) == if p.None? then None else Some(Progress("", "", Put(st.entries, p.value)));
  }

  lemma EndOfLine(line: string)
    requires IsLine(line)
    ensures Lines(line + "\n") == [line]
  {
    LineIsWhole(line);
    LinesOfFirst(line, "", "");
    LinesOfNothing();
    hide Lines;
    assert line + "\n" + "" == line + "\n";
  }

  lemma StateAfterBlank(before: string)
    requires EndsLine(before)
    ensures StateAfter(START, Lines(before + "\n")) ==
      if Parse(before).None? then None else Some(Progress("", "", Parse(before).value))
  {
    LinesAppend(before, "\n");
    BlankLine("");
    LinesOfNothing();
    hide Lines;
    assert "\n" + "" == "\n" && [""] + [] == [""];
    StateInSteps(START, Lines(before), [""]);
    ReadInSteps(START, Lines(before), []);
    assert Lines(before) + [] == Lines(before);
    assert Trim("") == "";
  }

  lemma {:induction false} StateInSteps(st: Progress, a: seq<string>, b: seq<string>)
    ensures StateAfter(st, a + b) ==
      if StateAfter(st, a).None? then None else StateAfter(StateAfter(st, a).value, b)
    decreases |a|
  {
    if a == [] {
      assert a + b == b;
    } else {
      assert (a + b)[0] == a[0] && (a + b)[1..] == a[1..] + b;
      var next := ReadLine(st, Trim(a[0]));
      if next.Some? {
        StateInSteps(next.value, a[1..], b);
      }
    }
  }
}
