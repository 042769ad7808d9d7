/** The WHEEL file of a wheel: made the platform's, and read for its tags. */
module WheelTags {
  import opened Text

  const TAG := "Tag:"
  const TAG_ROW := "Tag: "
  const PURELIB := "Root-Is-Purelib:"
  const NOT_PURE := "Root-Is-Purelib: false"

  // ----- making it -----

  predicate IsKept(line: string) { line != "" && !StartsWith(line, TAG) }

  /** The lines that stay, with the purity of the wheel denied. */
  function KeptLines(lines: seq<string>): seq<string> {
    if lines == [] then []
    else
      var rest := KeptLines(lines[1..]);
      if !IsKept(lines[0]) then rest
      else if StartsWith(lines[0], PURELIB) then [NOT_PURE] + rest
      else [lines[0]] + rest
  }

  function TagNames(tag: string): seq<string> {
    var tags := Split(tag, '.');
    seq(|tags|, i requires 0 <= i < |tags| => "py3-none-" + tags[i])
  }

  function TagRows(names: seq<string>): seq<string> {
    seq(|names|, i requires 0 <= i < |names| => TAG_ROW + names[i])
  }

  function PlatformLines(lines: seq<string>, tag: string): seq<string> {
    var kept := KeptLines(lines);
    (if NOT_PURE in kept then kept else kept + [NOT_PURE]) + TagRows(TagNames(tag))
  }

  /** The WHEEL file of a pure wheel, made the platform wheel's. */
  function PlatformFile(text: string, tag: string): string {
    Join(PlatformLines(Lines(text), tag), '\n') + "\n"
  }

  // ----- reading it -----

  /** Whether a row states a tag: the words, and then at least one character and no space. */
  predicate StatesTag(row: string, space: char -> bool) {
    StartsWith(row, TAG_ROW) && |row| > |TAG_ROW| && forall i :: |TAG_ROW| <= i < |row| ==> !space(row[i])
  }

  function TagsIn(rows: seq<string>, space: char -> bool): seq<string> {
    if rows == [] then []
    else TagIn(rows[0], space) + TagsIn(rows[1..], space)
  }

  function TagIn(row: string, space: char -> bool): seq<string> {
    if StatesTag(row, space) then [row[|TAG_ROW|..]] else []
  }

  function FindTags(text: string, space: char -> bool): seq<string> {
    TagsIn(Split(text, '\n'), space)
  }

  /** `part in text`. */
  predicate Contains(text: string, part: string) {
    StartsWith(text, part) || (text != "" && Contains(text[1..], part))
  }

  // ----- what is written is read -----

  /** A platform's tags hold no space and no newline. */
  ghost predicate CleanTags(names: seq<string>, space: char -> bool) {
    forall i :: 0 <= i < |names| ==> names[i] != "" && Free(names[i], '\n') && forall k :: 0 <= k < |names[i]| ==>
        !space(names[i][k])
  }

  lemma {:induction false} KeptAreRows(lines: seq<string>)
    requires forall i :: 0 <= i < |lines| ==> BreakFree(lines[i])
    ensures forall i :: 0 <= i < |KeptLines(lines)| ==>
            Free(KeptLines(lines)[i], '\n') && !StartsWith(KeptLines(lines)[i], TAG_ROW)
  {
    if lines != [] {
      KeptAreRows(lines[1..]);
      NotPureIsARow();
      if IsKept(lines[0]) {
        NotATagRow(lines[0]);
      }
    }
  }

  lemma NotATagRow(line: string)
    requires !StartsWith(line, TAG)
    ensures !StartsWith(line, TAG_ROW)
  {
    assert |TAG_ROW| <= |line| ==> line[..|TAG|] == line[..|TAG_ROW|][..|TAG|];
    assert TAG_ROW[..|TAG|] == TAG;
  }

  lemma NotPureIsARow()
    ensures Free(NOT_PURE, '\n') && !StartsWith(NOT_PURE, TAG_ROW)
  {
    assert NOT_PURE[..|TAG_ROW|][0] == 'R';
  }

  lemma {:induction false} TagsConcat(a: seq<string>, b: seq<string>, space: char -> bool)
    ensures TagsIn(a + b, space) == TagsIn(a, space) + TagsIn(b, space)
  {
    if a == [] {
      assert a + b == b;
    } else {
      assert (a + b)[1..] == a[1..] + b && (a + b)[0] == a[0];
      TagsConcat(a[1..], b, space);
      Regroup(TagIn(a[0], space), TagsIn(a[1..], space), TagsIn(b, space));
    }
  }

  lemma Regroup(a: seq<string>, b: seq<string>, c: seq<string>)
    ensures a + (b + c) == (a + b) + c
  {
  }

  lemma {:induction false} NoTags(rows: seq<string>, space: char -> bool)
    requires forall i :: 0 <= i < |rows| ==> !StartsWith(rows[i], TAG_ROW)
    ensures TagsIn(rows, space) == []
  {
    if rows != [] {
      NoTags(rows[1..], space);
    }
  }

  lemma {:induction false} AllTags(names: seq<string>, space: char -> bool)
    requires CleanTags(names, space)
    ensures TagsIn(TagRows(names), space) == names
  {
    if names != [] {
      var row := TAG_ROW + names[0];
      assert TagRows(names)[0] == row && TagRows(names)[1..] == TagRows(names[1..]);
      assert row[..|TAG_ROW|] == TAG_ROW && row[|TAG_ROW|..] == names[0];
      assert CleanTags(names[1..], space);
      AllTags(names[1..], space);
    }
  }

  lemma PlatformLinesAreRows(lines: seq<string>, tag: string, space: char -> bool)
    requires (forall i :: 0 <= i < |lines| ==> BreakFree(lines[i])) && CleanTags(TagNames(tag), space)
    ensures forall i :: 0 <= i < |PlatformLines(lines, tag)| ==> Free(PlatformLines(lines, tag)[i], '\n')
  {
    KeptAreRows(lines);
    NotPureIsARow();
    var rows, names := TagRows(TagNames(tag)), TagNames(tag);
    forall i | 0 <= i < |rows| ensures Free(rows[i], '\n') {
      assert rows[i] == TAG_ROW + names[i];
    }
  }

  lemma FrontHasNoTags(lines: seq<string>, space: char -> bool)
    requires forall i :: 0 <= i < |lines| ==> BreakFree(lines[i])
    ensures var kept := KeptLines(lines); TagsIn(if NOT_PURE in kept then kept else kept + [NOT_PURE], space) == []
  {
    var kept := KeptLines(lines);
    KeptAreRows(lines);
    NoTags(kept, space);
    NotPureIsNoTag(space);
    TagsConcat(kept, [NOT_PURE], space);
  }

  lemma NotPureIsNoTag(space: char -> bool)
    ensures TagsIn([NOT_PURE], space) == []
  {
    NotPureIsARow();
    NoTags([NOT_PURE], space);
  }

  lemma PlatformTags(lines: seq<string>, tag: string, space: char -> bool) returns (all: seq<string>)
    requires (forall i :: 0 <= i < |lines| ==> BreakFree(lines[i])) && CleanTags(TagNames(tag), space)
    ensures all == PlatformLines(lines, tag) + [""] && TagsIn(all, space) == TagNames(tag)
  {
    var kept, rows := KeptLines(lines), TagRows(TagNames(tag));
    var front := if NOT_PURE in kept then kept else kept + [NOT_PURE];
    FrontHasNoTags(lines, space);
    AllTags(TagNames(tag), space);
    TagsConcat(front, rows, space);
    all := front + rows + [""];
    NoTags([""], space);
    TagsConcat(front + rows, [""], space);
  }

  /** The tags read from a platform's WHEEL file are the platform's, whatever the pure file said. */
  lemma TagsReadBack(text: string, tag: string, space: char -> bool)
    requires CleanTags(TagNames(tag), space)
    ensures FindTags(PlatformFile(text, tag), space) == TagNames(tag)
  {
    LinesAreBreakFree(text);
    PlatformLinesAreRows(Lines(text), tag, space);
    var all := PlatformTags(Lines(text), tag, space);
    JoinedRows(PlatformLines(Lines(text), tag), all);
  }

  lemma JoinedRows(rows: seq<string>, all: seq<string>)
    requires rows != [] && all == rows + [""] && forall i :: 0 <= i < |rows| ==> Free(rows[i], '\n')
    ensures Split(Join(rows, '\n') + "\n", '\n') == all
  {
    var text := EndedJoin(rows, all);
    SplitJoin(all, '\n');
  }

  lemma EndedJoin(rows: seq<string>, all: seq<string>) returns (text: string)
    requires rows != [] && all == rows + [""]
    ensures text == Join(rows, '\n') + "\n" && text == Join(all, '\n')
  {
    text := Join(all, '\n');
    JoinMore(rows, "", '\n');
  }

  lemma {:induction false} JoinMore(rows: seq<string>, last: string, sep: char)
    requires rows != []
    ensures Join(rows + [last], sep) == Join(rows, sep) + [sep] + last
  {
    assert (rows + [last])[1..] == rows[1..] + [last];
    if |rows| > 1 {
      JoinMore(rows[1..], last, sep);
    } else {
      assert rows[1..] + [last] == [last];
    }
  }

  lemma {:induction false} ContainsMore(text: string, more: string, part: string)
    requires Contains(text, part)
    ensures Contains(text + more, part)
  {
    if StartsWith(text, part) {
      assert (text + more)[..|part|] == text[..|part|];
    } else {
      assert (text + more)[1..] == text[1..] + more;
      ContainsMore(text[1..], more, part);
    }
  }

  lemma {:induction false} ContainsLater(front: string, text: string, part: string)
    requires Contains(text, part)
    ensures Contains(front + text, part)
  {
    if front == "" {
      assert front + text == text;
    } else {
      assert (front + text)[1..] == front[1..] + text;
      ContainsLater(front[1..], text, part);
    }
  }

  /** A row of a joined text is part of it. */
  lemma {:induction false} JoinContains(rows: seq<string>, i: nat, sep: char)
    requires i < |rows|
    ensures Contains(Join(rows, sep), rows[i])
  {
    if i == 0 {
      assert Join(rows, sep)[..|rows[0]|] == rows[0];
    } else {
      JoinContains(rows[1..], i - 1, sep);
      ContainsLater(rows[0] + [sep], Join(rows[1..], sep), rows[i]);
    }
  }

  /** A platform's WHEEL file denies being pure. */
  lemma PurityIsDenied(text: string, tag: string)
    ensures Contains(PlatformFile(text, tag), NOT_PURE)
  {
    var lines := PlatformLines(Lines(text), tag);
    assert NOT_PURE in lines;
    var i :| 0 <= i < |lines| && lines[i] == NOT_PURE;
    JoinContains(lines, i, '\n');
    ContainsMore(Join(lines, '\n'), "\n", NOT_PURE);
  }
}
