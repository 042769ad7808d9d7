/** Reading the lines a diff adds: `added_lines` inverts the printing of edits. */
module PrivateTerms {
  import opened Options
  import opened Text
  import opened Decimal
  import opened EditScript

  /** An added line: where it lands and what it says. */
  datatype Added = Added(path: string, line: int, text: string)

  datatype State = State(path: Option<string>, line: int, inHeader: bool)

  // ----- the reader -----

  /** ASCII white space. */
  predicate IsSpace(c: char) {
    c == ' ' || '\t' <= c <= '\r' || '\U{001C}' <= c <= '\U{001F}'
  }

  function SkipWord(s: string): (rest: string)
    ensures |rest| <= |s|
  {
    if s == "" || IsSpace(s[0]) then s else SkipWord(s[1..])
  }

  /** The new side's first line number of a row that reads as a hunk. */
  function HunkStart(row: string): Option<nat> {
    if !StartsWith(row, "@@ -") then None
    else
      var rest := SkipWord(row[4..]);
      if |rest| == |row| - 4 || !StartsWith(rest, " +") then None
      else
        var number := TakeNumber(rest[2..]);
        if number.None? then None else Some(number.value.0)
  }

  function Step(s: State, row: string): (State, seq<Added>) {
    if StartsWith(row, TITLE) then (s.(path := None, inHeader := true), [])
    else if s.inHeader && StartsWith(row, LABEL) then
      (s.(path := if StartsWith(row, "+++ b/") then Some(row[6..]) else None), [])
    else
      var hunk := HunkStart(row);
      if hunk.Some? then (s.(inHeader := false, line := hunk.value), [])
      else if !s.inHeader && s.path.Some? && StartsWith(row, "+") then
        (s.(line := s.line + 1), [Added(s.path.value, s.line, row[1..])])
      else (s, [])
  }

  datatype Outcome = Outcome(state: State, out: seq<Added>)

  function Reading(s: State, rows: seq<string>): Outcome {
    if rows == [] then Outcome(s, [])
    else
      var before := Reading(s, rows[..|rows| - 1]);
      var after := Step(before.state, rows[|rows| - 1]);
      Outcome(after.0, before.out + after.1)
  }

  const START := State(None, 0, false)

  /** The lines a diff adds, row by row. */
  method AddedLines(diff: string) returns (out: seq<Added>)
    ensures out == Reading(START, Lines(diff)).out
  {
    var rows := Lines(diff);
    var path: Option<string>, line, inHeader := None, 0, false;
    out := [];
    for i := 0 to |rows|
      invariant Reading(START, rows[..i]) == Outcome(State(path, line, inHeader), out)
    {
      var row := rows[i];
      assert rows[..i + 1][..i] == rows[..i];
      var hunk := HunkStart(row);
      if StartsWith(row, "diff --git ") {
        path, inHeader := None, true;
      } else if inHeader && StartsWith(row, "+++ ") {
        path := if StartsWith(row, "+++ b/") then Some(row[6..]) else None;
      } else if hunk.Some? {
        inHeader, line := false, hunk.value;
      } else if !inHeader && path.Some? && StartsWith(row, "+") {
        out := out + [Added(path.value, line, row[1..])];
        line := line + 1;
      }
    }
    assert rows[..|rows|] == rows;
  }

  lemma {:induction false} ReadingConcat(s: State, a: seq<string>, b: seq<string>)
    ensures var first := Reading(s, a);
            var second := Reading(first.state, b);
            Reading(s, a + b) == Outcome(second.state, first.out + second.out)
  {
    if b == [] {
      assert a + b == a;
    } else {
      assert (a + b)[..|a + b| - 1] == a + b[..|b| - 1];
      ReadingConcat(s, a, b[..|b| - 1]);
    }
  }

  /** The same reader over printed parts: one part after the other. */
  function ReadPrint(s: State, p: Print): Outcome
    decreases p
  {
    match p
    case Nothing => Outcome(s, [])
    case Row(text) => var after := Step(s, text); Outcome(after.0, after.1)
    case Then(first, second) =>
      var before := ReadPrint(s, first);
      var after := ReadPrint(before.state, second);
      Outcome(after.state, before.out + after.out)
  }

  lemma {:induction false} PrintIsRead(s: State, p: Print)
    ensures Reading(s, Rows(p)) == ReadPrint(s, p)
    decreases p
  {
    match p {
      case Nothing =>
      case Row(text) =>
        var rows := [text];
        assert rows[..|rows| - 1] == [];
        assert Reading(s, []) == Outcome(s, []);
      case Then(first, second) =>
        PrintIsRead(s, first);
        PrintIsRead(ReadPrint(s, first).state, second);
        ReadingConcat(s, Rows(first), Rows(second));
    }
  }

  // ----- rows as they are printed -----

  lemma QuietStep(s: State, row: string)
    requires Quiet(row)
    ensures Step(s, row) == (s, [])
  {
    assert StartsWith("@@ -", "@@") && StartsWith(LABEL, "+");
    NoLongerPrefix(row, "@@", "@@ -");
    NoLongerPrefix(row, "+", LABEL);
  }

  lemma {:induction false} QuietReading(s: State, p: Print)
    requires QuietPrint(p)
    ensures ReadPrint(s, p) == Outcome(s, [])
  {
    match p {
      case Nothing =>
      case Row(text) => QuietStep(s, text);
      case Then(first, second) =>
        QuietReading(s, first);
        QuietReading(s, second);
    }
  }

  /** The path a reader takes from a new name. */
  function PathOf(newName: Option<string>): Option<string> {
    if newName.Some? && StartsWith(newName.value, "b/") then Some(newName.value[2..]) else None
  }

  lemma LabelStep(s: State, newName: string)
    requires s.inHeader
    ensures Step(s, LABEL + newName) == (s.(path := PathOf(Some(newName))), [])
  {
    var row := LABEL + newName;
    assert row[0] == '+';
    FirstCharDiffers(row, TITLE);
    StartsWithOwn(LABEL, newName);
    assert StartsWith(row, "+++ b/") <==> StartsWith(newName, "b/") by {
      if |newName| >= 2 {
        assert row[..6] == LABEL + newName[..2];
        assert "+++ b/" == LABEL + "b/";
        assert row[..6][4..] == newName[..2] && "+++ b/"[4..] == "b/";
      }
    }
    if |newName| >= 2 {
      assert row[6..] == newName[2..];
    }
  }

  lemma {:induction false} SkipWordOf(word: string, rest: string)
    requires (forall i :: 0 <= i < |word| ==> !IsSpace(word[i])) && rest != "" && IsSpace(rest[0])
    ensures SkipWord(word + rest) == rest
  {
    if word == "" {
      assert word + rest == rest;
    } else {
      assert (word + rest)[1..] == word[1..] + rest;
      SkipWordOf(word[1..], rest);
    }
  }

  lemma HunkStartParts(word: string, tail: string)
    requires word != "" && forall i :: 0 <= i < |word| ==> !IsSpace(word[i])
    requires TakeNumber(tail).Some?
    ensures HunkStart("@@ -" + (word + (" +" + tail))) == Some(TakeNumber(tail).value.0)
  {
    var rest := " +" + tail;
    StartsWithOwn("@@ -", word + rest);
    SkipWordOf(word, rest);
    StartsWithOwn(" +", tail);
  }

  lemma HunkStartOf(was: nat, removed: nat, now: nat, inserted: nat, heading: string)
    ensures HunkStart(HunkRow(was, removed, now, inserted, heading)) == Some(RangeStart(now, inserted))
  {
    HunkRowParts(was, removed, now, inserted, heading);
    RangeIsWord(was, removed);
    RangeBeginsWithStart(now, inserted, " @@" + heading);
    HunkStartParts(RangeText(was, removed), RangeText(now, inserted) + (" @@" + heading));
  }

  lemma RangeIsWord(before: nat, count: nat)
    ensures var word := RangeText(before, count); word != "" && forall i :: 0 <= i < |word| ==> !IsSpace(word[i])
  {
  }

  lemma RangeBeginsWithStart(now: nat, inserted: nat, rest: string)
    requires rest != "" && !IsDigit(rest[0])
    ensures TakeNumber(RangeText(now, inserted) + rest).Some?
    ensures TakeNumber(RangeText(now, inserted) + rest).value.0 == RangeStart(now, inserted)
  {
    var start := RangeStart(now, inserted);
    if inserted == 1 {
      TakeNumberOf(start, rest);
    } else {
      var tail := "," + Digits(inserted) + rest;
      assert RangeText(now, inserted) + rest == Digits(start) + tail;
      TakeNumberOf(start, tail);
    }
  }

  lemma HunkStep(s: State, was: nat, removed: nat, now: nat, inserted: nat, heading: string)
    ensures Step(s, HunkRow(was, removed, now, inserted, heading)) == (s.(inHeader := false,
                                                                          line := RangeStart(now, inserted)), [])
  {
    var row := HunkRow(was, removed, now, inserted, heading);
    assert row[0] == '@';
    FirstCharDiffers(row, TITLE);
    FirstCharDiffers(row, LABEL);
    HunkStartOf(was, removed, now, inserted, heading);
  }

  lemma PlusStep(s: State, text: string)
    requires !s.inHeader
    ensures Step(s, "+" + text)
            == if s.path.Some? then (s.(line := s.line + 1), [Added(s.path.value, s.line, text)]) else (s, [])
  {
    var row := "+" + text;
    assert row[0] == '+';
    FirstCharDiffers(row, TITLE);
    FirstCharDiffers(row, "@@ -");
    StartsWithOwn("+", text);
  }

  // ----- what a printed diff comes to -----

  /** The added lines of a hunk, numbered from `line` on. */
  function Numbered(path: string, line: int, texts: seq<string>): (r: seq<Added>)
    ensures |r| == |texts|
    decreases |texts|
  {
    if texts == [] then [] else [Added(path, line, texts[0])] + Numbered(path, line + 1, texts[1..])
  }

  function NumberedFor(path: Option<string>, line: int, texts: seq<string>): seq<Added> {
    if path.Some? then Numbered(path.value, line, texts) else []
  }

  lemma {:induction false} PlusReading(s: State, texts: seq<string>, unended: bool)
    requires !s.inHeader
    ensures var r := ReadPrint(s, Prefixed("+", texts, unended));
            r.state.path == s.path && r.out == NumberedFor(s.path, s.line, texts)
    decreases |texts|
  {
    if texts == [] {
      NoEndIsQuiet();
      QuietStep(s, NO_END);
    } else {
      PlusStep(s, texts[0]);
      PlusReading(Step(s, "+" + texts[0]).0, texts[1..], unended);
    }
  }

  /** What the edits insert, at the lines of the new file, after its first `now` ones. */
  function Insertions(path: string, segments: seq<Segment>, now: nat): seq<Added> {
    if segments == [] then []
    else
      match segments[0]
      case Keep(lines) => Insertions(path, segments[1..], now + |lines|)
      case Change(_, inserted, _, _, _) => Numbered(path, now + 1, inserted) + Insertions(path, segments[1..],
                                                                                          now + |inserted|)
  }

  function Seen(path: Option<string>, segments: seq<Segment>, now: nat): seq<Added> {
    if path.Some? then Insertions(path.value, segments, now) else []
  }

  lemma ChangeReading(s: State, path: Option<string>, c: Segment, was: nat, now: nat) returns (at: State)
    requires c.Change? && s.path == path
    ensures ReadPrint(s, ChangePrint(c, was, now)) == Outcome(at, NumberedFor(path, now + 1, c.inserted))
    ensures at.path == path
  {
    var start := s.(inHeader := false, line := RangeStart(now, |c.inserted|));
    HunkStep(s, was, |c.removed|, now, |c.inserted|, c.heading);
    RemovedIsQuiet(c.removed, c.removedUnended);
    QuietReading(start, Prefixed("-", c.removed, c.removedUnended));
    PlusReading(start, c.inserted, c.insertedUnended);
    at := ReadPrint(s, ChangePrint(c, was, now)).state;
  }

  lemma SeenChange(path: Option<string>, segments: seq<Segment>, now: nat)
    requires segments != [] && segments[0].Change?
    ensures Seen(path, segments, now)
            == NumberedFor(path, now + 1, segments[0].inserted) + Seen(path, segments[1..],
                                                                       now + |segments[0].inserted|)
  {
  }

  /** Reading `p` from `s` on keeps the path and gives `out`. */
  ghost predicate Gives(s: State, p: Print, path: Option<string>, out: seq<Added>) {
    var r := ReadPrint(s, p);
    r.state.path == path && r.out == out
  }

  /** From every state at this path, reading `p` keeps the path and gives `out`. */
  ghost predicate GivesAt(path: Option<string>, p: Print, out: seq<Added>) {
    forall s: State :: s.path == path ==> Gives(s, p, path, out)
  }

  lemma ChangeGivesAt(path: Option<string>, c: Segment, was: nat, now: nat, rest: Print, out: seq<Added>)
    requires c.Change? && GivesAt(path, rest, out)
    ensures GivesAt(path, Then(ChangePrint(c, was, now), rest), NumberedFor(path, now + 1, c.inserted) + out)
  {
    var p := Then(ChangePrint(c, was, now), rest);
    forall s: State | s.path == path ensures Gives(s, p, path, NumberedFor(path, now + 1, c.inserted) + out) {
      var at := ChangeReading(s, path, c, was, now);
      assert Gives(at, rest, path, out);
    }
  }

  lemma NothingGivesAt(path: Option<string>)
    ensures GivesAt(path, Nothing, [])
  {
  }

  lemma KeepStep(path: Option<string>, segments: seq<Segment>, was: nat, now: nat, p: Print, out: seq<Added>)
    requires segments != [] && segments[0].Keep?
    requires p == HunkPrint(segments[1..], was + |segments[0].lines|, now + |segments[0].lines|)
    requires out == Seen(path, segments[1..], now + |segments[0].lines|)
    ensures p == HunkPrint(segments, was, now) && out == Seen(path, segments, now)
  {
  }

  lemma ChangeStep(path: Option<string>, segments: seq<Segment>, was: nat, now: nat, q: Print, x: seq<Added>)
    returns (p: Print, out: seq<Added>)
    requires segments != [] && segments[0].Change? && GivesAt(path, q, x)
    requires q == HunkPrint(segments[1..], was + |segments[0].removed|, now + |segments[0].inserted|)
    requires x == Seen(path, segments[1..], now + |segments[0].inserted|)
    ensures p == HunkPrint(segments, was, now) && out == Seen(path, segments, now) && GivesAt(path, p, out)
  {
    ChangeGivesAt(path, segments[0], was, now, q, x);
    SeenChange(path, segments, now);
    p := Then(ChangePrint(segments[0], was, now), q);
    out := NumberedFor(path, now + 1, segments[0].inserted) + x;
  }

  lemma NoHunks(path: Option<string>, was: nat, now: nat) returns (p: Print, out: seq<Added>)
    ensures p == HunkPrint([], was, now) && out == Seen(path, [], now) && GivesAt(path, p, out)
  {
    p, out := Nothing, [];
    NothingGivesAt(path);
  }

  lemma {:induction false} HunksReading(path: Option<string>, segments: seq<Segment>, was: nat, now: nat)
    returns (p: Print, out: seq<Added>)
    ensures p == HunkPrint(segments, was, now) && out == Seen(path, segments, now)
    ensures GivesAt(path, p, out)
    decreases |segments|
  {
    if segments == [] {
      p, out := NoHunks(path, was, now);
    } else if segments[0].Keep? {
      p, out := HunksReading(path, segments[1..], was + |segments[0].lines|, now + |segments[0].lines|);
      KeepStep(path, segments, was, now, p, out);
    } else {
      var q, x := HunksReading(path, segments[1..], was + |segments[0].removed|, now + |segments[0].inserted|);
      p, out := ChangeStep(path, segments, was, now, q, x);
    }
  }

  lemma ReadThen(s: State, at: State, first: Print, second: Print)
    requires ReadPrint(s, first) == Outcome(at, [])
    ensures ReadPrint(s, Then(first, second)) == ReadPrint(at, second)
  {
  }

  lemma FileReading(s: State, f: FileEdit)
    requires PrintedFile(f)
    ensures ReadPrint(s, FilePrint(f)).out == Seen(PathOf(f.newName), f.segments, 0)
  {
    var hunks := HunkPrint(f.segments, 0, 0);
    var name := if f.newName.Some? then Row(LABEL + f.newName.value) else Nothing;
    var at := State(None, s.line, true);
    var named := at.(path := PathOf(f.newName));
    ListedIsQuiet(f.preamble);
    QuietReading(s, Listed(f.preamble));
    ReadThen(s, s, Listed(f.preamble), Then(Row(TITLE + f.title), Then(Listed(f.header), Then(name, hunks))));
    StartsWithOwn(TITLE, f.title);
    ReadThen(s, at, Row(TITLE + f.title), Then(Listed(f.header), Then(name, hunks)));
    ListedIsQuiet(f.header);
    QuietReading(at, Listed(f.header));
    ReadThen(at, at, Listed(f.header), Then(name, hunks));
    if f.newName.Some? {
      LabelStep(at, f.newName.value);
    }
    ReadThen(at, named, name, hunks);
    var _, _ := HunksReading(PathOf(f.newName), f.segments, 0, 0);
    assert Gives(named, hunks, PathOf(f.newName), Seen(PathOf(f.newName), f.segments, 0));
  }

  /** What the reader makes of the files of a diff. */
  function SeenIn(files: seq<FileEdit>): seq<Added> {
    if files == [] then [] else Seen(PathOf(files[0].newName), files[0].segments, 0) + SeenIn(files[1..])
  }

  lemma {:induction false} DiffReading(s: State, files: seq<FileEdit>)
    requires Printed(files)
    ensures ReadPrint(s, DiffPrint(files)).out == SeenIn(files)
    decreases |files|
  {
    if files != [] {
      FileReading(s, files[0]);
      DiffReading(ReadPrint(s, FilePrint(files[0])).state, files[1..]);
    }
  }

  // ----- when reading inverts printing -----

  /** The lines the edits insert, each with its file and its line there. */
  function Inserted(files: seq<FileEdit>): seq<Added> {
    if files == [] then [] else Insertions(files[0].path, files[0].segments, 0) + Inserted(files[1..])
  }

  /** The file inserts nothing, or its new name is its path after the plain prefix. */
  ghost predicate PlainlyNamed(f: FileEdit) {
    Insertions(f.path, f.segments, 0) == [] || f.newName == Some("b/" + f.path)
  }

  lemma {:induction false} InsertionsLength(a: string, b: string, segments: seq<Segment>, now: nat)
    ensures |Insertions(a, segments, now)| == |Insertions(b, segments, now)|
    ensures a != b && Insertions(a, segments, now) != [] ==>
            Insertions(a, segments, now) != Insertions(b, segments, now)
  {
    if segments != [] {
      var first, rest := segments[0], segments[1..];
      if first.Keep? {
        InsertionsLength(a, b, rest, now + |first.lines|);
      } else {
        var next := now + |first.inserted|;
        InsertionsLength(a, b, rest, next);
        var x, y := Numbered(a, now + 1, first.inserted), Numbered(b, now + 1, first.inserted);
        assert first.inserted != [] ==> x[0].path == a && y[0].path == b;
        if a != b && Insertions(a, segments, now) == Insertions(b, segments, now) {
          Halves(x, Insertions(a, rest, next), y, Insertions(b, rest, next));
        }
      }
    }
  }

  lemma Halves(a: seq<Added>, b: seq<Added>, x: seq<Added>, y: seq<Added>)
    requires |a| == |x| && a + b == x + y
    ensures a == x && b == y
  {
    assert a == (a + b)[..|a|] && b == (a + b)[|a|..];
    assert x == (x + y)[..|a|] && y == (x + y)[|a|..];
  }

  lemma OneFileSeen(f: FileEdit)
    ensures |Seen(PathOf(f.newName), f.segments, 0)| <= |Insertions(f.path, f.segments, 0)|
    ensures Seen(PathOf(f.newName), f.segments, 0) == Insertions(f.path, f.segments, 0) <==> PlainlyNamed(f)
  {
    var path := PathOf(f.newName);
    if path.Some? {
      InsertionsLength(path.value, f.path, f.segments, 0);
      assert f.newName.value == f.newName.value[..2] + f.newName.value[2..];
    }
    if f.newName == Some("b/" + f.path) {
      StartsWithOwn("b/", f.path);
    }
  }

  lemma {:induction false} SeenIsInserted(files: seq<FileEdit>)
    ensures |SeenIn(files)| <= |Inserted(files)|
    ensures SeenIn(files) == Inserted(files) <==> forall i :: 0 <= i < |files| ==> PlainlyNamed(files[i])
  {
    if files != [] {
      var f, rest := files[0], files[1..];
      OneFileSeen(f);
      SeenIsInserted(rest);
      var a, x := Seen(PathOf(f.newName), f.segments, 0), Insertions(f.path, f.segments, 0);
      if SeenIn(files) == Inserted(files) {
        Halves(a, SeenIn(rest), x, Inserted(rest));
      }
      assert (forall i :: 0 <= i < |files| ==> PlainlyNamed(files[i])) <==>
          PlainlyNamed(f) && forall i :: 0 <= i < |rest| ==> PlainlyNamed(rest[i]);
    }
  }

  ghost predicate AllBreakFree(rows: seq<string>) {
    forall i :: 0 <= i < |rows| ==> BreakFree(rows[i])
  }

  lemma TextIsBreakFree(s: State, rows: seq<string>, i: nat)
    requires AllBreakFree(rows) && i < |Reading(s, rows).out|
    ensures BreakFree(Reading(s, rows).out[i].text)
  {
    var front := rows[..|rows| - 1];
    var before := Reading(s, front);
    if i < |before.out| {
      TextIsBreakFree(s, front, i);
    } else {
      var row := rows[|rows| - 1];
      assert BreakFree(row);
      assert Reading(s, rows).out[i] == Step(before.state, row).1[0];
    }
  }

  /** Python breaks lines at more than newlines: an inserted line with such a character is never reported as it is. */
  lemma BrokenLineIsMisread(files: seq<FileEdit>, i: nat)
    requires i < |Inserted(files)| && !BreakFree(Inserted(files)[i].text)
    ensures Reading(START, Lines(Diff(files))).out != Inserted(files)
  {
    var rows := Lines(Diff(files));
    LinesAreBreakFree(Diff(files));
    var out := Reading(START, rows).out;
    if i < |out| {
      TextIsBreakFree(START, rows, i);
    }
  }

  // ----- rows that Python splits further -----

  /** States that report alike: the line number counts only under a path and past the header. */
  predicate Alike(s: State, t: State) {
    s.path == t.path && s.inHeader == t.inHeader && (s.line == t.line || s.inHeader || s.path.None?)
  }

  lemma AlikeStep(s: State, t: State, row: string)
    requires Alike(s, t)
    ensures Step(s, row).1 == Step(t, row).1 && Alike(Step(s, row).0, Step(t, row).0)
  {
  }

  lemma {:induction false} AlikeReading(s: State, t: State, rows: seq<string>)
    requires Alike(s, t)
    ensures Reading(s, rows).out == Reading(t, rows).out && Alike(Reading(s, rows).state, Reading(t, rows).state)
  {
    if rows != [] {
      var front := rows[..|rows| - 1];
      AlikeReading(s, t, front);
      AlikeStep(Reading(s, front).state, Reading(t, front).state, rows[|rows| - 1]);
    }
  }

  /** In the state the reader is in, what breaks split off the row reports nothing and changes nothing that matters. */
  ghost predicate HarmlessRow(s: State, row: string) {
    var after := Step(s, HeadLine(row)).0;
    |Fragments(row)| > 0 &&
    var r := Reading(after, Fragments(row)[1..]);
    r.out == [] && Alike(r.state, after)
  }

  ghost predicate Harmless(s: State, rows: seq<string>)
    decreases |rows|
  {
    rows == [] || (HarmlessRow(s, rows[0]) && Harmless(Step(s, HeadLine(rows[0])).0, rows[1..]))
  }

  function Heads(rows: seq<string>): seq<string> {
    if rows == [] then [] else [HeadLine(rows[0])] + Heads(rows[1..])
  }

  lemma OneRow(s: State, row: string)
    ensures var after := Step(s, row); Reading(s, [row]) == Outcome(after.0, after.1)
  {
    assert [row][..0] == [] && Reading(s, []) == Outcome(s, []);
    assert [] + Step(s, row).1 == Step(s, row).1;
  }

  lemma HarmlessReading(s: State, row: string)
    requires HarmlessRow(s, row)
    ensures var r := Reading(s, Fragments(row));
            r.out == Step(s, HeadLine(row)).1 && Alike(r.state, Step(s, HeadLine(row)).0)
  {
    HeadIsFirst(row);
    var fragments := Fragments(row);
    OneRow(s, HeadLine(row));
    assert fragments == [HeadLine(row)] + fragments[1..];
    ReadingConcat(s, [HeadLine(row)], fragments[1..]);
  }

  /** Harmless rows are read as their first lines alone. */
  lemma {:induction false} HarmlessRows(s: State, rows: seq<string>)
    requires Harmless(s, rows)
    ensures Reading(s, Lines(Unlines(rows))).out == Reading(s, Heads(rows)).out
    decreases |rows|
  {
    if rows != [] {
      var row, rest := rows[0], rows[1..];
      var after, whole := Step(s, HeadLine(row)).0, Reading(s, Fragments(row));
      LinesOfPrinted(row, Unlines(rest));
      HarmlessReading(s, row);
      HarmlessRows(after, rest);
      AlikeReading(whole.state, after, Lines(Unlines(rest)));
      OneRow(s, HeadLine(row));
      ReadingConcat(s, Fragments(row), Lines(Unlines(rest)));
      ReadingConcat(s, [HeadLine(row)], Heads(rest));
    }
  }

  // ----- rows that are harmless in every state -----

  /** What a break splits off the row reads as nothing. */
  ghost predicate Tame(row: string) {
    forall k :: 1 <= k < |Fragments(row)| ==> Quiet(Fragments(row)[k])
  }

  ghost predicate AllTame(rows: seq<string>) {
    forall i :: 0 <= i < |rows| ==> Tame(rows[i])
  }

  lemma {:induction false} QuietRows(s: State, rows: seq<string>)
    requires AllQuiet(rows)
    ensures Reading(s, rows) == Outcome(s, [])
  {
    if rows != [] {
      QuietRows(s, rows[..|rows| - 1]);
      QuietStep(s, rows[|rows| - 1]);
    }
  }

  /** Breaks that split off quiet rows only do no harm. */
  lemma {:induction false} TameIsHarmless(s: State, rows: seq<string>)
    requires AllTame(rows)
    ensures Harmless(s, rows)
    decreases |rows|
  {
    if rows != [] {
      HeadIsFirst(rows[0]);
      var after := Step(s, HeadLine(rows[0])).0;
      QuietRows(after, Fragments(rows[0])[1..]);
      TameIsHarmless(after, rows[1..]);
    }
  }

  ghost predicate AllPlus(rows: seq<string>) {
    forall i :: 0 <= i < |rows| ==> StartsWith(rows[i], "+") && !StartsWith(rows[i], LABEL)
  }

  lemma {:induction false} PlusesAreSilent(s: State, rows: seq<string>)
    requires s.path.None? && AllPlus(rows)
    ensures Reading(s, rows) == Outcome(s, [])
  {
    if rows != [] {
      var row, front := rows[|rows| - 1], rows[..|rows| - 1];
      PlusesAreSilent(s, front);
      assert row[0] == '+';
      FirstCharDiffers(row, TITLE);
      FirstCharDiffers(row, "@@ -");
    }
  }

  /** Nor do additions that breaks split off while there is no path. */
  lemma PathlessIsHarmless(s: State, row: string)
    requires Step(s, HeadLine(row)).0.path.None? && |Fragments(row)| > 0 && AllPlus(Fragments(row)[1..])
    ensures HarmlessRow(s, row)
  {
    PlusesAreSilent(Step(s, HeadLine(row)).0, Fragments(row)[1..]);
  }

  // ----- a printed diff cut at the breaks -----

  /** The print with each row cut at its first break. */
  function HeadPrint(p: Print): Print {
    match p
    case Nothing => Nothing
    case Row(text) => Row(HeadLine(text))
    case Then(first, second) => Then(HeadPrint(first), HeadPrint(second))
  }

  lemma {:induction false} HeadsConcat(a: seq<string>, b: seq<string>)
    ensures Heads(a + b) == Heads(a) + Heads(b)
    decreases |a|
  {
    if a == [] {
      assert a + b == b;
    } else {
      assert (a + b)[1..] == a[1..] + b;
      HeadsConcat(a[1..], b);
    }
  }

  lemma {:induction false} PrintHeads(p: Print)
    ensures Heads(Rows(p)) == Rows(HeadPrint(p))
  {
    match p {
      case Nothing =>
      case Row(text) => assert [text][1..] == [];
      case Then(first, second) =>
        PrintHeads(first);
        PrintHeads(second);
        HeadsConcat(Rows(first), Rows(second));
    }
  }

  /** `q` is what a reader makes of `p`. */
  predicate Trims(p: Print, q: Print) { HeadPrint(p) == q }

  lemma TrimsThen(p: Print, q: Print, p': Print, q': Print)
    requires Trims(p, q) && Trims(p', q')
    ensures Trims(Then(p, p'), Then(q, q'))
  {
  }

  /** A prefix without breaks. */
  lemma TrimsRow(prefix: string, text: string)
    requires BreakFree(prefix)
    ensures Trims(Row(prefix + text), Row(prefix + HeadLine(text)))
  {
    PrefixedFragments(prefix, text);
  }

  lemma {:induction false} TrimsListed(rows: seq<string>)
    ensures Trims(Listed(rows), Listed(Heads(rows)))
  {
    if rows != [] {
      TrimsListed(rows[1..]);
      var first, more := Row(rows[0]), Listed(rows[1..]);
      assert Trims(first, Row(HeadLine(rows[0])));
      TrimsThen(first, Row(HeadLine(rows[0])), more, Listed(Heads(rows[1..])));
      assert Heads(rows)[1..] == Heads(rows[1..]);
    }
  }

  lemma NoEndIsBreakFree()
    ensures BreakFree(NO_END) && BreakFree(TITLE) && BreakFree(LABEL) && BreakFree("-") && BreakFree("+")
  {
  }

  lemma TrimsBreakFree(p: Print)
    requires p.Nothing? || (p.Row? && BreakFree(p.text))
    ensures Trims(p, p)
  {
    if p.Row? {
      BreakFreeHead(p.text);
    }
  }

  lemma TrimsEnd(mark: string, unended: bool) returns (p: Print)
    ensures p == Prefixed(mark, [], unended) && Trims(p, p)
  {
    p := Prefixed(mark, [], unended);
    NoEndIsBreakFree();
    TrimsBreakFree(p);
  }

  lemma PrefixedStep(mark: string, lines: seq<string>, unended: bool)
    requires lines != []
    ensures Prefixed(mark, lines, unended) == Then(Row(mark + lines[0]), Prefixed(mark, lines[1..], unended))
  {
  }

  lemma HeadsStep(lines: seq<string>)
    requires lines != []
    ensures var heads := Heads(lines); heads != [] && heads[0] == HeadLine(lines[0]) && heads[1..] == Heads(lines[1..])
  {
  }

  lemma {:induction false} TrimsPrefixed(mark: string, lines: seq<string>, unended: bool)
    requires BreakFree(mark)
    ensures Trims(Prefixed(mark, lines, unended), Prefixed(mark, Heads(lines), unended))
    decreases |lines|
  {
    if lines == [] {
      var p := TrimsEnd(mark, unended);
    } else {
      TrimsPrefixed(mark, lines[1..], unended);
      TrimsRow(mark, lines[0]);
      TrimsThen(Row(mark + lines[0]), Row(mark + HeadLine(lines[0])),
                Prefixed(mark, lines[1..], unended), Prefixed(mark, Heads(lines[1..]), unended));
      HeadsStep(lines);
      PrefixedStep(mark, lines, unended);
      PrefixedStep(mark, Heads(lines), unended);
    }
  }

  lemma {:induction false} BreakFreeHeads(lines: seq<string>)
    requires AllBreakFree(lines)
    ensures Heads(lines) == lines
  {
    if lines != [] {
      BreakFreeHead(lines[0]);
      BreakFreeHeads(lines[1..]);
      assert [lines[0]] + lines[1..] == lines;
    }
  }

  lemma {:induction false} HeadsLength(lines: seq<string>)
    ensures |Heads(lines)| == |lines|
  {
    if lines != [] {
      HeadsLength(lines[1..]);
    }
  }

  function TrimSegment(s: Segment): Segment {
    if s.Keep? then s else s.(removed := Heads(s.removed), heading := HeadLine(s.heading))
  }

  function TrimSegments(segments: seq<Segment>): seq<Segment> {
    if segments == [] then [] else [TrimSegment(segments[0])] + TrimSegments(segments[1..])
  }

  /** The edit whose print is what a reader makes of the print of `f`. */
  function Trim(f: FileEdit): FileEdit {
    f.(preamble := Heads(f.preamble), title := HeadLine(f.title), header := Heads(f.header),
       newName := if f.newName.Some? then Some(HeadLine(f.newName.value)) else None, segments := TrimSegments(f.segments))
  }

  function TrimAll(files: seq<FileEdit>): seq<FileEdit> {
    if files == [] then [] else [Trim(files[0])] + TrimAll(files[1..])
  }

  ghost predicate BreakFreeInserts(segments: seq<Segment>) {
    forall i :: 0 <= i < |segments| && segments[i].Change? ==> AllBreakFree(segments[i].inserted)
  }

  lemma RangeIsBreakFree(before: nat, count: nat)
    ensures BreakFree(RangeText(before, count))
  {
  }

  lemma TrimsHunkRow(was: nat, removed: nat, now: nat, inserted: nat, heading: string)
    ensures Trims(Row(HunkRow(was, removed, now, inserted, heading)),
                  Row(HunkRow(was, removed, now, inserted, HeadLine(heading))))
  {
    RangeIsBreakFree(was, removed);
    RangeIsBreakFree(now, inserted);
    var prefix := "@@ -" + RangeText(was, removed) + " +" + RangeText(now, inserted) + " @@";
    TrimsRow(prefix, heading);
  }

  lemma TrimsChange(c: Segment, was: nat, now: nat)
    requires c.Change? && AllBreakFree(c.inserted)
    ensures Trims(ChangePrint(c, was, now), ChangePrint(TrimSegment(c), was, now))
  {
    var d := TrimSegment(c);
    NoEndIsBreakFree();
    HeadsLength(c.removed);
    BreakFreeHeads(c.inserted);
    TrimsHunkRow(was, |c.removed|, now, |c.inserted|, c.heading);
    TrimsPrefixed("-", c.removed, c.removedUnended);
    TrimsPrefixed("+", c.inserted, c.insertedUnended);
    var minus, minus' := Prefixed("-", c.removed, c.removedUnended), Prefixed("-", d.removed, d.removedUnended);
    var plus, plus' := Prefixed("+", c.inserted, c.insertedUnended), Prefixed("+", d.inserted, d.insertedUnended);
    TrimsThen(minus, minus', plus, plus');
    TrimsThen(Row(HunkRow(was, |c.removed|, now, |c.inserted|, c.heading)),
              Row(HunkRow(was, |d.removed|, now, |d.inserted|, d.heading)),
              Then(minus, plus), Then(minus', plus'));
  }

  lemma KeepPrint(segments: seq<Segment>, was: nat, now: nat)
    requires segments != [] && segments[0].Keep?
    ensures HunkPrint(segments, was, now) == HunkPrint(segments[1..], was + |segments[0].lines|,
                                                       now + |segments[0].lines|)
  {
  }

  lemma ThenPrint(segments: seq<Segment>, was: nat, now: nat)
    requires segments != [] && segments[0].Change?
    ensures HunkPrint(segments, was, now)
            == Then(ChangePrint(segments[0], was, now),
                    HunkPrint(segments[1..], was + |segments[0].removed|, now + |segments[0].inserted|))
  {
  }

  lemma TrimStep(segments: seq<Segment>)
    requires segments != []
    ensures var trimmed := TrimSegments(segments);
            trimmed != [] && trimmed[0] == TrimSegment(segments[0]) && trimmed[1..] == TrimSegments(segments[1..])
  {
  }

  lemma TrimsKeep(segments: seq<Segment>, was: nat, now: nat, p: Print, q: Print)
    requires segments != [] && segments[0].Keep?
    requires p == HunkPrint(segments[1..], was + |segments[0].lines|, now + |segments[0].lines|)
    requires q == HunkPrint(TrimSegments(segments[1..]), was + |segments[0].lines|, now + |segments[0].lines|)
    ensures p == HunkPrint(segments, was, now) && q == HunkPrint(TrimSegments(segments), was, now)
  {
    TrimStep(segments);
    KeepPrint(segments, was, now);
    KeepPrint(TrimSegments(segments), was, now);
  }

  lemma TrimsMore(segments: seq<Segment>, was: nat, now: nat, x: Print, y: Print) returns (p: Print, q: Print)
    requires segments != [] && segments[0].Change? && AllBreakFree(segments[0].inserted) && Trims(x, y)
    requires x == HunkPrint(segments[1..], was + |segments[0].removed|, now + |segments[0].inserted|)
    requires y == HunkPrint(TrimSegments(segments[1..]), was + |segments[0].removed|, now + |segments[0].inserted|)
    ensures p == HunkPrint(segments, was, now) && q == HunkPrint(TrimSegments(segments), was, now) && Trims(p, q)
  {
    var s := segments[0];
    var change, trimmed := ChangePrint(s, was, now), ChangePrint(TrimSegment(s), was, now);
    TrimStep(segments);
    HeadsLength(s.removed);
    p, q := Then(change, x), Then(trimmed, y);
    TrimsChange(s, was, now);
    TrimsThen(change, trimmed, x, y);
    ThenPrint(segments, was, now);
    ThenPrint(TrimSegments(segments), was, now);
  }

  lemma {:induction false} TrimsHunks(segments: seq<Segment>, was: nat, now: nat) returns (p: Print, q: Print)
    requires BreakFreeInserts(segments)
    ensures p == HunkPrint(segments, was, now) && q == HunkPrint(TrimSegments(segments), was, now) && Trims(p, q)
    decreases |segments|
  {
    if segments == [] {
      p, q := Nothing, Nothing;
    } else if segments[0].Keep? {
      p, q := TrimsHunks(segments[1..], was + |segments[0].lines|, now + |segments[0].lines|);
      TrimsKeep(segments, was, now, p, q);
    } else {
      var x, y := TrimsHunks(segments[1..], was + |segments[0].removed|, now + |segments[0].inserted|);
      p, q := TrimsMore(segments, was, now, x, y);
    }
  }

  lemma TrimsFile(f: FileEdit)
    requires BreakFreeInserts(f.segments)
    ensures Trims(FilePrint(f), FilePrint(Trim(f)))
  {
    var g := Trim(f);
    NoEndIsBreakFree();
    var p, q := TrimsHunks(f.segments, 0, 0);
    var name := if f.newName.Some? then Row(LABEL + f.newName.value) else Nothing;
    var name' := if g.newName.Some? then Row(LABEL + g.newName.value) else Nothing;
    if f.newName.Some? {
      TrimsRow(LABEL, f.newName.value);
    }
    TrimsThen(name, name', p, q);
    TrimsListed(f.header);
    TrimsThen(Listed(f.header), Listed(g.header), Then(name, p), Then(name', q));
    TrimsRow(TITLE, f.title);
    TrimsThen(Row(TITLE + f.title), Row(TITLE + g.title), Then(Listed(f.header), Then(name, p)),
              Then(Listed(g.header), Then(name', q)));
    TrimsListed(f.preamble);
    TrimsThen(Listed(f.preamble), Listed(g.preamble), Then(Row(TITLE + f.title), Then(Listed(f.header), Then(name, p))),
              Then(Row(TITLE + g.title), Then(Listed(g.header), Then(name', q))));
  }

  lemma {:induction false} TrimsDiff(files: seq<FileEdit>)
    requires forall i :: 0 <= i < |files| ==> BreakFreeInserts(files[i].segments)
    ensures Trims(DiffPrint(files), DiffPrint(TrimAll(files)))
    decreases |files|
  {
    if files != [] {
      TrimsFile(files[0]);
      TrimsDiff(files[1..]);
      TrimsThen(FilePrint(files[0]), FilePrint(Trim(files[0])), DiffPrint(files[1..]), DiffPrint(TrimAll(files[1..])));
      assert TrimAll(files)[1..] == TrimAll(files[1..]);
    }
  }

  // ----- what trimming keeps -----

  lemma {:induction false} HeadIsPrefix(row: string, prefix: string)
    requires StartsWith(HeadLine(row), prefix)
    ensures StartsWith(row, prefix)
    decreases |prefix|
  {
    if prefix != "" {
      assert HeadLine(row)[0] == row[0] && HeadLine(row)[1..] == HeadLine(row[1..]);
      assert prefix[0] == HeadLine(row)[..|prefix|][0] == row[0];
      assert prefix[1..] == HeadLine(row)[..|prefix|][1..] == HeadLine(row[1..])[..|prefix| - 1];
      HeadIsPrefix(row[1..], prefix[1..]);
      assert row[..|prefix|] == [row[0]] + row[1..][..|prefix| - 1];
    }
  }

  lemma QuietHead(row: string)
    requires Quiet(row)
    ensures Quiet(HeadLine(row))
  {
    if StartsWith(HeadLine(row), TITLE) {
      HeadIsPrefix(row, TITLE);
    }
    if StartsWith(HeadLine(row), "@@") {
      HeadIsPrefix(row, "@@");
    }
    if StartsWith(HeadLine(row), "+") {
      HeadIsPrefix(row, "+");
    }
  }

  lemma {:induction false} QuietHeads(rows: seq<string>)
    requires AllQuiet(rows)
    ensures AllQuiet(Heads(rows))
  {
    if rows != [] {
      QuietHead(rows[0]);
      QuietHeads(rows[1..]);
    }
  }

  lemma {:induction false} TrimmedIsPrinted(files: seq<FileEdit>)
    requires Printed(files)
    ensures Printed(TrimAll(files))
  {
    if files != [] {
      QuietHeads(files[0].preamble);
      QuietHead(files[0].title);
      QuietHeads(files[0].header);
      TrimmedIsPrinted(files[1..]);
    }
  }

  lemma {:induction false} TrimKeepsInsertions(path: string, segments: seq<Segment>, now: nat)
    ensures Insertions(path, TrimSegments(segments), now) == Insertions(path, segments, now)
    decreases |segments|
  {
    if segments != [] {
      var s, rest := segments[0], segments[1..];
      assert TrimSegments(segments)[0] == TrimSegment(s) && TrimSegments(segments)[1..] == TrimSegments(rest);
      TrimKeepsInsertions(path, rest, now + if s.Keep? then |s.lines| else |s.inserted|);
    }
  }

  lemma {:induction false} TrimKeepsInserted(files: seq<FileEdit>)
    ensures Inserted(TrimAll(files)) == Inserted(files)
  {
    if files != [] {
      TrimKeepsInsertions(files[0].path, files[0].segments, 0);
      TrimKeepsInserted(files[1..]);
      assert TrimAll(files)[0] == Trim(files[0]) && TrimAll(files)[1..] == TrimAll(files[1..]);
    }
  }

  lemma {:induction false} NamedAfterTrimming(files: seq<FileEdit>)
    ensures (forall i :: 0 <= i < |TrimAll(files)| ==> PlainlyNamed(TrimAll(files)[i])) <==> AllReadByName(files)
  {
    if files != [] {
      var f, rest := files[0], files[1..];
      var all := TrimAll(files);
      TrimKeepsInsertions(f.path, f.segments, 0);
      assert all[0] == Trim(f) && all[1..] == TrimAll(rest);
      assert PlainlyNamed(all[0]) <==> ReadByName(f);
      NamedAfterTrimming(rest);
      assert (forall i :: 0 <= i < |all| ==> PlainlyNamed(all[i])) <==>
          PlainlyNamed(all[0]) && forall i :: 0 <= i < |all[1..]| ==> PlainlyNamed(all[1..][i]);
      assert (forall i :: 0 <= i < |files| ==> ReadByName(files[i])) <==>
          ReadByName(f) && forall i :: 0 <= i < |rest| ==> ReadByName(rest[i]);
    }
  }

  // ----- when reading inverts printing -----

  /** The file inserts nothing, or its new name reads as its path after the plain prefix. */
  ghost predicate ReadByName(f: FileEdit) {
    Insertions(f.path, f.segments, 0) == [] || (f.newName.Some? && HeadLine(f.newName.value) == "b/" + f.path)
  }

  ghost predicate AllReadByName(files: seq<FileEdit>) {
    forall i :: 0 <= i < |files| ==> ReadByName(files[i])
  }

  ghost predicate InsertsBreakFree(files: seq<FileEdit>) {
    forall i :: 0 <= i < |Inserted(files)| ==> BreakFree(Inserted(files)[i].text)
  }

  lemma {:induction false} NumberedText(path: string, line: int, texts: seq<string>, i: nat)
    requires i < |texts|
    ensures Numbered(path, line, texts)[i].text == texts[i]
    decreases |texts|
  {
    if i > 0 {
      NumberedText(path, line + 1, texts[1..], i - 1);
    }
  }

  lemma {:induction false} InsertedText(path: string, segments: seq<Segment>, now: nat, k: nat, i: nat) returns (j: nat)
    requires k < |segments| && segments[k].Change? && i < |segments[k].inserted|
    ensures j < |Insertions(path, segments, now)| && Insertions(path, segments, now)[j].text == segments[k].inserted[i]
    decreases |segments|
  {
    var s, rest := segments[0], segments[1..];
    if k == 0 {
      NumberedText(path, now + 1, s.inserted, i);
      j := i;
    } else if s.Keep? {
      j := InsertedText(path, rest, now + |s.lines|, k - 1, i);
    } else {
      var m := InsertedText(path, rest, now + |s.inserted|, k - 1, i);
      j := |s.inserted| + m;
    }
  }

  lemma {:induction false} InsertedFile(files: seq<FileEdit>, k: nat, i: nat) returns (j: nat)
    requires k < |files| && i < |Insertions(files[k].path, files[k].segments, 0)|
    ensures j < |Inserted(files)| && Inserted(files)[j] == Insertions(files[k].path, files[k].segments, 0)[i]
  {
    if k == 0 {
      j := i;
    } else {
      var m := InsertedFile(files[1..], k - 1, i);
      j := |Insertions(files[0].path, files[0].segments, 0)| + m;
    }
  }

  lemma InsertsAreBreakFree(files: seq<FileEdit>)
    requires InsertsBreakFree(files)
    ensures forall k :: 0 <= k < |files| ==> BreakFreeInserts(files[k].segments)
  {
    forall k, m, i | 0 <= k < |files| && 0 <= m < |files[k].segments| && files[k].segments[m].Change?
                     && 0 <= i < |files[k].segments[m].inserted|
      ensures BreakFree(files[k].segments[m].inserted[i])
    {
      var a := InsertedText(files[k].path, files[k].segments, 0, m, i);
      var b := InsertedFile(files, k, a);
    }
  }

  /**
   If no inserted line holds a break, the breaks elsewhere do no harm where they stand. Of diffs with a
   break in an inserted line nothing is asked.
   */
  ghost predicate Undisturbed(files: seq<FileEdit>) {
    InsertsBreakFree(files) ==> Harmless(START, Rows(DiffPrint(files)))
  }

  lemma TrimmedReading(files: seq<FileEdit>)
    requires Printed(files) && Undisturbed(files) && InsertsBreakFree(files)
    ensures Reading(START, Lines(Diff(files))).out == SeenIn(TrimAll(files))
  {
    var p, trimmed := DiffPrint(files), TrimAll(files);
    InsertsAreBreakFree(files);
    TrimsDiff(files);
    PrintHeads(p);
    HarmlessRows(START, Rows(p));
    PrintIsRead(START, DiffPrint(trimmed));
    TrimmedIsPrinted(files);
    DiffReading(START, trimmed);
  }

  lemma UnbrokenReading(files: seq<FileEdit>)
    requires Printed(files) && Undisturbed(files) && InsertsBreakFree(files)
    ensures Reading(START, Lines(Diff(files))).out == Inserted(files) <==> AllReadByName(files)
  {
    var trimmed, out := TrimAll(files), Reading(START, Lines(Diff(files))).out;
    TrimmedReading(files);
    SeenIsInserted(trimmed);
    TrimKeepsInserted(files);
    NamedAfterTrimming(files);
  }

  /**
   Reading inverts printing: on a printed diff, if breaks in what it does not insert do no harm in the
   state they are read in, `added_lines` gives exactly the inserted lines, each with its file and its
   line in the new file, if and only if no inserted line holds a break and every file that inserts
   lines is named plainly. What the inserted lines say does not matter, even where one reads as a
   header.
   */
  lemma ReadingInvertsPrinting(files: seq<FileEdit>)
    requires Printed(files) && Undisturbed(files)
    ensures Reading(START, Lines(Diff(files))).out == Inserted(files) <==>
            InsertsBreakFree(files) && AllReadByName(files)
  {
    if InsertsBreakFree(files) {
      UnbrokenReading(files);
    } else {
      var i :| 0 <= i < |Inserted(files)| && !BreakFree(Inserted(files)[i].text);
      BrokenLineIsMisread(files, i);
    }
  }

  // ----- a deleted line that is reported as added -----

  const FORM_FEED := '\U{000C}'

  /** The deletion of a line that holds a form feed with a plus sign after it. */
  function Deletion(path: string, title: string, a: string, b: string): FileEdit {
    FileEdit(path, [], title, [], Some("b/" + path), [Change([a + [FORM_FEED] + ("+" + b)], [], "", false, false)])
  }

  lemma {:induction false} FragmentsAtBreak(a: string, b: string)
    requires BreakFree(a)
    ensures Fragments(a + [FORM_FEED] + b) == [a] + Fragments(b)
  {
    var row := a + [FORM_FEED] + b;
    if a == "" {
      assert row == [FORM_FEED] + b && (row + "\n")[1..] == b + "\n";
    } else {
      assert row[1..] == a[1..] + [FORM_FEED] + b && row[0] == a[0];
      FragmentsAtBreak(a[1..], b);
      FragmentStep(row);
      assert [a[0]] + a[1..] == a;
    }
  }

  lemma DeletionRows(path: string, title: string, a: string, b: string)
    ensures var f := Deletion(path, title, a, b);
            Rows(DiffPrint([f])) == [TITLE + title, LABEL + ("b/" + path), HunkRow(0, 1, 0, 0,
                                                                                   ""), "-" + f.segments[0].removed[0]]
  {
    var f := Deletion(path, title, a, b);
    var c, hunk := f.segments[0], HunkRow(0, 1, 0, 0, "");
    assert f.segments[1..] == [] && [f][1..] == [] && c.removed[1..] == [];
    var minus := Prefixed("-", c.removed, false);
    assert Rows(minus) == ["-" + c.removed[0]] + Rows(Prefixed("-", c.removed[1..], false)) == ["-" + c.removed[0]];
    var change := ChangePrint(c, 0, 0);
    assert change == Then(Row(hunk), Then(minus, Nothing));
    assert Rows(change) == [hunk] + (Rows(minus) + []) == [hunk, "-" + c.removed[0]];
    var hunks := HunkPrint(f.segments, 0, 0);
    assert HunkPrint(f.segments[1..], 1, 0) == Nothing;
    assert hunks == Then(change, Nothing);
    assert Rows(hunks) == Rows(change) + [] == Rows(change);
    FileRows(f, hunks);
    assert Rows(DiffPrint([f])) == Rows(FilePrint(f)) + [] == Rows(FilePrint(f));
  }

  lemma FourRows(a: string, b: string, c: string, d: string)
    requires BreakFree(a) && BreakFree(b) && BreakFree(c)
    ensures Lines(Unlines([a, b, c, d])) == [a, b, c] + Fragments(d)
  {
    var rows := [a, b, c, d];
    assert rows[1..] == [b, c, d] && [b, c, d][1..] == [c, d] && [c, d][1..] == [d] && [d][1..] == [];
    LinesOfPrinted(d, "");
    assert Unlines([d]) == d + "\n" + "";
    LinesOfRow(c, Unlines([d]));
    LinesOfRow(b, Unlines([c, d]));
    LinesOfRow(a, Unlines([b, c, d]));
  }

  lemma DeletionLines(path: string, title: string, a: string, b: string)
    requires BreakFree(path) && BreakFree(title) && BreakFree(a) && BreakFree(b)
    ensures Lines(Diff([Deletion(path, title, a, b)]))
            == [TITLE + title, LABEL + ("b/" + path), HunkRow(0, 1, 0, 0, ""), "-" + a, "+" + b]
  {
    var last := "-" + (a + [FORM_FEED] + ("+" + b));
    DeletionRows(path, title, a, b);
    NoEndIsBreakFree();
    RangeIsBreakFree(0, 1);
    RangeIsBreakFree(0, 0);
    assert BreakFree("b/" + path);
    FourRows(TITLE + title, LABEL + ("b/" + path), HunkRow(0, 1, 0, 0, ""), last);
    assert last == ("-" + a) + [FORM_FEED] + ("+" + b);
    FragmentsAtBreak("-" + a, "+" + b);
    BreakFreeHead("+" + b);
  }

  lemma ReadsOn(s: State, row: string, rest: seq<string>, after: State)
    requires Step(s, row) == (after, [])
    ensures Reading(s, [row] + rest).out == Reading(after, rest).out
  {
    ReadingConcat(s, [row], rest);
    assert [row][..0] == [] && Reading(s, []) == Outcome(s, []);
    assert Reading(s, [row]) == Outcome(after, []);
  }

  /** Rows that name a file and begin a hunk. */
  lemma ThreeRows(path: string, line: int, a: string, b: string, c: string, rest: seq<string>)
    requires Step(START, a) == (State(None, 0, true), [])
    requires Step(State(None, 0, true), b) == (State(Some(path), 0, true), [])
    requires Step(State(Some(path), 0, true), c) == (State(Some(path), line, false), [])
    ensures Reading(START, [a, b, c] + rest).out == Reading(State(Some(path), line, false), rest).out
  {
    ReadsOn(START, a, [b, c] + rest, State(None, 0, true));
    ReadsOn(State(None, 0, true), b, [c] + rest, State(Some(path), 0, true));
    ReadsOn(State(Some(path), 0, true), c, rest, State(Some(path), line, false));
    assert [a, b, c] + rest == [a] + ([b, c] + rest) && [b, c] + rest == [b] + ([c] + rest);
  }

  /** A row that says nothing and one that adds a line. */
  lemma TwoRows(path: string, line: int, d: string, b: string)
    requires Step(State(Some(path), line, false), d) == (State(Some(path), line, false), [])
    ensures Reading(State(Some(path), line, false), [d, "+" + b]).out == [Added(path, line, b)]
  {
    var at := State(Some(path), line, false);
    ReadsOn(at, d, ["+" + b], at);
    assert [d, "+" + b] == [d] + ["+" + b];
    PlusStep(at, b);
    OneRow(at, "+" + b);
  }

  lemma DeletionReading(path: string, title: string, a: string, b: string, rows: seq<string>)
    requires rows == [TITLE + title, LABEL + ("b/" + path), HunkRow(0, 1, 0, 0, ""), "-" + a, "+" + b]
    ensures Reading(START, rows).out == [Added(path, 0, b)]
  {
    StartsWithOwn(TITLE, title);
    LabelStep(State(None, 0, true), "b/" + path);
    StartsWithOwn("b/", path);
    HunkStep(State(Some(path), 0, true), 0, 1, 0, 0, "");
    RemovedIsQuiet([a], false);
    assert Prefixed("-", [a], false).first == Row("-" + a);
    QuietStep(State(Some(path), 0, false), "-" + a);
    TwoRows(path, 0, "-" + a, b);
    ThreeRows(path, 0, rows[0], rows[1], rows[2], ["-" + a, "+" + b]);
    assert rows == [rows[0], rows[1], rows[2]] + ["-" + a, "+" + b];
  }

  /** The guard is needed: the deletion of such a line is reported as an addition. */
  lemma DeletedLineIsReported(path: string, title: string, a: string, b: string)
    requires Quiet(title) && BreakFree(path) && BreakFree(title) && BreakFree(a) && BreakFree(b)
    ensures var f := Deletion(path, title, a, b);
            Printed([f]) && ReadByName(f) && Inserted([f]) == [] && Reading(START,
                                                                            Lines(Diff([f]))).out == [Added(path, 0, b)]
  {
    var f := Deletion(path, title, a, b);
    assert f.segments[1..] == [] && [f][1..] == [];
    assert Insertions(path, f.segments, 0) == Numbered(path, 1, []) + Insertions(path, f.segments[1..], 0) == [];
    assert Inserted([f]) == Insertions(path, f.segments, 0) + Inserted([f][1..]) == [];
    DeletionLines(path, title, a, b);
    DeletionReading(path, title, a, b,
                    [TITLE + title, LABEL + ("b/" + path), HunkRow(0, 1, 0, 0, ""), "-" + a, "+" + b]);
  }
}
