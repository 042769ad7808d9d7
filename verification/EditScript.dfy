/**
 Edits of files, and how Git prints them as zero-context diffs: what the readers of a diff must
 make sense of again.
 */
module EditScript {
  import opened Options
  import opened Text
  import opened Decimal

  /** A stretch of a file: lines that stay, or lines that give way to others. */
  datatype Segment =
    | Keep(lines: seq<string>)
    | Change(removed: seq<string>, inserted: seq<string>, heading: string, removedUnended: bool, insertedUnended: bool)

  function OldLines(segments: seq<Segment>): seq<string> {
    if segments == [] then []
    else (if segments[0].Keep? then segments[0].lines else segments[0].removed) + OldLines(segments[1..])
  }

  function NewLines(segments: seq<Segment>): seq<string> {
    if segments == [] then []
    else (if segments[0].Keep? then segments[0].lines else segments[0].inserted) + NewLines(segments[1..])
  }

  /**
   One file of a diff. The preamble is what a log prints before it; the new name is what follows the
   three plus signs, which Git quotes, ends with a tab or sets to the null device as the name asks.
   */
  datatype FileEdit = FileEdit(path: string, preamble: seq<string>, title: string, header: seq<string>,
                               newName: Option<string>, segments: seq<Segment>)

  // ----- printing -----

  /** Printed rows, put together from parts. */
  datatype Print = Nothing | Row(text: string) | Then(first: Print, second: Print)

  function Rows(p: Print): seq<string> {
    match p
    case Nothing => []
    case Row(text) => [text]
    case Then(first, second) => Rows(first) + Rows(second)
  }

  const TITLE := "diff --git "
  const LABEL := "+++ "
  const NO_END := "\\ No newline at end of file"

  function Listed(rows: seq<string>): Print {
    if rows == [] then Nothing else Then(Row(rows[0]), Listed(rows[1..]))
  }

  function Prefixed(mark: string, lines: seq<string>, unended: bool): Print {
    if lines == [] then (if unended then Row(NO_END) else Nothing)
    else Then(Row(mark + lines[0]), Prefixed(mark, lines[1..], unended))
  }

  /** The range of `count` lines after the first `before` ones; an empty range names the line before it. */
  function RangeText(before: nat, count: nat): string {
    if count == 1 then Digits(before + 1)
    else Digits(if count == 0 then before else before + 1) + "," + Digits(count)
  }

  function HunkRow(was: nat, removed: nat, now: nat, inserted: nat, heading: string): string {
    "@@ -" + RangeText(was, removed) + " +" + RangeText(now, inserted) + " @@" + heading
  }

  function ChangePrint(s: Segment, was: nat, now: nat): Print
    requires s.Change?
  {
    Then(Row(HunkRow(was, |s.removed|, now, |s.inserted|, s.heading)),
         Then(Prefixed("-", s.removed, s.removedUnended), Prefixed("+", s.inserted, s.insertedUnended)))
  }

  /** The hunks of what follows `was` old and `now` new lines. */
  function HunkPrint(segments: seq<Segment>, was: nat, now: nat): Print {
    if segments == [] then Nothing
    else
      match segments[0]
      case Keep(lines) => HunkPrint(segments[1..], was + |lines|, now + |lines|)
      case Change(removed, inserted, _, _, _) =>
        Then(ChangePrint(segments[0], was, now), HunkPrint(segments[1..], was + |removed|, now + |inserted|))
  }

  function FilePrint(f: FileEdit): Print {
    var name := if f.newName.Some? then Row(LABEL + f.newName.value) else Nothing;
    Then(Listed(f.preamble),
         Then(Row(TITLE + f.title), Then(Listed(f.header), Then(name, HunkPrint(f.segments, 0, 0)))))
  }

  function DiffPrint(files: seq<FileEdit>): Print {
    if files == [] then Nothing else Then(FilePrint(files[0]), DiffPrint(files[1..]))
  }

  /** The text of a diff. */
  function Diff(files: seq<FileEdit>): string { Unlines(Rows(DiffPrint(files))) }

  /** A row that neither begins a file or a hunk nor adds a line. */
  predicate Quiet(row: string) {
    !StartsWith(row, TITLE) && !StartsWith(row, "@@") && !StartsWith(row, "+")
  }

  ghost predicate AllQuiet(rows: seq<string>) {
    forall i :: 0 <= i < |rows| ==> Quiet(rows[i])
  }

  ghost predicate PrintedFile(f: FileEdit) {
    AllQuiet(f.preamble) && Quiet(f.title) && AllQuiet(f.header)
  }

  /** What Git prints around the hunks: never a line that reads as a title, a hunk or an addition. */
  ghost predicate Printed(files: seq<FileEdit>) {
    forall i :: 0 <= i < |files| ==> PrintedFile(files[i])
  }

  ghost predicate QuietPrint(p: Print) {
    match p
    case Nothing => true
    case Row(text) => Quiet(text)
    case Then(first, second) => QuietPrint(first) && QuietPrint(second)
  }

  lemma {:induction false} ListedIsQuiet(rows: seq<string>)
    requires AllQuiet(rows)
    ensures QuietPrint(Listed(rows))
  {
    if rows != [] {
      ListedIsQuiet(rows[1..]);
    }
  }

  lemma {:induction false} RemovedIsQuiet(removed: seq<string>, unended: bool)
    ensures QuietPrint(Prefixed("-", removed, unended))
  {
    if removed == [] {
      NoEndIsQuiet();
    } else {
      var row := "-" + removed[0];
      assert row[0] == '-';
      FirstCharDiffers(row, TITLE);
      FirstCharDiffers(row, "@@");
      FirstCharDiffers(row, "+");
      RemovedIsQuiet(removed[1..], unended);
    }
  }

  lemma NoEndIsQuiet()
    ensures Quiet(NO_END)
  {
    assert NO_END[0] == '\\';
    FirstCharDiffers(NO_END, TITLE);
    FirstCharDiffers(NO_END, "@@");
    FirstCharDiffers(NO_END, "+");
  }

  lemma FirstCharDiffers(row: string, prefix: string)
    requires prefix != "" && row != "" && row[0] != prefix[0]
    ensures !StartsWith(row, prefix)
  {
    assert |prefix| <= |row| ==> row[..|prefix|][0] == row[0];
  }

  lemma NoLongerPrefix(row: string, prefix: string, longer: string)
    requires !StartsWith(row, prefix) && StartsWith(longer, prefix)
    ensures !StartsWith(row, longer)
  {
    assert |longer| <= |row| ==> row[..|prefix|] == row[..|longer|][..|prefix|];
  }

  lemma StartsWithOwn(prefix: string, rest: string)
    ensures StartsWith(prefix + rest, prefix) && (prefix + rest)[|prefix|..] == rest
  {
  }

  lemma HunkRowParts(was: nat, removed: nat, now: nat, inserted: nat, heading: string)
    ensures HunkRow(was, removed, now, inserted, heading)
            == "@@ -" + (RangeText(was, removed) + (" +" + (RangeText(now, inserted) + (" @@" + heading))))
  {
  }

  /** The rows of a file without preamble and header. */
  lemma FileRows(f: FileEdit, hunks: Print)
    requires f.preamble == [] && f.header == [] && f.newName.Some? && hunks == HunkPrint(f.segments, 0, 0)
    ensures Rows(FilePrint(f)) == [TITLE + f.title, LABEL + f.newName.value] + Rows(hunks)
  {
    var name := Row(LABEL + f.newName.value);
    var named := Then(name, hunks);
    var headed := Then(Row(TITLE + f.title), Then(Nothing, named));
    assert FilePrint(f) == Then(Nothing, headed);
    assert Rows(named) == [LABEL + f.newName.value] + Rows(hunks);
    assert Rows(headed) == [TITLE + f.title] + Rows(Then(Nothing, named)) == [TITLE + f.title] + ([] + Rows(named));
  }

  // ----- reading numbers -----

  /** The digits a text begins with, and what follows them. */
  function TakeDigits(s: string): (r: (string, string))
    ensures s == r.0 + r.1 && AllDigits(r.0)
  {
    if s == "" || !IsDigit(s[0]) then ("", s)
    else var rest := TakeDigits(s[1..]); ([s[0]] + rest.0, rest.1)
  }

  lemma {:induction false} TakeDigitsOf(digits: string, rest: string)
    requires AllDigits(digits) && (rest == "" || !IsDigit(rest[0]))
    ensures TakeDigits(digits + rest) == (digits, rest)
  {
    if digits == "" {
      assert digits + rest == rest;
    } else {
      assert (digits + rest)[1..] == digits[1..] + rest && [digits[0]] + digits[1..] == digits;
      TakeDigitsOf(digits[1..], rest);
    }
  }

  /** A number, and what follows it. */
  function TakeNumber(s: string): Option<(nat, string)> {
    var r := TakeDigits(s);
    if r.0 == "" then None else Some((Value(r.0), r.1))
  }

  lemma TakeNumberOf(n: nat, rest: string)
    requires rest == "" || !IsDigit(rest[0])
    ensures TakeNumber(Digits(n) + rest) == Some((n, rest))
  {
    TakeDigitsOf(Digits(n), rest);
    ValueOfDigits(n);
  }

  /** A start and, after a comma, a count; a missing count is one. */
  function TakeRange(s: string): Option<(nat, nat, string)> {
    var start := TakeNumber(s);
    if start.None? then None
    else
      var after := start.value.1;
      var count := if StartsWith(after, ",") then TakeNumber(after[1..]) else None;
      if count.None? then Some((start.value.0, 1, after)) else Some((start.value.0, count.value.0, count.value.1))
  }

  function RangeStart(before: nat, count: nat): nat {
    if count == 0 then before else before + 1
  }

  lemma TakeRangeOf(before: nat, count: nat, rest: string)
    requires rest != "" && !IsDigit(rest[0]) && rest[0] != ','
    ensures TakeRange(RangeText(before, count) + rest) == Some((RangeStart(before, count), count, rest))
  {
    var start := RangeStart(before, count);
    if count == 1 {
      TakeNumberOf(start, rest);
      FirstCharDiffers(rest, ",");
    } else {
      var tail := "," + Digits(count) + rest;
      assert RangeText(before, count) + rest == Digits(start) + tail;
      TakeNumberOf(start, tail);
      assert tail == "," + (Digits(count) + rest);
      StartsWithOwn(",", Digits(count) + rest);
      TakeNumberOf(count, rest);
    }
  }
}
