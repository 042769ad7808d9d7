/**
 Which tests a diff touches: the new-side ranges of its hunks, the test functions they meet, and why
 a test that is left out has not changed.
 */
module ChangedTests {
  import opened Options
  import opened Text
  import opened EditScript

  /** New-side lines, both ends counted. */
  datatype Range = Range(first: int, last: int)

  /** One test function and the lines it occupies. */
  datatype Span = Span(node: string, first: int, last: int)

  predicate Meets(s: Span, r: Range) { s.first <= r.last && r.first <= s.last }

  // ----- the ranges of an edit -----

  /** What the hunk of `inserted` lines after the first `now` covers; an empty one, the lines around it. */
  function HunkRange(now: nat, inserted: nat): Range {
    if inserted > 0 then Range(now + 1, now + inserted) else Range(now, now + 1)
  }

  function Ranges(segments: seq<Segment>, now: nat): seq<Range> {
    if segments == [] then []
    else
      match segments[0]
      case Keep(lines) => Ranges(segments[1..], now + |lines|)
      case Change(_, inserted, _, _, _) => [HunkRange(now, |inserted|)] + Ranges(segments[1..], now + |inserted|)
  }

  // ----- an unmet block is unchanged -----

  ghost predicate Unmet(s: Span, ranges: seq<Range>) {
    forall i :: 0 <= i < |ranges| ==> !Meets(s, ranges[i])
  }

  lemma UnmetRest(s: Span, segments: seq<Segment>, now: nat)
    requires segments != [] && Unmet(s, Ranges(segments, now))
    ensures segments[0].Keep? ==> Unmet(s, Ranges(segments[1..], now + |segments[0].lines|))
    ensures segments[0].Change? ==>
            !Meets(s, HunkRange(now, |segments[0].inserted|)) && Unmet(s, Ranges(segments[1..],
                                                                                 now + |segments[0].inserted|))
  {
    if segments[0].Change? {
      var rest := Ranges(segments[1..], now + |segments[0].inserted|);
      var all := Ranges(segments, now);
      assert all[0] == HunkRange(now, |segments[0].inserted|);
      assert forall i :: 0 <= i < |rest| ==> rest[i] == all[i + 1];
    }
  }

  function NewPart(s: Segment): seq<string> { if s.Keep? then s.lines else s.inserted }

  function OldPart(s: Segment): seq<string> { if s.Keep? then s.lines else s.removed }

  lemma LinesStep(segments: seq<Segment>)
    requires segments != []
    ensures NewLines(segments) == NewPart(segments[0]) + NewLines(segments[1..])
    ensures OldLines(segments) == OldPart(segments[0]) + OldLines(segments[1..])
  {
  }

  lemma SharedPrefix(lines: seq<string>, was: seq<string>, now: seq<string>, n: nat)
    requires n <= |was| && n <= |now| && was[..n] == now[..n]
    ensures (lines + was)[..|lines| + n] == (lines + now)[..|lines| + n]
  {
    assert (lines + was)[..|lines| + n] == lines + was[..n];
    assert (lines + now)[..|lines| + n] == lines + now[..n];
  }

  lemma ShorterPrefix(was: seq<string>, now: seq<string>, m: nat, n: nat)
    requires m <= n <= |was| && n <= |now| && was[..n] == now[..n]
    ensures was[..m] == now[..m]
  {
    assert was[..m] == was[..n][..m] && now[..m] == now[..n][..m];
  }

  /** A block that has begun before these segments and goes on for `n` lines meets no hunk: they were all kept. */
  lemma {:induction false} PrefixIsKept(s: Span, segments: seq<Segment>, now: nat, n: nat)
    requires n <= |NewLines(segments)| && s.first <= now && s.last == now + n && Unmet(s, Ranges(segments, now))
    ensures n <= |OldLines(segments)| && OldLines(segments)[..n] == NewLines(segments)[..n]
    decreases |segments|
  {
    if segments != [] && n > 0 {
      UnmetRest(s, segments, now);
      LinesStep(segments);
      var lines, rest := segments[0].lines, segments[1..];
      if n <= |lines| {
        SharedPrefix(lines, OldLines(rest), NewLines(rest), 0);
        ShorterPrefix(OldLines(segments), NewLines(segments), n, |lines|);
      } else {
        PrefixIsKept(s, rest, now + |lines|, n - |lines|);
        SharedPrefix(lines, OldLines(rest), NewLines(rest), n - |lines|);
      }
    }
  }

  /** The block begins in the first segment: that is kept, and so is all the block goes on into. */
  lemma BlockBegins(s: Span, segments: seq<Segment>, now: nat, a: nat, b: nat)
    requires segments != [] && s.first == now + a + 1 && s.last == now + b && a < b <= |NewLines(segments)|
    requires a < |NewPart(segments[0])| && Unmet(s, Ranges(segments, now))
    ensures b <= |OldLines(segments)| && OldLines(segments)[..b] == NewLines(segments)[..b]
  {
    LinesStep(segments);
    UnmetRest(s, segments, now);
    var lines, rest := segments[0].lines, segments[1..];
    if b > |lines| {
      PrefixIsKept(s, rest, now + |lines|, b - |lines|);
      SharedPrefix(lines, OldLines(rest), NewLines(rest), b - |lines|);
    } else {
      SharedPrefix(lines, OldLines(rest), NewLines(rest), 0);
      ShorterPrefix(OldLines(segments), NewLines(segments), b, |lines|);
    }
  }

  lemma UnmetLater(s: Span, segments: seq<Segment>, now: nat)
    requires segments != [] && Unmet(s, Ranges(segments, now))
    ensures Unmet(s, Ranges(segments[1..], now + |NewPart(segments[0])|))
  {
    UnmetRest(s, segments, now);
  }

  /** `block` is a run of adjacent lines, after `before` and followed by `after`. */
  ghost predicate Around(lines: seq<string>, before: seq<string>, block: seq<string>, after: seq<string>) {
    lines == before + block + after
  }

  lemma AroundMore(x: seq<string>, lines: seq<string>, before: seq<string>, block: seq<string>, after: seq<string>)
    requires Around(lines, before, block, after)
    ensures Around(x + lines, x + before, block, after)
  {
  }

  /** Where a block stands in both files. */
  datatype Place = Place(block: seq<string>, oldBefore: seq<string>, oldAfter: seq<string>, newBefore: seq<string>,
                         newAfter: seq<string>)

  ghost predicate Placed(was: seq<string>, now: seq<string>, p: Place) {
    Around(was, p.oldBefore, p.block, p.oldAfter) && Around(now, p.newBefore, p.block, p.newAfter)
  }

  lemma PlacedStep(segments: seq<Segment>, p: Place) returns (q: Place)
    requires segments != [] && Placed(OldLines(segments[1..]), NewLines(segments[1..]), p)
    ensures q == p.(oldBefore := OldPart(segments[0]) + p.oldBefore, newBefore := NewPart(segments[0]) + p.newBefore)
    ensures Placed(OldLines(segments), NewLines(segments), q)
  {
    LinesStep(segments);
    q := p.(oldBefore := OldPart(segments[0]) + p.oldBefore, newBefore := NewPart(segments[0]) + p.newBefore);
    AroundMore(OldPart(segments[0]), OldLines(segments[1..]), p.oldBefore, p.block, p.oldAfter);
    AroundMore(NewPart(segments[0]), NewLines(segments[1..]), p.newBefore, p.block, p.newAfter);
  }

  lemma PrefixPlaced(was: seq<string>, now: seq<string>, a: nat, b: nat) returns (p: Place)
    requires a <= b <= |was| && b <= |now| && was[..b] == now[..b]
    ensures Placed(was, now, p) && |p.newBefore| == a && |p.block| == b - a
  {
    p := Place(now[a..b], was[..a], was[b..], now[..a], now[b..]);
    assert was[a..b] == was[..b][a..] && now[a..b] == now[..b][a..];
  }

  lemma {:induction false} UnmetIsPlaced(s: Span, segments: seq<Segment>, now: nat) returns (p: Place)
    requires now < s.first <= s.last <= now + |NewLines(segments)| && Unmet(s, Ranges(segments, now))
    ensures Placed(OldLines(segments), NewLines(segments), p)
    ensures |p.newBefore| == s.first - now - 1 && |p.block| == s.last - s.first + 1
    decreases |segments|
  {
    NewLength(segments);
    var n := |NewPart(segments[0])|;
    var a, b := s.first - now - 1, s.last - now;
    if a >= n {
      UnmetLater(s, segments, now);
      var q := UnmetIsPlaced(s, segments[1..], now + n);
      p := PlacedStep(segments, q);
    } else {
      BlockBegins(s, segments, now, a, b);
      p := PrefixPlaced(OldLines(segments), NewLines(segments), a, b);
    }
  }

  lemma NewLength(segments: seq<Segment>)
    ensures segments == [] ==> |NewLines(segments)| == 0
    ensures segments != [] ==> |NewLines(segments)| == |NewPart(segments[0])| + |NewLines(segments[1..])|
  {
  }

  /** Some run of adjacent lines of `was` is `block`. */
  ghost predicate StandsIn(was: seq<string>, block: seq<string>) {
    exists before, after :: Around(was, before, block, after)
  }

  /**
   A block of the new file that no hunk meets stands in the old file too: the same lines, in the same
   order and with nothing between them.
   */
  lemma UnmetIsUnchanged(s: Span, segments: seq<Segment>)
    requires 1 <= s.first <= s.last <= |NewLines(segments)| && Unmet(s, Ranges(segments, 0))
    ensures StandsIn(OldLines(segments), NewLines(segments)[s.first - 1..s.last])
  {
    var p := UnmetIsPlaced(s, segments, 0);
    var now := NewLines(segments);
    assert now[s.first - 1..s.last] == p.block;
    assert Around(OldLines(segments), p.oldBefore, p.block, p.oldAfter);
  }

  // ----- reading a diff -----

  const NEW_FILE := "+++ b/"

  /** The path of a row that names a new file. */
  function FileIn(row: string): Option<string> {
    if StartsWith(row, NEW_FILE) && |row| > |NEW_FILE| then Some(row[|NEW_FILE|..]) else None
  }

  /** The range of a row that heads a hunk. */
  function RangeIn(row: string): Option<Range> {
    if !StartsWith(row, "@@ -") then None
    else
      var was := TakeRange(row[4..]);
      if was.None? || !StartsWith(was.value.2, " +") then None
      else
        var now := TakeRange(was.value.2[2..]);
        if now.None? || !StartsWith(now.value.2, " @@") then None
        else
          var start, count := now.value.0, now.value.1;
          Some(if count > 0 then Range(start, start + count - 1) else Range(start, start + 1))
  }

  lemma RangeInParts(a: string, b: string, was: (nat, nat, string), now: (nat, nat, string))
    requires TakeRange(a) == Some(was) && was.2 == " +" + b && TakeRange(b) == Some(now) && StartsWith(now.2, " @@")
    ensures RangeIn("@@ -" + a) == Some(if now.1 > 0 then Range(now.0, now.0 + now.1 - 1) else Range(now.0, now.0 + 1))
  {
    StartsWithOwn("@@ -", a);
    StartsWithOwn(" +", b);
  }

  lemma RangeInRest(a: string, was: (nat, nat, string), now: nat, inserted: nat, heading: string)
    requires TakeRange(a) == Some(was) && was.2 == " +" + (RangeText(now, inserted) + (" @@" + heading))
    ensures RangeIn("@@ -" + a) == Some(HunkRange(now, inserted))
  {
    var end := " @@" + heading;
    StartsWithOwn(" @@", heading);
    TakeRangeOf(now, inserted, end);
    RangeInParts(a, RangeText(now, inserted) + end, was, (RangeStart(now, inserted), inserted, end));
  }

  lemma RangeInHunk(was: nat, removed: nat, now: nat, inserted: nat, heading: string)
    ensures RangeIn(HunkRow(was, removed, now, inserted, heading)) == Some(HunkRange(now, inserted))
  {
    var rest := " +" + (RangeText(now, inserted) + (" @@" + heading));
    TakeRangeOf(was, removed, rest);
    RangeInRest(RangeText(was, removed) + rest, (RangeStart(was, removed), removed, rest), now, inserted, heading);
    HunkRowParts(was, removed, now, inserted, heading);
  }

  /** What one file's section tells: the first new file it names, and the ranges of its hunks. */
  datatype Summary = Summary(file: Option<string>, ranges: seq<Range>)

  const EMPTY := Summary(None, [])

  function First(a: Option<string>, b: Option<string>): Option<string> { if a.Some? then a else b }

  function Join(a: Summary, b: Summary): Summary { Summary(First(a.file, b.file), a.ranges + b.ranges) }

  function SummaryOf(row: string): Summary {
    var r := RangeIn(row);
    Summary(FileIn(row), if r.Some? then [r.value] else [])
  }

  function Summarize(rows: seq<string>): Summary {
    if rows == [] then EMPTY else Join(SummaryOf(rows[0]), Summarize(rows[1..]))
  }

  /** Rows before the first title, and then the rows of each section; a section begins after the words of its title. */
  datatype Cut = Cut(before: seq<string>, sections: seq<seq<string>>)

  function CutUp(rows: seq<string>): Cut {
    if rows == [] then Cut([], [])
    else
      var rest := CutUp(rows[1..]);
      if StartsWith(rows[0], TITLE) then Cut([], [[rows[0][|TITLE|..]] + rest.before] + rest.sections)
      else Cut([rows[0]] + rest.before, rest.sections)
  }

  /** Where each section's ranges go: to the file it names, after those already there. */
  function Gather(sections: seq<Summary>): map<string, seq<Range>> {
    if sections == [] then map[]
    else
      var done, last := Gather(sections[..|sections| - 1]), sections[|sections| - 1];
      if last.file.None? then done
      else done[last.file.value := (if last.file.value in done then done[last.file.value] else []) + last.ranges]
  }

  function Summaries(sections: seq<seq<string>>): seq<Summary> {
    seq(|sections|, i requires 0 <= i < |sections| => Summarize(sections[i]))
  }

  method Sections(diff: string) returns (sections: seq<seq<string>>)
    ensures sections == CutUp(Split(diff, '\n')).sections
  {
    var rows := Split(diff, '\n');
    var i, before := |rows|, [];
    sections := [];
    while i > 0
      invariant 0 <= i <= |rows|
      invariant CutUp(rows[i..]) == Cut(before, sections)
    {
      i := i - 1;
      assert rows[i..][1..] == rows[i + 1..];
      if StartsWith(rows[i], TITLE) {
        sections := [[rows[i][|TITLE|..]] + before] + sections;
        before := [];
      } else {
        before := [rows[i]] + before;
      }
    }
    assert rows[0..] == rows;
  }

  lemma SummarizeMore(s: Summary, rows: seq<string>, i: nat)
    requires i < |rows| && Join(s, Summarize(rows[i..])) == Summarize(rows)
    ensures Join(Join(s, SummaryOf(rows[i])), Summarize(rows[i + 1..])) == Summarize(rows)
  {
    assert rows[i..][1..] == rows[i + 1..];
    JoinAssociative(s, SummaryOf(rows[i]), Summarize(rows[i + 1..]));
  }

  method TakeRow(s: Summary, row: string) returns (r: Summary)
    ensures r == Join(s, SummaryOf(row))
  {
    var file, ranges := s.file, s.ranges;
    if file.None? {
      file := FileIn(row);
    }
    var found := RangeIn(row);
    if found.Some? {
      ranges := ranges + [found.value];
    }
    r := Summary(file, ranges);
  }

  /** The section's file and its hunks' ranges, found one after the other. */
  method ReadSection(rows: seq<string>) returns (s: Summary)
    ensures s == Summarize(rows)
  {
    s := EMPTY;
    var i := 0;
    assert rows[0..] == rows;
    while i < |rows|
      invariant 0 <= i <= |rows|
      invariant Join(s, Summarize(rows[i..])) == Summarize(rows)
    {
      SummarizeMore(s, rows, i);
      s := TakeRow(s, rows[i]);
      i := i + 1;
    }
  }

  lemma JoinAssociative(a: Summary, b: Summary, c: Summary)
    ensures Join(Join(a, b), c) == Join(a, Join(b, c))
  {
  }

  lemma GatherMore(all: seq<Summary>, i: nat)
    requires i < |all|
    ensures var done, last := Gather(all[..i]), all[i];
            Gather(all[..i + 1]) ==
            if last.file.None? then done
            else done[last.file.value := (if last.file.value in done then done[last.file.value] else []) + last.ranges]
  {
    assert all[..i + 1][..i] == all[..i];
  }

  /** The new-side ranges of each file's hunks. */
  method ChangedLines(diff: string) returns (result: map<string, seq<Range>>)
    ensures result == Gather(Summaries(CutUp(Split(diff, '\n')).sections))
  {
    var sections := Sections(diff);
    ghost var all := Summaries(sections);
    result := map[];
    for i := 0 to |sections|
      invariant result == Gather(all[..i])
    {
      var s := ReadSection(sections[i]);
      GatherMore(all, i);
      if s.file.Some? {
        var path := s.file.value;
        result := result[path := (if path in result then result[path] else []) + s.ranges];
      }
    }
    assert all[..|sections|] == all;
  }

  // ----- what a printed diff comes to -----

  /** The summary of the rows before the first title, and that of each section. */
  datatype Digest = Digest(here: Summary, sections: seq<Summary>)

  function DigestRow(row: string, rest: Digest): Digest {
    if StartsWith(row, TITLE) then Digest(EMPTY, [Join(SummaryOf(row[|TITLE|..]), rest.here)] + rest.sections)
    else Digest(Join(SummaryOf(row), rest.here), rest.sections)
  }

  function DigestOf(rows: seq<string>): Digest {
    if rows == [] then Digest(EMPTY, []) else DigestRow(rows[0], DigestOf(rows[1..]))
  }

  function DigestCut(cut: Cut): Digest { Digest(Summarize(cut.before), Summaries(cut.sections)) }

  lemma SummarizeStep(row: string, rows: seq<string>)
    ensures Summarize([row] + rows) == Join(SummaryOf(row), Summarize(rows))
  {
    assert ([row] + rows)[1..] == rows;
  }

  lemma SummariesStep(section: seq<string>, sections: seq<seq<string>>)
    ensures Summaries([section] + sections) == [Summarize(section)] + Summaries(sections)
  {
  }

  lemma {:induction false} DigestIsCut(rows: seq<string>)
    ensures DigestOf(rows) == DigestCut(CutUp(rows))
  {
    if rows != [] {
      DigestIsCut(rows[1..]);
      var rest := CutUp(rows[1..]);
      var first := if StartsWith(rows[0], TITLE) then rows[0][|TITLE|..] else rows[0];
      SummarizeStep(first, rest.before);
      SummariesStep([first] + rest.before, rest.sections);
    }
  }

  function DigestPrint(p: Print, rest: Digest): Digest {
    match p
    case Nothing => rest
    case Row(text) => DigestRow(text, rest)
    case Then(first, second) => DigestPrint(first, DigestPrint(second, rest))
  }

  lemma {:induction false} PrintIsDigested(p: Print, rows: seq<string>)
    ensures DigestOf(Rows(p) + rows) == DigestPrint(p, DigestOf(rows))
    decreases p
  {
    match p {
      case Nothing => assert [] + rows == rows;
      case Row(text) => assert ([text] + rows)[1..] == rows;
      case Then(first, second) =>
        assert Rows(first) + Rows(second) + rows == Rows(first) + (Rows(second) + rows);
        PrintIsDigested(second, rows);
        PrintIsDigested(first, Rows(second) + rows);
    }
  }

  lemma QuietSummary(row: string)
    requires Quiet(row)
    ensures SummaryOf(row) == EMPTY
  {
    assert StartsWith("@@ -", "@@") && StartsWith(NEW_FILE, "+");
    NoLongerPrefix(row, "@@", "@@ -");
    NoLongerPrefix(row, "+", NEW_FILE);
  }

  lemma {:induction false} QuietDigest(p: Print, rest: Digest)
    requires QuietPrint(p)
    ensures DigestPrint(p, rest) == rest
    decreases p
  {
    match p {
      case Nothing =>
      case Row(text) => QuietSummary(text);
      case Then(first, second) =>
        QuietDigest(second, rest);
        QuietDigest(first, rest);
    }
  }

  /** The first inserted line that reads as the name of a new file. */
  function FileAmong(texts: seq<string>): Option<string> {
    if texts == [] then None else First(FileIn("+" + texts[0]), FileAmong(texts[1..]))
  }

  lemma PlusSummary(text: string)
    ensures SummaryOf("+" + text) == Summary(FileIn("+" + text), []) && !StartsWith("+" + text, TITLE)
  {
    var row := "+" + text;
    assert row[0] == '+';
    FirstCharDiffers(row, TITLE);
    FirstCharDiffers(row, "@@ -");
  }

  /** Inserted lines add no range; they name a file only where one of them reads as such. */
  lemma {:induction false} PlusDigest(texts: seq<string>, unended: bool, rest: Digest) returns (r: Digest)
    ensures r == DigestPrint(Prefixed("+", texts, unended), rest)
    ensures r.sections == rest.sections && r.here.ranges == rest.here.ranges
    ensures r.here.file == First(FileAmong(texts), rest.here.file)
    decreases |texts|
  {
    r := DigestPrint(Prefixed("+", texts, unended), rest);
    if texts == [] {
      NoEndIsQuiet();
      if unended {
        QuietDigest(Row(NO_END), rest);
      }
    } else {
      var later := PlusDigest(texts[1..], unended, rest);
      PlusSummary(texts[0]);
    }
  }

  lemma ChangeDigest(c: Segment, was: nat, now: nat, rest: Digest) returns (p: Print, r: Digest)
    requires c.Change?
    ensures p == ChangePrint(c, was, now) && r == DigestPrint(p, rest)
    ensures r.sections == rest.sections && r.here.ranges == [HunkRange(now, |c.inserted|)] + rest.here.ranges
    ensures r.here.file == First(FileAmong(c.inserted), rest.here.file)
  {
    p := ChangePrint(c, was, now);
    var plus := PlusDigest(c.inserted, c.insertedUnended, rest);
    RemovedIsQuiet(c.removed, c.removedUnended);
    QuietDigest(Prefixed("-", c.removed, c.removedUnended), plus);
    HunkSummary(was, |c.removed|, now, |c.inserted|, c.heading);
    var hunk := HunkRow(was, |c.removed|, now, |c.inserted|, c.heading);
    r := DigestRow(hunk, plus);
  }

  lemma HunkSummary(was: nat, removed: nat, now: nat, inserted: nat, heading: string)
    ensures var row := HunkRow(was, removed, now, inserted, heading);
            SummaryOf(row) == Summary(None, [HunkRange(now, inserted)]) && !StartsWith(row, TITLE)
  {
    var row := HunkRow(was, removed, now, inserted, heading);
    assert row[0] == '@';
    FirstCharDiffers(row, TITLE);
    FirstCharDiffers(row, NEW_FILE);
    RangeInHunk(was, removed, now, inserted, heading);
  }

  /** The first file the inserted lines read as naming. */
  function FileInserted(segments: seq<Segment>): Option<string> {
    if segments == [] then None
    else
      match segments[0]
      case Keep(_) => FileInserted(segments[1..])
      case Change(_, inserted, _, _, _) => First(FileAmong(inserted), FileInserted(segments[1..]))
  }

  lemma KeepDigest(segments: seq<Segment>, was: nat, now: nat, rest: Digest, later: Digest, ranges: seq<Range>)
    requires segments != [] && segments[0].Keep?
    requires later == DigestPrint(HunkPrint(segments[1..], was + |segments[0].lines|, now + |segments[0].lines|), rest)
    requires ranges == Ranges(segments[1..], now + |segments[0].lines|)
    ensures DigestPrint(HunkPrint(segments, was, now), rest) == later && Ranges(segments, now) == ranges
  {
  }

  lemma ThenDigest(segments: seq<Segment>, was: nat, now: nat, rest: Digest, later: Digest) returns (r: Digest)
    requires segments != [] && segments[0].Change?
    requires later == DigestPrint(HunkPrint(segments[1..], was + |segments[0].removed|, now + |segments[0].inserted|),
                                  rest)
    ensures r == DigestPrint(HunkPrint(segments, was, now), rest)
    ensures r.sections == later.sections
    ensures r.here.ranges == [HunkRange(now, |segments[0].inserted|)] + later.here.ranges
    ensures r.here.file == First(FileAmong(segments[0].inserted), later.here.file)
  {
    var p;
    p, r := ChangeDigest(segments[0], was, now, later);
    ChangePrinted(segments, was, now, rest, later, p);
  }

  lemma Regroup(h: Range, more: seq<Range>, rest: seq<Range>)
    ensures [h] + (more + rest) == ([h] + more) + rest
  {
  }

  lemma RangesStep(segments: seq<Segment>, now: nat, more: seq<Range>) returns (ranges: seq<Range>)
    requires segments != [] && segments[0].Change? && more == Ranges(segments[1..], now + |segments[0].inserted|)
    ensures ranges == [HunkRange(now, |segments[0].inserted|)] + more && ranges == Ranges(segments, now)
  {
    ranges := [HunkRange(now, |segments[0].inserted|)] + more;
  }

  lemma ChangePrinted(segments: seq<Segment>, was: nat, now: nat, rest: Digest, later: Digest, p: Print)
    requires segments != [] && segments[0].Change? && p == ChangePrint(segments[0], was, now)
    requires later == DigestPrint(HunkPrint(segments[1..], was + |segments[0].removed|, now + |segments[0].inserted|),
                                  rest)
    ensures DigestPrint(HunkPrint(segments, was, now), rest) == DigestPrint(p, later)
  {
    DigestThen(p, HunkPrint(segments[1..], was + |segments[0].removed|, now + |segments[0].inserted|), rest);
  }

  lemma DigestThen(first: Print, second: Print, rest: Digest)
    ensures DigestPrint(Then(first, second), rest) == DigestPrint(first, DigestPrint(second, rest))
  {
  }

  lemma {:induction false} HunksDigest(segments: seq<Segment>, was: nat, now: nat, rest: Digest)
    returns (r: Digest, ranges: seq<Range>)
    ensures r == DigestPrint(HunkPrint(segments, was, now), rest) && ranges == Ranges(segments, now)
    ensures r.sections == rest.sections && r.here.ranges == ranges + rest.here.ranges
    ensures r.here.file == First(FileInserted(segments), rest.here.file)
    decreases |segments|
  {
    if segments == [] {
      r, ranges := rest, [];
    } else if segments[0].Keep? {
      var n := |segments[0].lines|;
      r, ranges := HunksDigest(segments[1..], was + n, now + n, rest);
      KeepDigest(segments, was, now, rest, r, ranges);
    } else {
      var c := segments[0];
      var later, more := HunksDigest(segments[1..], was + |c.removed|, now + |c.inserted|, rest);
      r := ThenDigest(segments, was, now, rest, later);
      ranges := RangesStep(segments, now, more);
      Regroup(HunkRange(now, |c.inserted|), more, rest.here.ranges);
    }
  }

  /** The file the new name of a section names. */
  function NamedFile(f: FileEdit): Option<string> {
    if f.newName.Some? && StartsWith(f.newName.value, "b/") && |f.newName.value| > 2 then Some(f.newName.value[2..]) else None
  }

  lemma NameSummary(newName: string)
    ensures var row := LABEL + newName;
            && !StartsWith(row, TITLE)
            && SummaryOf(row) == Summary(if StartsWith(newName, "b/") && |newName| > 2 then Some(newName[2..]) else None, [])
  {
    var row := LABEL + newName;
    assert row[0] == '+';
    FirstCharDiffers(row, TITLE);
    FirstCharDiffers(row, "@@ -");
    assert StartsWith(row, NEW_FILE) <==> StartsWith(newName, "b/") by {
      if |newName| >= 2 {
        assert row[..6] == LABEL + newName[..2];
        assert NEW_FILE == LABEL + "b/";
        assert row[..6][4..] == newName[..2] && NEW_FILE[4..] == "b/";
      }
    }
    if |newName| >= 2 {
      assert row[6..] == newName[2..];
    }
  }

  /** The file the section of this edit is taken to be about: inserted lines name it only if the new name does not. */
  function TakenFor(f: FileEdit): Option<string> { First(NamedFile(f), FileInserted(f.segments)) }

  lemma TitleDigest(title: string, rest: Digest)
    requires Quiet(title)
    ensures DigestRow(TITLE + title, rest) == Digest(EMPTY, [rest.here] + rest.sections)
  {
    StartsWithOwn(TITLE, title);
    QuietSummary(title);
    assert Join(EMPTY, rest.here) == rest.here;
    assert (TITLE + title)[|TITLE|..] == title;
  }

  lemma NameDigest(f: FileEdit, rest: Digest)
    ensures var name := if f.newName.Some? then Row(LABEL + f.newName.value) else Nothing;
            DigestPrint(name, rest) == Digest(Join(Summary(NamedFile(f), []), rest.here), rest.sections)
  {
    if f.newName.Some? {
      NameSummary(f.newName.value);
    }
  }

  function FileSummary(f: FileEdit): Summary { Summary(TakenFor(f), Ranges(f.segments, 0)) }

  /** A printed file is one section: the file it is taken for and its hunks' ranges. */
  lemma FileDigest(f: FileEdit, rest: Digest)
    requires PrintedFile(f) && rest.here == EMPTY
    ensures DigestPrint(FilePrint(f), rest) == Digest(EMPTY, [FileSummary(f)] + rest.sections)
  {
    var hunks := HunkPrint(f.segments, 0, 0);
    var name := if f.newName.Some? then Row(LABEL + f.newName.value) else Nothing;
    var header, title, preamble := Listed(f.header), Row(TITLE + f.title), Listed(f.preamble);
    var h, ranges := HunksDigest(f.segments, 0, 0, rest);
    var named := Digest(Summary(TakenFor(f), ranges), rest.sections);
    NameDigest(f, h);
    DigestThen(name, hunks, rest);
    assert DigestPrint(Then(name, hunks), rest) == named;
    ListedIsQuiet(f.header);
    QuietDigest(header, named);
    DigestThen(header, Then(name, hunks), rest);
    TitleDigest(f.title, named);
    DigestThen(title, Then(header, Then(name, hunks)), rest);
    var done := Digest(EMPTY, [named.here] + rest.sections);
    assert DigestPrint(Then(title, Then(header, Then(name, hunks))), rest) == done;
    ListedIsQuiet(f.preamble);
    QuietDigest(preamble, done);
    DigestThen(preamble, Then(title, Then(header, Then(name, hunks))), rest);
  }

  function FileSummaries(files: seq<FileEdit>): seq<Summary> {
    if files == [] then [] else [FileSummary(files[0])] + FileSummaries(files[1..])
  }

  lemma DiffDigestStep(f: FileEdit, more: Print, rest: Digest, later: seq<Summary>)
    requires PrintedFile(f) && DigestPrint(more, rest) == Digest(EMPTY, later)
    ensures DigestPrint(Then(FilePrint(f), more), rest) == Digest(EMPTY, [FileSummary(f)] + later)
  {
    DigestThen(FilePrint(f), more, rest);
    FileDigest(f, Digest(EMPTY, later));
  }

  lemma {:induction false} DiffDigest(files: seq<FileEdit>, rest: Digest)
    requires Printed(files) && rest.here == EMPTY
    ensures DigestPrint(DiffPrint(files), rest) == Digest(EMPTY, FileSummaries(files) + rest.sections)
    decreases |files|
  {
    if files == [] {
      assert [] + rest.sections == rest.sections;
    } else {
      DiffDigest(files[1..], rest);
      var later := FileSummaries(files[1..]) + rest.sections;
      DiffDigestStep(files[0], DiffPrint(files[1..]), rest, later);
      assert [FileSummary(files[0])] + later == FileSummaries(files) + rest.sections;
    }
  }

  lemma {:induction false} SplitUnlines(rows: seq<string>)
    requires forall i :: 0 <= i < |rows| ==> Free(rows[i], '\n')
    ensures Split(Unlines(rows), '\n') == rows + [""]
  {
    if rows != [] {
      SplitUnlines(rows[1..]);
      SplitAt(rows[0], Unlines(rows[1..]), '\n');
      assert ['\n'] == "\n";
      assert rows == [rows[0]] + rows[1..];
    }
  }

  /** Every row is a row: none holds a newline. */
  ghost predicate AllRows(rows: seq<string>) {
    forall i :: 0 <= i < |rows| ==> Free(rows[i], '\n')
  }

  /** Of a printed diff `changed_lines` gives the ranges of each file's edits to the file its section is taken for. */
  lemma ChangedLinesInvertsPrinting(files: seq<FileEdit>)
    requires Printed(files) && AllRows(Rows(DiffPrint(files)))
    ensures Gather(Summaries(CutUp(Split(Diff(files), '\n')).sections)) == Gather(FileSummaries(files))
  {
    var rows := Rows(DiffPrint(files));
    SplitUnlines(rows);
    DigestIsCut(rows + [""]);
    PrintIsDigested(DiffPrint(files), [""]);
    LastRowIsEmpty();
    DiffDigest(files, Digest(EMPTY, []));
    assert FileSummaries(files) + [] == FileSummaries(files);
  }

  lemma LastRowIsEmpty()
    ensures DigestOf([""]) == Digest(EMPTY, [])
  {
    assert Quiet("");
    QuietSummary("");
    var rows := [""];
    assert rows[1..] == [];
    assert DigestOf([]) == Digest(EMPTY, []);
  }

  /** Section `i` is about `path`. */
  predicate IsAbout(sections: seq<Summary>, i: int, path: string) {
    0 <= i < |sections| && sections[i].file == Some(path)
  }

  /** A path is found exactly if a section is about it, and has exactly the ranges of such sections. */
  lemma {:induction false} GatherIs(sections: seq<Summary>, path: string)
    ensures path in Gather(sections) <==> exists i :: IsAbout(sections, i, path)
    ensures path in Gather(sections) ==>
              forall r :: r in Gather(sections)[path] <==>
                  exists i :: IsAbout(sections, i, path) && r in sections[i].ranges
  {
    if sections != [] {
      var m := |sections| - 1;
      var front, last := sections[..m], sections[m];
      GatherIs(front, path);
      assert forall i :: 0 <= i < m ==> front[i] == sections[i];
      assert forall i :: IsAbout(sections, i, path) <==> IsAbout(front, i, path) || (i == m && last.file == Some(path));
      if last.file == Some(path) {
        assert IsAbout(sections, m, path);
      }
    }
  }

  lemma {:induction false} FileSummariesAt(files: seq<FileEdit>, i: nat)
    requires i < |files|
    ensures |FileSummaries(files)| == |files| && FileSummaries(files)[i] == FileSummary(files[i])
  {
    if |files| > 1 {
      FileSummariesAt(files[1..], if i == 0 then 0 else i - 1);
    }
  }

  // ----- selecting tests -----

  ghost predicate Hit(spans: seq<Span>, r: Range) {
    exists s :: s in spans && Meets(s, r)
  }

  function IdOf(path: string, s: Span): string { path + "::" + s.node }

  /** Every range meets a test function. */
  ghost predicate AllHit(spans: seq<Span>, ranges: seq<Range>) {
    forall r :: r in ranges ==> Hit(spans, r)
  }

  ghost predicate IsMet(path: string, spans: seq<Span>, ranges: seq<Range>, id: string) {
    exists r :: r in ranges && MetBy(path, spans, r, id)
  }

  ghost predicate MetBy(path: string, spans: seq<Span>, r: Range, id: string) {
    exists s :: s in spans && Meets(s, r) && id == IdOf(path, s)
  }

  ghost predicate IsSelected(path: string, spans: seq<Span>, ranges: seq<Range>, id: string) {
    if AllHit(spans, ranges) then IsMet(path, spans, ranges, id) else id == path
  }

  method SpansMeeting(spans: seq<Span>, r: Range) returns (hit: seq<Span>)
    ensures forall s :: s in hit <==> s in spans && Meets(s, r)
  {
    hit := [];
    for i := 0 to |spans|
      invariant forall s :: s in hit <==> s in spans[..i] && Meets(s, r)
    {
      assert spans[..i + 1] == spans[..i] + [spans[i]];
      if Meets(spans[i], r) {
        hit := hit + [spans[i]];
      }
    }
    assert spans[..|spans|] == spans;
  }

  method AddIds(path: string, hit: seq<Span>, chosen: seq<string>) returns (more: seq<string>)
    ensures forall id :: id in more <==> id in chosen || exists s :: s in hit && id == IdOf(path, s)
  {
    more := chosen;
    for i := 0 to |hit|
      invariant forall id :: id in more <==> id in chosen || exists s :: s in hit[..i] && id == IdOf(path, s)
    {
      assert hit[..i + 1] == hit[..i] + [hit[i]];
      if IdOf(path, hit[i]) !in more {
        more := more + [IdOf(path, hit[i])];
      }
    }
    assert hit[..|hit|] == hit;
  }

  method ChooseMet(path: string, spans: seq<Span>, r: Range, chosen: seq<string>)
    returns (found: bool, more: seq<string>)
    ensures found <==> Hit(spans, r)
    ensures forall id :: id in more <==> id in chosen || MetBy(path, spans, r, id)
  {
    var hit := SpansMeeting(spans, r);
    more := AddIds(path, hit, chosen);
    found := hit != [];
    assert found ==> hit[0] in hit;
    forall id ensures (exists s :: s in hit && id == IdOf(path, s)) <==> MetBy(path, spans, r, id) {
    }
  }

  /** The tests a file's ranges meet; the whole file when a range meets none. */
  method SelectIds(path: string, spans: seq<Span>, ranges: seq<Range>) returns (ids: seq<string>)
    ensures forall id :: id in ids <==> IsSelected(path, spans, ranges, id)
  {
    ids := [];
    for i := 0 to |ranges|
      invariant AllHit(spans, ranges[..i])
      invariant forall id :: id in ids <==> IsMet(path, spans, ranges[..i], id)
    {
      var found, more := ChooseMet(path, spans, ranges[i], ids);
      assert ranges[..i + 1] == ranges[..i] + [ranges[i]];
      if !found {
        assert ranges[i] in ranges && !Hit(spans, ranges[i]);
        return [path];
      }
      MetMore(path, spans, ranges, i);
      ids := more;
    }
    assert ranges[..|ranges|] == ranges;
  }

  lemma MetMore(path: string, spans: seq<Span>, ranges: seq<Range>, i: nat)
    requires i < |ranges|
    ensures forall id :: IsMet(path, spans, ranges[..i + 1], id)
                         <==> IsMet(path, spans, ranges[..i], id) || MetBy(path, spans, ranges[i], id)
  {
    assert ranges[..i + 1] == ranges[..i] + [ranges[i]];
  }

  /** The ids to run for all test files of a diff; `spansOf` reads the test functions of a file. */
  method SelectedIds(diff: string, isTest: string -> bool, spansOf: string -> seq<Span>) returns (ids: seq<string>)
    ensures var changed := Gather(Summaries(CutUp(Split(diff, '\n')).sections));
            forall id :: id in ids <==>
                exists path :: path in changed && SelectedFrom(changed, isTest, spansOf, path, id)
  {
    var changed := ChangedLines(diff);
    var paths := SortedMembers(changed.Keys);
    ids := IdsFrom(paths, changed, isTest, spansOf);
  }

  /** The id is selected for this file of the diff. */
  ghost predicate SelectedFrom(changed: map<string, seq<Range>>, isTest: string -> bool, spansOf: string -> seq<Span>,
                               path: string, id: string) {
    path in changed && isTest(path) && IsSelected(path, spansOf(path), changed[path], id)
  }

  method IdsOfFile(path: string, changed: map<string, seq<Range>>, isTest: string -> bool, spansOf: string -> seq<Span>)
    returns (ids: seq<string>)
    requires path in changed
    ensures forall id :: id in ids <==> SelectedFrom(changed, isTest, spansOf, path, id)
  {
    ids := [];
    if isTest(path) {
      ids := SelectIds(path, spansOf(path), changed[path]);
    }
  }

  method IdsFrom(paths: seq<string>, changed: map<string, seq<Range>>, isTest: string -> bool,
                 spansOf: string -> seq<Span>)
    returns (ids: seq<string>)
    requires forall path :: path in paths ==> path in changed
    ensures forall id :: id in ids <==> exists path :: path in paths && SelectedFrom(changed, isTest, spansOf, path, id)
  {
    ids := [];
    for i := 0 to |paths|
      invariant forall id :: id in ids <==>
              exists path :: path in paths[..i] && SelectedFrom(changed, isTest, spansOf, path, id)
    {
      assert paths[..i + 1] == paths[..i] + [paths[i]];
      var more := IdsOfFile(paths[i], changed, isTest, spansOf);
      ids := ids + more;
    }
    assert paths[..|paths|] == paths;
  }

  /** What `changed_lines` makes of a printed diff. */
  function Changed(files: seq<FileEdit>): map<string, seq<Range>> {
    Gather(Summaries(CutUp(Split(Diff(files), '\n')).sections))
  }

  ghost predicate WellPrinted(files: seq<FileEdit>) {
    Printed(files) && AllRows(Rows(DiffPrint(files)))
  }

  /** Exactly the files that sections are taken for are found. */
  lemma FoundIffTaken(files: seq<FileEdit>, path: string)
    requires WellPrinted(files)
    ensures path in Changed(files) <==> exists j :: 0 <= j < |files| && TakenFor(files[j]) == Some(path)
  {
    ChangedLinesInvertsPrinting(files);
    var sections := FileSummaries(files);
    GatherIs(sections, path);
    forall j | 0 <= j < |files| ensures |sections| == |files| && sections[j].file == TakenFor(files[j]) {
      FileSummariesAt(files, j);
    }
    if j :| 0 <= j < |files| && TakenFor(files[j]) == Some(path) {
      assert IsAbout(sections, j, path);
    }
    if i :| IsAbout(sections, i, path) {
      FileSummariesLength(files);
    }
  }

  lemma {:induction false} FileSummariesLength(files: seq<FileEdit>)
    ensures |FileSummaries(files)| == |files|
  {
    if files != [] {
      FileSummariesLength(files[1..]);
    }
  }

  /** The test function is selected, or its whole file is. */
  ghost predicate Selected(changed: map<string, seq<Range>>, path: string, spans: seq<Span>, s: Span) {
    && path in changed
    && (IsSelected(path, spans, changed[path], IdOf(path, s)) || IsSelected(path, spans, changed[path], path))
  }

  ghost predicate IsIn(s: Span, spans: seq<Span>, f: FileEdit) {
    s in spans && 1 <= s.first <= s.last <= |NewLines(f.segments)|
  }

  /** The lines of the test function stand in the old file, adjacent and in the same order. */
  ghost predicate Unchanged(f: FileEdit, s: Span) {
    1 <= s.first <= s.last <= |NewLines(f.segments)| && StandsIn(OldLines(f.segments),
                                                                 NewLines(f.segments)[s.first - 1..s.last])
  }

  /** Git names the file plainly: its section is taken for it. */
  lemma PlainNameIsTaken(f: FileEdit)
    requires f.path != "" && f.newName == Some("b/" + f.path)
    ensures TakenFor(f) == Some(f.path)
  {
    StartsWithOwn("b/", f.path);
  }

  /** Whatever its test functions are, each is selected or unchanged. */
  ghost predicate Covers(changed: map<string, seq<Range>>, f: FileEdit) {
    forall spans, s :: IsIn(s, spans, f) ==> Selected(changed, f.path, spans, s) || Unchanged(f, s)
  }

  lemma PartStandsIn(was: seq<string>, now: seq<string>, a: nat, b: nat)
    requires a <= b <= |now| && StandsIn(was, now)
    ensures StandsIn(was, now[a..b])
  {
    var before, after :| Around(was, before, now, after);
    assert now == now[..a] + now[a..b] + now[b..];
    assert Around(was, before + now[..a], now[a..b], now[b..] + after);
  }

  /** The ranges found for a path. */
  function Found(changed: map<string, seq<Range>>, path: string): seq<Range> {
    if path in changed then changed[path] else []
  }

  /** Exactly the ranges of the sections taken for the path, its own file's or another's. */
  lemma FoundRanges(files: seq<FileEdit>, path: string, r: Range)
    requires WellPrinted(files)
    ensures r in Found(Changed(files), path) <==>
            exists j :: 0 <= j < |files| && TakenFor(files[j]) == Some(path) && r in Ranges(files[j].segments, 0)
  {
    ChangedLinesInvertsPrinting(files);
    var sections := FileSummaries(files);
    GatherIs(sections, path);
    FileSummariesLength(files);
    forall j | 0 <= j < |files| ensures sections[j] == FileSummary(files[j]) {
      FileSummariesAt(files, j);
    }
    if j :| 0 <= j < |files| && TakenFor(files[j]) == Some(path) && r in Ranges(files[j].segments, 0) {
      assert IsAbout(sections, j, path);
    }
    if i :| IsAbout(sections, i, path) && r in sections[i].ranges {
      assert TakenFor(files[i]) == Some(path);
    }
  }

  /** Every range is one of lines, so that some test function can meet it. */
  ghost predicate Proper(ranges: seq<Range>) {
    forall i :: 0 <= i < |ranges| ==> ranges[i].first <= ranges[i].last
  }

  lemma {:induction false} RangesAreProper(segments: seq<Segment>, now: nat)
    ensures Proper(Ranges(segments, now))
    decreases |segments|
  {
    if segments != [] {
      RangesAreProper(segments[1..], now + |NewPart(segments[0])|);
    }
  }

  lemma FoundIsProper(files: seq<FileEdit>, path: string)
    requires WellPrinted(files)
    ensures Proper(Found(Changed(files), path))
  {
    var ranges := Found(Changed(files), path);
    forall i | 0 <= i < |ranges| ensures ranges[i].first <= ranges[i].last {
      FoundRanges(files, path, ranges[i]);
      var j :| 0 <= j < |files| && TakenFor(files[j]) == Some(path) && ranges[i] in Ranges(files[j].segments, 0);
      RangesAreProper(files[j].segments, 0);
    }
  }

  /** Test functions of another name, one on each range. */
  function Hitting(ranges: seq<Range>, node: string): (spans: seq<Span>)
    ensures |spans| == |ranges| && forall i :: 0 <= i < |ranges| ==>
            spans[i] == Span(node, ranges[i].first, ranges[i].last)
  {
    seq(|ranges|, i requires 0 <= i < |ranges| => Span(node, ranges[i].first, ranges[i].last))
  }

  lemma AllAreHit(ranges: seq<Range>, node: string, spans: seq<Span>)
    requires Proper(ranges) && forall s :: s in Hitting(ranges, node) ==> s in spans
    ensures AllHit(spans, ranges)
  {
    forall r | r in ranges ensures Hit(spans, r) {
      var i :| 0 <= i < |ranges| && ranges[i] == r;
      assert Hitting(ranges, node)[i] in spans && Meets(Hitting(ranges, node)[i], r);
    }
  }

  lemma IdsDiffer(path: string, a: Span, b: Span)
    requires a.node != b.node
    ensures IdOf(path, a) != IdOf(path, b) && IdOf(path, a) != path
  {
    assert IdOf(path, a)[|path| + 2..] == a.node && IdOf(path, b)[|path| + 2..] == b.node;
  }

  /** A test function no range meets can be left out: the other functions of the file may hit all ranges. */
  lemma UnmetCanBeLeftOut(changed: map<string, seq<Range>>, path: string, s: Span) returns (spans: seq<Span>)
    requires Proper(Found(changed, path)) && Unmet(s, Found(changed, path))
    ensures s in spans && !Selected(changed, path, spans, s)
  {
    var ranges := Found(changed, path);
    var others := Hitting(ranges, s.node + "x");
    spans := others + [s];
    assert s in spans;
    AllAreHit(ranges, s.node + "x", spans);
    assert forall r :: r in ranges ==> !Meets(s, r);
    forall r, t | r in ranges && t in spans && Meets(t, r) ensures IdOf(path, t) != IdOf(path, s) && IdOf(path,
                                                                                                          t) != path {
      assert t != s;
      assert t.node == s.node + "x" && t.node != s.node;
      IdsDiffer(path, t, s);
    }
  }

  /**
   When a file is covered, however it is found: exactly if every block of it that no range found for
   its path meets is unchanged. The ranges may be its own, another file's whose inserted lines read as
   naming it, or none.
   */
  lemma CoveredIff(files: seq<FileEdit>, f: FileEdit)
    requires WellPrinted(files)
    ensures Covers(Changed(files), f) <==>
            forall s: Span :: 1 <= s.first <= s.last <= |NewLines(f.segments)| && Unmet(s, Found(Changed(files), f.path)) ==>
              Unchanged(f, s)
  {
    var changed := Changed(files);
    var ranges := Found(changed, f.path);
    FoundIsProper(files, f.path);
    if Covers(changed, f) {
      forall s: Span | 1 <= s.first <= s.last <= |NewLines(f.segments)| && Unmet(s, ranges) ensures Unchanged(f, s) {
        var spans := UnmetCanBeLeftOut(changed, f.path, s);
        assert IsIn(s, spans, f);
      }
    } else {
      var spans, s :| IsIn(s, spans, f) && !Selected(changed, f.path, spans, s) && !Unchanged(f, s);
      UnselectedIsUnmet(changed, f.path, spans, s);
    }
  }

  lemma UnselectedIsUnmet(changed: map<string, seq<Range>>, path: string, spans: seq<Span>, s: Span)
    requires s in spans && !Selected(changed, path, spans, s)
    ensures Unmet(s, Found(changed, path))
  {
    if path in changed {
      var ranges := changed[path];
      assert AllHit(spans, ranges) && !IsMet(path, spans, ranges, IdOf(path, s));
      forall k | 0 <= k < |ranges| ensures !Meets(s, ranges[k]) {
        assert ranges[k] in ranges && !MetBy(path, spans, ranges[k], IdOf(path, s));
      }
    }
  }

  /**
   A test left out has not changed: in a file that its section is taken for, a test function that is
   not selected is unchanged. The sections of other files, however named, can only add ranges.
   */
  lemma UnselectedIsUnchanged(files: seq<FileEdit>, i: nat, spans: seq<Span>, s: Span)
    requires WellPrinted(files) && i < |files| && TakenFor(files[i]) == Some(files[i].path) && IsIn(s, spans, files[i])
    ensures Selected(Changed(files), files[i].path, spans, s) || Unchanged(files[i], s)
  {
    var f, ranges := files[i], Ranges(files[i].segments, 0);
    if !Selected(Changed(files), f.path, spans, s) {
      UnselectedIsUnmet(Changed(files), f.path, spans, s);
      forall k | 0 <= k < |ranges| ensures !Meets(s, ranges[k]) {
        FoundRanges(files, f.path, ranges[k]);
      }
      UnmetIsUnchanged(s, f.segments);
    }
  }

  /**
   A file that no section is taken for is covered exactly if the edit adds nothing to it and only
   cuts at its ends.
   */
  lemma MissedFileIsCoveredIff(files: seq<FileEdit>, f: FileEdit)
    requires WellPrinted(files) && forall j :: 0 <= j < |files| ==> TakenFor(files[j]) != Some(f.path)
    ensures Covers(Changed(files), f) <==> StandsIn(OldLines(f.segments), NewLines(f.segments))
  {
    FoundIffTaken(files, f.path);
    CoveredIff(files, f);
    var was, now := OldLines(f.segments), NewLines(f.segments);
    if StandsIn(was, now) {
      forall s: Span | 1 <= s.first <= s.last <= |now| ensures Unchanged(f, s) {
        PartStandsIn(was, now, s.first - 1, s.last);
      }
    } else {
      assert now == [] ==> Around(was, [], now, was);
      var s := Span("", 1, |now|);
      assert now[0..|now|] == now;
      assert Unmet(s, Found(Changed(files), f.path)) && !Unchanged(f, s);
    }
  }

  // ----- a file name with a space -----

  /** Git ends the new name with a tab where the path holds a space. */
  function SpacedEdit(path: string, title: string, was: string, now: string): FileEdit {
    FileEdit(path, [], title, [], Some("b/" + path + "\t"), [Change([was], [now], "", false, false)])
  }

  lemma SpacedIsTakenForAnother(path: string, title: string, was: string, now: string)
    ensures TakenFor(SpacedEdit(path, title, was, now)) == Some(path + "\t")
  {
    var name := "b/" + path + "\t";
    assert name == "b/" + (path + "\t");
    StartsWithOwn("b/", path + "\t");
  }

  lemma SpacedRows(path: string, title: string, was: string, now: string)
    requires Quiet(title) && Free(path, '\n') && Free(title, '\n') && Free(was, '\n') && Free(now, '\n')
    ensures WellPrinted([SpacedEdit(path, title, was, now)])
  {
    var f := SpacedEdit(path, title, was, now);
    var hunk := HunkRow(0, 1, 0, 1, "");
    HunkRowIsRow(0, 1, 0, 1);
    assert f.segments[1..] == [] && [f][1..] == [] && [was][1..] == [] && [now][1..] == [];
    var minus, plus := Prefixed("-", [was], false), Prefixed("+", [now], false);
    assert Rows(minus) == ["-" + was] + Rows(Prefixed("-", [was][1..], false)) == ["-" + was];
    assert Rows(plus) == ["+" + now] + Rows(Prefixed("+", [now][1..], false)) == ["+" + now];
    var change := ChangePrint(f.segments[0], 0, 0);
    assert change == Then(Row(hunk), Then(minus, plus));
    assert Rows(change) == [hunk] + (Rows(minus) + Rows(plus)) == [hunk, "-" + was, "+" + now];
    var hunks := HunkPrint(f.segments, 0, 0);
    assert HunkPrint(f.segments[1..], 1, 1) == Nothing;
    assert hunks == Then(change, Nothing);
    assert Rows(hunks) == Rows(change) + [] == Rows(change);
    var rows := [TITLE + title, LABEL + f.newName.value, hunk, "-" + was, "+" + now];
    FileRows(f, hunks);
    assert Rows(FilePrint(f)) == rows;
    assert Rows(DiffPrint([f])) == Rows(FilePrint(f)) + [] == rows;
  }

  lemma HunkRowIsRow(was: nat, removed: nat, now: nat, inserted: nat)
    ensures Free(HunkRow(was, removed, now, inserted, ""), '\n')
  {
    assert Free(RangeText(was, removed), '\n') && Free(RangeText(now, inserted), '\n');
  }

  /**
   A changed test is missed: in a test file whose name holds a space, a test function whose line
   changed is neither selected nor unchanged.
   */
  lemma SpacedNameIsMissed(path: string, title: string, was: string, now: string)
    requires Quiet(title) && Free(path, '\n') && Free(title, '\n') && Free(was, '\n') && Free(now, '\n') && was != now
    ensures var f, s := SpacedEdit(path, title, was, now), Span("test", 1, 1);
            && WellPrinted([f]) && IsIn(s, [s], f) && path !in Changed([f])
            && !Selected(Changed([f]), path, [s], s) && !Unchanged(f, s)
  {
    var f, s := SpacedEdit(path, title, was, now), Span("test", 1, 1);
    SpacedRows(path, title, was, now);
    SpacedIsTakenForAnother(path, title, was, now);
    FoundIffTaken([f], path);
    assert f.segments[1..] == [];
    assert NewLines(f.segments) == [now] + NewLines(f.segments[1..]) == [now];
    assert OldLines(f.segments) == [was] + OldLines(f.segments[1..]) == [was];
    OtherLine(was, now);
    assert NewLines(f.segments)[0..1] == [now];
  }

  lemma OtherLine(was: string, now: string)
    requires was != now
    ensures !StandsIn([was], [now])
  {
    forall before, after ensures !Around([was], before, [now], after) {
      assert (before + [now] + after)[|before|] == now;
    }
  }

  lemma SpacedNameExample()
    ensures var f, s := SpacedEdit("test a.py", "a/test a.py b/test a.py", "assert x", "assert y"), Span("test", 1, 1);
            WellPrinted([f]) && IsIn(s, [s], f) && !Selected(Changed([f]), f.path, [s], s) && !Unchanged(f, s)
  {
    var title := "a/test a.py b/test a.py";
    assert title[0] == 'a';
    FirstCharDiffers(title, TITLE);
    FirstCharDiffers(title, "@@");
    FirstCharDiffers(title, "+");
    var was, now := "assert x", "assert y";
    assert was[7] != now[7];
    SpacedNameIsMissed("test a.py", title, was, now);
  }
}
