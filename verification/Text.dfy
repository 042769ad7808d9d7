/**
 The text primitives the scripts lean on: splitting and joining on a separator,
 Python's `splitlines`, and the lexicographic order of strings.
 */
module Text {

  predicate StartsWith(s: string, prefix: string) {
    |prefix| <= |s| && s[..|prefix|] == prefix
  }

  predicate EndsWith(s: string, suffix: string) {
    |suffix| <= |s| && s[|s| - |suffix|..] == suffix
  }

  /** No character of `s` is `c`. */
  predicate Free(s: string, c: char) {
    forall i :: 0 <= i < |s| ==> s[i] != c
  }

  /** The first index of `c` in `s`, or `|s|`. */
  function Find(s: string, c: char): (i: nat)
    ensures i <= |s|
    ensures Free(s[..i], c)
    ensures i < |s| ==> s[i] == c
  {
    if s == "" || s[0] == c then 0
    else
      var i := 1 + Find(s[1..], c);
      assert s[..i] == [s[0]] + s[1..][..i - 1];
      i
  }

  lemma {:induction false} FindFirst(head: string, c: char, tail: string)
    requires Free(head, c)
    ensures Find(head + [c] + tail, c) == |head|
    ensures Find(head, c) == |head|
  {
    if head != "" {
      FindFirst(head[1..], c, tail);
      assert (head + [c] + tail)[1..] == head[1..] + [c] + tail;
    }
  }

  // ----- split and join on one separator -----

  /** `s.split(sep)`: always at least one part. */
  function Split(s: string, sep: char): (parts: seq<string>)
    ensures |parts| >= 1
  {
    if s == "" then [""]
    else
      var rest := Split(s[1..], sep);
      if s[0] == sep then [""] + rest else [[s[0]] + rest[0]] + rest[1..]
  }

  /** `sep.join(parts)`. */
  function Join(parts: seq<string>, sep: char): string {
    if parts == [] then ""
    else if |parts| == 1 then parts[0]
    else parts[0] + [sep] + Join(parts[1..], sep)
  }

  lemma {:induction false} JoinSplit(s: string, sep: char)
    ensures Join(Split(s, sep), sep) == s
    ensures forall i :: 0 <= i < |Split(s, sep)| ==> Free(Split(s, sep)[i], sep)
  {
    if s != "" {
      JoinSplit(s[1..], sep);
      var rest := Split(s[1..], sep);
      if s[0] == sep {
        assert Split(s, sep)[1..] == rest;
        assert Join(Split(s, sep), sep) == "" + [sep] + Join(rest, sep);
      } else {
        var parts := [[s[0]] + rest[0]] + rest[1..];
        assert Split(s, sep) == parts;
        assert parts[1..] == rest[1..];
        assert Join(parts, sep) == [s[0]] + Join(rest, sep);
      }
    }
  }

  /** Splitting a part that holds no separator, then the rest. */
  lemma {:induction false} SplitAt(part: string, rest: string, sep: char)
    requires Free(part, sep)
    ensures Split(part + [sep] + rest, sep) == [part] + Split(rest, sep)
    ensures Split(part, sep) == [part]
  {
    if part == "" {
      assert part + [sep] + rest == [sep] + rest;
      assert ([sep] + rest)[1..] == rest;
    } else {
      assert Free(part[1..], sep);
      SplitAt(part[1..], rest, sep);
      assert (part + [sep] + rest)[1..] == part[1..] + [sep] + rest;
      assert [part[0]] + part[1..] == part;
    }
  }

  lemma {:induction false} SplitJoin(parts: seq<string>, sep: char)
    requires |parts| >= 1
    requires forall i :: 0 <= i < |parts| ==> Free(parts[i], sep)
    ensures Split(Join(parts, sep), sep) == parts
  {
    if |parts| == 1 {
      SplitAt(parts[0], "", sep);
    } else {
      SplitJoin(parts[1..], sep);
      SplitAt(parts[0], Join(parts[1..], sep), sep);
    }
  }

  // ----- splitlines -----

  /** The characters Python's `str.splitlines` breaks at. */
  predicate IsBreak(c: char) {
    c in {'\n', '\r', '\U{000B}', '\U{000C}', '\U{001C}', '\U{001D}', '\U{001E}',
          '\U{0085}', '\U{2028}', '\U{2029}'}
  }

  predicate BreakFree(s: string) {
    forall i :: 0 <= i < |s| ==> !IsBreak(s[i])
  }

  /** `s.splitlines()`: a carriage return and newline pair is one break; a final break adds no line. */
  function Lines(s: string): (lines: seq<string>)
    ensures s != "" ==> lines != []
  {
    if s == "" then []
    else if s[0] == '\r' && |s| > 1 && s[1] == '\n' then [""] + Lines(s[2..])
    else
      var rest := Lines(s[1..]);
      if IsBreak(s[0]) then [""] + rest
      else if rest == [] then [[s[0]]]
      else [[s[0]] + rest[0]] + rest[1..]
  }

  /** Rows printed one per line. */
  function Unlines(rows: seq<string>): string {
    if rows == [] then "" else rows[0] + "\n" + Unlines(rows[1..])
  }

  lemma {:induction false} LinesAreBreakFree(s: string)
    ensures forall i :: 0 <= i < |Lines(s)| ==> BreakFree(Lines(s)[i])
  {
    if s != "" {
      if s[0] == '\r' && |s| > 1 && s[1] == '\n' {
        LinesAreBreakFree(s[2..]);
      } else {
        LinesAreBreakFree(s[1..]);
      }
    }
  }

  lemma {:induction false} LinesOfRow(row: string, rest: string)
    requires BreakFree(row)
    ensures Lines(row + "\n" + rest) == [row] + Lines(rest)
  {
    if row == "" {
      assert row + "\n" + rest == "\n" + rest;
      assert ("\n" + rest)[1..] == rest;
    } else {
      var s := row + "\n" + rest;
      assert s[0] == row[0] && !IsBreak(row[0]);
      LinesOfRow(row[1..], rest);
      assert s[1..] == row[1..] + "\n" + rest;
      assert [row[0]] + row[1..] == row;
    }
  }

  /** What a row reads as up to its first break. */
  function HeadLine(row: string): string {
    if row == "" || IsBreak(row[0]) then "" else [row[0]] + HeadLine(row[1..])
  }

  /** The lines a printed row is split into. */
  function Fragments(row: string): seq<string> { Lines(row + "\n") }

  lemma FragmentStep(row: string)
    requires row != "" && !IsBreak(row[0])
    ensures var rest := Fragments(row[1..]); rest != [] && Fragments(row) == [[row[0]] + rest[0]] + rest[1..]
  {
    assert (row + "\n")[1..] == row[1..] + "\n";
  }

  lemma {:induction false} HeadIsFirst(row: string)
    ensures Fragments(row) != [] && Fragments(row)[0] == HeadLine(row)
  {
    if row != "" && !IsBreak(row[0]) {
      FragmentStep(row);
      HeadIsFirst(row[1..]);
    }
  }

  lemma {:induction false} BreakFreeHead(row: string)
    requires BreakFree(row)
    ensures HeadLine(row) == row && Fragments(row) == [row]
  {
    if row == "" {
      assert "" + "\n" == "\n" && "\n"[1..] == "" && Lines("") == [];
    } else {
      BreakFreeHead(row[1..]);
      FragmentStep(row);
    }
  }

  /** A prefix without breaks changes the first fragment only. */
  lemma {:induction false} PrefixedFragments(prefix: string, row: string)
    requires BreakFree(prefix)
    ensures HeadLine(prefix + row) == prefix + HeadLine(row)
    ensures |Fragments(row)| > 0 && |Fragments(prefix + row)| > 0 && Fragments(prefix + row)[1..] == Fragments(row)[1..]
  {
    if prefix == "" {
      assert prefix + row == row && prefix + HeadLine(row) == HeadLine(row);
      HeadIsFirst(row);
    } else {
      PrefixedFragments(prefix[1..], row);
      assert (prefix + row)[1..] == prefix[1..] + row && (prefix + row)[0] == prefix[0];
      FragmentStep(prefix + row);
      assert [prefix[0]] + (prefix[1..] + HeadLine(row)) == prefix + HeadLine(row);
    }
  }

  /** A character in front of a split text. */
  function Ahead(c: char, lines: seq<string>): seq<string> {
    if IsBreak(c) then [""] + lines else if lines == [] then [[c]] else [[c] + lines[0]] + lines[1..]
  }

  predicate IsPair(s: string) { |s| > 1 && s[0] == '\r' && s[1] == '\n' }

  lemma LinesAhead(c: char, s: string)
    requires !IsPair([c] + s)
    ensures Lines([c] + s) == Ahead(c, Lines(s))
  {
    assert ([c] + s)[1..] == s;
  }

  lemma LinesPair(s: string)
    ensures Lines("\r\n" + s) == [""] + Lines(s)
  {
    assert ("\r\n" + s)[2..] == s;
  }

  lemma AheadConcat(c: char, a: seq<string>, b: seq<string>)
    requires a != []
    ensures Ahead(c, a + b) == Ahead(c, a) + b
  {
    assert (a + b)[1..] == a[1..] + b;
    assert [""] + (a + b) == [""] + a + b;
  }

  lemma PairConcat(row: string, rest: string)
    requires Lines(row + rest) == Lines(row) + Lines(rest)
    ensures Lines("\r\n" + row + rest) == Lines("\r\n" + row) + Lines(rest)
  {
    LinesPair(row);
    LinesPair(row + rest);
    assert "\r\n" + row + rest == "\r\n" + (row + rest);
    assert [""] + (Lines(row) + Lines(rest)) == [""] + Lines(row) + Lines(rest);
  }

  lemma AheadOfConcat(c: char, more: string, rest: string)
    requires Lines(more + rest) == Lines(more) + Lines(rest) && !IsPair([c] + more) && more != ""
    ensures Lines([c] + more + rest) == Lines([c] + more) + Lines(rest)
  {
    var whole := more + rest;
    assert [c] + more + rest == [c] + whole;
    assert whole[0] == more[0] && ([c] + whole)[1] == ([c] + more)[1];
    LinesAhead(c, more);
    LinesAhead(c, whole);
    AheadConcat(c, Lines(more), Lines(rest));
  }

  lemma NewlineAhead(rest: string)
    ensures Lines(['\n'] + rest) == Lines(['\n']) + Lines(rest)
  {
    LinesAhead('\n', rest);
    LinesAhead('\n', "");
    assert ['\n'] + "" == ['\n'];
  }

  /** A text that ends with a newline is split by itself, whatever follows it. */
  lemma {:induction false} LinesConcat(row: string, rest: string)
    requires row == "" || row[|row| - 1] == '\n'
    ensures Lines(row + rest) == Lines(row) + Lines(rest)
    decreases |row|
  {
    if row == "" {
      assert row + rest == rest;
    } else if IsPair(row) {
      assert row == "\r\n" + row[2..];
      LinesConcat(row[2..], rest);
      PairConcat(row[2..], rest);
    } else if |row| == 1 {
      assert row == ['\n'];
      NewlineAhead(rest);
    } else {
      assert row == [row[0]] + row[1..];
      LinesConcat(row[1..], rest);
      AheadOfConcat(row[0], row[1..], rest);
    }
  }

  /** A printed row is split by itself. */
  lemma LinesOfPrinted(row: string, rest: string)
    ensures Lines(row + "\n" + rest) == Fragments(row) + Lines(rest)
  {
    LinesConcat(row + "\n", rest);
  }

  /** Printing rows and splitting the text gives them back exactly when no row holds a break. */
  lemma {:induction false} LinesOfUnlines(rows: seq<string>)
    ensures Lines(Unlines(rows)) == rows <==> forall i :: 0 <= i < |rows| ==> BreakFree(rows[i])
  {
    LinesAreBreakFree(Unlines(rows));
    if forall i :: 0 <= i < |rows| ==> BreakFree(rows[i]) {
      if rows != [] {
        LinesOfUnlines(rows[1..]);
        LinesOfRow(rows[0], Unlines(rows[1..]));
      }
    }
  }

  // ----- lexicographic order -----

  /** Python's `<=` on strings: by code point, a prefix first. */
  predicate StringLe(a: string, b: string) {
    a == "" || (b != "" && (a[0] < b[0] || (a[0] == b[0] && StringLe(a[1..], b[1..]))))
  }

  lemma {:induction false} StringLeTotal(a: string, b: string)
    ensures StringLe(a, b) || StringLe(b, a)
    ensures StringLe(a, b) && StringLe(b, a) ==> a == b
  {
    if a != "" && b != "" && a[0] == b[0] {
      StringLeTotal(a[1..], b[1..]);
      assert a == [a[0]] + a[1..] && b == [b[0]] + b[1..];
    }
  }

  lemma {:induction false} StringLeTransitive(a: string, b: string, c: string)
    requires StringLe(a, b) && StringLe(b, c)
    ensures StringLe(a, c)
  {
    if a != "" && a[0] == b[0] && b[0] == c[0] {
      StringLeTransitive(a[1..], b[1..], c[1..]);
    }
  }

  // ----- sorted enumeration of a set -----

  ghost predicate IsLeast(x: string, s: set<string>) {
    x in s && forall y :: y in s ==> StringLe(x, y)
  }

  lemma LeastExtends(a: string, x: string, s: set<string>)
    requires IsLeast(x, s)
    ensures IsLeast(a, s + {a}) || IsLeast(x, s + {a})
  {
    StringLeTotal(a, x);
    StringLeTotal(a, a);
    if StringLe(a, x) {
      forall y | y in s ensures StringLe(a, y) {
        StringLeTransitive(a, x, y);
      }
    }
  }

  lemma {:induction false} LeastExists(s: set<string>)
    requires s != {}
    ensures exists x :: IsLeast(x, s)
  {
    var a :| a in s;
    if s == {a} {
      StringLeTotal(a, a);
      assert IsLeast(a, s);
    } else {
      LeastExists(s - {a});
      var x :| IsLeast(x, s - {a});
      LeastExtends(a, x, s - {a});
      assert s - {a} + {a} == s;
    }
  }

  lemma LeastUnique(s: set<string>, x: string, x': string)
    requires IsLeast(x, s) && IsLeast(x', s)
    ensures x == x'
  {
    StringLeTotal(x, x');
  }

  /** The least string of a set. */
  ghost function Least(s: set<string>): (x: string)
    requires s != {}
    ensures IsLeast(x, s)
  {
    LeastExists(s);
    var x :| IsLeast(x, s);
    x
  }

  /** `sorted(s)` of a set of strings: each member once, in order. */
  ghost function Enumerate(s: set<string>): (order: seq<string>)
    ensures forall x :: x in order <==> x in s
    ensures |order| == |s|
    decreases |s|
  {
    if s == {} then [] else var x := Least(s); [x] + Enumerate(s - {x})
  }

  method LeastOf(s: set<string>) returns (x: string)
    requires s != {}
    ensures IsLeast(x, s)
  {
    var first :| first in s;
    x := first;
    StringLeTotal(x, x);
    var seen, rest := {x}, s - {x};
    while rest != {}
      invariant seen + rest == s
      invariant IsLeast(x, seen)
      decreases rest
    {
      var a :| a in rest;
      LeastExtends(a, x, seen);
      if StringLe(a, x) {
        assert IsLeast(x, seen + {a}) ==> a == x by {
          StringLeTotal(a, x);
        }
        x := a;
      } else {
        assert !IsLeast(a, seen + {a});
      }
      seen, rest := seen + {a}, rest - {a};
    }
    assert seen == s;
  }

  method SortedMembers(s: set<string>) returns (order: seq<string>)
    ensures order == Enumerate(s)
  {
    order := [];
    var rest := s;
    while rest != {}
      invariant order + Enumerate(rest) == Enumerate(s)
      decreases rest
    {
      var x := LeastOf(rest);
      LeastUnique(rest, x, Least(rest));
      order, rest := order + [x], rest - {x};
    }
  }
}
