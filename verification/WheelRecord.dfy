/** The RECORD of a wheel: a row for each member, with its hash and its size. */
module WheelRecord {
  import opened Options
  import opened Text
  import opened Decimal

  type Bytes = seq<bv8>

  datatype Member = Member(name: string, data: Bytes, executable: bool)

  /** What a row says of a member. */
  datatype Claim = Claim(digest: string, size: string)

  type Claims = map<string, Claim>

  /** A digest as the wheels spell it: no comma, no line break. */
  ghost predicate Clean(s: string) {
    Free(s, ',') && BreakFree(s)
  }

  function ClaimOf(data: Bytes, hash: Bytes -> string): Claim {
    Claim(hash(data), Digits(|data|))
  }

  // ----- rows -----

  function RowText(path: string, c: Claim): string {
    path + "," + c.digest + "," + c.size
  }

  /** The index of the last `c`, or -1. */
  function Last(s: string, c: char): (i: int)
    ensures -1 <= i < |s| && (i >= 0 ==> s[i] == c)
  {
    if s == "" then -1 else if s[|s| - 1] == c then |s| - 1 else Last(s[..|s| - 1], c)
  }

  lemma {:induction false} LastOf(head: string, c: char, tail: string)
    requires Free(tail, c)
    ensures Last(head + [c] + tail, c) == |head|
  {
    var s := head + [c] + tail;
    if tail != "" {
      assert s[..|s| - 1] == head + [c] + tail[..|tail| - 1];
      LastOf(head, c, tail[..|tail| - 1]);
    }
  }

  /** `line.rsplit(",", 2)` as a path and a claim; a line with fewer than two commas is none. */
  function ReadRow(line: string): Option<(string, Claim)> {
    var i := Last(line, ',');
    if i < 0 then None
    else
      var j := Last(line[..i], ',');
      if j < 0 then None else Some((line[..j], Claim(line[j + 1..i], line[i + 1..])))
  }

  lemma ReadRowOf(path: string, c: Claim)
    requires Free(c.digest, ',') && Free(c.size, ',')
    ensures ReadRow(RowText(path, c)) == Some((path, c))
  {
    var line := RowText(path, c);
    var front := path + [','] + c.digest;
    assert line == front + [','] + c.size;
    LastOf(front, ',', c.size);
    assert line[..|front|] == front && line[|front| + 1..] == c.size;
    LastOf(path, ',', c.digest);
    assert line[..|path|] == path && line[|path| + 1..|front|] == c.digest;
  }

  lemma RowBreaks(path: string, c: Claim)
    requires BreakFree(c.digest) && BreakFree(c.size)
    ensures BreakFree(RowText(path, c)) <==> BreakFree(path)
  {
    var line := RowText(path, c);
    if BreakFree(line) {
      forall i | 0 <= i < |path| ensures !IsBreak(path[i]) {
        assert line[i] == path[i];
      }
    }
  }

  lemma PathIsBreakFree(line: string)
    requires BreakFree(line) && ReadRow(line).Some?
    ensures BreakFree(ReadRow(line).value.0)
  {
  }

  // ----- reading -----

  /** What the rows claim, a later row of the same path counting; nothing if one cannot be read. */
  function ReadRows(lines: seq<string>): Option<Claims> {
    if lines == [] then Some(map[])
    else
      var before, row := ReadRows(lines[..|lines| - 1]), ReadRow(lines[|lines| - 1]);
      if before.None? || row.None? then None else Some(before.value[row.value.0 := row.value.1])
  }

  method ReadRecord(text: string) returns (claims: Option<Claims>)
    ensures claims == ReadRows(Lines(text))
  {
    var lines := Lines(text);
    var recorded: Claims := map[];
    for i := 0 to |lines|
      invariant ReadRows(lines[..i]) == Some(recorded)
    {
      assert lines[..i + 1][..i] == lines[..i];
      var row := ReadRow(lines[i]);
      if row.None? {
        UnreadableStays(lines, i + 1);
        return None;
      }
      recorded := recorded[row.value.0 := row.value.1];
    }
    assert lines[..|lines|] == lines;
    claims := Some(recorded);
  }

  lemma {:induction false} UnreadableStays(lines: seq<string>, i: nat)
    requires i <= |lines| && ReadRows(lines[..i]).None?
    ensures ReadRows(lines).None?
    decreases |lines| - i
  {
    if i == |lines| {
      assert lines[..i] == lines;
    } else {
      assert lines[..i + 1][..i] == lines[..i];
      UnreadableStays(lines, i + 1);
    }
  }

  lemma {:induction false} PathsAreBreakFree(lines: seq<string>)
    requires forall i :: 0 <= i < |lines| ==> BreakFree(lines[i])
    ensures ReadRows(lines).Some? ==> forall n :: n in ReadRows(lines).value ==> BreakFree(n)
  {
    if lines != [] && ReadRows(lines).Some? {
      PathsAreBreakFree(lines[..|lines| - 1]);
      PathIsBreakFree(lines[|lines| - 1]);
    }
  }

  // ----- writing -----

  function RowsOf(members: seq<Member>, hash: Bytes -> string): seq<string> {
    seq(|members|, i requires 0 <= i < |members| => RowText(members[i].name, ClaimOf(members[i].data, hash)))
  }

  const NO_CLAIM := Claim("", "")

  /** The text of the RECORD: a row for each member and, without hash and size, one for itself. */
  function RecordText(members: seq<Member>, own: string, hash: Bytes -> string): string {
    Unlines(RowsOf(members, hash) + [RowText(own, NO_CLAIM)])
  }

  ghost predicate CleanHash(hash: Bytes -> string) {
    forall data :: Clean(hash(data))
  }

  function ClaimsOf(members: seq<Member>, hash: Bytes -> string): Claims {
    if members == [] then map[]
    else ClaimsOf(members[..|members| - 1],
                  hash)[members[|members| - 1].name := ClaimOf(members[|members| - 1].data, hash)]
  }

  lemma ClaimIsClean(data: Bytes, hash: Bytes -> string)
    requires CleanHash(hash)
    ensures Clean(ClaimOf(data, hash).digest) && Clean(ClaimOf(data, hash).size)
  {
  }

  lemma {:induction false} ReadRowsOf(members: seq<Member>, hash: Bytes -> string)
    requires CleanHash(hash)
    ensures ReadRows(RowsOf(members, hash)) == Some(ClaimsOf(members, hash))
  {
    if members != [] {
      var front, last := members[..|members| - 1], members[|members| - 1];
      var rows := RowsOf(members, hash);
      assert rows[..|rows| - 1] == RowsOf(front, hash);
      ReadRowsOf(front, hash);
      ClaimIsClean(last.data, hash);
      ReadRowOf(last.name, ClaimOf(last.data, hash));
    }
  }

  ghost predicate NamesBreakFree(members: seq<Member>) {
    forall i :: 0 <= i < |members| ==> BreakFree(members[i].name)
  }

  /** Reading back what was written gives each member its claim. */
  lemma RecordReadsBack(members: seq<Member>, own: string, hash: Bytes -> string)
    requires CleanHash(hash) && NamesBreakFree(members) && BreakFree(own)
    ensures ReadRows(Lines(RecordText(members, own, hash))) == Some(ClaimsOf(members, hash)[own := NO_CLAIM])
  {
    var rows := RowsOf(members, hash);
    var all := rows + [RowText(own, NO_CLAIM)];
    forall i | 0 <= i < |all| ensures BreakFree(all[i]) {
      if i < |rows| {
        ClaimIsClean(members[i].data, hash);
        RowBreaks(members[i].name, ClaimOf(members[i].data, hash));
      } else {
        RowBreaks(own, NO_CLAIM);
      }
    }
    LinesOfUnlines(all);
    assert all[..|all| - 1] == rows;
    ReadRowsOf(members, hash);
    ReadRowOf(own, NO_CLAIM);
  }

  /** However it is read, a RECORD names no member with a line break in its name. */
  lemma RecordNamesAreBreakFree(text: string, name: string)
    requires ReadRows(Lines(text)).Some? && name in ReadRows(Lines(text)).value
    ensures BreakFree(name)
  {
    LinesAreBreakFree(text);
    PathsAreBreakFree(Lines(text));
  }

  // ----- claims by name -----

  ghost predicate DistinctNames(members: seq<Member>) {
    forall i, j :: 0 <= i < j < |members| ==> members[i].name != members[j].name
  }

  lemma {:induction false} ClaimsByName(members: seq<Member>, hash: Bytes -> string)
    ensures forall n :: n in ClaimsOf(members, hash) <==> exists m :: m in members && m.name == n
    ensures DistinctNames(members) ==> forall m :: m in members ==>
            m.name in ClaimsOf(members, hash) && ClaimsOf(members, hash)[m.name] == ClaimOf(m.data, hash)
  {
    if members != [] {
      var front, last := members[..|members| - 1], members[|members| - 1];
      assert members == front + [last];
      ClaimsByName(front, hash);
      forall n ensures n in ClaimsOf(members, hash) <==> exists m :: m in members && m.name == n {
        if n == last.name {
          assert last in members;
        } else if exists m :: m in members && m.name == n {
          var m :| m in members && m.name == n;
          assert m in front;
        }
      }
      if DistinctNames(members) {
        forall m | m in front ensures m.name != last.name {
          var i :| 0 <= i < |front| && front[i] == m;
          assert members[i] == m;
        }
      }
    }
  }
}
