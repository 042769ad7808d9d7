/**
 Release versions: the canonical PEP 440 spelling `X.Y.Z` or `X.Y.ZrcN` the packages use, and
 the Go module spelling `X.Y.Z` or `X.Y.Z-rc.N`, over ASCII digits. The order of the printed
 versions is taken from section 11 of Semantic Versioning 2.0.0, written here for arbitrary
 version strings without reference to how this repository prints them.
 */
module ReleaseVersions {
  import opened Text
  import opened Decimal
  import opened Options

  datatype Identity = Identity(major: nat, minor: nat, patch: nat, rc: Option<nat>)

  // ----- reading and spelling -----

  /** The last dotted part: a patch number, or a patch number, `rc` and a candidate number. */
  function PatchAndCandidate(part: string): Option<(nat, Option<nat>)> {
    var r := Find(part, 'r');
    if r == |part| then
      if Canonical(part) then Some((Value(part), None)) else None
    else if Canonical(part[..r]) && StartsWith(part[r..], "rc") && Canonical(part[r + 2..]) then
      Some((Value(part[..r]), Some(Value(part[r + 2..]))))
    else None
  }

  function PythonReleaseIdentity(raw: string): Option<Identity> {
    var parts := Split(raw, '.');
    if |parts| != 3 || !Canonical(parts[0]) || !Canonical(parts[1]) then None
    else
      match PatchAndCandidate(parts[2])
      case None => None
      case Some((patch, rc)) => Some(Identity(Value(parts[0]), Value(parts[1]), patch, rc))
  }

  function Base(id: Identity): string {
    Digits(id.major) + "." + Digits(id.minor) + "." + Digits(id.patch)
  }

  function GoModuleVersion(id: Identity): string {
    if id.rc.None? then Base(id) else Base(id) + "-rc." + Digits(id.rc.value)
  }

  /** The spelling the reader accepts, printed from the identity it stands for. */
  function PythonSpelling(id: Identity): string {
    if id.rc.None? then Base(id) else Base(id) + "rc" + Digits(id.rc.value)
  }

  lemma DigitsFree(n: nat, c: char)
    requires !IsDigit(c)
    ensures Free(Digits(n), c)
  {
  }

  lemma SplitThree(a: string, b: string, c: string)
    requires Free(a, '.') && Free(b, '.') && Free(c, '.')
    ensures Split(a + "." + b + "." + c, '.') == [a, b, c]
  {
    assert a + "." + b + "." + c == a + "." + (b + "." + c);
    SplitAt(a, b + "." + c, '.');
    SplitAt(b, c, '.');
    SplitAt(c, "", '.');
  }

  lemma JoinThree(parts: seq<string>)
    requires |parts| == 3
    ensures Join(parts, '.') == parts[0] + "." + parts[1] + "." + parts[2]
  {
    assert parts[1..][1..] == [parts[2]];
    assert Join(parts[1..], '.') == parts[1] + "." + parts[2];
  }

  lemma ReadPatch(patch: nat)
    ensures PatchAndCandidate(Digits(patch)) == Some((patch, None))
  {
    DigitsFree(patch, 'r');
    ValueOfDigits(patch);
    FindFirst(Digits(patch), 'r', "");
  }

  lemma ReadCandidate(patch: nat, rc: nat)
    ensures PatchAndCandidate(Digits(patch) + "rc" + Digits(rc)) == Some((patch, Some(rc)))
  {
    var d, n := Digits(patch), Digits(rc);
    var part := d + "rc" + n;
    DigitsFree(patch, 'r');
    assert part == d + "r" + ("c" + n);
    FindFirst(d, 'r', "c" + n);
    assert part[..|d|] == d;
    assert part[|d|..][..2] == "rc";
    assert part[|d| + 2..] == n;
    ValueOfDigits(patch);
    ValueOfDigits(rc);
  }

  /**
   The reader accepts exactly the printed spellings: it reads a string as `id` if and only if
   the string is how `id` is spelled. So reading is injective, and no second spelling exists.
   */
  lemma ReadsExactlyTheSpelling(raw: string, id: Identity)
    ensures PythonReleaseIdentity(raw) == Some(id) <==> raw == PythonSpelling(id)
  {
    if raw == PythonSpelling(id) {
      SpellingIsRead(id);
    }
    if PythonReleaseIdentity(raw) == Some(id) {
      var parts := Split(raw, '.');
      JoinSplit(raw, '.');
      JoinThree(parts);
      SpellingByTail(id);
      DigitsOfValue(parts[0]);
      DigitsOfValue(parts[1]);
      ReadTail(parts[2]);
    }
  }

  /** The part of the spelling after the second dot. */
  function Tail(patch: nat, rc: Option<nat>): string {
    if rc.None? then Digits(patch) else Digits(patch) + "rc" + Digits(rc.value)
  }

  lemma ReadTail(part: string)
    requires PatchAndCandidate(part).Some?
    ensures part == Tail(PatchAndCandidate(part).value.0, PatchAndCandidate(part).value.1)
  {
    var r := Find(part, 'r');
    if r == |part| {
      DigitsOfValue(part);
    } else {
      DigitsOfValue(part[..r]);
      DigitsOfValue(part[r + 2..]);
      assert part == part[..r] + part[r..][..2] + part[r + 2..];
    }
  }

  lemma SpellingByTail(id: Identity)
    ensures PythonSpelling(id) == Digits(id.major) + "." + Digits(id.minor) + "." + Tail(id.patch, id.rc)
  {
  }

  lemma SpellingIsRead(id: Identity)
    ensures PythonReleaseIdentity(PythonSpelling(id)) == Some(id)
  {
    var tail := Tail(id.patch, id.rc);
    DigitsFree(id.major, '.');
    DigitsFree(id.minor, '.');
    DigitsFree(id.patch, '.');
    if id.rc.None? {
      ReadPatch(id.patch);
    } else {
      DigitsFree(id.rc.value, '.');
      ReadCandidate(id.patch, id.rc.value);
    }
    assert Free(tail, '.');
    SplitThree(Digits(id.major), Digits(id.minor), tail);
    SpellingByTail(id);
    ValueOfDigits(id.major);
    ValueOfDigits(id.minor);
  }

  // ----- PEP 440 order of identities -----

  datatype Order = Less | Equal | Greater

  function CompareNat(a: nat, b: nat): Order {
    if a < b then Less else if a == b then Equal else Greater
  }

  function Then(first: Order, second: Order): Order {
    if first.Equal? then second else first
  }

  /** A release candidate sorts before its release; candidates by number. */
  function Pep440(a: Identity, b: Identity): Order {
    Then(CompareNat(a.major, b.major),
      Then(CompareNat(a.minor, b.minor),
        Then(CompareNat(a.patch, b.patch),
          match (a.rc, b.rc)
          case (None, None) => Equal
          case (None, Some(_)) => Greater
          case (Some(_), None) => Less
          case (Some(x), Some(y)) => CompareNat(x, y))))
  }

  // ----- section 11 of Semantic Versioning 2.0.0, on strings -----

  /** The version without build metadata, which precedence ignores. */
  function WithoutBuild(v: string): string { v[..Find(v, '+')] }

  function Core(v: string): seq<string> {
    Split(WithoutBuild(v)[..Find(WithoutBuild(v), '-')], '.')
  }

  /** The dot separated pre-release identifiers; none without a hyphen. */
  function PreRelease(v: string): Option<seq<string>> {
    var w := WithoutBuild(v);
    var h := Find(w, '-');
    if h == |w| then None else Some(Split(w[h + 1..], '.'))
  }

  predicate ValidSemVer(v: string) {
    && |Core(v)| == 3
    && (forall i :: 0 <= i < 3 ==> Canonical(Core(v)[i]))
    && (PreRelease(v).Some? ==>
          forall i :: 0 <= i < |PreRelease(v).value| ==>
            var p := PreRelease(v).value[i];
            |p| >= 1 && (AllDigits(p) ==> Canonical(p)))
  }

  /** Numeric identifiers by value and below alphanumeric ones, which compare as ASCII text. */
  function CompareIdentifier(a: string, b: string): Order {
    if AllDigits(a) && AllDigits(b) then CompareNat(Value(a), Value(b))
    else if AllDigits(a) then Less
    else if AllDigits(b) then Greater
    else if a == b then Equal
    else if StringLe(a, b) then Less
    else Greater
  }

  /** Left to right; when all shared fields are equal the longer list is greater. */
  function CompareFields(a: seq<string>, b: seq<string>): Order {
    if a == [] && b == [] then Equal
    else if a == [] then Less
    else if b == [] then Greater
    else Then(CompareIdentifier(a[0], b[0]), CompareFields(a[1..], b[1..]))
  }

  function SemVerPrecedence(a: string, b: string): Order {
    Then(CompareFields(Core(a), Core(b)),
      match (PreRelease(a), PreRelease(b))
      case (None, None) => Equal
      case (None, Some(_)) => Greater
      case (Some(_), None) => Less
      case (Some(x), Some(y)) => CompareFields(x, y))
  }

  lemma BaseFree(id: Identity, c: char)
    requires !IsDigit(c) && c != '.'
    ensures Free(Base(id), c)
  {
    DigitsFree(id.major, c);
    DigitsFree(id.minor, c);
    DigitsFree(id.patch, c);
  }

  lemma CoreFields(id: Identity)
    ensures Split(Base(id), '.') == [Digits(id.major), Digits(id.minor), Digits(id.patch)]
  {
    DigitsFree(id.major, '.');
    DigitsFree(id.minor, '.');
    DigitsFree(id.patch, '.');
    SplitThree(Digits(id.major), Digits(id.minor), Digits(id.patch));
  }

  lemma CandidateParts(base: string, n: string)
    requires Free(base, '+') && Free(base, '-') && Free(n, '+') && Free(n, '.')
    ensures var v := base + "-rc." + n;
            WithoutBuild(v) == v && Find(v, '-') == |base| && v[..|base|] == base && Split(v[|base| + 1..],
                                                                                           '.') == ["rc", n]
  {
    var v := base + "-rc." + n;
    assert Free(v, '+');
    FindFirst(v, '+', "");
    assert v == base + ['-'] + ("rc." + n);
    FindFirst(base, '-', "rc." + n);
    assert v[|base| + 1..] == "rc" + ['.'] + n;
    SplitAt("rc", n, '.');
    SplitAt(n, "", '.');
  }

  /** The printed version is valid, and its fields are the identity's numbers. */
  lemma GoVersionFields(id: Identity)
    ensures var v := GoModuleVersion(id);
            && Core(v) == [Digits(id.major), Digits(id.minor), Digits(id.patch)]
            && PreRelease(v) == (if id.rc.None? then None else Some(["rc", Digits(id.rc.value)]))
            && ValidSemVer(v)
  {
    var v := GoModuleVersion(id);
    var base := Base(id);
    BaseFree(id, '+');
    BaseFree(id, '-');
    CoreFields(id);
    if id.rc.None? {
      FindFirst(v, '+', "");
      FindFirst(v, '-', "");
      assert WithoutBuild(v) == v;
      assert v[..|v|] == base;
    } else {
      var n := Digits(id.rc.value);
      DigitsFree(id.rc.value, '+');
      DigitsFree(id.rc.value, '.');
      assert v == base + "-rc." + n;
      CandidateParts(base, n);
      assert !AllDigits("rc") by { assert !IsDigit("rc"[0]); }
    }
  }

  lemma CompareDigits(m: nat, n: nat)
    ensures CompareIdentifier(Digits(m), Digits(n)) == CompareNat(m, n)
  {
    ValueOfDigits(m);
    ValueOfDigits(n);
  }

  lemma CompareTwo(a: seq<string>, b: seq<string>)
    requires |a| == |b| == 2
    ensures CompareFields(a, b) == Then(CompareIdentifier(a[0], b[0]), CompareIdentifier(a[1], b[1]))
  {
    assert a[1..] == [a[1]] && b[1..] == [b[1]];
    assert CompareFields(a[1..], b[1..]) == CompareIdentifier(a[1], b[1]);
  }

  lemma CompareThree(a: seq<string>, b: seq<string>)
    requires |a| == |b| == 3
    ensures CompareFields(a, b)
         == Then(CompareIdentifier(a[0], b[0]),
              Then(CompareIdentifier(a[1], b[1]), CompareIdentifier(a[2], b[2])))
  {
    CompareTwo(a[1..], b[1..]);
  }

  /** Semantic versioning orders the printed versions exactly as PEP 440 orders the releases. */
  lemma GoSpellingPreservesOrder(a: Identity, b: Identity)
    ensures SemVerPrecedence(GoModuleVersion(a), GoModuleVersion(b)) == Pep440(a, b)
  {
    GoVersionFields(a);
    GoVersionFields(b);
    CompareDigits(a.major, b.major);
    CompareDigits(a.minor, b.minor);
    CompareDigits(a.patch, b.patch);
    CompareThree(Core(GoModuleVersion(a)), Core(GoModuleVersion(b)));
    if a.rc.Some? && b.rc.Some? {
      CompareDigits(a.rc.value, b.rc.value);
      CompareTwo(["rc", Digits(a.rc.value)], ["rc", Digits(b.rc.value)]);
      assert !AllDigits("rc") by { assert !IsDigit("rc"[0]); }
    }
  }

  /** Reading and then Go-printing is injective on the accepted strings, and ties only with itself. */
  lemma GoSpellingIsInjective(p: string, q: string)
    requires PythonReleaseIdentity(p).Some? && PythonReleaseIdentity(q).Some?
    requires SemVerPrecedence(GoModuleVersion(PythonReleaseIdentity(p).value),
                              GoModuleVersion(PythonReleaseIdentity(q).value)) == Equal
          || GoModuleVersion(PythonReleaseIdentity(p).value) == GoModuleVersion(PythonReleaseIdentity(q).value)
    ensures p == q
  {
    var a, b := PythonReleaseIdentity(p).value, PythonReleaseIdentity(q).value;
    GoSpellingPreservesOrder(a, b);
    GoSpellingPreservesOrder(a, a);
    assert a == b;
    ReadsExactlyTheSpelling(p, a);
    ReadsExactlyTheSpelling(q, b);
  }
}
