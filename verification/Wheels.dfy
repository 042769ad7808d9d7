/** Platform wheels: made of a pure wheel and three binaries, and verified again. */
module Wheels {
  import opened Options
  import opened Text
  import opened Sorting
  import opened WheelRecord
  import opened WheelTags

  /** A wheel tag, and what the host's binary check accepts for it. */
  datatype Platform = Platform(tag: string, runs: Bytes -> bool)

  /** The host's text coding, its hash spelled as RECORD spells it, and its white space. */
  datatype Host = Host(encode: string -> Bytes, decode: Bytes -> Option<string>, hash: Bytes -> string,
                       space: char -> bool)

  ghost predicate ValidHost(h: Host) {
    (forall s :: h.decode(h.encode(s)) == Some(s)) && CleanHash(h.hash)
  }

  datatype Wheel = Wheel(name: string, members: seq<Member>)

  const DISTRIBUTION := "vibesys_evaluator"
  const BIN_PREFIX := "vibesys_evaluator/_bin/"
  const BINARIES := ["vibesys-evaluator", "loadgen", "otelcapture"]
  const DIST_INFO := ".dist-info"

  function WheelName(version: string, tag: string): string {
    DISTRIBUTION + "-" + version + "-py3-none-" + tag + ".whl"
  }

  function RecordName(dist: string): string { dist + "/RECORD" }

  function WheelFileName(dist: string): string { dist + "/WHEEL" }

  // ----- names -----

  /** The part before the first slash. */
  function Root(name: string): string { name[..Find(name, '/')] }

  function Names(members: seq<Member>): seq<string> {
    seq(|members|, i requires 0 <= i < |members| => members[i].name)
  }

  ghost function DistInfos(members: seq<Member>): set<string> {
    set i | 0 <= i < |members| && EndsWith(Root(members[i].name), DIST_INFO) :: Root(members[i].name)
  }

  /** The one dist-info directory, if there is just one. */
  method DistInfo(members: seq<Member>) returns (dist: Option<string>)
    ensures dist.Some? ==> DistInfos(members) == {dist.value}
    ensures dist.None? ==> forall d :: DistInfos(members) != {d}
  {
    var roots: set<string> := {};
    for i := 0 to |members|
      invariant roots == DistInfos(members[..i])
    {
      assert members[..i + 1] == members[..i] + [members[i]];
      var root := Root(members[i].name);
      if EndsWith(root, DIST_INFO) {
        roots := roots + {root};
      }
    }
    assert members[..|members|] == members;
    if roots == {} {
      return None;
    }
    var root :| root in roots;
    dist := if roots == {root} then Some(root) else None;
  }

  /** The archive's entry of a name; a later one of the same name counts. */
  function Info(members: seq<Member>, name: string): (r: Option<Member>)
    ensures r.Some? ==> r.value in members && r.value.name == name
    ensures r.None? <==> forall m :: m in members ==> m.name != name
  {
    if members == [] then None
    else if members[|members| - 1].name == name then Some(members[|members| - 1])
    else Info(members[..|members| - 1], name)
  }

  lemma InfoOf(members: seq<Member>, m: Member)
    requires DistinctNames(members) && m in members
    ensures Info(members, m.name) == Some(m)
  {
    var found := Info(members, m.name);
    var i :| 0 <= i < |members| && members[i] == m;
    var j :| 0 <= j < |members| && members[j] == found.value;
    assert i == j;
  }

  predicate IsBundled(name: string) { StartsWith(name, BIN_PREFIX) }

  // ----- making a platform wheel -----

  predicate IsDirectory(name: string) { EndsWith(name, "/") }

  /** What becomes of one entry of the pure wheel; a WHEEL file that is no text fails. */
  function EntryOf(pure: seq<Member>, m: Member, dist: string, tag: string, h: Host): Option<seq<Member>>
    requires m in pure
  {
    if IsDirectory(m.name) || m.name == RecordName(dist) then Some([])
    else
      var data := Info(pure, m.name).value.data;
      if m.name != WheelFileName(dist) then Some([Member(m.name, data, false)])
      else
        var text := h.decode(data);
        if text.None? then None else Some([Member(m.name, h.encode(PlatformFile(text.value, tag)), false)])
  }

  function Entries(pure: seq<Member>, n: nat, dist: string, tag: string, h: Host): Option<seq<Member>>
    requires n <= |pure|
    decreases n
  {
    if n == 0 then Some([])
    else
      var before, last := Entries(pure, n - 1, dist, tag, h), EntryOf(pure, pure[n - 1], dist, tag, h);
      if before.None? || last.None? then None else Some(before.value + last.value)
  }

  function Bundle(binaries: string -> Bytes): seq<Member> {
    seq(|BINARIES|, i requires 0 <= i < |BINARIES| => Member(BIN_PREFIX + BINARIES[i], binaries(BINARIES[i]), true))
  }

  /** Members outside the dist-info first, and then by name. */
  predicate Before(dist: string, a: Member, b: Member) {
    var x, y := StartsWith(a.name, dist), StartsWith(b.name, dist);
    if x == y then StringLe(a.name, b.name) else y
  }

  function RemovePrefix(s: string, prefix: string): string {
    if StartsWith(s, prefix) then s[|prefix|..] else s
  }

  function RemoveSuffix(s: string, suffix: string): string {
    if suffix != "" && EndsWith(s, suffix) then s[..|s| - |suffix|] else s
  }

  function VersionOf(dist: string): string {
    RemoveSuffix(RemovePrefix(dist, DISTRIBUTION + "-"), DIST_INFO)
  }

  /** The sorted members and then their RECORD. */
  function Assembled(entries: seq<Member>, dist: string, tag: string, h: Host): Wheel {
    var sorted := Sort(entries, (a, b) => Before(dist, a, b));
    var own := RecordName(dist);
    Wheel(WheelName(VersionOf(dist), tag), sorted + [Member(own, h.encode(RecordText(sorted, own, h.hash)), false)])
  }

  /** Makes the platform's wheel of a pure wheel and the binaries. */
  method Retag(pure: seq<Member>, binaries: string -> Bytes, platform: Platform, h: Host)
    returns (r: Option<Wheel>, ghost dist: string)
    ensures r.Some? ==>
              && DistInfos(pure) == {dist} && (forall m :: m in pure ==> !IsBundled(m.name))
              && Entries(pure, |pure|, dist, platform.tag, h).Some?
              && r.value == Assembled(Entries(pure, |pure|, dist, platform.tag, h).value + Bundle(binaries), dist,
                                      platform.tag, h)
    ensures r.None? ==>
              || (exists m :: m in pure && IsBundled(m.name))
              || (forall d :: DistInfos(pure) != {d})
              || (DistInfos(pure) == {dist} && Entries(pure, |pure|, dist, platform.tag, h).None?)
  {
    dist := "";
    if exists m :: m in pure && IsBundled(m.name) {
      return None, dist;
    }
    var info := DistInfo(pure);
    if info.None? {
      return None, dist;
    }
    dist := info.value;
    var entries := [];
    for i := 0 to |pure|
      invariant Entries(pure, i, info.value, platform.tag, h) == Some(entries)
    {
      var entry := EntryOf(pure, pure[i], info.value, platform.tag, h);
      if entry.None? {
        UnreadableStays(pure, i + 1, info.value, platform.tag, h);
        return None, dist;
      }
      entries := entries + entry.value;
    }
    r := Some(Assembled(entries + Bundle(binaries), info.value, platform.tag, h));
  }

  lemma {:induction false} UnreadableStays(pure: seq<Member>, i: nat, dist: string, tag: string, h: Host)
    requires i <= |pure| && Entries(pure, i, dist, tag, h).None?
    ensures Entries(pure, |pure|, dist, tag, h).None?
    decreases |pure| - i
  {
    if i < |pure| {
      UnreadableStays(pure, i + 1, dist, tag, h);
    }
  }
}
