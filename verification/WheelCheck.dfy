/** Verifying a platform wheel, and that it accepts what the writer makes and refuses what was changed. */
module WheelCheck {
  import opened Options
  import opened Text
  import opened WheelRecord
  import opened WheelTags
  import opened Wheels

  // ----- what a sound wheel is -----

  function TextOf(members: seq<Member>, name: string, h: Host): Option<string> {
    var info := Info(members, name);
    if info.None? then None else h.decode(info.value.data)
  }

  /** The WHEEL file states the platform's tags, all of them and in order, and denies being pure. */
  ghost predicate WheelFileSound(members: seq<Member>, dist: string, tag: string, h: Host) {
    var text := TextOf(members, WheelFileName(dist), h);
    text.Some? && FindTags(text.value, h.space) == TagNames(tag) && Contains(text.value, NOT_PURE)
  }

  /** The claims are about the archive's members and no others, and true of each but the RECORD. */
  ghost predicate ClaimsHold(members: seq<Member>, own: string, claims: Claims, hash: Bytes -> string) {
    && (forall n :: n in claims <==> Info(members, n).Some?)
    && (forall n :: n in claims && n != own ==> ClaimHolds(members, n, claims[n], hash))
  }

  ghost predicate ClaimHolds(members: seq<Member>, n: string, claim: Claim, hash: Bytes -> string) {
    Info(members, n).Some? && claim == ClaimOf(Info(members, n).value.data, hash)
  }

  ghost predicate RecordSound(members: seq<Member>, dist: string, h: Host) {
    var text := TextOf(members, RecordName(dist), h);
    && text.Some? && ReadRows(Lines(text.value)).Some?
    && ClaimsHold(members, RecordName(dist), ReadRows(Lines(text.value)).value, h.hash)
  }

  function BinaryName(i: nat): string
    requires i < |BINARIES|
  {
    BIN_PREFIX + BINARIES[i]
  }

  ghost predicate BinarySound(members: seq<Member>, name: string, platform: Platform) {
    var info := Info(members, name);
    info.Some? && info.value.executable && platform.runs(info.value.data)
  }

  ghost predicate IsBinary(name: string) {
    exists i :: 0 <= i < |BINARIES| && name == BinaryName(i)
  }

  /** The three binaries and nothing else are bundled; each can be executed and runs on the platform. */
  ghost predicate BinariesSound(members: seq<Member>, platform: Platform) {
    && (forall m :: m in members && IsBundled(m.name) ==> IsBinary(m.name))
    && (forall i :: 0 <= i < |BINARIES| ==> BinarySound(members, BinaryName(i), platform))
  }

  ghost predicate SoundAt(members: seq<Member>, dist: string, platform: Platform, h: Host) {
    && DistInfos(members) == {dist}
    && WheelFileSound(members, dist, platform.tag, h) && RecordSound(members, dist, h) && BinariesSound(members,
                                                                                                        platform)
  }

  /** What a release promises of a platform wheel. */
  ghost predicate Sound(w: Wheel, platform: Platform, version: string, h: Host) {
    w.name == WheelName(version, platform.tag) && exists dist :: SoundAt(w.members, dist, platform, h)
  }

  // ----- verifying -----

  method CheckRecord(members: seq<Member>, dist: string, h: Host) returns (ok: bool)
    ensures ok <==> RecordSound(members, dist, h)
  {
    var text := TextOf(members, RecordName(dist), h);
    if text.None? {
      return false;
    }
    var claims := ReadRecord(text.value);
    if claims.None? {
      return false;
    }
    ok := CheckClaims(members, RecordName(dist), claims.value, h);
  }

  method CheckClaims(members: seq<Member>, own: string, claims: Claims, h: Host) returns (ok: bool)
    ensures ok <==> ClaimsHold(members, own, claims, h.hash)
  {
    ClaimsCover(members, own, claims, h.hash);
    if !(forall n :: n in claims ==> Info(members, n).Some?) || !(forall m :: m in members ==> m.name in claims) {
      return false;
    }
    ok := true;
    for i := 0 to |members|
      invariant ok ==> forall k :: 0 <= k < i && members[k].name != own ==>
              ClaimHolds(members, members[k].name, claims[members[k].name], h.hash)
      invariant !ok ==> exists n :: n in claims && n != own && !ClaimHolds(members, n, claims[n], h.hash)
    {
      var name := members[i].name;
      assert members[i] in members;
      if name != own && claims[name] != ClaimOf(Info(members, name).value.data, h.hash) {
        assert !ClaimHolds(members, name, claims[name], h.hash);
        ok := false;
      }
    }
  }

  lemma ClaimsCover(members: seq<Member>, own: string, claims: Claims, hash: Bytes -> string)
    ensures ClaimsHold(members, own, claims, hash) ==>
              (forall n :: n in claims ==> Info(members, n).Some?) && (forall m :: m in members ==> m.name in claims)
  {
    if ClaimsHold(members, own, claims, hash) {
      forall m | m in members ensures m.name in claims {
        assert Info(members, m.name).Some?;
      }
    }
  }

  method CheckBinaries(members: seq<Member>, platform: Platform) returns (ok: bool)
    ensures ok <==> BinariesSound(members, platform)
  {
    if exists m :: m in members && IsBundled(m.name) && !IsBinaryName(m.name) {
      return false;
    }
    ok := true;
    for i := 0 to |BINARIES|
      invariant ok <==> forall k :: 0 <= k < i ==> BinarySound(members, BinaryName(k), platform)
    {
      var info := Info(members, BinaryName(i));
      ok := ok && info.Some? && info.value.executable && platform.runs(info.value.data);
    }
  }

  predicate IsBinaryName(name: string)
    ensures IsBinaryName(name) <==> IsBinary(name)
  {
    exists i :: 0 <= i < |BINARIES| && name == BinaryName(i)
  }

  /** Checks one platform wheel: its name, its tags, its RECORD and its binaries. */
  method VerifyWheel(w: Wheel, platform: Platform, version: string, h: Host) returns (ok: bool)
    ensures ok <==> Sound(w, platform, version, h)
  {
    if w.name != WheelName(version, platform.tag) {
      return false;
    }
    var dist := DistInfo(w.members);
    if dist.None? {
      return false;
    }
    var d := dist.value;
    var text := TextOf(w.members, WheelFileName(d), h);
    var file := text.Some? && FindTags(text.value, h.space) == TagNames(platform.tag) && Contains(text.value, NOT_PURE);
    var record := CheckRecord(w.members, d, h);
    var binaries := CheckBinaries(w.members, platform);
    ok := file && record && binaries;
    assert ok <==> SoundAt(w.members, d, platform, h);
    assert forall other :: SoundAt(w.members, other, platform, h) ==> other in DistInfos(w.members);
  }

  // ----- what was changed is refused -----

  function Replaced(w: Wheel, i: nat, data: Bytes): Wheel
    requires i < |w.members|
  {
    w.(members := w.members[i := w.members[i].(data := data)])
  }

  lemma {:induction false} InfoReplaced(members: seq<Member>, i: nat, data: Bytes, name: string)
    requires i < |members| && DistinctNames(members)
    ensures Info(members[i := members[i].(data := data)], name)
            == if name == members[i].name then Some(members[i].(data := data)) else Info(members, name)
  {
    var after := members[i := members[i].(data := data)];
    if members != [] {
      var last := |members| - 1;
      if i < last {
        assert after[..last] == members[..last][i := members[i].(data := data)];
        InfoReplaced(members[..last], i, data, name);
      } else {
        assert after[..last] == members[..last];
      }
    }
  }

  lemma SoundClaims(members: seq<Member>, dist: string, text: string, name: string, h: Host)
    requires RecordSound(members, dist, h) && TextOf(members, RecordName(dist), h) == Some(text)
    requires Info(members, name).Some? && name != RecordName(dist)
    ensures name in ReadRows(Lines(text)).value
    ensures ReadRows(Lines(text)).value[name] == ClaimOf(Info(members, name).value.data, h.hash)
  {
    var claims := ReadRows(Lines(text)).value;
    assert name in claims;
    assert ClaimHolds(members, name, claims[name], h.hash);
  }

  /** A RECORD that claims another hash or size of a member than the member has is refused. */
  lemma FalseClaimIsRefused(w: Wheel, dist: string, name: string, text: string, platform: Platform, version: string,
                            h: Host)
    requires DistInfos(w.members) == {dist} && TextOf(w.members, RecordName(dist), h) == Some(text)
    requires ReadRows(Lines(text)).Some? && name in ReadRows(Lines(text)).value && name != RecordName(dist)
    requires Info(w.members, name).Some?
    requires ReadRows(Lines(text)).value[name] != ClaimOf(Info(w.members, name).value.data, h.hash)
    ensures !Sound(w, platform, version, h)
  {
    if Sound(w, platform, version, h) {
      var other :| SoundAt(w.members, other, platform, h);
      assert other in DistInfos(w.members);
      SoundClaims(w.members, other, text, name, h);
      assert false;
    }
  }

  lemma SameDistInfos(w: Wheel, i: nat, data: Bytes)
    requires i < |w.members|
    ensures DistInfos(Replaced(w, i, data).members) == DistInfos(w.members)
  {
    var after := Replaced(w, i, data).members;
    assert forall k :: 0 <= k < |after| ==> after[k].name == w.members[k].name;
  }

  lemma SameText(w: Wheel, i: nat, data: Bytes, name: string, h: Host)
    requires i < |w.members| && DistinctNames(w.members) && w.members[i].name != name
    ensures TextOf(Replaced(w, i, data).members, name, h) == TextOf(w.members, name, h)
  {
    InfoReplaced(w.members, i, data, name);
  }

  /** A member whose bytes change hash or size is refused, whatever else the bytes are. */
  lemma ChangedMemberIsRefused(w: Wheel, i: nat, data: Bytes, platform: Platform, version: string, h: Host)
    requires Sound(w, platform, version, h) && DistinctNames(w.members) && i < |w.members|
    requires forall dist :: DistInfos(w.members) == {dist} ==> w.members[i].name != RecordName(dist)
    requires ClaimOf(data, h.hash) != ClaimOf(w.members[i].data, h.hash)
    ensures !Sound(Replaced(w, i, data), platform, version, h)
  {
    var name := w.members[i].name;
    var dist :| SoundAt(w.members, dist, platform, h);
    var text := TextOf(w.members, RecordName(dist), h).value;
    InfoOf(w.members, w.members[i]);
    SoundClaims(w.members, dist, text, name, h);
    SameDistInfos(w, i, data);
    SameText(w, i, data, RecordName(dist), h);
    InfoReplaced(w.members, i, data, name);
    FalseClaimIsRefused(Replaced(w, i, data), dist, name, text, platform, version, h);
  }

  /** A wheel with a line break in the name of a member is refused. */
  lemma BrokenNameIsRefused(w: Wheel, m: Member, platform: Platform, version: string, h: Host)
    requires m in w.members && !BreakFree(m.name)
    ensures !Sound(w, platform, version, h)
  {
    if Sound(w, platform, version, h) {
      var dist :| SoundAt(w.members, dist, platform, h);
      var text := TextOf(w.members, RecordName(dist), h).value;
      assert Info(w.members, m.name).Some?;
      assert m.name in ReadRows(Lines(text)).value;
      RecordNamesAreBreakFree(text, m.name);
      assert false;
    }
  }
}
