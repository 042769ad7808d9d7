/** The writer and the verifier of platform wheels agree. */
module WheelAgreement {
  import opened Options
  import opened Text
  import opened Sorting
  import opened WheelRecord
  import opened WheelTags
  import opened Wheels
  import opened WheelCheck

  // ----- the entries of the pure wheel -----

  /** Entry `e` is what becomes of the `k`-th entry of the pure wheel. */
  ghost predicate ComesFrom(pure: seq<Member>, k: nat, e: Member, dist: string, tag: string, h: Host) {
    k < |pure| && EntryOf(pure, pure[k], dist, tag, h) == Some([e])
  }

  lemma OneOrNone(pure: seq<Member>, k: nat, dist: string, tag: string, h: Host)
    requires k < |pure| && EntryOf(pure, pure[k], dist, tag, h).Some?
    ensures var es := EntryOf(pure, pure[k], dist, tag, h).value;
            es == [] || (|es| == 1 && ComesFrom(pure, k, es[0], dist, tag, h) && es[0].name == pure[k].name)
  {
  }

  ghost predicate Sourced(pure: seq<Member>, n: nat, e: Member, dist: string, tag: string, h: Host) {
    exists k :: 0 <= k < n && ComesFrom(pure, k, e, dist, tag, h)
  }

  lemma {:induction false} EntriesFrom(pure: seq<Member>, n: nat, dist: string, tag: string, h: Host)
    returns (es: seq<Member>)
    requires n <= |pure| && Entries(pure, n, dist, tag, h).Some?
    ensures Entries(pure, n, dist, tag, h) == Some(es)
    ensures forall e :: e in es <==> Sourced(pure, n, e, dist, tag, h)
    ensures DistinctNames(pure) ==> DistinctNames(es)
    decreases n
  {
    es := [];
    if n > 0 {
      var before := EntriesFrom(pure, n - 1, dist, tag, h);
      OneOrNone(pure, n - 1, dist, tag, h);
      var last := EntryOf(pure, pure[n - 1], dist, tag, h).value;
      es := before + last;
      forall e ensures e in es <==> Sourced(pure, n, e, dist, tag, h) {
        SourcedMore(pure, n - 1, e, dist, tag, h);
        assert last != [] ==> (e in last <==> e == last[0]);
      }
      if DistinctNames(pure) && last != [] {
        forall i | 0 <= i < |before| ensures before[i].name != last[0].name {
          assert Sourced(pure, n - 1, before[i], dist, tag, h);
          var k :| 0 <= k < n - 1 && ComesFrom(pure, k, before[i], dist, tag, h);
          assert pure[k].name != pure[n - 1].name;
        }
      }
    }
  }

  lemma SourcedMore(pure: seq<Member>, n: nat, e: Member, dist: string, tag: string, h: Host)
    requires n < |pure|
    ensures Sourced(pure, n + 1, e, dist, tag, h) <==>
            Sourced(pure, n, e, dist, tag, h) || ComesFrom(pure, n, e, dist, tag, h)
  {
  }

  // ----- names and roots -----

  lemma PrefixRoot(name: string, head: string, rest: string)
    requires Free(head, '/') && StartsWith(name, head + ['/'] + rest)
    ensures Root(name) == head
  {
    var prefix := head + ['/'] + rest;
    var tail := rest + name[|prefix|..];
    assert name == prefix + name[|prefix|..] == head + ['/'] + tail;
    FindFirst(head, '/', tail);
  }

  lemma DistributionIsRoot()
    ensures Free(DISTRIBUTION, '/') && BIN_PREFIX == DISTRIBUTION + ['/'] + "_bin/"
  {
  }

  lemma LastDiffers(s: string, suffix: string)
    requires s != "" && suffix != "" && s[|s| - 1] != suffix[|suffix| - 1]
    ensures !EndsWith(s, suffix)
  {
    assert |suffix| <= |s| ==> s[|s| - |suffix|..][|suffix| - 1] == s[|s| - 1];
  }

  lemma BundledRoot(name: string)
    requires IsBundled(name)
    ensures Root(name) == DISTRIBUTION && !EndsWith(Root(name), DIST_INFO)
  {
    DistributionIsRoot();
    PrefixRoot(name, DISTRIBUTION, "_bin/");
    LastDiffers(DISTRIBUTION, DIST_INFO);
  }

  lemma RootOf(dist: string, file: string)
    requires Free(dist, '/')
    ensures Root(dist + "/" + file) == dist
  {
    assert dist + "/" + file == dist + ['/'] + file;
    FindFirst(dist, '/', file);
  }

  lemma DistIsRoot(pure: seq<Member>, dist: string)
    requires DistInfos(pure) == {dist}
    ensures Free(dist, '/') && EndsWith(dist, DIST_INFO)
  {
    assert dist in DistInfos(pure);
  }

  lemma OwnIsNotBundled(dist: string)
    requires Free(dist, '/') && EndsWith(dist, DIST_INFO)
    ensures !IsBundled(RecordName(dist)) && Root(RecordName(dist)) == dist
  {
    RootOf(dist, "RECORD");
    assert RecordName(dist) == dist + "/" + "RECORD";
    if IsBundled(RecordName(dist)) {
      BundledRoot(RecordName(dist));
      assert false;
    }
  }

  lemma BundleNames(binaries: string -> Bytes)
    ensures DistinctNames(Bundle(binaries)) && forall m :: m in Bundle(binaries) ==>
            IsBundled(m.name) && IsBinary(m.name) && m.executable
    ensures forall i :: 0 <= i < |BINARIES| ==>
            Bundle(binaries)[i].name == BinaryName(i) && Bundle(binaries)[i].data == binaries(BINARIES[i])
  {
    var bundle := Bundle(binaries);
    assert |BINARIES[0]| == 17 && |BINARIES[1]| == 7 && |BINARIES[2]| == 11;
    forall i | 0 <= i < |bundle|
      ensures IsBundled(bundle[i].name) && |bundle[i].name| == |BIN_PREFIX| + |BINARIES[i]| && IsBinary(bundle[i].name)
    {
      assert bundle[i].name[..|BIN_PREFIX|] == BIN_PREFIX;
      assert bundle[i].name == BinaryName(i);
    }
  }

  // ----- sorting keeps the members -----

  lemma {:induction false} CountedOnce(s: seq<Member>, m: Member)
    requires DistinctNames(s)
    ensures multiset(s)[m] <= 1
  {
    if s != [] {
      var front, last := s[..|s| - 1], s[|s| - 1];
      assert s == front + [last];
      CountedOnce(front, m);
      if m == last {
        assert m !in front;
        assert multiset(front)[m] == 0;
      }
    }
  }

  lemma CountedTwice(s: seq<Member>, i: nat, j: nat)
    requires i < j < |s| && s[i] == s[j]
    ensures multiset(s)[s[i]] >= 2
  {
    assert s == s[..j] + s[j..] && s[i] in s[..j] && s[i] in s[j..];
    assert multiset(s) == multiset(s[..j]) + multiset(s[j..]);
  }

  lemma SameMembers(a: seq<Member>, b: seq<Member>)
    requires multiset(a) == multiset(b)
    ensures forall m :: m in a <==> m in b
    ensures DistinctNames(a) ==> DistinctNames(b)
  {
    forall m ensures m in a <==> m in b {
      assert m in multiset(a) <==> m in multiset(b);
    }
    if DistinctNames(a) {
      forall i, j | 0 <= i < j < |b| ensures b[i].name != b[j].name {
        if b[i].name == b[j].name {
          InfoOf(a, b[i]);
          InfoOf(a, b[j]);
          CountedTwice(b, i, j);
          CountedOnce(a, b[i]);
          assert false;
        }
      }
    }
  }

  // ----- the wheel that is made -----

  /** What `retag` was given and found: one dist-info directory, no bundled binaries, distinct names. */
  ghost predicate Retaggable(pure: seq<Member>, dist: string, tag: string, h: Host) {
    && DistinctNames(pure) && DistInfos(pure) == {dist} && (forall m :: m in pure ==> !IsBundled(m.name))
    && Entries(pure, |pure|, dist, tag, h).Some?
  }

  ghost function Made(pure: seq<Member>, binaries: string -> Bytes, dist: string, tag: string, h: Host): Wheel
    requires Retaggable(pure, dist, tag, h)
  {
    Assembled(Entries(pure, |pure|, dist, tag, h).value + Bundle(binaries), dist, tag, h)
  }

  /** The members before the RECORD: the pure wheel's entries and the binaries, each once. */
  lemma FrontMembers(pure: seq<Member>, binaries: string -> Bytes, dist: string, tag: string, h: Host)
    returns (front: seq<Member>, own: Member)
    requires Retaggable(pure, dist, tag, h)
    ensures Made(pure, binaries, dist, tag, h).members == front + [own]
    ensures own.name == RecordName(dist) && own.data == h.encode(RecordText(front, RecordName(dist), h.hash))
    ensures forall m :: m in front <==> Sourced(pure, |pure|, m, dist, tag, h) || m in Bundle(binaries)
    ensures DistinctNames(front)
  {
    var kept := EntriesFrom(pure, |pure|, dist, tag, h);
    var bundle := Bundle(binaries);
    BundleNames(binaries);
    var le := (a, b) => Before(dist, a, b);
    front := Sort(kept + bundle, le);
    SortSorts(kept + bundle, le);
    KeptNotBundled(pure, dist, tag, h);
    DistinctConcat(kept, bundle);
    SameMembers(kept + bundle, front);
    own := Member(RecordName(dist), h.encode(RecordText(front, RecordName(dist), h.hash)), false);
  }

  lemma KeptNotBundled(pure: seq<Member>, dist: string, tag: string, h: Host)
    requires Retaggable(pure, dist, tag, h)
    ensures forall m :: Sourced(pure, |pure|, m, dist, tag, h) ==>
            !IsBundled(m.name) && m.name != RecordName(dist) && !m.executable
  {
    forall m | Sourced(pure, |pure|, m, dist, tag, h) ensures !IsBundled(m.name) && m.name != RecordName(dist) && !m.executable {
      var k :| 0 <= k < |pure| && ComesFrom(pure, k, m, dist, tag, h);
      OneOrNone(pure, k, dist, tag, h);
      assert pure[k] in pure;
    }
  }

  lemma DistinctConcat(a: seq<Member>, b: seq<Member>)
    requires DistinctNames(a) && DistinctNames(b)
    requires forall x, y :: x in a && y in b ==> x.name != y.name
    ensures DistinctNames(a + b)
  {
    var s := a + b;
    forall i, j | 0 <= i < j < |s| ensures s[i].name != s[j].name {
      if i < |a| <= j {
        assert a[i] in a && b[j - |a|] in b;
      }
    }
  }

  /** The names of the wheel are distinct, and its dist-info directory is the pure wheel's. */
  lemma MadeNames(pure: seq<Member>, binaries: string -> Bytes, dist: string, tag: string, h: Host)
    requires Retaggable(pure, dist, tag, h)
    ensures DistinctNames(Made(pure, binaries, dist, tag, h).members)
    ensures DistInfos(Made(pure, binaries, dist, tag, h).members) == {dist}
  {
    var front, own := FrontMembers(pure, binaries, dist, tag, h);
    DistIsRoot(pure, dist);
    OwnIsNotBundled(dist);
    KeptNotBundled(pure, dist, tag, h);
    BundleNames(binaries);
    DistinctConcat(front, [own]);
    forall m | m in front ensures EndsWith(Root(m.name), DIST_INFO) ==> Root(m.name) == dist {
      FrontRoot(pure, binaries, dist, tag, h, m);
    }
    OnlyRoot(front + [own], dist);
  }

  lemma FrontRoot(pure: seq<Member>, binaries: string -> Bytes, dist: string, tag: string, h: Host, m: Member)
    requires Retaggable(pure, dist, tag, h) && (Sourced(pure, |pure|, m, dist, tag, h) || m in Bundle(binaries))
    ensures EndsWith(Root(m.name), DIST_INFO) ==> Root(m.name) == dist
  {
    if m in Bundle(binaries) {
      BundleNames(binaries);
      BundledRoot(m.name);
    } else {
      var k :| 0 <= k < |pure| && ComesFrom(pure, k, m, dist, tag, h);
      OneOrNone(pure, k, dist, tag, h);
      if EndsWith(Root(pure[k].name), DIST_INFO) {
        assert Root(pure[k].name) in DistInfos(pure);
      }
    }
  }

  lemma OnlyRoot(members: seq<Member>, dist: string)
    requires forall m :: m in members && EndsWith(Root(m.name), DIST_INFO) ==> Root(m.name) == dist
    requires members != [] && Root(members[|members| - 1].name) == dist && EndsWith(dist, DIST_INFO)
    ensures DistInfos(members) == {dist}
  {
    assert Root(members[|members| - 1].name) in DistInfos(members);
    forall d | d in DistInfos(members) ensures d == dist {
      var i :| 0 <= i < |members| && EndsWith(Root(members[i].name), DIST_INFO) && d == Root(members[i].name);
      assert members[i] in members;
    }
  }

  // ----- the parts of the check -----

  ghost predicate HasWheelFile(pure: seq<Member>, dist: string) {
    Info(pure, WheelFileName(dist)).Some?
  }

  ghost predicate FilesBreakFree(pure: seq<Member>) {
    forall m :: m in pure && !IsDirectory(m.name) ==> BreakFree(m.name)
  }

  ghost predicate AllRun(binaries: string -> Bytes, platform: Platform) {
    forall i :: 0 <= i < |BINARIES| ==> platform.runs(binaries(BINARIES[i]))
  }

  lemma FileNames(dist: string)
    ensures !IsDirectory(WheelFileName(dist)) && !IsDirectory(RecordName(dist))
    ensures WheelFileName(dist) != RecordName(dist)
  {
    assert WheelFileName(dist)[|dist| + 1] == 'W' && RecordName(dist)[|dist| + 1] == 'R';
    assert WheelFileName(dist)[|WheelFileName(dist)| - 1] == 'L' && RecordName(dist)[|RecordName(dist)| - 1] == 'D';
    var wheel, record := WheelFileName(dist), RecordName(dist);
    assert wheel[|wheel| - 1..][0] == 'L' && record[|record| - 1..][0] == 'D';
  }

  /** Each entry but RECORD and WHEEL is in the wheel with its bytes. */
  lemma EntryIsKept(pure: seq<Member>, m: Member, dist: string, tag: string, h: Host)
    requires DistinctNames(pure) && m in pure && !IsDirectory(m.name) && m.name != RecordName(dist)
    requires m.name != WheelFileName(dist)
    ensures Sourced(pure, |pure|, Member(m.name, m.data, false), dist, tag, h)
  {
    InfoOf(pure, m);
    var k :| 0 <= k < |pure| && pure[k] == m;
    assert ComesFrom(pure, k, Member(m.name, m.data, false), dist, tag, h);
  }

  lemma WheelFileIsMade(pure: seq<Member>, binaries: string -> Bytes, dist: string, platform: Platform, h: Host)
    requires ValidHost(h) && Retaggable(pure, dist, platform.tag, h) && CleanTags(TagNames(platform.tag), h.space)
    ensures WheelFileSound(Made(pure, binaries, dist, platform.tag, h).members, dist, platform.tag, h) <==>
            HasWheelFile(pure, dist)
  {
    var name, tag := WheelFileName(dist), platform.tag;
    var front, own := FrontMembers(pure, binaries, dist, tag, h);
    var members := front + [own];
    FileNames(dist);
    MadeNames(pure, binaries, dist, tag, h);
    if HasWheelFile(pure, dist) {
      var m := Info(pure, name).value;
      var e := WheelFileEntry(pure, m, dist, tag, h);
      assert e in front && e in members;
      InfoOf(members, e);
      var text := h.decode(m.data).value;
      TagsReadBack(text, tag, h.space);
      PurityIsDenied(text, tag);
    } else {
      NoWheelFile(pure, binaries, dist, tag, h, front, own);
    }
  }

  lemma WheelFileEntry(pure: seq<Member>, m: Member, dist: string, tag: string, h: Host) returns (e: Member)
    requires Retaggable(pure, dist, tag, h) && m in pure && m.name == WheelFileName(dist)
    ensures h.decode(m.data).Some? && e == Member(m.name, h.encode(PlatformFile(h.decode(m.data).value, tag)), false)
    ensures Sourced(pure, |pure|, e, dist, tag, h)
  {
    FileNames(dist);
    InfoOf(pure, m);
    var k :| 0 <= k < |pure| && pure[k] == m;
    EntryReadable(pure, k, |pure|, dist, tag, h);
    e := Member(m.name, h.encode(PlatformFile(h.decode(m.data).value, tag)), false);
    assert ComesFrom(pure, k, e, dist, tag, h);
  }

  lemma {:induction false} EntryReadable(pure: seq<Member>, k: nat, n: nat, dist: string, tag: string, h: Host)
    requires k < n <= |pure| && Entries(pure, n, dist, tag, h).Some?
    ensures EntryOf(pure, pure[k], dist, tag, h).Some?
    decreases n
  {
    if k < n - 1 {
      EntryReadable(pure, k, n - 1, dist, tag, h);
    }
  }

  lemma NoWheelFile(pure: seq<Member>, binaries: string -> Bytes, dist: string, tag: string, h: Host,
                    front: seq<Member>, own: Member)
    requires Retaggable(pure, dist, tag, h) && !HasWheelFile(pure, dist) && own.name == RecordName(dist)
    requires forall m :: m in front <==> Sourced(pure, |pure|, m, dist, tag, h) || m in Bundle(binaries)
    ensures Info(front + [own], WheelFileName(dist)).None?
  {
    var name := WheelFileName(dist);
    FileNames(dist);
    DistIsRoot(pure, dist);
    RootOf(dist, "WHEEL");
    assert name == dist + "/" + "WHEEL";
    BundleNames(binaries);
    forall m | m in front + [own] ensures m.name != name {
      if m in front && m in Bundle(binaries) {
        BundledRoot(m.name);
      } else if m in front {
        var k :| 0 <= k < |pure| && ComesFrom(pure, k, m, dist, tag, h);
        OneOrNone(pure, k, dist, tag, h);
        assert pure[k] in pure;
      }
    }
  }

  lemma FrontBreakFree(pure: seq<Member>, binaries: string -> Bytes, dist: string, tag: string, h: Host,
                       front: seq<Member>)
    requires Retaggable(pure, dist, tag, h) && FilesBreakFree(pure)
    requires forall m :: m in front <==> Sourced(pure, |pure|, m, dist, tag, h) || m in Bundle(binaries)
    ensures NamesBreakFree(front)
  {
    BundleNames(binaries);
    forall i | 0 <= i < |front| ensures BreakFree(front[i].name) {
      var m := front[i];
      if m in Bundle(binaries) {
        var j :| 0 <= j < |BINARIES| && m.name == BinaryName(j);
        BinaryBreakFree(j);
      } else {
        var k :| 0 <= k < |pure| && ComesFrom(pure, k, m, dist, tag, h);
        OneOrNone(pure, k, dist, tag, h);
        assert pure[k] in pure;
      }
    }
  }

  lemma BinaryBreakFree(i: nat)
    requires i < |BINARIES|
    ensures BreakFree(BinaryName(i))
  {
    assert BreakFree(BIN_PREFIX) && BreakFree(BINARIES[0]) && BreakFree(BINARIES[1]) && BreakFree(BINARIES[2]);
  }

  lemma ClaimsAreMade(front: seq<Member>, own: Member, hash: Bytes -> string)
    requires DistinctNames(front) && DistinctNames(front + [own])
    ensures ClaimsHold(front + [own], own.name, ClaimsOf(front, hash)[own.name := NO_CLAIM], hash)
  {
    var members, written := front + [own], ClaimsOf(front, hash);
    var claims := written[own.name := NO_CLAIM];
    ClaimsByName(front, hash);
    forall n ensures n in claims <==> Info(members, n).Some? {
      assert n in written <==> exists m :: m in front && m.name == n;
      assert own in members;
    }
    forall n | n in claims && n != own.name ensures ClaimHolds(members, n, claims[n], hash) {
      var m :| m in front && m.name == n;
      assert m in members;
      InfoOf(members, m);
    }
  }

  lemma RecordIsMade(front: seq<Member>, own: Member, dist: string, h: Host)
    requires ValidHost(h) && DistinctNames(front) && DistinctNames(front + [own]) && NamesBreakFree(front)
    requires BreakFree(RecordName(dist))
    requires own.name == RecordName(dist) && own.data == h.encode(RecordText(front, RecordName(dist), h.hash))
    ensures RecordSound(front + [own], dist, h)
  {
    assert own in front + [own];
    InfoOf(front + [own], own);
    RecordReadsBack(front, RecordName(dist), h.hash);
    ClaimsAreMade(front, own, h.hash);
  }

  lemma BinariesAreMade(pure: seq<Member>, binaries: string -> Bytes, dist: string, platform: Platform, h: Host)
    requires Retaggable(pure, dist, platform.tag, h)
    ensures BinariesSound(Made(pure, binaries, dist, platform.tag, h).members, platform) <==> AllRun(binaries, platform)
  {
    var front, own := FrontMembers(pure, binaries, dist, platform.tag, h);
    var members := front + [own];
    MadeNames(pure, binaries, dist, platform.tag, h);
    BundleNames(binaries);
    KeptNotBundled(pure, dist, platform.tag, h);
    DistIsRoot(pure, dist);
    OwnIsNotBundled(dist);
    forall i | 0 <= i < |BINARIES| ensures BinarySound(members, BinaryName(i), platform) <==>
        platform.runs(binaries(BINARIES[i])) {
      var m := Bundle(binaries)[i];
      assert m in front && m in members;
      InfoOf(members, m);
    }
  }

  // ----- agreement -----

  lemma MadeIsSound(pure: seq<Member>, binaries: string -> Bytes, dist: string, platform: Platform, h: Host)
    requires ValidHost(h) && Retaggable(pure, dist, platform.tag, h) && CleanTags(TagNames(platform.tag), h.space)
    requires HasWheelFile(pure, dist) && FilesBreakFree(pure) && AllRun(binaries, platform)
    ensures Sound(Made(pure, binaries, dist, platform.tag, h), platform, VersionOf(dist), h)
  {
    WheelFileIsMade(pure, binaries, dist, platform, h);
    BinariesAreMade(pure, binaries, dist, platform, h);
    MadeNames(pure, binaries, dist, platform.tag, h);
    MadeRecord(pure, binaries, dist, platform.tag, h);
    assert SoundAt(Made(pure, binaries, dist, platform.tag, h).members, dist, platform, h);
  }

  lemma SoundIsMadeOf(pure: seq<Member>, binaries: string -> Bytes, dist: string, platform: Platform, h: Host)
    requires ValidHost(h) && Retaggable(pure, dist, platform.tag, h) && CleanTags(TagNames(platform.tag), h.space)
    requires Sound(Made(pure, binaries, dist, platform.tag, h), platform, VersionOf(dist), h)
    ensures HasWheelFile(pure, dist) && FilesBreakFree(pure) && AllRun(binaries, platform)
  {
    var members := Made(pure, binaries, dist, platform.tag, h).members;
    MadeNames(pure, binaries, dist, platform.tag, h);
    var other :| SoundAt(members, other, platform, h);
    assert other in DistInfos(members);
    WheelFileIsMade(pure, binaries, dist, platform, h);
    BinariesAreMade(pure, binaries, dist, platform, h);
    NamesOfSound(pure, binaries, dist, platform, h);
  }

  /**
   The verifier accepts what the writer makes if and only if the pure wheel has a WHEEL file, no file
   of it has a line break in its name, and the binaries run on the platform.
   */
  lemma WriterAndVerifierAgree(pure: seq<Member>, binaries: string -> Bytes, dist: string, platform: Platform, h: Host)
    requires ValidHost(h) && Retaggable(pure, dist, platform.tag, h) && CleanTags(TagNames(platform.tag), h.space)
    ensures Sound(Made(pure, binaries, dist, platform.tag, h), platform, VersionOf(dist), h)
            <==> HasWheelFile(pure, dist) && FilesBreakFree(pure) && AllRun(binaries, platform)
  {
    if HasWheelFile(pure, dist) && FilesBreakFree(pure) && AllRun(binaries, platform) {
      MadeIsSound(pure, binaries, dist, platform, h);
    }
    if Sound(Made(pure, binaries, dist, platform.tag, h), platform, VersionOf(dist), h) {
      SoundIsMadeOf(pure, binaries, dist, platform, h);
    }
  }

  lemma MadeRecord(pure: seq<Member>, binaries: string -> Bytes, dist: string, tag: string, h: Host)
    requires ValidHost(h) && Retaggable(pure, dist, tag, h) && HasWheelFile(pure, dist) && FilesBreakFree(pure)
    ensures RecordSound(Made(pure, binaries, dist, tag, h).members, dist, h)
  {
    var front, own := FrontMembers(pure, binaries, dist, tag, h);
    MadeNames(pure, binaries, dist, tag, h);
    FrontBreakFree(pure, binaries, dist, tag, h, front);
    FileNames(dist);
    assert BreakFree(WheelFileName(dist));
    DistBreakFree(dist);
    RecordIsMade(front, own, dist, h);
  }

  lemma DistBreakFree(dist: string)
    requires BreakFree(WheelFileName(dist))
    ensures BreakFree(RecordName(dist))
  {
    forall i | 0 <= i < |dist| ensures !IsBreak(dist[i]) {
      assert WheelFileName(dist)[i] == dist[i];
    }
    assert BreakFree("/RECORD");
  }

  lemma NamesOfSound(pure: seq<Member>, binaries: string -> Bytes, dist: string, platform: Platform, h: Host)
    requires Retaggable(pure, dist, platform.tag, h)
    requires Sound(Made(pure, binaries, dist, platform.tag, h), platform, VersionOf(dist), h)
    ensures FilesBreakFree(pure)
  {
    var w := Made(pure, binaries, dist, platform.tag, h);
    var front, own := FrontMembers(pure, binaries, dist, platform.tag, h);
    forall m | m in pure && !IsDirectory(m.name) ensures BreakFree(m.name) {
      if m.name == RecordName(dist) {
        assert own in w.members;
        if !BreakFree(own.name) {
          BrokenNameIsRefused(w, own, platform, VersionOf(dist), h);
        }
      } else {
        var e := EntryInFront(pure, m, dist, platform.tag, h);
        assert e in front && e in w.members;
        if !BreakFree(e.name) {
          BrokenNameIsRefused(w, e, platform, VersionOf(dist), h);
        }
      }
    }
  }

  lemma EntryInFront(pure: seq<Member>, m: Member, dist: string, tag: string, h: Host) returns (e: Member)
    requires Retaggable(pure, dist, tag, h) && m in pure && !IsDirectory(m.name) && m.name != RecordName(dist)
    ensures e.name == m.name && Sourced(pure, |pure|, e, dist, tag, h)
  {
    if m.name == WheelFileName(dist) {
      e := WheelFileEntry(pure, m, dist, tag, h);
    } else {
      EntryIsKept(pure, m, dist, tag, h);
      e := Member(m.name, m.data, false);
    }
  }

  /** Every file of the pure wheel but WHEEL and RECORD is in the platform wheel under its name with its bytes. */
  lemma BytesArePreserved(pure: seq<Member>, binaries: string -> Bytes, m: Member, dist: string, tag: string, h: Host)
    requires Retaggable(pure, dist, tag, h) && m in pure && !IsDirectory(m.name)
    requires m.name != RecordName(dist) && m.name != WheelFileName(dist)
    ensures Info(Made(pure, binaries, dist, tag, h).members, m.name) == Some(Member(m.name, m.data, false))
  {
    var front, own := FrontMembers(pure, binaries, dist, tag, h);
    MadeNames(pure, binaries, dist, tag, h);
    EntryIsKept(pure, m, dist, tag, h);
    var e := Member(m.name, m.data, false);
    assert e in front && e in front + [own];
    InfoOf(front + [own], e);
  }

  /** Nothing else gets in: a member of the platform wheel is the RECORD, a binary, or named in the pure wheel. */
  lemma NothingElseIsAdded(pure: seq<Member>, binaries: string -> Bytes, m: Member, dist: string, tag: string, h: Host)
    requires Retaggable(pure, dist, tag, h) && m in Made(pure, binaries, dist, tag, h).members
    ensures m.name == RecordName(dist) || m in Bundle(binaries) || Info(pure, m.name).Some?
  {
    var front, own := FrontMembers(pure, binaries, dist, tag, h);
    if m in front && m !in Bundle(binaries) {
      var k :| 0 <= k < |pure| && ComesFrom(pure, k, m, dist, tag, h);
      OneOrNone(pure, k, dist, tag, h);
      assert pure[k] in pure;
    }
  }
}
