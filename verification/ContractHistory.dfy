/** What the contract gate keeps over every accepted history of commits. */
module ContractHistory {
  import opened Options
  import opened Occurrences
  import opened ContractGate

  /** The entry of an owner in a manifest that names each owner once. */
  ghost predicate HasEntry(m: Manifest, e: Entry) {
    e in m.replacements && e.shape.Some?
  }

  lemma EntryIsByOwner(m: Manifest, e: Entry)
    requires Distinct(m) && e in m.replacements
    ensures ByOwner(m.replacements, Owner(e)) == Some(e)
  {
    var found := ByOwner(m.replacements, Owner(e));
    assert found.Some?;
    var i :| 0 <= i < |m.replacements| && m.replacements[i] == e;
    var j :| 0 <= j < |m.replacements| && m.replacements[j] == found.value;
    assert i == j;
  }

  // ----- one accepted commit -----

  /** In an accepted commit a seeded class is absent if and only if its entry is retired. */
  lemma AbsentIffRetired(c: Commit, base: Option<Base>, e: Entry)
    requires Passes(c, base) && HasEntry(c.manifest, e)
    ensures Owner(e) !in c.definitions <==> e.shape.value.retired
  {
    var i :| 0 <= i < |c.manifest.replacements| && c.manifest.replacements[i] == e;
    assert Retirement(c.manifest, c.definitions).replacements[i] == RetiredEntry(e, c.definitions);
    if Owner(e) in c.definitions && e.shape.value.retired {
      assert ShapeFault(e, c.definitions, Reintroduced(Owner(e)));
      assert ShapesFault(c.manifest, c.definitions, Reintroduced(Owner(e)));
    }
  }

  /** A class still there inherits as its seed did and has no field its seed lacked. */
  lemma WithinSeed(c: Commit, e: Entry)
    requires ShapesHeld(c) && HasEntry(c.manifest, e) && Owner(e) in c.definitions
    ensures c.definitions[Owner(e)].bases == e.shape.value.bases
    ensures forall f :: f in c.definitions[Owner(e)].fields ==> f in e.shape.value.members
  {
    var owner := Owner(e);
    assert !ShapesFault(c.manifest, c.definitions, InheritanceChanged(owner));
    assert !ShapesFault(c.manifest, c.definitions, FieldsGrew(owner));
    assert !ShapeFault(e, c.definitions, InheritanceChanged(owner));
    assert !ShapeFault(e, c.definitions, FieldsGrew(owner));
  }

  // ----- writing and then checking -----

  lemma RetirementIsSettled(m: Manifest, definitions: Definitions)
    ensures Retirement(Retirement(m, definitions), definitions) == Retirement(m, definitions)
    ensures Distinct(m) ==> Distinct(Retirement(m, definitions))
  {
    var once := Retirement(m, definitions);
    forall i | 0 <= i < |m.replacements|
      ensures RetiredEntry(once.replacements[i], definitions) == once.replacements[i]
      ensures Owner(once.replacements[i]) == Owner(m.replacements[i])
    {
    }
    assert Retirement(once, definitions).replacements == once.replacements;
  }

  lemma RetirementAddsNoFault(m: Manifest, definitions: Definitions, x: Error)
    requires !ShapesFault(m, definitions, x)
    ensures !ShapesFault(Retirement(m, definitions), definitions, x)
  {
    var once := Retirement(m, definitions);
    forall e | e in once.replacements ensures !ShapeFault(e, definitions, x) {
      var i :| 0 <= i < |once.replacements| && once.replacements[i] == e;
      var before := m.replacements[i];
      assert e == RetiredEntry(before, definitions) && Owner(e) == Owner(before);
      assert !ShapeFault(before, definitions, x);
    }
  }

  lemma {:induction false} RetirementByOwner(entries: seq<Entry>, retired: seq<Entry>, definitions: Definitions,
                                             owner: string)
    requires |retired| == |entries| && forall i :: 0 <= i < |entries| ==>
            retired[i] == RetiredEntry(entries[i], definitions)
    ensures ByOwner(retired, owner) == match ByOwner(entries, owner) case None => None case Some(e) => Some(RetiredEntry(e, definitions))
  {
    if entries != [] {
      var last := |entries| - 1;
      assert Owner(retired[last]) == Owner(entries[last]);
      if Owner(entries[last]) != owner {
        RetirementByOwner(entries[..last], retired[..last], definitions, owner);
      }
    }
  }

  lemma RetirementKeepsManifest(m: Manifest, definitions: Definitions, previous: Manifest, x: Error)
    requires !ManifestFault(m, previous, x)
    ensures !ManifestFault(Retirement(m, definitions), previous, x)
  {
    var once := Retirement(m, definitions);
    forall e | e in previous.replacements ensures !RatchetFault(once, e, x) {
      assert !RatchetFault(m, e, x);
      RetirementByOwner(m.replacements, once.replacements, definitions, Owner(e));
    }
  }

  lemma MovedChain(small: Counts, c: Counts, renames: map<string, string>)
    requires BelowMoved(small, c, renames) && forall k :: k in small ==> k.path !in renames
    ensures forall to :: Total(Landing(small, renames, to)) == Count(small, to)
    ensures MovedBelow(small, c, renames)
  {
    NothingToMove(small, renames);
    forall to ensures Total(Landing(small, renames, to)) == Count(small, to) {
      assert Count(small, to) == Total(Landing(small, renames, to));
    }
    forall to ensures Total(Landing(small, renames, to)) <= Total(Landing(c, renames, to)) {
      assert Count(small, to) <= Total(Landing(c, renames, to));
    }
  }

  /**
   What a successful `--write` leaves passes the check it was made for: a renamed path no longer
   exists, so the scan counts nothing under it.
   */
  lemma WrittenPasses(c: Commit, base: Option<Base>)
    requires ErrorFree(c, base) && forall k :: k in c.counts ==> k.path !in Renames(base)
    ensures Passes(Written(c), base)
    ensures Readable(c, base) ==> Readable(Written(c), base)
  {
    var after, renames := Written(c), Renames(base);
    RetirementIsSettled(c.manifest, c.definitions);
    forall x ensures !ShapesFault(after.manifest, after.definitions, x) {
      RetirementAddsNoFault(c.manifest, c.definitions, x);
    }
    MovedChain(c.counts, c.baseline, renames);
    assert BelowMoved(after.counts, after.baseline, renames);
    if base.Some? && base.value.baseline.Some? {
      var original := base.value.baseline.value;
      assert MovedBelow(c.baseline, original, renames);
      MovedTransitive(c.counts, c.baseline, original, renames);
    }
    if base.Some? && base.value.manifest.Some? {
      forall x ensures !ManifestFault(after.manifest, base.value.manifest.value, x) {
        RetirementKeepsManifest(c.manifest, c.definitions, base.value.manifest.value, x);
      }
    }
  }

  lemma MovedTransitive(a: Counts, b: Counts, c: Counts, renames: map<string, string>)
    requires MovedBelow(a, b, renames) && MovedBelow(b, c, renames)
    ensures MovedBelow(a, c, renames)
  {
    forall to ensures Total(Landing(a, renames, to)) <= Total(Landing(c, renames, to)) {
      assert Total(Landing(a, renames, to)) <= Total(Landing(b, renames, to));
    }
  }

  // ----- histories -----

  function BaseOf(c: Commit, renames: map<string, string>): Base {
    Base(Some(c.baseline), Some(c.manifest), renames)
  }

  ghost predicate Step(commits: seq<Commit>, renames: seq<map<string, string>>, i: nat)
    requires i + 1 < |commits| && |renames| == |commits|
  {
    Distinct(commits[i + 1].manifest) && Passes(commits[i + 1], Some(BaseOf(commits[i], renames[i])))
  }

  /** Commits that were each accepted against the one before; the first on its own. */
  ghost predicate History(commits: seq<Commit>, renames: seq<map<string, string>>) {
    && commits != [] && |renames| == |commits|
    && Distinct(commits[0].manifest) && Passes(commits[0], None)
    && forall i: nat | i + 1 < |commits| :: Step(commits, renames, i)
  }

  lemma AcceptedAt(commits: seq<Commit>, renames: seq<map<string, string>>, i: nat) returns (base: Option<Base>)
    requires History(commits, renames) && i < |commits|
    ensures Distinct(commits[i].manifest) && Passes(commits[i], base)
  {
    if i == 0 {
      base := None;
    } else {
      assert Step(commits, renames, i - 1);
      base := Some(BaseOf(commits[i - 1], renames[i - 1]));
    }
  }

  /** The same class, frozen in the same shape, at least as retired. */
  ghost predicate Continues(e: Entry, later: Entry) {
    && Owner(later) == Owner(e) && e.shape.Some? && later.shape.Some?
    && later.shape.value.bases == e.shape.value.bases && later.shape.value.members == e.shape.value.members
    && (e.shape.value.retired ==> later.shape.value.retired)
  }

  lemma StepContinues(previous: Manifest, current: Manifest, e: Entry) returns (later: Entry)
    requires HasEntry(previous, e) && forall x :: !ManifestFault(current, previous, x)
    ensures HasEntry(current, later) && Continues(e, later)
  {
    var owner := Owner(e);
    assert !ManifestFault(current, previous, AuthorityRemoved(owner));
    assert !ManifestFault(current, previous, ShapeChanged(owner));
    assert !ManifestFault(current, previous, RetirementReversed(owner));
    assert !RatchetFault(current, e, AuthorityRemoved(owner));
    assert !RatchetFault(current, e, ShapeChanged(owner));
    assert !RatchetFault(current, e, RetirementReversed(owner));
    later := ByOwner(current.replacements, owner).value;
  }

  /** A seeded class keeps its entry and its shape for ever, and a retirement is never taken back. */
  lemma {:induction false} ShapeIsForever(commits: seq<Commit>, renames: seq<map<string, string>>, i: nat, j: nat,
                                          e: Entry)
    returns (later: Entry)
    requires History(commits, renames) && i <= j < |commits| && HasEntry(commits[i].manifest, e)
    ensures HasEntry(commits[j].manifest, later) && Continues(e, later)
    decreases j
  {
    if i == j {
      later := e;
    } else {
      var middle := ShapeIsForever(commits, renames, i, j - 1, e);
      assert Step(commits, renames, j - 1);
      later := StepContinues(commits[j - 1].manifest, commits[j].manifest, middle);
    }
  }

  /** A seeded class once deleted never comes back. */
  lemma DeletedStaysDeleted(commits: seq<Commit>, renames: seq<map<string, string>>, i: nat, j: nat, e: Entry)
    requires History(commits, renames) && i <= j < |commits| && HasEntry(commits[i].manifest, e)
    requires Owner(e) !in commits[i].definitions
    ensures Owner(e) !in commits[j].definitions
  {
    var at := AcceptedAt(commits, renames, i);
    AbsentIffRetired(commits[i], at, e);
    var later := ShapeIsForever(commits, renames, i, j, e);
    var to := AcceptedAt(commits, renames, j);
    AbsentIffRetired(commits[j], to, later);
  }

  /** At every later commit the class, if there, fits the shape it was frozen in. */
  lemma NeverOutgrowsItsSeed(commits: seq<Commit>, renames: seq<map<string, string>>, i: nat, j: nat, e: Entry)
    requires History(commits, renames) && i <= j < |commits| && HasEntry(commits[i].manifest, e)
    requires Owner(e) in commits[j].definitions
    ensures commits[j].definitions[Owner(e)].bases == e.shape.value.bases
    ensures forall f :: f in commits[j].definitions[Owner(e)].fields ==> f in e.shape.value.members
  {
    var later := ShapeIsForever(commits, renames, i, j, e);
    var at := AcceptedAt(commits, renames, j);
    WithinSeed(commits[j], later);
  }

  // ----- legacy use -----

  /** Every count is at most what the base's baseline has for it once moved along the renames. */
  lemma UseWithinBase(commits: seq<Commit>, renames: seq<map<string, string>>, i: nat)
    requires History(commits, renames) && i + 1 < |commits|
    ensures BelowMoved(commits[i + 1].counts, commits[i].baseline, renames[i])
  {
    assert Step(commits, renames, i);
    var c, before := commits[i + 1], commits[i].baseline;
    assert BelowMoved(c.counts, c.baseline, renames[i]) && MovedBelow(c.baseline, before, renames[i]);
    forall to ensures Count(c.counts, to) <= Total(Landing(before, renames[i], to)) {
      assert Count(c.counts, to) <= Total(Landing(c.baseline, renames[i], to));
      assert Total(Landing(c.baseline, renames[i], to)) <= Total(Landing(before, renames[i], to));
    }
  }

  lemma SameTotal(a: Counts, b: Counts)
    requires SameCounts(a, b)
    ensures Total(a) == Total(b)
  {
    assert Below(a, b) && Below(b, a);
    TotalBelow(a, b);
    TotalBelow(b, a);
  }

  lemma RelocationExists(c: Counts, renames: map<string, string>) returns (moved: Counts)
    ensures Relocated(c, renames, moved) && Total(moved) == Total(c)
    decreases |c|
  {
    if c == map[] {
      moved := map[];
      assert forall to :: Landing(c, renames, to) == map[];
    } else {
      var k :| k in c;
      var rest := c - {k};
      var before := RelocationExists(rest, renames);
      var to := Moved(k, renames);
      moved := before[to := Count(before, to) + c[k]];
      RelocatedMore(rest, renames, before, k, c[k], moved);
      assert rest[k := c[k]] == c;
      TotalWith(rest, k, c[k]);
      TotalWith(before, to, Count(before, to) + c[k]);
    }
  }

  /** The number of legacy uses never rises over an accepted history. */
  lemma {:induction false} UseNeverGrows(commits: seq<Commit>, renames: seq<map<string, string>>, i: nat, j: nat)
    requires History(commits, renames) && i <= j < |commits|
    ensures Total(commits[j].counts) <= Total(commits[i].counts)
    decreases j
  {
    if i < j {
      UseNeverGrows(commits, renames, i, j - 1);
      UseWithinBase(commits, renames, j - 1);
      var base := commits[j - 1];
      var moved := RelocationExists(base.baseline, renames[j - 1]);
      RelocatedReads(commits[j].counts, base.baseline, renames[j - 1], moved);
      TotalBelow(commits[j].counts, moved);
      var at := AcceptedAt(commits, renames, j - 1);
      SameTotal(base.counts, base.baseline);
    }
  }

  // ----- fields may grow back -----

  function WithFields(c: Commit, owner: string, fields: seq<string>): Commit
    requires owner in c.definitions
  {
    c.(definitions := c.definitions[owner := c.definitions[owner].(fields := fields)])
  }

  /**
   Fields are held to the seed, not to the commit before: a change of one class's fields alone is
   accepted if and only if the new fields are all among the seed's, however few the class had.
   */
  lemma FieldsMayChangeWithinSeed(c: Commit, base: Option<Base>, e: Entry, fields: seq<string>)
    requires Passes(c, base) && Distinct(c.manifest) && HasEntry(c.manifest, e) && Owner(e) in c.definitions
    ensures Passes(WithFields(c, Owner(e), fields), Some(BaseOf(c, map[])))
            <==> forall f :: f in fields ==> f in e.shape.value.members
  {
    var owner := Owner(e);
    var after := WithFields(c, owner, fields);
    UnmovedHeld(c, base);
    forall x ensures !ManifestFault(c.manifest, c.manifest, x) {
      SameManifestHolds(c.manifest, x);
    }
    assert Retirement(after.manifest, after.definitions) == Retirement(c.manifest, c.definitions);
    if forall f :: f in fields ==> f in e.shape.value.members {
      forall x ensures !ShapesFault(after.manifest, after.definitions, x) {
        FieldsAddNoFault(c, e, fields, x);
      }
    } else if Passes(after, Some(BaseOf(c, map[]))) {
      WithinSeed(after, e);
      assert false;
    }
  }

  lemma UnmovedHeld(c: Commit, base: Option<Base>)
    requires Passes(c, base)
    ensures BelowMoved(c.counts, c.baseline, map[]) && MovedBelow(c.baseline, c.baseline, map[])
  {
    NothingToMove(c.baseline, map[]);
    forall to ensures Count(c.counts, to) <= Total(Landing(c.baseline, map[], to)) {
      assert Count(c.counts, to) == Count(c.baseline, to) == Total(Landing(c.baseline, map[], to));
    }
  }

  lemma SameManifestHolds(m: Manifest, x: Error)
    requires Distinct(m)
    ensures !ManifestFault(m, m, x)
  {
    forall e | e in m.replacements ensures !RatchetFault(m, e, x) {
      EntryIsByOwner(m, e);
    }
  }

  lemma FieldsAddNoFault(c: Commit, e: Entry, fields: seq<string>, x: Error)
    requires ShapesHeld(c) && Distinct(c.manifest) && HasEntry(c.manifest, e) && Owner(e) in c.definitions
    requires forall f :: f in fields ==> f in e.shape.value.members
    ensures !ShapesFault(c.manifest, WithFields(c, Owner(e), fields).definitions, x)
  {
    var after := WithFields(c, Owner(e), fields).definitions;
    forall d | d in c.manifest.replacements ensures !ShapeFault(d, after, x) {
      assert !ShapesFault(c.manifest, c.definitions, x);
      assert !ShapeFault(d, c.definitions, x);
      if Owner(d) == Owner(e) {
        EntryIsByOwner(c.manifest, e);
        EntryIsByOwner(c.manifest, d);
      }
    }
  }

  /** A field dropped in one accepted commit is back in the next. */
  lemma DroppedFieldComesBack()
    ensures exists commits: seq<Commit>, renames: seq<map<string, string>> ::
              && |commits| == 3 && History(commits, renames)
              && "m.C" in commits[1].definitions && "m.C" in commits[2].definitions
              && commits[1].definitions["m.C"].fields == [] && commits[2].definitions["m.C"].fields == ["x"]
  {
    var e := Entry("m", "C", "api.C", Some(Shape([], ["x"], false)));
    assert Owner(e) == "m.C";
    var manifest := Manifest("seed", [e]);
    var full := Commit(manifest, map[], map["m.C" := Class([], ["x"])], map[], []);
    var empty := WithFields(full, "m.C", []);
    assert WithFields(empty, "m.C", ["x"]) == full;
    assert HasEntry(manifest, e);
    OneClassPasses(full, e);
    FieldsMayChangeWithinSeed(full, None, e, []);
    FieldsMayChangeWithinSeed(empty, Some(BaseOf(full, map[])), e, ["x"]);
    var commits, renames: seq<map<string, string>> := [full, empty, full], [map[], map[], map[]];
    assert Step(commits, renames, 0) && Step(commits, renames, 1);
    assert History(commits, renames);
  }

  lemma OneClassPasses(c: Commit, e: Entry)
    requires c.manifest.replacements == [e] && e.shape.Some? && !e.shape.value.retired && Owner(e) in c.definitions
    requires c.definitions[Owner(e)] == Class(e.shape.value.bases, e.shape.value.members)
    requires c.counts == map[] && c.baseline == map[] && c.scanErrors == []
    ensures Passes(c, None) && Distinct(c.manifest)
  {
    NothingToMove(c.baseline, map[]);
    forall x ensures !ShapesFault(c.manifest, c.definitions, x) {
    }
    assert Retirement(c.manifest, c.definitions).replacements == [e];
  }
}
