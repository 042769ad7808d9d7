/**
 The contract gate: frozen class shapes, their retirement, and what a commit must satisfy against
 the one it is based on.
 */
module ContractGate {
  import opened Options
  import opened Occurrences

  /** The shape a class had when it was frozen, and whether the class is gone for good. */
  datatype Shape = Shape(bases: seq<string>, members: seq<string>, retired: bool)

  datatype Entry = Entry(mod: string, symbol: string, canonical: string, shape: Option<Shape>)

  datatype Manifest = Manifest(seedCommit: string, replacements: seq<Entry>)

  /** A class of the tree: what it inherits from, and its fields. */
  datatype Class = Class(bases: seq<string>, fields: seq<string>)

  type Definitions = map<string, Class>

  function Owner(e: Entry): string { e.mod + "." + e.symbol }

  /** No two entries have one owner; decoding refuses a manifest without this. */
  predicate Distinct(m: Manifest) {
    forall i, j :: 0 <= i < j < |m.replacements| ==> Owner(m.replacements[i]) != Owner(m.replacements[j])
  }

  // ----- shapes -----

  datatype Error =
    | BecameClass(owner: string)
    | Reintroduced(owner: string)
    | InheritanceChanged(owner: string)
    | FieldsGrew(owner: string)
    | SeedChanged
    | AuthorityRemoved(owner: string)
    | ShapeChanged(owner: string)
    | RetirementReversed(owner: string)

  /** What one entry finds wrong with the tree. */
  ghost predicate ShapeFault(e: Entry, definitions: Definitions, error: Error) {
    var owner := Owner(e);
    && owner in definitions
    && match error
       case BecameClass(o) => o == owner && e.shape.None?
       case Reintroduced(o) => o == owner && e.shape.Some? && e.shape.value.retired
       case InheritanceChanged(o) => o == owner && e.shape.Some? && definitions[owner].bases != e.shape.value.bases
       case FieldsGrew(o) => o == owner && e.shape.Some? && exists f :: f in definitions[owner].fields && f !in e.shape.value.members
       case _ => false
  }

  method EntryErrors(e: Entry, definitions: Definitions) returns (errors: seq<Error>)
    ensures forall x :: x in errors <==> ShapeFault(e, definitions, x)
  {
    errors := [];
    var owner := Owner(e);
    if owner !in definitions {
      return;
    }
    var node := definitions[owner];
    if e.shape.None? {
      return [BecameClass(owner)];
    }
    if e.shape.value.retired {
      errors := errors + [Reintroduced(owner)];
    }
    if node.bases != e.shape.value.bases {
      errors := errors + [InheritanceChanged(owner)];
    }
    if exists f :: f in node.fields && f !in e.shape.value.members {
      errors := errors + [FieldsGrew(owner)];
    }
  }

  ghost predicate ShapesFault(m: Manifest, definitions: Definitions, error: Error) {
    exists e :: e in m.replacements && ShapeFault(e, definitions, error)
  }

  method ShapeErrors(m: Manifest, definitions: Definitions) returns (errors: seq<Error>)
    ensures forall x :: x in errors <==> ShapesFault(m, definitions, x)
  {
    errors := [];
    for i := 0 to |m.replacements|
      invariant forall x :: x in errors <==> ShapesFault(m.(replacements := m.replacements[..i]), definitions, x)
    {
      var found := EntryErrors(m.replacements[i], definitions);
      assert m.replacements[..i + 1] == m.replacements[..i] + [m.replacements[i]];
      errors := errors + found;
    }
    assert m.replacements[..|m.replacements|] == m.replacements;
  }

  // ----- retirement -----

  function RetiredEntry(e: Entry, definitions: Definitions): Entry {
    if e.shape.Some? && Owner(e) !in definitions then e.(shape := Some(e.shape.value.(retired := true))) else e
  }

  /** Retires every seeded class that has disappeared. */
  function Retirement(m: Manifest, definitions: Definitions): Manifest {
    m.(replacements := seq(|m.replacements|,
                           i requires 0 <= i < |m.replacements| => RetiredEntry(m.replacements[i], definitions)))
  }

  /** What an entry of the base is to find of itself in the current manifest, if anything. */
  function ByOwner(entries: seq<Entry>, owner: string): (r: Option<Entry>)
    ensures r.Some? ==> r.value in entries && Owner(r.value) == owner
    ensures r.None? ==> forall e :: e in entries ==> Owner(e) != owner
  {
    if entries == [] then None
    else if Owner(entries[|entries| - 1]) == owner then Some(entries[|entries| - 1])
    else ByOwner(entries[..|entries| - 1], owner)
  }

  ghost predicate RatchetFault(current: Manifest, original: Entry, error: Error) {
    var owner := Owner(original);
    var entry := ByOwner(current.replacements, owner);
    if entry.None? then error == AuthorityRemoved(owner)
    else
      var now, was := entry.value.shape, original.shape;
      if now.None? && was.None? then false
      else if now.None? || was.None? || now.value.bases != was.value.bases || now.value.members != was.value.members then
        error == ShapeChanged(owner)
      else
        was.value.retired && !now.value.retired && error == RetirementReversed(owner)
  }

  method EntryRatchet(current: Manifest, original: Entry) returns (errors: seq<Error>)
    ensures forall x :: x in errors <==> RatchetFault(current, original, x)
  {
    errors := [];
    var owner := Owner(original);
    var entry := ByOwner(current.replacements, owner);
    if entry.None? {
      return [AuthorityRemoved(owner)];
    }
    var now, was := entry.value.shape, original.shape;
    if now.None? && was.None? {
      return;
    }
    if now.None? || was.None? || now.value.bases != was.value.bases || now.value.members != was.value.members {
      errors := [ShapeChanged(owner)];
    } else if was.value.retired && !now.value.retired {
      errors := [RetirementReversed(owner)];
    }
  }

  ghost predicate ManifestFault(current: Manifest, previous: Manifest, error: Error) {
    || (error == SeedChanged && current.seedCommit != previous.seedCommit)
    || exists e :: e in previous.replacements && RatchetFault(current, e, error)
  }

  method ManifestRatchet(current: Manifest, previous: Manifest) returns (errors: seq<Error>)
    ensures forall x :: x in errors <==> ManifestFault(current, previous, x)
  {
    errors := if current.seedCommit != previous.seedCommit then [SeedChanged] else [];
    for i := 0 to |previous.replacements|
      invariant forall x :: x in errors <==>
              ManifestFault(current, previous.(replacements := previous.replacements[..i]), x)
    {
      var found := EntryRatchet(current, previous.replacements[i]);
      assert previous.replacements[..i + 1] == previous.replacements[..i] + [previous.replacements[i]];
      errors := errors + found;
    }
    assert previous.replacements[..|previous.replacements|] == previous.replacements;
  }

  // ----- a commit -----

  /** A tree: its manifest and committed baseline, and what a scan of its sources finds. */
  datatype Commit = Commit(manifest: Manifest, baseline: Counts, definitions: Definitions, counts: Counts,
                           scanErrors: seq<string>)

  /** What the merge base has, and which consumers were renamed since. */
  datatype Base = Base(baseline: Option<Counts>, manifest: Option<Manifest>, renames: map<string, string>)

  function Renames(base: Option<Base>): map<string, string> {
    if base.Some? then base.value.renames else map[]
  }

  /** Neither manifest names an owner twice. */
  predicate Readable(c: Commit, base: Option<Base>) {
    Distinct(c.manifest) && (base.Some? && base.value.manifest.Some? ==> Distinct(base.value.manifest.value))
  }

  ghost predicate BelowMoved(small: Counts, c: Counts, renames: map<string, string>) {
    forall to :: Count(small, to) <= Total(Landing(c, renames, to))
  }

  ghost predicate MovedBelow(a: Counts, b: Counts, renames: map<string, string>) {
    forall to :: Total(Landing(a, renames, to)) <= Total(Landing(b, renames, to))
  }

  /** No occurrence exceeds the baseline, and the baseline does not exceed the base's. */
  ghost predicate CountsHeld(c: Commit, base: Option<Base>) {
    && BelowMoved(c.counts, c.baseline, Renames(base))
    && (base.Some? && base.value.baseline.Some? ==> MovedBelow(c.baseline, base.value.baseline.value, Renames(base)))
  }

  ghost predicate ManifestHeld(m: Manifest, base: Option<Base>) {
    base.Some? && base.value.manifest.Some? ==> forall x :: !ManifestFault(m, base.value.manifest.value, x)
  }

  ghost predicate ShapesHeld(c: Commit) {
    forall x :: !ShapesFault(c.manifest, c.definitions, x)
  }

  ghost predicate ErrorFree(c: Commit, base: Option<Base>) {
    c.scanErrors == [] && ShapesHeld(c) && CountsHeld(c, base) && ManifestHeld(c.manifest, base)
  }

  ghost predicate SameCounts(a: Counts, b: Counts) {
    forall k :: Count(a, k) == Count(b, k)
  }

  /** Error-free, and nothing left to write. */
  ghost predicate Passes(c: Commit, base: Option<Base>) {
    ErrorFree(c, base) && Retirement(c.manifest, c.definitions) == c.manifest && SameCounts(c.counts, c.baseline)
  }

  function Written(c: Commit): Commit {
    c.(baseline := c.counts, manifest := Retirement(c.manifest, c.definitions))
  }

  method HoldsCounts(c: Commit, base: Option<Base>) returns (ok: bool)
    ensures ok <==> CountsHeld(c, base)
  {
    var renames := Renames(base);
    var allowance := RelocatedCounts(c.baseline, renames);
    RelocatedReads(c.counts, c.baseline, renames, allowance);
    ok := Ratchet(c.counts, allowance) == {};
    if base.Some? && base.value.baseline.Some? {
      var original := RelocatedCounts(base.value.baseline.value, renames);
      RelocatedCompares(c.baseline, base.value.baseline.value, renames, allowance, original);
      ok := ok && Ratchet(allowance, original) == {};
    }
  }

  lemma RelocatedReads(small: Counts, c: Counts, renames: map<string, string>, moved: Counts)
    requires Relocated(c, renames, moved)
    ensures Below(small, moved) <==> BelowMoved(small, c, renames)
  {
    assert forall to :: Count(moved, to) == Total(Landing(c, renames, to));
  }

  lemma RelocatedCompares(a: Counts, b: Counts, renames: map<string, string>, x: Counts, y: Counts)
    requires Relocated(a, renames, x) && Relocated(b, renames, y)
    ensures Below(x, y) <==> MovedBelow(a, b, renames)
  {
    assert forall to :: Count(x, to) == Total(Landing(a, renames, to)) && Count(y,
                                                                                to) == Total(Landing(b, renames, to));
  }

  method HoldsManifest(m: Manifest, base: Option<Base>) returns (ok: bool)
    ensures ok <==> ManifestHeld(m, base)
  {
    if base.None? || base.value.manifest.None? {
      return true;
    }
    var errors := ManifestRatchet(m, base.value.manifest.value);
    ok := errors == [];
    assert !ok ==> errors[0] in errors;
  }

  method HoldsShapes(c: Commit) returns (ok: bool)
    ensures ok <==> ShapesHeld(c)
  {
    var errors := ShapeErrors(c.manifest, c.definitions);
    ok := errors == [];
    assert !ok ==> errors[0] in errors;
  }

  predicate EqualCounts(a: Counts, b: Counts)
    ensures EqualCounts(a, b) <==> SameCounts(a, b)
  {
    var r := (forall k :: k in a ==> a[k] == Count(b, k)) && (forall k :: k in b ==> b[k] == Count(a, k));
    assert r ==> forall k :: Count(a, k) == Count(b, k);
    assert SameCounts(a, b) ==> r by {
      if SameCounts(a, b) {
        forall k | k in a ensures a[k] == Count(b, k) { assert Count(a, k) == Count(b, k); }
        forall k | k in b ensures b[k] == Count(a, k) { assert Count(a, k) == Count(b, k); }
      }
    }
    r
  }

  /** The exit code of a run, and the tree it leaves. */
  method Run(c: Commit, base: Option<Base>, write: bool) returns (exit: int, after: Commit)
    ensures exit == 2 <==> !Readable(c, base)
    ensures exit == 0 <==> Readable(c, base) && if write then ErrorFree(c, base) else Passes(c, base)
    ensures exit == 0 || exit == 1 || exit == 2
    ensures after == if write && exit == 0 then Written(c) else c
  {
    after := c;
    if !Readable(c, base) {
      return 2, c;
    }
    var shapes := HoldsShapes(c);
    var counts := HoldsCounts(c, base);
    var manifest := HoldsManifest(c.manifest, base);
    if c.scanErrors != [] || !shapes || !counts || !manifest {
      return 1, c;
    }
    var retired := Retirement(c.manifest, c.definitions);
    if write {
      after := c.(baseline := c.counts, manifest := retired);
    } else if retired != c.manifest || !EqualCounts(c.counts, c.baseline) {
      return 1, c;
    }
    exit := 0;
  }
}
