/**
 What the versioning rules are for: over any history of accepted changes, the newest schema still
 holds every older minor version of itself.
 */
module SchemaHistory {
  import opened Options
  import opened TaskSchema

  /** A message as a reader of some minor version sees it. */
  datatype Entry = Entry(rules: Option<string>, fields: map<int, Field>)

  predicate Shows(f: Field, minor: int) {
    f.since.Some? && f.since.value <= minor
  }

  ghost function Until(fields: map<int, Field>, minor: int): map<int, Field> {
    map k | k in fields && Shows(fields[k], minor) :: fields[k]
  }

  ghost function View(m: Message, minor: int): Entry {
    Entry(m.rules, Until(FieldMap(m.fields), minor))
  }

  ghost function ViewTargets(m: Message, minor: int): set<string> {
    var fields := Until(FieldMap(m.fields), minor);
    set k | k in fields && fields[k].typeName.Some? :: fields[k].typeName.value
  }

  ghost function ViewLinks(all: Package, minor: int): Graph {
    map n | n in all :: ViewTargets(all[n], minor)
  }

  /** The package cut down to the fields of `minor` and before, and then to what the root still reaches. */
  ghost function Recover(all: Package, root: string, minor: int): map<string, Entry> {
    map n | n in Reachable(ViewLinks(all, minor), root) && n in all :: View(all[n], minor)
  }

  /** The messages, fields and rules of a schema. */
  ghost function Snapshot(all: Package, root: string): map<string, Entry> {
    map n | n in Reachable(Links(all), root) && n in all :: Entry(all[n].rules, FieldMap(all[n].fields))
  }

  // ----- what Buf ensures -----

  ghost predicate DistinctNumbers(fields: seq<Field>) {
    forall i, j :: 0 <= i < j < |fields| ==> fields[i].number != fields[j].number
  }

  ghost predicate WellFormed(all: Package) {
    forall n :: n in all ==> DistinctNumbers(all[n].fields)
  }

  /** A field keeps its number, name and type; a type outside the package stays outside. */
  ghost predicate KeepsField(base: Package, head: Package, before: map<int, Field>, after: map<int, Field>, k: int) {
    k in before ==>
      && k in after && after[k].name == before[k].name && after[k].typeName == before[k].typeName
      && (before[k].typeName.Some? && before[k].typeName.value in head ==> before[k].typeName.value in base)
  }

  ghost predicate KeepsMessage(base: Package, head: Package, n: string) {
    n in base ==>
      && n in head
      && forall k :: KeepsField(base, head, FieldMap(base[n].fields), FieldMap(head[n].fields), k)
  }

  /** No deletion, renumbering, renaming or change of type. */
  ghost predicate BufAccepts(base: Package, head: Package) {
    WellFormed(base) && WellFormed(head) && forall n :: KeepsMessage(base, head, n)
  }

  lemma {:induction false} FieldMapHas(fields: seq<Field>, i: nat)
    requires DistinctNumbers(fields) && i < |fields|
    ensures fields[i].number in FieldMap(fields) && FieldMap(fields)[fields[i].number] == fields[i]
  {
    if i < |fields| - 1 {
      FieldMapHas(fields[..|fields| - 1], i);
    }
  }

  // ----- graphs that agree -----

  ghost predicate AgreeAt(g: Graph, h: Graph, s: set<string>, n: string) {
    n in g && n in h && forall k :: (k in g[n] && k in g <==> k in h[n] && k in h) && (k in g[n] && k in g ==> k in s)
  }

  ghost predicate Agree(g: Graph, h: Graph, s: set<string>) {
    forall n :: n in s ==> AgreeAt(g, h, s, n)
  }

  lemma {:induction false} AgreeLeads(g: Graph, h: Graph, s: set<string>, root: string, n: string, steps: nat)
    requires Agree(g, h, s) && root in s && Leads(g, root, n, steps)
    ensures n in s && Leads(h, root, n, steps)
    decreases steps
  {
    if steps > 0 {
      var p :| p in g && n in g[p] && Leads(g, root, p, steps - 1);
      AgreeLeads(g, h, s, root, p, steps - 1);
      assert AgreeAt(g, h, s, p);
    }
  }

  lemma AgreeReaches(g: Graph, h: Graph, s: set<string>, root: string, n: string)
    requires Agree(g, h, s) && root in s && Reaches(g, root, n)
    ensures n in s && Reaches(h, root, n)
  {
    var steps: nat :| Leads(g, root, n, steps);
    AgreeLeads(g, h, s, root, n, steps);
  }

  lemma AgreeSwaps(g: Graph, h: Graph, s: set<string>)
    requires Agree(g, h, s)
    ensures Agree(h, g, s)
  {
    forall n | n in s ensures AgreeAt(h, g, s, n) {
      assert AgreeAt(g, h, s, n);
    }
  }

  lemma AgreeReachable(g: Graph, h: Graph, s: set<string>, root: string)
    requires Agree(g, h, s) && root in s
    ensures Reachable(g, root) == Reachable(h, root) && Reachable(g, root) <= s
  {
    AgreeSwaps(g, h, s);
    forall n | n in g && Reaches(g, root, n) ensures n in s && n in h && Reaches(h, root, n) {
      AgreeReaches(g, h, s, root, n);
    }
    forall n | n in h && Reaches(h, root, n) ensures n in g && Reaches(g, root, n) {
      AgreeReaches(h, g, s, root, n);
    }
  }

  // ----- one accepted change -----

  lemma RootReached(all: Package, root: string)
    requires root in all
    ensures root in Reachable(Links(all), root)
  {
    assert Leads(Links(all), root, root, 0);
  }

  lemma TargetKept(base: Package, head: Package, n: string, t: string)
    requires BufAccepts(base, head) && n in base && t in Targets(base[n])
    ensures n in head && t in Targets(head[n])
  {
    var fields := base[n].fields;
    var i :| 0 <= i < |fields| && fields[i].typeName == Some(t);
    FieldMapHas(fields, i);
    assert KeepsMessage(base, head, n);
    var k := fields[i].number;
    assert KeepsField(base, head, FieldMap(fields), FieldMap(head[n].fields), k);
    var f := FieldMap(head[n].fields)[k];
    assert f in head[n].fields && f.typeName == Some(t);
  }

  lemma {:induction false} ClosureGrows(base: Package, head: Package, root: string, n: string, steps: nat)
    requires BufAccepts(base, head) && Leads(Links(base), root, n, steps)
    ensures Leads(Links(head), root, n, steps)
    decreases steps
  {
    assert KeepsMessage(base, head, n);
    if steps > 0 {
      var g := Links(base);
      var p :| p in g && n in g[p] && Leads(g, root, p, steps - 1);
      ClosureGrows(base, head, root, p, steps - 1);
      TargetKept(base, head, p, n);
    }
  }

  /** Between two versions of the schema `root`, both of one major version from 1 on, no rule is broken. */
  ghost predicate Additively(base: Package, head: Package, root: string) {
    && IsSchema(base, root) && IsSchema(head, root)
    && forall v :: !AdditiveFault(SchemaOf(base, root), SchemaOf(head, root), v)
  }

  function Minor(all: Package, root: string): int
    requires IsSchema(all, root)
  {
    all[root].schema.value.minor
  }

  lemma NoChangeFault(base: Package, head: Package, root: string, n: string, v: Violation)
    requires Additively(base, head, root) && v.subject == n
    requires n in Reachable(Links(base), root) && n in Reachable(Links(head), root)
    ensures !ChangeFault(n, base[n], head[n], Minor(head, root), v)
  {
    var b, h := SchemaOf(base, root), SchemaOf(head, root);
    assert b.closure[n] == base[n] && h.closure[n] == head[n];
    assert !AdditiveFault(b, h, v);
  }

  lemma FieldKept(base: Package, head: Package, root: string, n: string, k: int)
    requires BufAccepts(base, head) && Additively(base, head, root)
    requires n in Reachable(Links(base), root) && n in Reachable(Links(head), root)
    requires k in FieldMap(head[n].fields) && k in FieldMap(base[n].fields)
    ensures FieldMap(head[n].fields)[k] == FieldMap(base[n].fields)[k]
  {
    NoChangeFault(base, head, root, n, FieldRulesChanged(n, k));
    NoChangeFault(base, head, root, n, SinceChanged(n, k));
    assert KeepsMessage(base, head, n);
    SameField(base, head, FieldMap(base[n].fields), FieldMap(head[n].fields), k);
  }

  lemma SameField(base: Package, head: Package, was: map<int, Field>, now: map<int, Field>, k: int)
    requires k in was && k in now && was[k].number == now[k].number == k && KeepsField(base, head, was, now, k)
    requires was[k].rules == now[k].rules && was[k].since == now[k].since
    ensures was[k] == now[k]
  {
  }

  /** A field the base lacks is newer than anything the base shows. */
  lemma FieldIsNewer(base: Package, head: Package, root: string, n: string, k: int)
    requires Additively(base, head, root)
    requires n in Reachable(Links(base), root) && n in Reachable(Links(head), root)
    requires k in FieldMap(head[n].fields) && k !in FieldMap(base[n].fields)
    ensures !Shows(FieldMap(head[n].fields)[k], Minor(base, root))
  {
    var b, h := SchemaOf(base, root), SchemaOf(head, root);
    assert GainedAt(b, h, n);
    assert !AdditiveFault(b, h, MinorNotRaised(root));
    assert !AdditiveFault(b, h, AddedUnderAnotherMinor(n, k));
  }

  lemma ViewsAgree(base: Package, head: Package, root: string, n: string, minor: int)
    requires BufAccepts(base, head) && Additively(base, head, root) && minor <= Minor(base, root)
    requires n in Reachable(Links(base), root) && n in Reachable(Links(head), root)
    ensures View(base[n], minor) == View(head[n], minor)
  {
    var was, now := FieldMap(base[n].fields), FieldMap(head[n].fields);
    NoChangeFault(base, head, root, n, MessageRulesChanged(n));
    assert KeepsMessage(base, head, n);
    forall k ensures k in Until(was, minor) <==> k in Until(now, minor)
             ensures k in Until(was, minor) ==> Until(was, minor)[k] == Until(now, minor)[k]
    {
      assert KeepsField(base, head, was, now, k);
      if k in now && k in was {
        FieldKept(base, head, root, n, k);
      } else if k in now {
        FieldIsNewer(base, head, root, n, k);
      }
    }
    assert Until(was, minor) == Until(now, minor);
  }

  lemma ShownTarget(m: Message, minor: int, t: string) returns (k: int)
    requires t in ViewTargets(m, minor)
    ensures k in FieldMap(m.fields) && FieldMap(m.fields)[k].typeName == Some(t) && t in Targets(m)
  {
    var fields := Until(FieldMap(m.fields), minor);
    k :| k in fields && fields[k].typeName == Some(t);
    var f := FieldMap(m.fields)[k];
    assert f in m.fields;
    var i :| 0 <= i < |m.fields| && m.fields[i] == f;
  }

  lemma ViewsLinkAlike(base: Package, head: Package, root: string, n: string, minor: int)
    requires BufAccepts(base, head) && Additively(base, head, root) && minor <= Minor(base, root)
    requires n in Reachable(Links(base), root)
    ensures AgreeAt(ViewLinks(base, minor), ViewLinks(head, minor), Reachable(Links(base), root), n)
    ensures View(base[n], minor) == View(head[n], minor)
  {
    var steps: nat :| Leads(Links(base), root, n, steps);
    ClosureGrows(base, head, root, n, steps);
    ViewsAgree(base, head, root, n, minor);
    assert ViewTargets(base[n], minor) == ViewTargets(head[n], minor);
    forall t | t in ViewTargets(base[n], minor)
      ensures t in base <==> t in head
      ensures t in base ==> t in Reachable(Links(base), root)
    {
      var k := ShownTarget(base[n], minor, t);
      assert KeepsMessage(base, head, n) && KeepsMessage(base, head, t);
      assert KeepsField(base, head, FieldMap(base[n].fields), FieldMap(head[n].fields), k);
      if t in base {
        ReachesMore(Links(base), root, n, t);
      }
    }
  }

  /** An accepted change alters nothing that any earlier minor version shows. */
  lemma ChangeKeepsThePast(base: Package, head: Package, root: string, minor: int)
    requires BufAccepts(base, head) && Additively(base, head, root) && minor <= Minor(base, root)
    ensures Recover(head, root, minor) == Recover(base, root, minor)
  {
    var s := Reachable(Links(base), root);
    RootReached(base, root);
    forall n | n in s
      ensures AgreeAt(ViewLinks(base, minor), ViewLinks(head, minor), s, n)
      ensures View(base[n], minor) == View(head[n], minor)
    {
      ViewsLinkAlike(base, head, root, n, minor);
    }
    AgreeReachable(ViewLinks(base, minor), ViewLinks(head, minor), s, root);
  }

  // ----- one version -----

  /** Every field of the schema declares a minor version, none past the schema's own. */
  ghost predicate Declared(all: Package, root: string) {
    IsSchema(all, root) && forall v :: !SchemaDeclarationFault(SchemaOf(all, root), v)
  }

  lemma AllShown(all: Package, root: string, n: string)
    requires Declared(all, root) && n in Reachable(Links(all), root)
    ensures Until(FieldMap(all[n].fields), Minor(all, root)) == FieldMap(all[n].fields)
  {
    var s, fields := SchemaOf(all, root), FieldMap(all[n].fields);
    forall k | k in fields ensures Shows(fields[k], Minor(all, root)) {
      assert !SchemaDeclarationFault(s, Undeclared(n, fields[k]));
      assert !SchemaDeclarationFault(s, PastMinor(n, fields[k]));
    }
  }

  lemma AllTargetsShown(all: Package, root: string, n: string)
    requires WellFormed(all) && Declared(all, root) && n in Reachable(Links(all), root)
    ensures ViewTargets(all[n], Minor(all, root)) == Targets(all[n])
  {
    var m, minor := all[n], Minor(all, root);
    AllShown(all, root, n);
    forall t | t in Targets(m) ensures t in ViewTargets(m, minor) {
      var i :| 0 <= i < |m.fields| && m.fields[i].typeName == Some(t);
      FieldMapHas(m.fields, i);
      assert FieldMap(m.fields)[m.fields[i].number].typeName == Some(t);
    }
    forall t | t in ViewTargets(m, minor) ensures t in Targets(m) {
      var k := ShownTarget(m, minor, t);
    }
  }

  /** A schema is what it shows at its own minor version. */
  lemma OwnMinorShowsAll(all: Package, root: string)
    requires WellFormed(all) && Declared(all, root)
    ensures Recover(all, root, Minor(all, root)) == Snapshot(all, root)
  {
    var s, minor := Reachable(Links(all), root), Minor(all, root);
    RootReached(all, root);
    forall n | n in s
      ensures AgreeAt(Links(all), ViewLinks(all, minor), s, n) && View(all[n], minor).fields == FieldMap(all[n].fields)
    {
      AllTargetsShown(all, root, n);
      AllShown(all, root, n);
      forall t | t in Targets(all[n]) && t in all ensures t in s {
        ReachesMore(Links(all), root, n, t);
      }
    }
    AgreeReachable(Links(all), ViewLinks(all, minor), s, root);
  }

  // ----- histories -----

  ghost predicate Step(versions: seq<Package>, i: nat)
    requires i + 1 < |versions|
  {
    BufAccepts(versions[i], versions[i + 1]) && Accepted(versions[i], versions[i + 1])
  }

  /**
   Packages of which each is accepted against the one before; the first declares all of `root`, a
   schema from 1.0 on.
   */
  ghost predicate History(versions: seq<Package>, root: string) {
    && versions != [] && WellFormed(versions[0])
    && Declared(versions[0], root) && versions[0][root].schema.value.major >= 1
    && forall i: nat | i + 1 < |versions| :: Step(versions, i)
  }

  lemma AcceptedIsAdditive(base: Package, head: Package, root: string)
    requires IsSchema(base, root) && base[root].schema.value.major >= 1 && Accepted(base, head)
    ensures Additively(base, head, root) && Declared(head, root)
    ensures head[root].schema.value.major == base[root].schema.value.major && Minor(base, root) <= Minor(head, root)
  {
    assert !Fault(base, head, root, Removed(root));
    assert !Fault(base, head, root, MajorChanged(root));
    var b, h := SchemaOf(base, root), SchemaOf(head, root);
    forall v ensures !AdditiveFault(b, h, v) {
      assert !Fault(base, head, root, v);
    }
    forall v ensures !SchemaDeclarationFault(h, v) {
      assert !AdditiveFault(b, h, v);
    }
    assert !AdditiveFault(b, h, MinorWentDown(root));
  }

  lemma {:induction false} HistoryKeepsSchema(versions: seq<Package>, root: string, i: nat)
    requires History(versions, root) && i < |versions|
    ensures WellFormed(versions[i]) && Declared(versions[i], root) && versions[i][root].schema.value.major >= 1
  {
    if i > 0 {
      HistoryKeepsSchema(versions, root, i - 1);
      assert Step(versions, i - 1);
      AcceptedIsAdditive(versions[i - 1], versions[i], root);
    }
  }

  /**
   Time travel: cut the schema of version `j` down to the fields an earlier version `i` could have
   had, take again what the root reaches, and the messages, fields and rules of version `i` are back.
   */
  lemma {:induction false} EveryVersionIsRecovered(versions: seq<Package>, root: string, i: nat, j: nat)
    requires History(versions, root) && i <= j < |versions|
    ensures IsSchema(versions[i], root) && IsSchema(versions[j], root)
    ensures Minor(versions[i], root) <= Minor(versions[j], root)
    ensures Recover(versions[j], root, Minor(versions[i], root)) == Snapshot(versions[i], root)
    decreases j
  {
    HistoryKeepsSchema(versions, root, i);
    if i == j {
      OwnMinorShowsAll(versions[i], root);
    } else {
      EveryVersionIsRecovered(versions, root, i, j - 1);
      HistoryKeepsSchema(versions, root, j - 1);
      assert Step(versions, j - 1);
      AcceptedIsAdditive(versions[j - 1], versions[j], root);
      ChangeKeepsThePast(versions[j - 1], versions[j], root, Minor(versions[i], root));
    }
  }

  /** A version number names one schema: two versions of one minor number are the same. */
  lemma SameMinorSameSchema(versions: seq<Package>, root: string, i: nat, j: nat)
    requires History(versions, root) && i <= j < |versions|
    requires IsSchema(versions[i], root) && IsSchema(versions[j], root)
    requires Minor(versions[i], root) == Minor(versions[j], root)
    ensures Snapshot(versions[i], root) == Snapshot(versions[j], root)
  {
    EveryVersionIsRecovered(versions, root, i, j);
    EveryVersionIsRecovered(versions, root, j, j);
  }

  /**
   The rules of a message the base did not reach count as changed, though no reader of the base has
   ever seen that message: it is reported exactly if it has rules.
   */
  lemma NewMessageIsReportedForItsRules(base: Package, head: Package, root: string, n: string)
    requires IsSchema(base, root) && IsSchema(head, root)
    requires head[root].schema.value.major == base[root].schema.value.major >= 1
    requires n in head && n in Reachable(Links(head), root) && n !in Reachable(Links(base), root)
    ensures Fault(base, head, root, MessageRulesChanged(n)) <==> head[n].rules.Some?
  {
    var b, h := SchemaOf(base, root), SchemaOf(head, root);
    assert n !in b.closure && h.closure[n] == head[n];
    assert Fault(base, head, root, MessageRulesChanged(n)) <==> AdditiveFault(b, h, MessageRulesChanged(n));
  }

  /** So an accepted change brings in messages without rules only. */
  lemma NewMessageCarriesNoRules(base: Package, head: Package, root: string, n: string)
    requires IsSchema(base, root) && base[root].schema.value.major >= 1 && Accepted(base, head)
    requires n in head && n in Reachable(Links(head), root) && n !in Reachable(Links(base), root)
    ensures head[n].rules.None?
  {
    AcceptedIsAdditive(base, head, root);
    assert !Fault(base, head, root, MessageRulesChanged(n));
    NewMessageIsReportedForItsRules(base, head, root, n);
  }

  // ----- a new message with rules -----

  /** A schema without fields. */
  function Bare(root: string): Package { map[root := Message([], None, Some(Version(1, 0)))] }

  function Link(part: string): Field { Field("part", 1, Some(part), Some(1), None) }

  /** The next minor version: one field, declared for it, that refers to a new message with rules. */
  function Extended(root: string, part: string, rules: string): Package {
    map[root := Message([Link(part)], None, Some(Version(1, 1))), part := Message([], Some(rules), None)]
  }

  lemma OnlyField(f: Field)
    ensures FieldMap([f]) == map[f.number := f] && FieldMap([]) == map[]
  {
    assert [f][..0] == [];
  }

  lemma BareReaches(root: string)
    ensures Reachable(Links(Bare(root)), root) == {root}
  {
    assert Leads(Links(Bare(root)), root, root, 0);
  }

  lemma ExtendedReaches(root: string, part: string, rules: string)
    requires root != part
    ensures Reachable(Links(Extended(root, part, rules)), root) == {root, part}
  {
    var g := Links(Extended(root, part, rules));
    assert Extended(root, part, rules)[root].fields[0].typeName == Some(part);
    assert part in g[root];
    assert Leads(g, root, root, 0);
    ReachesMore(g, root, root, part);
  }

  /**
   The rule is too strict for a change that Buf accepts and no reader of the base can see: a new field
   under a raised minor version to a new message with rules has that one fault.
   */
  lemma NewRulesAreTheOnlyFault(root: string, part: string, rules: string)
    requires root != part
    ensures var base, head := Bare(root), Extended(root, part, rules);
            BufAccepts(base, head) && forall n, v :: Fault(base, head, n, v) <==>
                n == root && v == MessageRulesChanged(part)
  {
    var base, head := Bare(root), Extended(root, part, rules);
    OnlyField(Link(part));
    forall n ensures KeepsMessage(base, head, n) {
    }
    forall n, v ensures Fault(base, head, n, v) <==> n == root && v == MessageRulesChanged(part) {
      if n == root {
        ExtendedFaults(root, part, rules, v);
      }
    }
  }

  lemma ExtendedFaults(root: string, part: string, rules: string, v: Violation)
    requires root != part
    ensures Fault(Bare(root), Extended(root, part, rules), root, v) <==> v == MessageRulesChanged(part)
  {
    var base, head := Bare(root), Extended(root, part, rules);
    var b, h := SchemaOf(base, root), SchemaOf(head, root);
    BareReaches(root);
    ExtendedReaches(root, part, rules);
    OnlyField(Link(part));
    assert b.closure == base && h.closure == head;
    assert !SchemaDeclarationFault(h, v);
    assert SchemaChangeFault(b, h, v) <==> v == MessageRulesChanged(part);
  }
}
