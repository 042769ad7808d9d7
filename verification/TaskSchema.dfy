/**
 The versioning rules of task manifest schemas: which messages a schema reaches, and what a change
 to it may not break.
 */
module TaskSchema {
  import opened Options
  import opened Text

  /** A field's wire number, the message it refers to, the minor version it declares, its validation rules. */
  datatype Field = Field(name: string, number: int, typeName: Option<string>, since: Option<int>, rules: Option<string>)

  datatype Version = Version(major: int, minor: int)

  datatype Message = Message(fields: seq<Field>, rules: Option<string>, schema: Option<Version>)

  /** The messages of the package, by full name. */
  type Package = map<string, Message>

  datatype Schema = Schema(name: string, version: Version, closure: Package)

  // ----- reachability -----

  type Graph = map<string, set<string>>

  function Targets(m: Message): set<string> {
    set i | 0 <= i < |m.fields| && m.fields[i].typeName.Some? :: m.fields[i].typeName.value
  }

  function Links(all: Package): Graph {
    map n | n in all :: Targets(all[n])
  }

  /** `n` lies `steps` references from the root, all of them inside the graph. */
  ghost predicate Leads(g: Graph, root: string, n: string, steps: nat)
    decreases steps
  {
    && n in g
    && if steps == 0 then n == root else exists p :: p in g && n in g[p] && Leads(g, root, p, steps - 1)
  }

  ghost predicate Reaches(g: Graph, root: string, n: string) {
    exists steps: nat :: Leads(g, root, n, steps)
  }

  ghost function Reachable(g: Graph, root: string): set<string> {
    set n | n in g && Reaches(g, root, n)
  }

  /** Every reference from `n` that stays in the graph leads into `s`. */
  ghost predicate LinksInto(g: Graph, n: string, s: iset<string>) {
    n in g ==> forall k :: k in g[n] && k in g ==> k in s
  }

  lemma ReachesMore(g: Graph, root: string, p: string, n: string)
    requires p in g && n in g && n in g[p] && Reaches(g, root, p)
    ensures Reaches(g, root, n)
  {
    var steps: nat :| Leads(g, root, p, steps);
    assert Leads(g, root, n, steps + 1);
  }

  lemma {:induction false} ClosedHolds(g: Graph, root: string, s: iset<string>, n: string, steps: nat)
    requires (forall p :: p in s ==> LinksInto(g, p, s)) && (root in g ==> root in s) && Leads(g, root, n, steps)
    ensures n in s
    decreases steps
  {
    if steps > 0 {
      var p :| p in g && n in g[p] && Leads(g, root, p, steps - 1);
      ClosedHolds(g, root, s, p, steps - 1);
    }
  }

  ghost function Known(closure: set<string>, pending: seq<string>): iset<string> {
    iset n | n in closure || n in pending
  }

  /** The worklist of `schemas` has handled `closure` and still has `pending` to look at. */
  ghost predicate Explored(g: Graph, root: string, closure: set<string>, pending: seq<string>) {
    && closure <= g.Keys
    && (forall n :: n in Known(closure, pending) && n in g ==> Reaches(g, root, n))
    && (forall n :: n in closure ==> LinksInto(g, n, Known(closure, pending)))
    && (root in g ==> root in Known(closure, pending))
  }

  lemma ExploreSkips(g: Graph, root: string, closure: set<string>, pending: seq<string>)
    requires pending != [] && Explored(g, root, closure, pending)
    requires pending[|pending| - 1] in closure || pending[|pending| - 1] !in g
    ensures Explored(g, root, closure, pending[..|pending| - 1])
  {
    var last, rest := pending[|pending| - 1], pending[..|pending| - 1];
    assert pending == rest + [last];
    forall n | n in closure ensures LinksInto(g, n, Known(closure, rest)) {
      assert LinksInto(g, n, Known(closure, pending));
    }
  }

  lemma ExploreTakes(g: Graph, root: string, closure: set<string>, pending: seq<string>, more: seq<string>)
    requires pending != [] && Explored(g, root, closure, pending) && pending[|pending| - 1] in g
    requires forall k :: k in more <==> k in g[pending[|pending| - 1]]
    ensures Explored(g, root, closure + {pending[|pending| - 1]}, pending[..|pending| - 1] + more)
  {
    var last, rest := pending[|pending| - 1], pending[..|pending| - 1];
    assert pending == rest + [last];
    forall n | n in more && n in g ensures Reaches(g, root, n) {
      ReachesMore(g, root, last, n);
    }
    var known := Known(closure + {last}, rest + more);
    forall n | n in closure + {last} ensures LinksInto(g, n, known) {
      assert n != last ==> LinksInto(g, n, Known(closure, pending));
    }
  }

  lemma ExploredAll(g: Graph, root: string, closure: set<string>)
    requires Explored(g, root, closure, [])
    ensures closure == Reachable(g, root)
  {
    var known := Known(closure, []);
    forall n | n in g && Reaches(g, root, n) ensures n in closure {
      var steps: nat :| Leads(g, root, n, steps);
      ClosedHolds(g, root, known, n, steps);
    }
  }

  /** Every type name of a message's fields, in order. */
  method TypeNames(m: Message) returns (names: seq<string>)
    ensures forall k :: k in names <==> k in Targets(m)
  {
    names := [];
    for i := 0 to |m.fields|
      invariant forall k :: k in names <==> exists j :: 0 <= j < i && m.fields[j].typeName == Some(k)
    {
      if m.fields[i].typeName.Some? {
        names := names + [m.fields[i].typeName.value];
      }
    }
  }

  ghost function Part(all: Package, names: set<string>): Package {
    map n | n in names && n in all :: all[n]
  }

  /** The messages a schema is made of: those its fields reach inside the package. */
  method Closure(all: Package, root: string) returns (closure: Package)
    ensures closure == Part(all, Reachable(Links(all), root))
  {
    ghost var g := Links(all);
    closure := map[];
    var pending := [root];
    assert root in g ==> Leads(g, root, root, 0);
    while pending != []
      invariant closure.Keys <= all.Keys && closure == Part(all, closure.Keys)
      invariant Explored(g, root, closure.Keys, pending)
      decreases all.Keys - closure.Keys, |pending|
    {
      var current := pending[|pending| - 1];
      if current in closure || current !in all {
        ExploreSkips(g, root, closure.Keys, pending);
        pending := pending[..|pending| - 1];
      } else {
        var more := TypeNames(all[current]);
        ExploreTakes(g, root, closure.Keys, pending, more);
        ghost var before := closure.Keys;
        closure := closure[current := all[current]];
        assert closure.Keys == before + {current};
        pending := pending[..|pending| - 1] + more;
      }
    }
    ExploredAll(g, root, closure.Keys);
  }

  // ----- the rules -----

  /** A message's fields by number; a later one of the same number replaces an earlier one. */
  function FieldMap(fields: seq<Field>): (r: map<int, Field>)
    ensures forall k :: k in r ==> r[k] in fields && r[k].number == k
  {
    if fields == [] then map[]
    else FieldMap(fields[..|fields| - 1])[fields[|fields| - 1].number := fields[|fields| - 1]]
  }

  /** What a change breaks; the subject is a message, or the schema itself. */
  datatype Violation =
    | Undeclared(subject: string, field: Field)
    | PastMinor(subject: string, field: Field)
    | MessageRulesChanged(subject: string)
    | AddedUnderAnotherMinor(subject: string, number: int)
    | FieldRulesChanged(subject: string, number: int)
    | SinceChanged(subject: string, number: int)
    | MinorNotRaised(subject: string)
    | MinorWentDown(subject: string)
    | MajorChanged(subject: string)
    | Removed(subject: string)

  /** A field of `m` declares no minor version, or one past the schema's. */
  ghost predicate DeclarationFault(name: string, m: Message, minor: int, v: Violation) {
    && v.subject == name
    && match v
       case Undeclared(_, f) => f in m.fields && f.since.None?
       case PastMinor(_, f) => f in m.fields && f.since.Some? && f.since.value > minor
       case _ => false
  }

  method MessageDeclares(name: string, m: Message, minor: int) returns (out: seq<Violation>)
    ensures forall v :: v in out <==> DeclarationFault(name, m, minor, v)
  {
    out := [];
    for i := 0 to |m.fields|
      invariant forall v :: v in out <==> DeclarationFault(name, m.(fields := m.fields[..i]), minor, v)
    {
      var f := m.fields[i];
      assert m.fields[..i + 1] == m.fields[..i] + [f];
      if f.since.None? {
        out := out + [Undeclared(name, f)];
      } else if f.since.value > minor {
        out := out + [PastMinor(name, f)];
      }
    }
    assert m.fields[..|m.fields|] == m.fields;
  }

  /** A declaration fault somewhere in a schema. */
  ghost predicate SchemaDeclarationFault(s: Schema, v: Violation) {
    v.subject in s.closure && DeclarationFault(v.subject, s.closure[v.subject], s.version.minor, v)
  }

  method EveryFieldDeclaresItsMinor(s: Schema) returns (out: seq<Violation>)
    ensures forall v :: v in out <==> SchemaDeclarationFault(s, v)
  {
    out := [];
    var names := SortedMembers(s.closure.Keys);
    for i := 0 to |names|
      invariant forall v :: v in out <==> v.subject in names[..i] && SchemaDeclarationFault(s, v)
    {
      var found := MessageDeclares(names[i], s.closure[names[i]], s.version.minor);
      assert names[..i + 1] == names[..i] + [names[i]];
      out := out + found;
    }
    assert names[..|names|] == names;
  }

  /** What `after` breaks of the rules against `before`, on the field numbered `k` or on itself. */
  ghost predicate ChangeFault(name: string, before: Message, after: Message, minor: int, v: Violation) {
    && v.subject == name
    && if v.MessageRulesChanged? then before.rules != after.rules
       else FieldChangeFault(name, FieldMap(before.fields), FieldMap(after.fields), minor, v)
  }

  ghost predicate FieldChangeFault(name: string, before: map<int, Field>, after: map<int, Field>, minor: int,
                                   v: Violation) {
    && v.subject == name
    && match v
       case AddedUnderAnotherMinor(_, k) => k in after && k !in before && after[k].since.Some? && after[k].since.value != minor
       case FieldRulesChanged(_, k) => k in after && k in before && before[k].rules != after[k].rules
       case SinceChanged(_, k) => k in after && k in before && before[k].since != after[k].since
       case _ => false
  }

  ghost predicate IsLeastNumber(x: int, s: set<int>) {
    x in s && forall y :: y in s ==> x <= y
  }

  lemma SomeMember<T>(s: set<T>) returns (x: T)
    requires s != {}
    ensures x in s
  {
    x :| x in s;
  }

  lemma {:induction false} LeastNumberExists(s: set<int>)
    requires s != {}
    ensures exists x :: IsLeastNumber(x, s)
  {
    var z := SomeMember(s);
    var rest := s - {z};
    if rest == {} {
      assert s == {z};
      assert IsLeastNumber(z, s);
    } else {
      LeastNumberExists(rest);
      var x :| IsLeastNumber(x, rest);
      var least := if x <= z then x else z;
      forall y | y in s ensures least <= y {
        assert y == z || y in rest;
      }
      assert IsLeastNumber(least, s);
    }
  }

  method ChangedField(name: string, k: int, before: map<int, Field>, f: Field, minor: int) returns (out: seq<Violation>)
    ensures forall v :: v in out <==> FieldChangeFault(name, before, map[k := f], minor, v)
  {
    out := [];
    if k !in before {
      if f.since.Some? && f.since.value != minor {
        out := [AddedUnderAnotherMinor(name, k)];
      }
    } else {
      if before[k].rules != f.rules {
        out := out + [FieldRulesChanged(name, k)];
      }
      if before[k].since != f.since {
        out := out + [SinceChanged(name, k)];
      }
    }
  }

  ghost predicate Gained(before: Message, after: Message) {
    !(FieldMap(after.fields).Keys <= FieldMap(before.fields).Keys)
  }

  ghost function Only(fields: map<int, Field>, numbers: set<int>): map<int, Field> {
    map k | k in fields && k in numbers :: fields[k]
  }

  lemma FaultsSplit(name: string, before: map<int, Field>, after: map<int, Field>, done: set<int>, k: int, minor: int,
                    v: Violation)
    requires k in after
    ensures FieldChangeFault(name, before, Only(after, done + {k}), minor, v)
            <==> || FieldChangeFault(name, before, Only(after, done), minor, v)
                 || FieldChangeFault(name, before, map[k := after[k]], minor, v)
  {
  }

  /** What a message breaks against its base version, and whether it gained fields. */
  method Changed(name: string, before: Message, after: Message, minor: int) returns (out: seq<Violation>, added: bool)
    ensures forall v :: v in out <==> ChangeFault(name, before, after, minor, v)
    ensures added <==> Gained(before, after)
  {
    out, added := [], false;
    if before.rules != after.rules {
      out := [MessageRulesChanged(name)];
    }
    var was, now := FieldMap(before.fields), FieldMap(after.fields);
    var found, rest := [], now.Keys;
    ghost var done: set<int> := {};
    while rest != {}
      invariant done + rest == now.Keys && done !! rest
      invariant forall v :: v in found <==> FieldChangeFault(name, was, Only(now, done), minor, v)
      invariant added <==> !(done <= was.Keys)
    {
      LeastNumberExists(rest);
      assert exists k :: k in rest && forall y :: y in rest ==> k <= y;
      var k :| k in rest && forall y :: y in rest ==> k <= y;
      var more := ChangedField(name, k, was, now[k], minor);
      forall v ensures v in found + more <==> FieldChangeFault(name, was, Only(now, done + {k}), minor, v) {
        FaultsSplit(name, was, now, done, k, minor, v);
      }
      added := added || k !in was;
      found, rest, done := found + more, rest - {k}, done + {k};
    }
    assert Only(now, done) == now;
    out := out + found;
  }

  const NO_MESSAGE := Message([], None, None)

  ghost function Before(base: Schema, name: string): Message {
    if name in base.closure then base.closure[name] else NO_MESSAGE
  }

  /** What a message of the head's closure breaks; a message the base does not reach counts as all new. */
  ghost predicate SchemaChangeFault(base: Schema, head: Schema, v: Violation) {
    v.subject in head.closure && ChangeFault(v.subject, Before(base, v.subject), head.closure[v.subject],
                                             head.version.minor, v)
  }

  ghost predicate GainedAt(base: Schema, head: Schema, n: string) {
    n in head.closure && Gained(Before(base, n), head.closure[n])
  }

  ghost predicate Grew(base: Schema, head: Schema) {
    exists n :: GainedAt(base, head, n)
  }

  ghost predicate AdditiveFault(base: Schema, head: Schema, v: Violation) {
    || SchemaDeclarationFault(head, v)
    || SchemaChangeFault(base, head, v)
    || (v == MinorNotRaised(head.name) && Grew(base, head) && head.version.minor <= base.version.minor)
    || (v == MinorWentDown(head.name) && head.version.minor < base.version.minor)
  }

  method ChangedMessage(base: Schema, head: Schema, n: string) returns (out: seq<Violation>, added: bool)
    requires n in head.closure
    ensures forall v :: v in out <==> v.subject == n && SchemaChangeFault(base, head, v)
    ensures added <==> GainedAt(base, head, n)
  {
    var before := if n in base.closure then base.closure[n] else NO_MESSAGE;
    out, added := Changed(n, before, head.closure[n], head.version.minor);
  }

  /** `out` and `added` tell of the messages named in `done`. */
  ghost predicate ChangesOf(base: Schema, head: Schema, done: seq<string>, out: seq<Violation>, added: bool) {
    && (forall v :: v in out <==> v.subject in done && SchemaChangeFault(base, head, v))
    && (added <==> exists n :: n in done && GainedAt(base, head, n))
  }

  lemma ChangesMore(base: Schema, head: Schema, done: seq<string>, out: seq<Violation>, added: bool, n: string,
                    found: seq<Violation>, grew: bool)
    requires ChangesOf(base, head, done, out, added)
    requires forall v :: v in found <==> v.subject == n && SchemaChangeFault(base, head, v)
    requires grew <==> GainedAt(base, head, n)
    ensures ChangesOf(base, head, done + [n], out + found, added || grew)
  {
  }

  method ChangedMessages(base: Schema, head: Schema) returns (out: seq<Violation>, added: bool)
    ensures forall v :: v in out <==> SchemaChangeFault(base, head, v)
    ensures added <==> Grew(base, head)
  {
    out, added := [], false;
    var names := SortedMembers(head.closure.Keys);
    for i := 0 to |names|
      invariant ChangesOf(base, head, names[..i], out, added)
    {
      var found, grew := ChangedMessage(base, head, names[i]);
      assert names[..i + 1] == names[..i] + [names[i]];
      ChangesMore(base, head, names[..i], out, added, names[i], found, grew);
      out, added := out + found, added || grew;
    }
    assert names[..|names|] == names;
  }

  method Additive(base: Schema, head: Schema) returns (out: seq<Violation>)
    ensures forall v :: v in out <==> AdditiveFault(base, head, v)
  {
    out := EveryFieldDeclaresItsMinor(head);
    var found, added := ChangedMessages(base, head);
    out := out + found;
    if added && head.version.minor <= base.version.minor {
      out := out + [MinorNotRaised(head.name)];
    }
    if head.version.minor < base.version.minor {
      out := out + [MinorWentDown(head.name)];
    }
  }

  // ----- a package against its base -----

  predicate IsSchema(all: Package, name: string) {
    name in all && all[name].schema.Some?
  }

  ghost function SchemaOf(all: Package, name: string): Schema
    requires IsSchema(all, name)
  {
    Schema(name, all[name].schema.value, Part(all, Reachable(Links(all), name)))
  }

  method Schemas(all: Package) returns (out: map<string, Schema>)
    ensures out == map n | n in all && IsSchema(all, n) :: SchemaOf(all, n)
  {
    out := map[];
    var rest := all.Keys;
    while rest != {}
      invariant rest <= all.Keys
      invariant out == map n | n in all - rest && IsSchema(all, n) :: SchemaOf(all, n)
    {
      var name :| name in rest;
      if all[name].schema.Some? {
        var closure := Closure(all, name);
        out := out[name := Schema(name, all[name].schema.value, closure)];
      }
      rest := rest - {name};
    }
  }

  /** What the schema `n` breaks between two packages. */
  ghost predicate Fault(base: Package, head: Package, n: string, v: Violation) {
    if !IsSchema(head, n) then IsSchema(base, n) && v == Removed(n)
    else
      var h := SchemaOf(head, n);
      if !IsSchema(base, n) then h.version.major >= 1 && SchemaDeclarationFault(h, v)
      else
        var b := SchemaOf(base, n);
        if b.version.major != h.version.major then v == MajorChanged(n)
        else b.version.major >= 1 && AdditiveFault(b, h, v)
  }

  method SchemaViolations(b: Option<Schema>, h: Schema, ghost base: Package, ghost head: Package)
    returns (out: seq<Violation>)
    requires IsSchema(head, h.name) && h == SchemaOf(head, h.name)
    requires b == if IsSchema(base, h.name) then Some(SchemaOf(base, h.name)) else None
    ensures forall v :: v in out <==> Fault(base, head, h.name, v)
  {
    out := [];
    if b.None? {
      if h.version.major >= 1 {
        out := EveryFieldDeclaresItsMinor(h);
      }
    } else if b.value.version.major != h.version.major {
      out := [MajorChanged(h.name)];
    } else if b.value.version.major >= 1 {
      out := Additive(b.value, h);
    }
  }

  ghost predicate FaultAmong(base: Package, head: Package, names: seq<string>, v: Violation) {
    exists n :: n in names && Fault(base, head, n, v)
  }

  lemma FaultAmongMore(base: Package, head: Package, names: seq<string>, i: nat)
    requires i < |names|
    ensures forall v :: FaultAmong(base, head, names[..i + 1], v) <==>
            FaultAmong(base, head, names[..i], v) || Fault(base, head, names[i], v)
  {
    assert names[..i + 1] == names[..i] + [names[i]];
  }

  method HeadViolations(base: Package, head: Package, bases: map<string, Schema>, heads: map<string, Schema>)
    returns (out: seq<Violation>, ghost names: seq<string>)
    requires bases == map n | n in base && IsSchema(base, n) :: SchemaOf(base, n)
    requires heads == map n | n in head && IsSchema(head, n) :: SchemaOf(head, n)
    ensures forall v :: v in out <==> FaultAmong(base, head, names, v)
    ensures forall n :: n in names <==> n in heads
  {
    var order := SortedMembers(heads.Keys);
    names := order;
    out := [];
    for i := 0 to |order|
      invariant forall v :: v in out <==> FaultAmong(base, head, order[..i], v)
    {
      var n := order[i];
      var found := SchemaViolations(if n in bases then Some(bases[n]) else None, heads[n], base, head);
      FaultAmongMore(base, head, order, i);
      out := out + found;
    }
    assert order[..|order|] == order;
  }

  method RemovedSchemas(bases: map<string, Schema>, heads: map<string, Schema>) returns (out: seq<Violation>)
    ensures forall v :: v in out <==> v.Removed? && v.subject in bases && v.subject !in heads
  {
    out := [];
    var names := SortedMembers(bases.Keys);
    for i := 0 to |names|
      invariant forall v :: v in out <==> v.Removed? && v.subject in names[..i] && v.subject !in heads
    {
      assert names[..i + 1] == names[..i] + [names[i]];
      if names[i] !in heads {
        out := out + [Removed(names[i])];
      }
    }
    assert names[..|names|] == names;
  }

  /** No task schema of either package breaks a rule. */
  ghost predicate Accepted(base: Package, head: Package) {
    forall n, v :: !Fault(base, head, n, v)
  }

  /** The rules broken by the head's task schemas: exactly the faults of some schema of either package. */
  method Violations(base: Package, head: Package) returns (out: seq<Violation>)
    ensures forall v :: v in out <==> exists n :: Fault(base, head, n, v)
    ensures out == [] <==> Accepted(base, head)
  {
    var bases := Schemas(base);
    var heads := Schemas(head);
    var found, names := HeadViolations(base, head, bases, heads);
    var removed := RemovedSchemas(bases, heads);
    out := found + removed;
    forall v ensures v in out <==> exists n :: Fault(base, head, n, v) {
      if exists n :: Fault(base, head, n, v) {
        var n :| Fault(base, head, n, v);
        assert n in names || v in removed;
      }
      if v in removed {
        assert Fault(base, head, v.subject, v);
      }
    }
    if out != [] {
      assert out[0] in out;
    }
  }
}
