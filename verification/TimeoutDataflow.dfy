/**
 The one-hop dataflow of the timeout rule: a local assigned a timed wait or a clock reading is
 followed to the conditions that consume it. `OneHopTimeoutVerdicts` is the analysis; the lemmas
 compare what it tracks with every run of the code.
 */
module TimeoutDataflow {
  import opened PythonSyntax
  import opened PythonRuns

  type Sources = map<string, Origin>

  // ----- expressions -----

  /** A call of this kind is evaluated with the expression; lambda and generator bodies are not. */
  predicate Has(e: Expr, kind: CallKind) {
    match e
    case Name(_) => false
    case Literal(_) => false
    case Call(k, args, keywords) => k == kind || AnyHas(args, kind) || AnyHas(keywords, kind)
    case Not(operand) => Has(operand, kind)
    case Compare(_, operands) => AnyHas(operands, kind)
    case Walrus(_, value) => Has(value, kind)
    case Conditional(test, body, orElse) => Has(test, kind) || Has(body, kind) || Has(orElse, kind)
    case Lambda(_, _) => false
    case Generator(_, _) => false
    case Comprehension(_, element, clauses) => Has(element, kind) || AnyHas(clauses, kind)
    case Operation(parts) => AnyHas(parts, kind)
  }

  predicate AnyHas(es: seq<Expr>, kind: CallKind) {
    es != [] && (Has(es[0], kind) || AnyHas(es[1..], kind))
  }

  predicate Timed(value: Expr) {
    Has(value, ClockReading) || Has(value, ReportingWait)
  }

  predicate OriginHas(sources: Sources, n: string, kind: CallKind) {
    n in sources && sources[n].Assigned? && Has(sources[n].value, kind)
  }

  /** Every name the expression loads, anywhere inside. */
  function Loads(e: Expr): set<string> {
    match e
    case Name(id) => {id}
    case Literal(_) => {}
    case Call(_, args, keywords) => LoadsAll(args) + LoadsAll(keywords)
    case Not(operand) => Loads(operand)
    case Compare(_, operands) => LoadsAll(operands)
    case Walrus(_, value) => Loads(value)
    case Conditional(test, body, orElse) => Loads(test) + Loads(body) + Loads(orElse)
    case Lambda(defaults, body) => LoadsAll(defaults) + Loads(body)
    case Generator(element, clauses) => Loads(element) + LoadsAll(clauses)
    case Comprehension(_, element, clauses) => Loads(element) + LoadsAll(clauses)
    case Operation(parts) => LoadsAll(parts)
  }

  function LoadsAll(es: seq<Expr>): set<string> {
    if es == [] then {} else Loads(es[0]) + LoadsAll(es[1..])
  }

  /** The lines of comparisons that consume a local derived from a clock. */
  function ClockLines(e: Expr, sources: Sources): set<int> {
    match e
    case Name(_) => {}
    case Literal(_) => {}
    case Call(_, args, keywords) => ClockLinesAll(args, sources) + ClockLinesAll(keywords, sources)
    case Not(operand) => ClockLines(operand, sources)
    case Compare(line, operands) =>
      (if exists n :: n in LoadsAll(operands) && OriginHas(sources, n, ClockReading) then {line} else {})
      + ClockLinesAll(operands, sources)
    case Walrus(_, value) => ClockLines(value, sources)
    case Conditional(test, body, orElse) => ClockLines(test, sources) + ClockLines(body, sources) + ClockLines(orElse,
                                                                                                               sources)
    case Lambda(defaults, body) => ClockLinesAll(defaults, sources) + ClockLines(body, sources)
    case Generator(element, clauses) => ClockLines(element, sources) + ClockLinesAll(clauses, sources)
    case Comprehension(_, element, clauses) => ClockLines(element, sources) + ClockLinesAll(clauses, sources)
    case Operation(parts) => ClockLinesAll(parts, sources)
  }

  function ClockLinesAll(es: seq<Expr>, sources: Sources): set<int> {
    if es == [] then {} else ClockLines(es[0], sources) + ClockLinesAll(es[1..], sources)
  }

  predicate AnyFalse(es: seq<Expr>) {
    es != [] && (es[0] == Literal(true) || AnyFalse(es[1..]))
  }

  /**
   Whether a tracked wait result drives the condition by being false. Keywords, defaults and clauses
   are not expressions here.
   */
  predicate ConsumesWait(e: Expr, sources: Sources, negated: bool) {
    match e
    case Name(id) => negated && OriginHas(sources, id, ReportingWait)
    case Literal(_) => false
    case Call(_, args, _) => AnyConsumesWait(args, sources, negated)
    case Not(operand) => ConsumesWait(operand, sources, !negated)
    case Compare(_, operands) => AnyConsumesWait(operands, sources, if AnyFalse(operands) then !negated else negated)
    case Walrus(_, value) => ConsumesWait(value, sources, negated)
    case Conditional(test, body, orElse) =>
      ConsumesWait(test, sources, negated) || ConsumesWait(body, sources, negated) || ConsumesWait(orElse, sources,
                                                                                                   negated)
    case Lambda(_, body) => ConsumesWait(body, sources, negated)
    case Generator(element, _) => ConsumesWait(element, sources, negated)
    case Comprehension(_, element, _) => ConsumesWait(element, sources, negated)
    case Operation(parts) => AnyConsumesWait(parts, sources, negated)
  }

  predicate AnyConsumesWait(es: seq<Expr>, sources: Sources, negated: bool) {
    es != [] && (ConsumesWait(es[0], sources, negated) || AnyConsumesWait(es[1..], sources, negated))
  }

  // ----- the analysis -----

  function Test(s: Stmt): Expr
    requires IsCondition(s)
  {
    if s.Assert? then s.test else s.head.test
  }

  function LineOf(s: Stmt): int
    requires IsCondition(s)
  {
    if s.Assert? then s.line else s.head.line
  }

  function ConditionLines(s: Stmt, sources: Sources): set<int> {
    if !IsCondition(s) then {}
    else ClockLines(Test(s), sources) + (if ConsumesWait(Test(s), sources, false) then {LineOf(s)} else {})
  }

  function NameTargets(targets: seq<Target>): set<string> {
    if targets == [] then {}
    else (if targets[0].NameTarget? then {targets[0].id} else {}) + NameTargets(targets[1..])
  }

  function TimedAssignments(s: Stmt): Sources {
    match s
    case Assign(site, targets, value) =>
      if Timed(value) then map n | n in NameTargets(targets) :: Assigned(site, value) else map[]
    case AnnAssign(site, target, annotated) =>
      if annotated.Some? && target.NameTarget? && Timed(annotated.value)
      then map[target.id := Assigned(site, annotated.value)]
      else map[]
    case _ => map[]
  }

  /** What nested blocks inherit: nothing the statement stores anywhere. */
  function Nested(sources: Sources, s: Stmt): Sources { sources - Stored(s) }

  function Transfer(sources: Sources, s: Stmt): Sources { (sources - Stored(s)) + TimedAssignments(s) }

  function SourcesBefore(ss: Block, inherited: Sources, i: nat): Sources
    requires i <= |ss|
  {
    if i == 0 then inherited else Transfer(SourcesBefore(ss, inherited, i - 1), ss[i - 1])
  }

  predicate ValidPath(ss: Block, path: seq<nat>)
    decreases |path|
  {
    && path != [] && path[0] < |ss|
    && (|path| > 1 ==> |path| > 2 && ValidPath(BlockAt(ss[path[0]], path[1]), path[2..]))
  }

  function StmtAt(ss: Block, path: seq<nat>): Stmt
    requires ValidPath(ss, path)
    decreases |path|
  {
    if |path| == 1 then ss[path[0]] else StmtAt(BlockAt(ss[path[0]], path[1]), path[2..])
  }

  /** What the analysis tracks when it looks at the statement at `path`. */
  function SourcesAt(ss: Block, inherited: Sources, path: seq<nat>): Sources
    requires ValidPath(ss, path)
    decreases |path|
  {
    var sources := SourcesBefore(ss, inherited, path[0]);
    if |path| == 1 then sources
    else SourcesAt(BlockAt(ss[path[0]], path[1]), Nested(sources, ss[path[0]]), path[2..])
  }

  ghost predicate ReportedAt(ss: Block, inherited: Sources, path: seq<nat>, line: int) {
    ValidPath(ss, path) && line in ConditionLines(StmtAt(ss, path), SourcesAt(ss, inherited, path))
  }

  ghost predicate Reported(ss: Block, inherited: Sources, i: nat, line: int) {
    exists path :: ReportedAt(ss, inherited, path, line) && path[0] < i
  }

  ghost predicate ReportedInside(s: Stmt, sources: Sources, b: nat, line: int) {
    exists k: nat :: k < b && Reported(BlockAt(s, k), Nested(sources, s), |BlockAt(s, k)|, line)
  }

  function BlockCount(s: Stmt): nat { if s.Compound? then |s.blocks| else 0 }

  /** The pass reports exactly the lines that some condition, anywhere in the body, gives with what is tracked there. */
  method OneHopTimeoutVerdicts(ss: Block, inherited: Sources) returns (lines: set<int>)
    ensures forall line :: line in lines <==> Reported(ss, inherited, |ss|, line)
    decreases ss
  {
    lines := {};
    var sources := inherited;
    var i := 0;
    while i < |ss|
      invariant 0 <= i <= |ss|
      invariant sources == SourcesBefore(ss, inherited, i)
      invariant forall line :: line in lines <==> Reported(ss, inherited, i, line)
    {
      var s := ss[i];
      var own := ConditionLines(s, sources);
      var inside := NestedVerdicts(s, Nested(sources, s), sources);
      forall line ensures line in lines + own + inside <==> Reported(ss, inherited, i + 1, line) {
        ReportedStep(ss, inherited, i, line);
      }
      lines := lines + own + inside;
      sources := sources - Stored(s) + TimedAssignments(s);
      i := i + 1;
    }
  }

  /** The nested blocks of one statement. */
  method NestedVerdicts(s: Stmt, nested: Sources, ghost sources: Sources) returns (lines: set<int>)
    requires nested == Nested(sources, s)
    ensures forall line :: line in lines <==> ReportedInside(s, sources, BlockCount(s), line)
    decreases s
  {
    lines := {};
    if s.Compound? {
      var b := 0;
      while b < |s.blocks|
        invariant 0 <= b <= |s.blocks|
        invariant forall line :: line in lines <==> ReportedInside(s, sources, b, line)
      {
        var found := OneHopTimeoutVerdicts(s.blocks[b].stmts, nested);
        assert BlockAt(s, b) == s.blocks[b].stmts;
        forall line ensures line in lines + found <==> ReportedInside(s, sources, b + 1, line) {
          if line in lines {
            var k: nat :| k < b && Reported(BlockAt(s, k), Nested(sources, s), |BlockAt(s, k)|, line);
          }
        }
        lines := lines + found;
        b := b + 1;
      }
    }
  }

  lemma ReportedStep(ss: Block, inherited: Sources, i: nat, line: int)
    requires i < |ss|
    ensures Reported(ss, inherited, i + 1, line) <==>
              || Reported(ss, inherited, i, line)
              || line in ConditionLines(ss[i], SourcesBefore(ss, inherited, i))
              || ReportedInside(ss[i], SourcesBefore(ss, inherited, i), BlockCount(ss[i]), line)
  {
    if path :| ReportedAt(ss, inherited, path, line) && path[0] < i + 1 {
      if path[0] == i {
        ReportSplits(ss, inherited, path, line);
      }
    }
    ReportJoins(ss, inherited, i, line);
  }

  lemma ReportSplits(ss: Block, inherited: Sources, path: seq<nat>, line: int)
    requires ReportedAt(ss, inherited, path, line)
    ensures var s, sources := ss[path[0]], SourcesBefore(ss, inherited, path[0]);
            line in ConditionLines(s, sources) || ReportedInside(s, sources, BlockCount(s), line)
  {
    if |path| > 1 {
      var s, sources := ss[path[0]], SourcesBefore(ss, inherited, path[0]);
      assert ReportedAt(BlockAt(s, path[1]), Nested(sources, s), path[2..], line);
      assert Reported(BlockAt(s, path[1]), Nested(sources, s), |BlockAt(s, path[1])|, line);
    }
  }

  lemma ReportJoins(ss: Block, inherited: Sources, i: nat, line: int)
    requires i < |ss|
    ensures var s, sources := ss[i], SourcesBefore(ss, inherited, i);
            line in ConditionLines(s, sources) || ReportedInside(s, sources, BlockCount(s), line) ==>
              Reported(ss, inherited, i + 1, line)
  {
    var s, sources := ss[i], SourcesBefore(ss, inherited, i);
    if line in ConditionLines(s, sources) {
      assert ReportedAt(ss, inherited, [i], line);
    } else if k: nat :| k < BlockCount(s) && Reported(BlockAt(s, k), Nested(sources, s), |BlockAt(s, k)|, line) {
      var rest :| ReportedAt(BlockAt(s, k), Nested(sources, s), rest, line) && rest[0] < |BlockAt(s, k)|;
      var path := [i, k] + rest;
      assert path[2..] == rest;
      assert ReportedAt(ss, inherited, path, line);
    }
  }
}
