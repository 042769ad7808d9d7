/**
 Runs of a function body, as far as name bindings go. A state says which assignment bound each
 name last, and which names the deferred code created so far may rebind. A run is driven by a tree
 of choices, arbitrary but finite: which branch, how many iterations, where an exception strikes,
 which assignment expressions take effect. A choice tree that runs out stops the run, so unfinished
 and endless runs are covered by their prefixes. Deferred code, once created, may run whenever a
 statement starts or evaluates something.
 */
module PythonRuns {
  import opened PythonSyntax

  datatype Origin = Assigned(site: nat, value: Expr) | Elsewhere

  type Env = map<string, Origin>

  /** `armed` names may be rebound by code that exists outside the statements being run. */
  datatype State = State(env: Env, armed: set<string>)

  datatype Status = Normal | Raised | Broke | Continued | Returned | Stopped

  datatype Choice = Choice(pick: nat, before: seq<string>, during: seq<string>, subs: seq<Choice>)

  /** A nested block being entered: which one, in which state, with which choices. */
  datatype Entry = Entry(block: nat, state: State, choice: Choice)

  datatype Ending = Ending(state: State, status: Status)

  /** A statement's end, the states in which its own condition was evaluated, and its block entries. */
  datatype Run = Run(state: State, status: Status, tests: seq<State>, entries: seq<Entry>)

  // ----- bindings -----

  predicate Same(n: string, a: Env, b: Env) {
    (n in a <==> n in b) && (n in a ==> a[n] == b[n])
  }

  /** Binds, in order, those of the listed names that are among `names`, to something else. */
  function Rebind(env: Env, names: set<string>, list: seq<string>): Env
    decreases |list|
  {
    if list == [] then env
    else Rebind(if list[0] in names then env[list[0] := Elsewhere] else env, names, list[1..])
  }

  /** Deferred code may run. */
  function Begin(s: State, list: seq<string>): State {
    s.(env := Rebind(s.env, s.armed, list))
  }

  /** Something is evaluated that may bind `binds` and creates code that may bind `defers`. */
  function Eval(s: State, binds: set<string>, defers: set<string>, list: seq<string>): State {
    State(Rebind(s.env, binds + defers + s.armed, list), s.armed + defers)
  }

  /** What of a target is evaluated before anything is stored. */
  function BoundByParts(t: Target): set<string> {
    if t.NameTarget? then {} else BoundByExprs(t.parts)
  }

  function BindTarget(s: State, site: nat, value: Expr, t: Target, list: seq<string>): State {
    match t
    case NameTarget(id) => s.(env := s.env[id := Assigned(site, value)])
    case OtherTarget(_, _) => Eval(s, BoundByTarget(t), DeferredInTarget(t), list)
  }

  /** Binds the first `k` targets, left to right, to the value of one assignment. */
  function BindTargets(s: State, site: nat, value: Expr, targets: seq<Target>, k: nat, list: seq<string>): State
    requires k <= |targets|
    decreases k
  {
    if k == 0 then s else BindTarget(BindTargets(s, site, value, targets, k - 1, list), site, value, targets[k - 1],
                                     list)
  }

  // ----- statements -----

  function Simple(s: State, binds: set<string>, defers: set<string>, c: Choice, after: Status): Run {
    Run(Eval(s, binds, defers, c.during), if c.pick == 0 then Raised else after, [], [])
  }

  function JumpStatus(kind: JumpKind): Status {
    match kind case Return => Returned case Raise => Raised case Break => Broke case Continue => Continued
  }

  /** An assignment that fails in its value, or at some target, or not at all. */
  function AssignRun(s: State, site: nat, targets: seq<Target>, value: Expr, c: Choice): Run {
    var evaluated := Eval(s, BoundByExpr(value), Deferred(value), c.during);
    if c.pick == 0 then Run(evaluated, Raised, [], [])
    else
      var k := if c.pick - 1 < |targets| then c.pick - 1 else |targets|;
      var done := BindTargets(evaluated, site, value, targets, k, c.during);
      if k == |targets| then Run(done, Normal, [], [])
      else Run(Eval(done, BoundByParts(targets[k]), DeferredInTarget(targets[k]), c.during), Raised, [], [])
  }

  function ExecStmt(s: Stmt, start: State, c: Choice): Run
    decreases c, 2, 0
  {
    var now := Begin(start, c.before);
    match s
    case Assign(site, targets, value) => AssignRun(now, site, targets, value, c)
    case AnnAssign(site, target, annotated) =>
      if annotated.Some? then AssignRun(now, site, [target], annotated.value, c)
      else Simple(now, BoundByParts(target), DeferredInTarget(target), c, Normal)
    case Plain(stores, parts) => Simple(now, stores + BoundByExprs(parts), DeferredAll(parts), c, Normal)
    case Jump(kind, parts) => Simple(now, BoundByExprs(parts), DeferredAll(parts), c, JumpStatus(kind))
    case Scope(name, evaluated, nonlocals) =>
      Simple(now, {name} + BoundByExprs(evaluated), DeferredAll(evaluated) + nonlocals, c, Normal)
    case Declare(_) => Run(now, Normal, [], [])
    case Assert(_, test) => Simple(now, BoundByExpr(test), Deferred(test), c, Normal).(tests := [now])
    case Compound(head, _) =>
      match head
      case If(_, test) => IfRun(s, test, now, c)
      case While(_, _) => Loop(s, now, c, 0)
      case For(_, iter) => ForRun(s, iter, now, c)
      case With(items) => WithRun(s, items, now, c)
      case Try(handlers) => TryRun(s, handlers, now, c)
      case Match(subject, cases) => MatchRun(s, subject, cases, now, c)
  }

  function IfRun(s: Stmt, test: Expr, now: State, c: Choice): Run
    decreases c, 1, 1
  {
    var after := Eval(now, BoundByExpr(test), Deferred(test), c.during);
    if c.pick == 0 then Run(after, Raised, [now], [])
    else Enter(s, if c.pick == 1 then 0 else 1, after, c).(tests := [now])
  }

  function ForRun(s: Stmt, iter: Expr, now: State, c: Choice): Run
    requires s.Compound? && s.head.For?
    decreases c, 1, |c.subs| + 1
  {
    var after := Eval(now, BoundByExpr(iter), Deferred(iter), c.during);
    if c.pick == 0 then Run(after, Raised, [], []) else Loop(s, after, c, 0)
  }

  /** A context manager may swallow an exception its body raised. */
  function WithRun(s: Stmt, items: seq<Item>, now: State, c: Choice): Run
    decreases c, 1, 1
  {
    var after := Eval(now, BoundByItems(items), DeferredInItems(items), c.during);
    if c.pick == 0 then Run(after, Raised, [], [])
    else
      var r := Enter(s, 0, after, c);
      if r.status == Raised && c.pick == 2 then r.(status := Normal) else r
  }

  /** The subject and the first `k` cases have been tried. */
  function Tried(now: State, subject: Expr, cases: seq<CaseHead>, k: nat, list: seq<string>): State
    requires k <= |cases|
  {
    Eval(now, BoundByExpr(subject) + BoundByCases(cases[..k]), Deferred(subject) + DeferredInCases(cases[..k]), list)
  }

  function MatchRun(s: Stmt, subject: Expr, cases: seq<CaseHead>, now: State, c: Choice): Run
    decreases c, 1, 1
  {
    if c.pick == 0 then Run(Tried(now, subject, cases, |cases|, c.during), Raised, [], [])
    else if c.pick - 1 < |cases| then Enter(s, c.pick - 1, Tried(now, subject, cases, c.pick, c.during), c)
    else Run(Tried(now, subject, cases, |cases|, c.during), Normal, [], [])
  }

  /** Runs block `b` with the statement's first sub-choice. */
  function Enter(s: Stmt, b: nat, now: State, c: Choice): Run
    decreases c, 1, 0
  {
    if c.subs == [] then Run(now, Stopped, [], [])
    else
      var r := WholeBlock(s, b, now, c.subs[0]);
      Run(r.state, r.status, [], [Entry(b, now, c.subs[0])])
  }

  /** What an iteration of a loop binds before its body, or when the loop is exhausted. */
  function LoopBinds(h: Head, exhausted: bool): set<string>
    requires h.While? || h.For?
  {
    if h.While? then BoundByExpr(h.test) else if exhausted then {} else BoundByTarget(h.target)
  }

  function LoopDefers(h: Head, exhausted: bool): set<string>
    requires h.While? || h.For?
  {
    if h.While? then Deferred(h.test) else if exhausted then {} else DeferredInTarget(h.target)
  }

  function LoopMisses(h: Head, exhausted: bool): set<string>
    requires h.While? || h.For?
  {
    if h.While? then Missed(h.test) else if exhausted then {} else MissedInTarget(h.target)
  }

  /** The iterations of a loop from the k-th on; the else block runs when the loop is exhausted. */
  function Loop(s: Stmt, start: State, c: Choice, k: nat): Run
    requires s.Compound? && (s.head.While? || s.head.For?)
    decreases c, 1, if k < |c.subs| then |c.subs| - k else 0
  {
    if k >= |c.subs| then Run(start, Stopped, [], [])
    else
      var it := c.subs[k];
      var now := Begin(start, it.before);
      var tests := if s.head.While? then [now] else [];
      var exhausted := it.pick > 1;
      var after := Eval(now, LoopBinds(s.head, exhausted), LoopDefers(s.head, exhausted), it.during);
      if it.pick == 0 then Run(after, Raised, tests, [])
      else if it.subs == [] then Run(after, Stopped, tests, [])
      else
        var b := if exhausted then 1 else 0;
        var r := WholeBlock(s, b, after, it.subs[0]);
        var entry := Entry(b, after, it.subs[0]);
        if exhausted then Run(r.state, r.status, tests, [entry])
        else if r.status == Normal || r.status == Continued then
          var rest := Loop(s, r.state, c, k + 1);
          Run(rest.state, rest.status, tests + rest.tests, [entry] + rest.entries)
        else Run(r.state, if r.status == Broke then Normal else r.status, tests, [entry])
  }

  /** Body, then a handler if it raised and one is picked, or the else block if it ended; finally always. */
  function TryRun(s: Stmt, handlers: seq<HandlerHead>, now: State, c: Choice): Run
    decreases c, 1, 2
  {
    if |c.subs| < 3 then Run(now, Stopped, [], [])
    else
      var middle := Guarded(s, handlers, now, c);
      if middle.status == Stopped then middle
      else
        var r := WholeBlock(s, |handlers| + 2, middle.state, c.subs[2]);
        Run(r.state, if r.status == Normal then middle.status else r.status, [],
            middle.entries + [Entry(|handlers| + 2, middle.state, c.subs[2])])
  }

  /** The first `k` handlers have been asked for their types. */
  function Asked(now: State, handlers: seq<HandlerHead>, k: nat, list: seq<string>): State
    requires k <= |handlers|
  {
    Eval(now, BoundByHandlers(handlers[..k]), DeferredInHandlers(handlers[..k]), list)
  }

  function OwnName(h: HandlerHead): set<string> { if h.name.None? then {} else {h.name.value} }

  /** The try statement up to its finally block; a handler's name is unbound when it ends. */
  function Guarded(s: Stmt, handlers: seq<HandlerHead>, now: State, c: Choice): Run
    requires |c.subs| >= 3
    decreases c, 1, 1
  {
    var body := WholeBlock(s, 0, now, c.subs[0]);
    var first := [Entry(0, now, c.subs[0])];
    if body.status == Raised && 1 <= c.pick <= |handlers| then
      var caught := Asked(body.state, handlers, c.pick, c.during);
      var r := WholeBlock(s, c.pick, caught, c.subs[1]);
      var left := Eval(r.state, OwnName(handlers[c.pick - 1]), {}, c.during);
      Run(left, r.status, [], first + [Entry(c.pick, caught, c.subs[1])])
    else if body.status == Raised then Run(Asked(body.state, handlers, |handlers|, c.during), Raised, [], first)
    else if body.status == Normal then
      var r := WholeBlock(s, |handlers| + 1, body.state, c.subs[1]);
      Run(r.state, r.status, [], first + [Entry(|handlers| + 1, body.state, c.subs[1])])
    else Run(body.state, body.status, [], first)
  }

  function WholeBlock(s: Stmt, b: nat, now: State, c: Choice): Ending
    decreases c, 1, 0
  {
    RunBlock(BlockAt(s, b), now, c, |BlockAt(s, b)|)
  }

  /** The first `i` statements of a block; a statement that does not end normally ends the block. */
  function RunBlock(ss: Block, start: State, c: Choice, i: nat): Ending
    requires i <= |ss|
    decreases c, 0, i
  {
    if i == 0 then Ending(start, Normal)
    else
      var before := RunBlock(ss, start, c, i - 1);
      if before.status != Normal then before
      else if i - 1 >= |c.subs| then Ending(before.state, Stopped)
      else
        var r := ExecStmt(ss[i - 1], before.state, c.subs[i - 1]);
        Ending(r.state, r.status)
  }

  // ----- reaching a condition -----

  /**
   The run of `ss` evaluates the condition at `path` in the state `at`. A path is a statement
   index, or an index, the number of one of that statement's blocks, and a path into it. `first`
   tells a loop's first evaluation from the later ones.
   */
  ghost predicate Reaches(ss: Block, start: State, c: Choice, path: seq<nat>, at: State, first: bool)
    decreases |path|
  {
    && path != [] && path[0] < |ss| && path[0] < |c.subs|
    && var before := RunBlock(ss, start, c, path[0]);
       && before.status == Normal
       && var run := ExecStmt(ss[path[0]], before.state, c.subs[path[0]]);
          if |path| == 1 then
            exists k :: 0 <= k < |run.tests| && run.tests[k] == at && (first <==> k == 0)
          else
            exists e :: e in run.entries && e.block == path[1]
                     && Reaches(BlockAt(ss[path[0]], e.block), e.state, e.choice, path[2..], at, first)
  }

  // ----- binding names -----

  lemma {:induction false} RebindKeeps(env: Env, names: set<string>, list: seq<string>, n: string)
    requires n !in names
    ensures Same(n, env, Rebind(env, names, list))
    decreases |list|
  {
    if list != [] {
      RebindKeeps(if list[0] in names then env[list[0] := Elsewhere] else env, names, list[1..], n);
    }
  }

  /** A name bound elsewhere stays so; one that is listed becomes so. */
  lemma {:induction false} RebindElsewhere(env: Env, names: set<string>, list: seq<string>, n: string)
    requires (n in env && env[n] == Elsewhere) || (n in names && n in list)
    ensures var r := Rebind(env, names, list); n in r && r[n] == Elsewhere
    decreases |list|
  {
    if list != [] {
      RebindElsewhere(if list[0] in names then env[list[0] := Elsewhere] else env, names, list[1..], n);
    }
  }
}
