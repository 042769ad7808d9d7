/** No run does what the syntax does not allow: every ending, entry and condition of a run is covered. */
module PythonCover {
  import opened PythonSyntax
  import opened PythonRuns
  import opened PythonReach

  // ----- what is covered -----

  /** An ending that is possible, and a step that touches the name only if such an ending can. */
  ghost predicate EndCovered(g: Goal, can: bool, touched: bool, stores: set<string>, start: State, end: State,
                             st: Status) {
    st != Stopped ==> can && Step(g, touched, stores, start, end)
  }

  ghost predicate EntryCovered(g: Goal, s: Stmt, start: State, e: Entry) {
    AbleEnter(s, e.block, Just) && Step(g, AbleEnter(s, e.block, g), Stored(s), start, e.state)
  }

  /** A condition is evaluated again only by a loop that went on. */
  predicate AbleTest(s: Stmt, k: nat, g: Goal) {
    k > 0 && s.Compound? && s.head.While? && Again(s, g)
  }

  ghost predicate TestCovered(g: Goal, s: Stmt, start: State, k: nat, at: State) {
    && (k > 0 ==> AbleTest(s, k, Just)) && Step(g, AbleTest(s, k, g), Stored(s), start, at)
  }

  ghost predicate Covered(g: Goal, s: Stmt, start: State, r: Run) {
    && EndCovered(g, Able(s, r.status, Just), Able(s, r.status, g), Stored(s), start, r.state, r.status)
    && (forall i :: 0 <= i < |r.entries| ==> EntryCovered(g, s, start, r.entries[i]))
    && (forall k :: 0 <= k < |r.tests| ==> TestCovered(g, s, start, k, r.tests[k]))
  }

  // ----- targets -----

  lemma {:induction false} TargetAt(targets: seq<Target>, k: nat)
    requires k < |targets|
    ensures StoredInTarget(targets[k]) <= StoredInTargets(targets)
    ensures DeferredInTarget(targets[k]) <= DeferredInTargets(targets)
    ensures MissedInTarget(targets[k]) <= MissedInTargets(targets)
  {
    if k > 0 {
      TargetAt(targets[1..], k - 1);
    }
  }

  lemma TargetStep(g: Goal, s: State, site: nat, value: Expr, t: Target, list: seq<string>, stores: set<string>)
    requires StoredInTarget(t) <= stores
    ensures Step(g, Hits(g, MissedInTarget(t), DeferredInTarget(t)), stores, s, BindTarget(s, site, value, t, list))
  {
    if t.OtherTarget? {
      EvalStep(g, s, BoundByTarget(t), DeferredInTarget(t), list, MissedInTarget(t), stores);
    }
  }

  lemma {:induction false} TargetsStep(g: Goal, s: State, site: nat, value: Expr, targets: seq<Target>, k: nat,
                                       list: seq<string>, stores: set<string>)
    requires k <= |targets| && StoredInTargets(targets) <= stores
    ensures Step(g, Hits(g, MissedInTargets(targets), DeferredInTargets(targets)), stores, s,
                 BindTargets(s, site, value, targets, k, list))
    decreases k
  {
    if k > 0 {
      TargetsStep(g, s, site, value, targets, k - 1, list, stores);
      TargetAt(targets, k - 1);
      var before := BindTargets(s, site, value, targets, k - 1, list);
      TargetStep(g, before, site, value, targets[k - 1], list, stores);
      var hit := Hits(g, MissedInTargets(targets), DeferredInTargets(targets));
      StepThen(g, hit, Hits(g, MissedInTarget(targets[k - 1]), DeferredInTarget(targets[k - 1])), stores, s, before,
               BindTarget(before, site, value, targets[k - 1], list));
    }
  }

  lemma PartsStored(t: Target)
    ensures MissedInTarget(t) <= BoundByParts(t) <= StoredInTarget(t) + MissedInTarget(t)
  {
  }

  lemma AssignStep(g: Goal, s: State, site: nat, targets: seq<Target>, value: Expr, c: Choice, stores: set<string>)
    requires StoredInTargets(targets) + StoredInExpr(value) <= stores
    ensures Step(g, Hits(g, MissedInTargets(targets) + Missed(value), DeferredInTargets(targets) + Deferred(value)),
                 stores, s, AssignRun(s, site, targets, value, c).state)
  {
    var all := Hits(g, MissedInTargets(targets) + Missed(value), DeferredInTargets(targets) + Deferred(value));
    var own := Hits(g, Missed(value), Deferred(value));
    var evaluated := Eval(s, BoundByExpr(value), Deferred(value), c.during);
    EvalStep(g, s, BoundByExpr(value), Deferred(value), c.during, Missed(value), stores);
    StepWider(g, own, all, stores, stores, s, evaluated);
    if c.pick != 0 {
      var k := if c.pick - 1 < |targets| then c.pick - 1 else |targets|;
      var done := BindTargets(evaluated, site, value, targets, k, c.during);
      TargetsStep(g, evaluated, site, value, targets, k, c.during, stores);
      StepThen(g, all, Hits(g, MissedInTargets(targets), DeferredInTargets(targets)), stores, s, evaluated, done);
      if k < |targets| {
        var t := targets[k];
        TargetAt(targets, k);
        PartsStored(t);
        EvalStep(g, done, BoundByParts(t), DeferredInTarget(t), c.during, MissedInTarget(t), stores);
        StepThen(g, all, Hits(g, MissedInTarget(t), DeferredInTarget(t)), stores, s, done,
                 Eval(done, BoundByParts(t), DeferredInTarget(t), c.during));
      }
    }
  }

  // ----- statements without blocks -----

  lemma CoverSimple(g: Goal, s: Stmt, start: State, now: State, binds: set<string>, defers: set<string>,
                    caught: set<string>, c: Choice, after: Status)
    requires Step(g, false, Stored(s), start, now) && binds <= Stored(s) + caught
    requires forall st :: MayFail(st, after) ==> Able(s, st, Just) && (Hits(g, caught, defers) ==> Able(s, st, g))
    ensures Covered(g, s, start, Simple(now, binds, defers, c, after))
  {
    var r := Simple(now, binds, defers, c, after);
    EvalStep(g, now, binds, defers, c.during, caught, Stored(s));
    StepThen(g, false, Hits(g, caught, defers), Stored(s), start, now, r.state);
    StepWider(g, Hits(g, caught, defers), Able(s, r.status, g), Stored(s), Stored(s), start, r.state);
  }

  lemma CoverAssign(g: Goal, s: Stmt, start: State, now: State, site: nat, targets: seq<Target>, value: Expr, c: Choice)
    requires Step(g, false, Stored(s), start, now) && StoredInTargets(targets) + StoredInExpr(value) <= Stored(s)
    requires forall st :: MayFail(st, Normal) ==>
               && Able(s, st, Just)
               && (Hits(g, MissedInTargets(targets) + Missed(value), DeferredInTargets(targets) + Deferred(value)) ==>
                     Able(s, st, g))
    ensures Covered(g, s, start, AssignRun(now, site, targets, value, c))
  {
    var r := AssignRun(now, site, targets, value, c);
    var hit := Hits(g, MissedInTargets(targets) + Missed(value), DeferredInTargets(targets) + Deferred(value));
    AssignStep(g, now, site, targets, value, c, Stored(s));
    StepThen(g, false, hit, Stored(s), start, now, r.state);
    assert MayFail(r.status, Normal);
    StepWider(g, hit, Able(s, r.status, g), Stored(s), Stored(s), start, r.state);
  }

  lemma CoverPlain(g: Goal, s: Stmt, start: State, c: Choice)
    requires !s.Compound?
    ensures Covered(g, s, start, ExecStmt(s, start, c))
  {
    var now := Begin(start, c.before);
    BeginStep(g, start, c.before, Stored(s));
    match s
    case Assign(site, targets, value) => CoverAssign(g, s, start, now, site, targets, value, c);
    case AnnAssign(site, target, annotated) =>
      if annotated.Some? {
        assert StoredInTargets([target]) == StoredInTarget(target) + StoredInTargets([target][1..]) == StoredInTarget(target);
        assert DeferredInTargets([target]) == DeferredInTarget(target) + DeferredInTargets([target][1..]) == DeferredInTarget(target);
        CoverAssign(g, s, start, now, site, [target], annotated.value, c);
      } else {
        PartsStored(target);
        CoverSimple(g, s, start, now, BoundByParts(target), DeferredInTarget(target), MissedInTarget(target), c,
                    Normal);
      }
    case Plain(stores, parts) => CoverSimple(g, s, start, now, stores + BoundByExprs(parts), DeferredAll(parts),
                                             MissedAll(parts), c, Normal);
    case Jump(kind, parts) => CoverSimple(g, s, start, now, BoundByExprs(parts), DeferredAll(parts), MissedAll(parts),
                                          c, JumpStatus(kind));
    case Scope(name, evaluated, nonlocals) =>
      CoverSimple(g, s, start, now, {name} + BoundByExprs(evaluated), DeferredAll(evaluated) + nonlocals,
                  BoundByExprs(evaluated), c, Normal);
    case Declare(_) =>
    case Assert(_, test) => CoverSimple(g, s, start, now, BoundByExpr(test), Deferred(test), Missed(test), c, Normal);
  }

  // ----- blocks -----

  lemma BlockWithin(s: Stmt, b: nat)
    ensures StoredInBlock(BlockAt(s, b)) <= Stored(s)
  {
    if s.Compound? && b < |s.blocks| {
      StoredInBlocksAt(s.blocks, b);
    }
  }

  lemma {:induction false} CoverStmt(g: Goal, s: Stmt, start: State, c: Choice)
    ensures Covered(g, s, start, ExecStmt(s, start, c))
    decreases c, 3, 0
  {
    if s.Compound? {
      CoverCompound(g, s, start, c);
    } else {
      CoverPlain(g, s, start, c);
    }
  }

  lemma {:induction false} CoverBlock(g: Goal, ss: Block, start: State, c: Choice, i: nat)
    requires i <= |ss|
    ensures var e := RunBlock(ss, start, c, i);
            EndCovered(g, AbleBlock(ss, i, e.status, Just), AbleBlock(ss, i, e.status, g), StoredInBlock(ss), start,
                       e.state, e.status)
    decreases c, 0, i
  {
    if i > 0 {
      CoverBlock(g, ss, start, c, i - 1);
      var before := RunBlock(ss, start, c, i - 1);
      if before.status == Normal && i - 1 < |c.subs| {
        var r := ExecStmt(ss[i - 1], before.state, c.subs[i - 1]);
        CoverStmt(g, ss[i - 1], before.state, c.subs[i - 1]);
        if r.status != Stopped {
          StoredInBlockAt(ss, i - 1);
          StepWider(g, Able(ss[i - 1], r.status, g), Able(ss[i - 1], r.status, g), Stored(ss[i - 1]),
                    StoredInBlock(ss), before.state, r.state);
          StepThen(g, AbleBlock(ss, i - 1, Normal, g), Able(ss[i - 1], r.status, g), StoredInBlock(ss), start,
                   before.state, r.state);
          StepWider(g, AbleBlock(ss, i - 1, Normal, g) || Able(ss[i - 1], r.status, g), AbleBlock(ss, i, r.status, g),
                    StoredInBlock(ss), StoredInBlock(ss), start, r.state);
        }
      }
    }
  }

  lemma {:induction false} CoverWhole(g: Goal, s: Stmt, b: nat, now: State, c: Choice)
    ensures var e := WholeBlock(s, b, now, c);
            EndCovered(g, AbleIn(s, b, e.status, Just), AbleIn(s, b, e.status, g), Stored(s), now, e.state, e.status)
    decreases c, 1, 0
  {
    var e := WholeBlock(s, b, now, c);
    CoverBlock(g, BlockAt(s, b), now, c, |BlockAt(s, b)|);
    BlockWithin(s, b);
    if e.status != Stopped {
      StepWider(g, AbleIn(s, b, e.status, g), AbleIn(s, b, e.status, g), StoredInBlock(BlockAt(s, b)), Stored(s), now,
                e.state);
    }
  }

  /** A block after a head: from the start of the statement to the end of the block. */
  lemma {:induction false} CoverAfter(g: Goal, hit: bool, s: Stmt, b: nat, start: State, now: State, c: Choice)
    requires Step(g, hit, Stored(s), start, now)
    ensures var e := WholeBlock(s, b, now, c);
            EndCovered(g, AbleIn(s, b, e.status, Just), AbleAfter(hit, s, b, e.status, g), Stored(s), start, e.state,
                       e.status)
    decreases c, 1, 1
  {
    var e := WholeBlock(s, b, now, c);
    CoverWhole(g, s, b, now, c);
    if e.status != Stopped {
      StepThen(g, hit, AbleIn(s, b, e.status, g), Stored(s), start, now, e.state);
      StepWider(g, hit || AbleIn(s, b, e.status, g), AbleAfter(hit, s, b, e.status, g), Stored(s), Stored(s), start,
                e.state);
    }
  }

  /** `Enter`: the one entry and the end of the block. */
  lemma {:induction false} CoverEnter(g: Goal, hit: bool, s: Stmt, b: nat, start: State, now: State, c: Choice)
    requires Step(g, hit, Stored(s), start, now)
    ensures var r := Enter(s, b, now, c);
            && EndCovered(g, AbleIn(s, b, r.status, Just), AbleAfter(hit, s, b, r.status, g), Stored(s), start,
                          r.state, r.status)
            && r.tests == [] && forall i :: 0 <= i < |r.entries| ==>
                r.entries[i].block == b && r.entries[i].state == now
    decreases c, 1, 1
  {
    if c.subs != [] {
      CoverAfter(g, hit, s, b, start, now, c.subs[0]);
    }
  }

  // ----- compound statements -----

  lemma {:induction false} CoverCompound(g: Goal, s: Stmt, start: State, c: Choice)
    requires s.Compound?
    ensures Covered(g, s, start, ExecStmt(s, start, c))
    decreases c, 2, 2
  {
    var now := Begin(start, c.before);
    BeginStep(g, start, c.before, Stored(s));
    match s.head {
      case If(_, test) => CoverIf(g, s, test, start, now, c);
      case While(_, _) => CoverWhile(g, s, start, now, c);
      case For(_, iter) => CoverFor(g, s, iter, start, now, c);
      case With(items) => CoverWith(g, s, items, start, now, c);
      case Try(handlers) => CoverTry(g, s, handlers, start, now, c);
      case Match(subject, cases) => CoverMatch(g, s, subject, cases, start, now, c);
    }
  }

  /** From the start through the evaluation of a head. */
  lemma HeadStep(g: Goal, start: State, now: State, binds: set<string>, defers: set<string>, list: seq<string>,
                 caught: set<string>, stores: set<string>)
    returns (after: State)
    requires Step(g, false, stores, start, now) && binds <= stores + caught
    ensures after == Eval(now, binds, defers, list) && Step(g, Hits(g, caught, defers), stores, start, after)
  {
    after := Eval(now, binds, defers, list);
    EvalStep(g, now, binds, defers, list, caught, stores);
    StepThen(g, false, Hits(g, caught, defers), stores, start, now, after);
  }

  lemma {:induction false} CoverIf(g: Goal, s: Stmt, test: Expr, start: State, now: State, c: Choice)
    requires s.Compound? && s.head.If? && s.head.test == test && Step(g, false, Stored(s), start, now)
    ensures Covered(g, s, start, IfRun(s, test, now, c))
    decreases c, 1, 2
  {
    var hit := Hits(g, Missed(test), Deferred(test));
    var after := HeadStep(g, start, now, BoundByExpr(test), Deferred(test), c.during, Missed(test), Stored(s));
    var b := if c.pick == 1 then 0 else 1;
    CoverEnter(g, hit, s, b, start, after, c);
    var r := IfRun(s, test, now, c);
    AbleIf(s, r.status, g);
    AbleIf(s, r.status, Just);
    AfterJust(true, s, b, r.status);
    if r.status != Stopped {
      StepWider(g, if c.pick == 0 then hit else AbleAfter(hit, s, b, r.status, g), Able(s, r.status, g), Stored(s),
                Stored(s), start, r.state);
    }
  }

  lemma {:induction false} CoverWith(g: Goal, s: Stmt, items: seq<Item>, start: State, now: State, c: Choice)
    requires s.Compound? && s.head == With(items) && Step(g, false, Stored(s), start, now)
    ensures Covered(g, s, start, WithRun(s, items, now, c))
    decreases c, 1, 2
  {
    var hit := Hits(g, MissedInItems(items), DeferredInItems(items));
    var after := HeadStep(g, start, now, BoundByItems(items), DeferredInItems(items), c.during, MissedInItems(items),
                          Stored(s));
    CoverEnter(g, hit, s, 0, start, after, c);
    var r, inner := WithRun(s, items, now, c), Enter(s, 0, after, c);
    AbleWith(s, r.status, g);
    AbleWith(s, r.status, Just);
    AfterJust(true, s, 0, inner.status);
    if r.status != Stopped {
      StepWider(g, if c.pick == 0 then hit else AbleAfter(hit, s, 0, inner.status, g), Able(s, r.status, g), Stored(s),
                Stored(s), start, r.state);
    }
  }

  lemma {:induction false} CasesStored(cases: seq<CaseHead>, k: nat)
    requires k <= |cases|
    ensures StoredInCases(cases[..k]) <= StoredInCases(cases)
  {
    if k > 0 {
      assert cases[..k][1..] == cases[1..][..k - 1];
      CasesStored(cases[1..], k - 1);
    }
  }

  lemma TriedStep(g: Goal, s: Stmt, subject: Expr, cases: seq<CaseHead>, start: State, now: State, k: nat,
                  list: seq<string>)
    requires s.Compound? && s.head == Match(subject, cases) && k <= |cases| && Step(g, false, Stored(s), start, now)
    ensures Step(g, TriedHits(g, subject, cases, k), Stored(s), start, Tried(now, subject, cases, k, list))
  {
    CasesStored(cases, k);
    var after := HeadStep(g, start, now, BoundByExpr(subject) + BoundByCases(cases[..k]),
                          Deferred(subject) + DeferredInCases(cases[..k]), list,
                          Missed(subject) + MissedInCases(cases[..k]), Stored(s));
  }

  lemma {:induction false} CoverCase(g: Goal, s: Stmt, subject: Expr, cases: seq<CaseHead>, start: State, now: State,
                                     c: Choice)
    requires s.Compound? && s.head == Match(subject, cases) && Step(g, false, Stored(s), start, now)
    requires 0 < c.pick <= |cases|
    ensures Covered(g, s, start, Enter(s, c.pick - 1, Tried(now, subject, cases, c.pick, c.during), c))
    decreases c, 1, 2
  {
    var k, hit := c.pick - 1, TriedHits(g, subject, cases, c.pick);
    var after := Tried(now, subject, cases, c.pick, c.during);
    TriedStep(g, s, subject, cases, start, now, c.pick, c.during);
    CoverEnter(g, hit, s, k, start, after, c);
    var r := Enter(s, k, after, c);
    if r.status != Stopped {
      AfterJust(true, s, k, r.status);
      CaseCounts(s, k, r.status, Just);
      CaseCounts(s, k, r.status, g);
      StepWider(g, AbleAfter(hit, s, k, r.status, g), Able(s, r.status, g), Stored(s), Stored(s), start, r.state);
    }
    CaseEntered(s, k, g);
    CaseEntered(s, k, Just);
    OneEntryCovered(g, s, k, start, after, r);
  }

  lemma CaseEntered(s: Stmt, k: nat, g: Goal)
    requires s.Compound? && s.head.Match? && k < |s.head.cases|
    ensures AbleEnter(s, k, g) <==> TriedHits(g, s.head.subject, s.head.cases, k + 1)
  {
  }

  /** A run that enters one block once. */
  lemma OneEntryCovered(g: Goal, s: Stmt, b: nat, start: State, now: State, r: Run)
    requires EndCovered(g, Able(s, r.status, Just), Able(s, r.status, g), Stored(s), start, r.state, r.status)
    requires r.tests == []
    requires forall i :: 0 <= i < |r.entries| ==> r.entries[i].block == b && r.entries[i].state == now
    requires AbleEnter(s, b, Just) && Step(g, AbleEnter(s, b, g), Stored(s), start, now)
    ensures Covered(g, s, start, r)
  {
  }

  lemma CaseCounts(s: Stmt, k: nat, st: Status, g: Goal)
    requires s.Compound? && s.head.Match? && k < |s.head.cases|
    ensures AbleAfter(TriedHits(g, s.head.subject, s.head.cases, k + 1), s, k, st, g) ==> Able(s, st, g)
  {
    AbleCase(s, k, st, g);
    AbleMatch(s, st, g);
    if CaseAble(s, s.head.subject, s.head.cases, k, st, g) {
      CaseIsAny(s, s.head.subject, s.head.cases, k, |s.head.cases|, st, g);
    }
  }

  lemma {:induction false} CoverMatch(g: Goal, s: Stmt, subject: Expr, cases: seq<CaseHead>, start: State, now: State,
                                      c: Choice)
    requires s.Compound? && s.head == Match(subject, cases) && Step(g, false, Stored(s), start, now)
    ensures Covered(g, s, start, MatchRun(s, subject, cases, now, c))
    decreases c, 1, 3
  {
    if c.pick != 0 && c.pick - 1 < |cases| {
      CoverCase(g, s, subject, cases, start, now, c);
    } else {
      var r := MatchRun(s, subject, cases, now, c);
      TriedStep(g, s, subject, cases, start, now, |cases|, c.during);
      AbleMatch(s, r.status, g);
      AbleMatch(s, r.status, Just);
      StepWider(g, TriedHits(g, subject, cases, |cases|), Able(s, r.status, g), Stored(s), Stored(s), start, r.state);
    }
  }

  // ----- loops -----

  ghost predicate LoopEntryCovered(g: Goal, s: Stmt, start: State, e: Entry)
    requires s.Compound? && (s.head.While? || s.head.For?)
  {
    e.block <= 1 && Step(g, LoopHits(s, e.block == 1, g) || Again(s, g), Stored(s), start, e.state)
  }

  ghost predicate LoopTestCovered(g: Goal, s: Stmt, start: State, k: nat, at: State)
    requires s.Compound? && (s.head.While? || s.head.For?)
  {
    (k > 0 ==> Again(s, Just)) && Step(g, k > 0 && Again(s, g), Stored(s), start, at)
  }

  ghost predicate LoopCovered(g: Goal, s: Stmt, start: State, r: Run)
    requires s.Compound? && (s.head.While? || s.head.For?)
  {
    && EndCovered(g, LoopAble(s, r.status, Just), LoopAble(s, r.status, g), Stored(s), start, r.state, r.status)
    && (forall i :: 0 <= i < |r.entries| ==> LoopEntryCovered(g, s, start, r.entries[i]))
    && (forall k :: 0 <= k < |r.tests| ==> LoopTestCovered(g, s, start, k, r.tests[k]))
  }

  lemma LoopStored(s: Stmt, exhausted: bool)
    requires s.Compound? && (s.head.While? || s.head.For?)
    ensures LoopMisses(s.head, exhausted) <= LoopBinds(s.head, exhausted) <= Stored(s) + LoopMisses(s.head, exhausted)
  {
  }

  /** After an iteration that went on: the rest of the loop, seen from its start. */
  lemma LoopGoesOn(g: Goal, s: Stmt, start: State, next: State, tests: seq<State>, entry: Entry, rest: Run)
    requires s.Compound? && (s.head.While? || s.head.For?)
    requires Again(s, Just) && Step(g, Again(s, g), Stored(s), start, next) && LoopCovered(g, s, next, rest)
    requires LoopEntryCovered(g, s, start, entry)
    requires |tests| <= 1 && forall i :: 0 <= i < |tests| ==> Step(g, false, Stored(s), start, tests[i])
    requires tests == [] ==> rest.tests == []
    ensures LoopCovered(g, s, start, Run(rest.state, rest.status, tests + rest.tests, [entry] + rest.entries))
  {
    var r := Run(rest.state, rest.status, tests + rest.tests, [entry] + rest.entries);
    if rest.status != Stopped {
      StepThen(g, Again(s, g), LoopAble(s, rest.status, g), Stored(s), start, next, rest.state);
      AbleLoop(s, rest.status, Just);
      AbleLoop(s, rest.status, g);
      StepWider(g, Again(s, g) || LoopAble(s, rest.status, g), LoopAble(s, rest.status, g), Stored(s), Stored(s),
                start, rest.state);
    }
    forall i | 0 <= i < |r.entries| ensures LoopEntryCovered(g, s, start, r.entries[i]) {
      if i > 0 {
        var e := rest.entries[i - 1];
        assert LoopEntryCovered(g, s, next, e);
        StepThen(g, Again(s, g), LoopHits(s, e.block == 1, g) || Again(s, g), Stored(s), start, next, e.state);
      }
    }
    forall k | 0 <= k < |r.tests| ensures LoopTestCovered(g, s, start, k, r.tests[k]) {
      if k >= |tests| {
        var at := rest.tests[k - |tests|];
        assert LoopTestCovered(g, s, next, k - |tests|, at);
        StepThen(g, Again(s, g), k > |tests| && Again(s, g), Stored(s), start, next, at);
      }
    }
  }

  /** One iteration up to the end of the block it enters. */
  lemma {:induction false} CoverIteration(g: Goal, s: Stmt, start: State, now: State, it: Choice)
    returns (after: State, r: Ending)
    requires s.Compound? && (s.head.While? || s.head.For?) && it.pick > 0 && it.subs != []
    requires Step(g, false, Stored(s), start, now)
    ensures var exhausted := it.pick > 1;
            var b := if exhausted then 1 else 0;
            && after == Eval(now, LoopBinds(s.head, exhausted), LoopDefers(s.head, exhausted), it.during)
            && r == WholeBlock(s, b, after, it.subs[0])
            && Step(g, LoopHits(s, exhausted, g), Stored(s), start, after)
            && EndCovered(g, AbleIn(s, b, r.status, Just), AbleAfter(LoopHits(s, exhausted, g), s, b, r.status, g),
                          Stored(s), start, r.state, r.status)
    decreases it, 2, 1
  {
    var exhausted := it.pick > 1;
    LoopStored(s, exhausted);
    after := HeadStep(g, start, now, LoopBinds(s.head, exhausted), LoopDefers(s.head, exhausted), it.during,
                      LoopMisses(s.head, exhausted), Stored(s));
    CoverAfter(g, LoopHits(s, exhausted, g), s, if exhausted then 1 else 0, start, after, it.subs[0]);
    r := WholeBlock(s, if exhausted then 1 else 0, after, it.subs[0]);
  }

  /** An iteration that ends the loop. */
  lemma LoopEnds(g: Goal, s: Stmt, start: State, exhausted: bool, r: Ending, st: Status)
    requires s.Compound? && (s.head.While? || s.head.For?) && r.status != Stopped
    requires var b := if exhausted then 1 else 0;
             EndCovered(g, AbleIn(s, b, r.status, Just), AbleAfter(LoopHits(s, exhausted, g), s, b, r.status, g),
                        Stored(s), start, r.state, r.status)
    requires exhausted ==> st == r.status
    requires !exhausted ==> r.status != Normal && r.status != Continued
    requires !exhausted ==> st == if r.status == Broke then Normal else r.status
    ensures EndCovered(g, LoopAble(s, st, Just), LoopAble(s, st, g), Stored(s), start, r.state, st)
  {
    var b := if exhausted then 1 else 0;
    AbleLoop(s, st, g);
    AbleLoop(s, st, Just);
    AbleLoopEnd(s, st, g);
    AbleLoopEnd(s, st, Just);
    AfterJust(true, s, b, r.status);
    StepWider(g, AbleAfter(LoopHits(s, exhausted, g), s, b, r.status, g), LoopAble(s, st, g), Stored(s), Stored(s),
              start, r.state);
  }

  lemma LoopFails(g: Goal, s: Stmt, start: State, now: State, it: Choice)
    requires s.Compound? && (s.head.While? || s.head.For?) && it.pick == 0 && Step(g, false, Stored(s), start, now)
    ensures var after := Eval(now, LoopBinds(s.head, false), LoopDefers(s.head, false), it.during);
            EndCovered(g, LoopAble(s, Raised, Just), LoopAble(s, Raised, g), Stored(s), start, after, Raised)
  {
    LoopStored(s, false);
    var after := HeadStep(g, start, now, LoopBinds(s.head, false), LoopDefers(s.head, false), it.during,
                          LoopMisses(s.head, false), Stored(s));
    AbleLoop(s, Raised, g);
    AbleLoop(s, Raised, Just);
    AbleLoopEnd(s, Raised, g);
    AbleLoopEnd(s, Raised, Just);
    StepWider(g, LoopHits(s, false, g), LoopAble(s, Raised, g), Stored(s), Stored(s), start, after);
  }

  lemma LoopOnce(g: Goal, s: Stmt, start: State, now: State, after: State, r: Ending, it: Choice)
    requires s.Compound? && (s.head.While? || s.head.For?) && it.subs != []
    requires Step(g, false, Stored(s), start, now) && Step(g, LoopHits(s, it.pick > 1, g), Stored(s), start, after)
    requires it.pick > 1 || (r.status != Normal && r.status != Continued)
    requires var b := if it.pick > 1 then 1 else 0;
             EndCovered(g, AbleIn(s, b, r.status, Just), AbleAfter(LoopHits(s, it.pick > 1, g), s, b, r.status, g),
                        Stored(s), start, r.state, r.status)
    ensures LoopCovered(g, s, start, Run(r.state, if it.pick <= 1 && r.status == Broke then Normal else r.status,
                                         if s.head.While? then [now] else [], [Entry(if it.pick > 1 then 1 else 0,
                                                                                     after, it.subs[0])]))
  {
    StepWider(g, LoopHits(s, it.pick > 1, g), LoopHits(s, it.pick > 1, g) || Again(s, g), Stored(s), Stored(s), start,
              after);
    if r.status != Stopped {
      LoopEnds(g, s, start, it.pick > 1, r, if it.pick <= 1 && r.status == Broke then Normal else r.status);
    }
  }

  lemma IterationGoesOn(g: Goal, s: Stmt, start: State, r: Ending)
    requires s.Compound? && (s.head.While? || s.head.For?) && (r.status == Normal || r.status == Continued)
    requires EndCovered(g, AbleIn(s, 0, r.status, Just), AbleAfter(LoopHits(s, false, g), s, 0, r.status, g),
                        Stored(s), start, r.state, r.status)
    ensures Again(s, Just) && Step(g, Again(s, g), Stored(s), start, r.state)
  {
    AbleAgain(s, g);
    AbleAgain(s, Just);
    AfterJust(true, s, 0, r.status);
    StepWider(g, AbleAfter(LoopHits(s, false, g), s, 0, r.status, g), Again(s, g), Stored(s), Stored(s), start,
              r.state);
  }

  lemma {:induction false} CoverLoop(g: Goal, s: Stmt, start: State, c: Choice, k: nat)
    requires s.Compound? && (s.head.While? || s.head.For?)
    ensures LoopCovered(g, s, start, Loop(s, start, c, k)) && (s.head.For? ==> Loop(s, start, c, k).tests == [])
    decreases c, 1, if k < |c.subs| then |c.subs| - k else 0
  {
    if k < |c.subs| {
      var it := c.subs[k];
      var now := Begin(start, it.before);
      BeginStep(g, start, it.before, Stored(s));
      if it.pick == 0 {
        LoopFails(g, s, start, now, it);
      } else if it.subs != [] {
        var after, r := CoverIteration(g, s, start, now, it);
        if it.pick > 1 || (r.status != Normal && r.status != Continued) {
          LoopOnce(g, s, start, now, after, r, it);
        } else {
          IterationGoesOn(g, s, start, r);
          CoverLoop(g, s, r.state, c, k + 1);
          StepWider(g, LoopHits(s, false, g), LoopHits(s, false, g) || Again(s, g), Stored(s), Stored(s), start, after);
          LoopGoesOn(g, s, start, r.state, if s.head.While? then [now] else [], Entry(0, after, it.subs[0]),
                     Loop(s, r.state, c, k + 1));
        }
      }
    }
  }

  lemma {:induction false} CoverWhile(g: Goal, s: Stmt, start: State, now: State, c: Choice)
    requires s.Compound? && s.head.While? && Step(g, false, Stored(s), start, now)
    ensures Covered(g, s, start, Loop(s, now, c, 0))
    decreases c, 1, |c.subs| + 1
  {
    var r := Loop(s, now, c, 0);
    CoverLoop(g, s, now, c, 0);
    AbleWhile(s, r.status, g);
    AbleWhile(s, r.status, Just);
    if r.status != Stopped {
      StepThen(g, false, LoopAble(s, r.status, g), Stored(s), start, now, r.state);
    }
    forall i | 0 <= i < |r.entries| ensures EntryCovered(g, s, start, r.entries[i]) {
      var e := r.entries[i];
      assert LoopEntryCovered(g, s, now, e);
      StepThen(g, false, LoopHits(s, e.block == 1, g) || Again(s, g), Stored(s), start, now, e.state);
    }
    forall k | 0 <= k < |r.tests| ensures TestCovered(g, s, start, k, r.tests[k]) {
      assert LoopTestCovered(g, s, now, k, r.tests[k]);
      StepThen(g, false, k > 0 && Again(s, g), Stored(s), start, now, r.tests[k]);
    }
  }

  lemma {:induction false} CoverFor(g: Goal, s: Stmt, iter: Expr, start: State, now: State, c: Choice)
    requires s.Compound? && s.head.For? && s.head.iter == iter && Step(g, false, Stored(s), start, now)
    ensures Covered(g, s, start, ForRun(s, iter, now, c))
    decreases c, 1, |c.subs| + 1
  {
    var hit := Hits(g, Missed(iter), Deferred(iter));
    var after := HeadStep(g, start, now, BoundByExpr(iter), Deferred(iter), c.during, Missed(iter), Stored(s));
    var r := ForRun(s, iter, now, c);
    AbleFor(s, r.status, g);
    AbleFor(s, r.status, Just);
    if c.pick == 0 {
      StepWider(g, hit, Able(s, r.status, g), Stored(s), Stored(s), start, r.state);
    } else {
      CoverLoop(g, s, after, c, 0);
      if r.status != Stopped {
        StepThen(g, hit, LoopAble(s, r.status, g), Stored(s), start, after, r.state);
        StepWider(g, hit || LoopAble(s, r.status, g), Able(s, r.status, g), Stored(s), Stored(s), start, r.state);
      }
      forall i | 0 <= i < |r.entries| ensures EntryCovered(g, s, start, r.entries[i]) {
        var e := r.entries[i];
        assert LoopEntryCovered(g, s, after, e);
        StepThen(g, hit, LoopHits(s, e.block == 1, g) || Again(s, g), Stored(s), start, after, e.state);
      }
    }
  }

  // ----- try -----

  lemma {:induction false} HandlersStored(handlers: seq<HandlerHead>, k: nat)
    requires k <= |handlers|
    ensures StoredInHandlers(handlers[..k]) <= StoredInHandlers(handlers)
  {
    if k > 0 {
      assert handlers[..k][1..] == handlers[1..][..k - 1];
      HandlersStored(handlers[1..], k - 1);
    }
  }

  lemma AskedStep(g: Goal, s: Stmt, handlers: seq<HandlerHead>, now: State, k: nat, list: seq<string>)
    requires s.Compound? && s.head == Try(handlers) && k <= |handlers|
    ensures Step(g, AskedHits(g, handlers, k), Stored(s), now, Asked(now, handlers, k, list))
  {
    HandlersStored(handlers, k);
    EvalStep(g, now, BoundByHandlers(handlers[..k]), DeferredInHandlers(handlers[..k]), list,
             MissedInHandlers(handlers[..k]), Stored(s));
  }

  /** A handler's name is unbound when the handler ends. */
  lemma {:induction false} OwnNameStored(handlers: seq<HandlerHead>, k: nat)
    requires k < |handlers|
    ensures OwnName(handlers[k]) <= StoredInHandlers(handlers)
  {
    if k > 0 {
      OwnNameStored(handlers[1..], k - 1);
    }
  }

  lemma LeaveStep(g: Goal, s: Stmt, handlers: seq<HandlerHead>, now: State, k: nat, list: seq<string>)
    requires s.Compound? && s.head == Try(handlers) && 1 <= k <= |handlers|
    ensures Step(g, false, Stored(s), now, Eval(now, OwnName(handlers[k - 1]), {}, list))
  {
    OwnNameStored(handlers, k - 1);
    EvalStep(g, now, OwnName(handlers[k - 1]), {}, list, {}, Stored(s));
    StepNone(g, now, Eval(now, OwnName(handlers[k - 1]), {}, list), Stored(s));
  }

  lemma StepNone(g: Goal, a: State, b: State, stores: set<string>)
    requires Step(g, Hits(g, {}, {}), stores, a, b)
    ensures Step(g, false, stores, a, b)
  {
  }

  ghost predicate MiddleCovered(g: Goal, s: Stmt, handlers: seq<HandlerHead>, start: State, r: Run) {
    && EndCovered(g, MiddleAble(s, handlers, r.status, Just), MiddleAble(s, handlers, r.status, g), Stored(s), start,
                  r.state, r.status)
    && (forall i :: 0 <= i < |r.entries| ==> EntryCovered(g, s, start, r.entries[i]))
    && r.tests == []
  }

  lemma {:induction false} CoverHandled(g: Goal, s: Stmt, handlers: seq<HandlerHead>, start: State, body: Ending,
                                        c: Choice)
    requires s.Compound? && s.head == Try(handlers) && |c.subs| >= 3 && 1 <= c.pick <= |handlers|
    requires body.status == Raised
    requires EndCovered(g, AbleIn(s, 0, Raised, Just), AbleIn(s, 0, Raised, g), Stored(s), start, body.state, Raised)
    ensures var caught := Asked(body.state, handlers, c.pick, c.during);
            var r := WholeBlock(s, c.pick, caught, c.subs[1]);
            var left := Eval(r.state, OwnName(handlers[c.pick - 1]), {}, c.during);
            && EndCovered(g, MiddleAble(s, handlers, r.status, Just), MiddleAble(s, handlers, r.status, g), Stored(s),
                          start, left, r.status)
            && EntryCovered(g, s, start, Entry(c.pick, caught, c.subs[1]))
    decreases c, 1, 1
  {
    var k := c.pick;
    var caught := Asked(body.state, handlers, k, c.during);
    var r := WholeBlock(s, k, caught, c.subs[1]);
    var left := Eval(r.state, OwnName(handlers[k - 1]), {}, c.during);
    var hit := AskedHits(g, handlers, k);
    AskedStep(g, s, handlers, body.state, k, c.during);
    StepThen(g, AbleIn(s, 0, Raised, g), hit, Stored(s), start, body.state, caught);
    CoverAfter(g, hit, s, k, body.state, caught, c.subs[1]);
    if r.status != Stopped {
      var t := AbleAfter(hit, s, k, r.status, g);
      StepThen(g, AbleIn(s, 0, Raised, g), t, Stored(s), start, body.state, r.state);
      LeaveStep(g, s, handlers, r.state, k, c.during);
      StepThen(g, AbleIn(s, 0, Raised, g) || t, false, Stored(s), start, r.state, left);
      HandlerMiddle(s, handlers, k, r.status, g);
      HandlerMiddle(s, handlers, k, r.status, Just);
      AfterJust(true, s, k, r.status);
      StepWider(g, AbleIn(s, 0, Raised, g) || t || false, MiddleAble(s, handlers, r.status, g), Stored(s), Stored(s),
                start, left);
    }
  }

  lemma HandlerMiddle(s: Stmt, handlers: seq<HandlerHead>, k: nat, st: Status, g: Goal)
    requires 1 <= k <= |handlers|
    ensures Both(AbleIn(s, 0, Raised, Just), AbleIn(s, 0, Raised, g), AbleIn(s, k, st, Just),
                 AbleAfter(AskedHits(g, handlers, k), s, k, st, g))
            ==> MiddleAble(s, handlers, st, g)
  {
    AbleHandler(s, handlers, k, st, g);
    AbleMiddle(s, handlers, st, g);
    if HandlerAble(s, handlers, k, st, g) {
      HandlerIsAny(s, handlers, k, |handlers|, st, g);
    }
  }

  lemma {:induction false} CoverGuarded(g: Goal, s: Stmt, handlers: seq<HandlerHead>, start: State, c: Choice)
    requires s.Compound? && s.head == Try(handlers) && |c.subs| >= 3
    ensures MiddleCovered(g, s, handlers, start, Guarded(s, handlers, start, c))
    decreases c, 1, 2
  {
    var body := WholeBlock(s, 0, start, c.subs[0]);
    CoverWhole(g, s, 0, start, c.subs[0]);
    assert Step(g, false, Stored(s), start, start);
    assert EntryCovered(g, s, start, Entry(0, start, c.subs[0]));
    if body.status == Raised && 1 <= c.pick <= |handlers| {
      CoverHandled(g, s, handlers, start, body, c);
    } else if body.status == Raised {
      CoverUncaught(g, s, handlers, start, body, c);
    } else if body.status == Normal {
      CoverElse(g, s, handlers, start, body, c);
    } else if body.status != Stopped {
      AbleMiddle(s, handlers, body.status, g);
      AbleMiddle(s, handlers, body.status, Just);
      StepWider(g, AbleIn(s, 0, body.status, g), MiddleAble(s, handlers, body.status, g), Stored(s), Stored(s), start,
                body.state);
    }
  }

  lemma CoverUncaught(g: Goal, s: Stmt, handlers: seq<HandlerHead>, start: State, body: Ending, c: Choice)
    requires s.Compound? && s.head == Try(handlers) && body.status == Raised
    requires EndCovered(g, AbleIn(s, 0, Raised, Just), AbleIn(s, 0, Raised, g), Stored(s), start, body.state, Raised)
    ensures EndCovered(g, MiddleAble(s, handlers, Raised, Just), MiddleAble(s, handlers, Raised, g), Stored(s), start,
                       Asked(body.state, handlers, |handlers|, c.during), Raised)
  {
    var end := Asked(body.state, handlers, |handlers|, c.during);
    var hit := AskedHits(g, handlers, |handlers|);
    AskedStep(g, s, handlers, body.state, |handlers|, c.during);
    StepThen(g, AbleIn(s, 0, Raised, g), hit, Stored(s), start, body.state, end);
    AbleMiddle(s, handlers, Raised, g);
    AbleMiddle(s, handlers, Raised, Just);
    StepWider(g, AbleIn(s, 0, Raised, g) || hit, MiddleAble(s, handlers, Raised, g), Stored(s), Stored(s), start, end);
  }

  lemma {:induction false} CoverElse(g: Goal, s: Stmt, handlers: seq<HandlerHead>, start: State, body: Ending,
                                     c: Choice)
    requires s.Compound? && s.head == Try(handlers) && |c.subs| >= 3 && body.status == Normal
    requires EndCovered(g, AbleIn(s, 0, Normal, Just), AbleIn(s, 0, Normal, g), Stored(s), start, body.state, Normal)
    ensures var b := |handlers| + 1;
            var r := WholeBlock(s, b, body.state, c.subs[1]);
            && EndCovered(g, MiddleAble(s, handlers, r.status, Just), MiddleAble(s, handlers, r.status, g), Stored(s),
                          start, r.state, r.status)
            && EntryCovered(g, s, start, Entry(b, body.state, c.subs[1]))
    decreases c, 1, 1
  {
    var b := |handlers| + 1;
    var r := WholeBlock(s, b, body.state, c.subs[1]);
    CoverWhole(g, s, b, body.state, c.subs[1]);
    if r.status != Stopped {
      StepThen(g, AbleIn(s, 0, Normal, g), AbleIn(s, b, r.status, g), Stored(s), start, body.state, r.state);
      AbleMiddle(s, handlers, r.status, g);
      AbleMiddle(s, handlers, r.status, Just);
      StepWider(g, AbleIn(s, 0, Normal, g) || AbleIn(s, b, r.status, g), MiddleAble(s, handlers, r.status, g),
                Stored(s), Stored(s), start, r.state);
    }
  }

  lemma {:induction false} CoverFinally(g: Goal, s: Stmt, handlers: seq<HandlerHead>, now: State, middle: Run,
                                        c: Choice)
    requires s.Compound? && s.head == Try(handlers) && |c.subs| >= 3 && middle.status != Stopped
    requires MiddleCovered(g, s, handlers, now, middle)
    ensures var last := |handlers| + 2;
            var r := WholeBlock(s, last, middle.state, c.subs[2]);
            var st := if r.status == Normal then middle.status else r.status;
            && EndCovered(g, Able(s, st, Just), Able(s, st, g), Stored(s), now, r.state, st)
            && EntryCovered(g, s, now, Entry(last, middle.state, c.subs[2]))
    decreases c, 1, 1
  {
    var last := |handlers| + 2;
    var r := WholeBlock(s, last, middle.state, c.subs[2]);
    var st := if r.status == Normal then middle.status else r.status;
    var t := MiddleAble(s, handlers, middle.status, g);
    CoverWhole(g, s, last, middle.state, c.subs[2]);
    AnyMiddleIs(s, handlers, middle.status, Just);
    if t {
      AnyMiddleIs(s, handlers, middle.status, g);
    }
    StepWider(g, t, AnyMiddle(s, handlers, g), Stored(s), Stored(s), now, middle.state);
    if r.status != Stopped {
      StepThen(g, t, AbleIn(s, last, r.status, g), Stored(s), now, middle.state, r.state);
      AbleTry(s, st, g);
      AbleTry(s, st, Just);
      StepWider(g, t || AbleIn(s, last, r.status, g), Able(s, st, g), Stored(s), Stored(s), now, r.state);
    }
  }

  lemma EntryFromStart(g: Goal, s: Stmt, start: State, now: State, e: Entry)
    requires Step(g, false, Stored(s), start, now) && EntryCovered(g, s, now, e)
    ensures EntryCovered(g, s, start, e)
  {
    StepThen(g, false, AbleEnter(s, e.block, g), Stored(s), start, now, e.state);
  }

  lemma {:induction false} CoverTry(g: Goal, s: Stmt, handlers: seq<HandlerHead>, start: State, now: State, c: Choice)
    requires s.Compound? && s.head == Try(handlers) && Step(g, false, Stored(s), start, now)
    ensures Covered(g, s, start, TryRun(s, handlers, now, c))
    decreases c, 1, 3
  {
    if |c.subs| >= 3 {
      var middle := Guarded(s, handlers, now, c);
      var r := TryRun(s, handlers, now, c);
      CoverGuarded(g, s, handlers, now, c);
      if middle.status != Stopped {
        CoverFinally(g, s, handlers, now, middle, c);
        if r.status != Stopped {
          StepThen(g, false, Able(s, r.status, g), Stored(s), start, now, r.state);
        }
      }
      forall i | 0 <= i < |r.entries| ensures EntryCovered(g, s, start, r.entries[i]) {
        EntryFromStart(g, s, start, now, r.entries[i]);
      }
    }
  }
}
