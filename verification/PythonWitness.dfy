/** All that the syntax allows some run does: for every possible ending or entry there is a choice that takes it. */
module PythonWitness {
  import opened PythonSyntax
  import opened PythonRuns
  import opened PythonReach
  import opened PythonCover

  /** What a choice lists to meet the goal. */
  function Wanted(g: Goal): seq<string> { if g.Just? then [] else [g.n] }

  const NONE := Choice(0, [], [], [])

  // ----- meeting a goal in one evaluation -----

  lemma HeadMeets(g: Goal, now: State, binds: set<string>, defers: set<string>, caught: set<string>)
    requires caught <= binds
    ensures Hits(g, caught, defers) ==> Met(g, Eval(now, binds, defers, Wanted(g)))
  {
    if Hits(g, caught, defers) {
      EvalMeets(g, now, binds, defers, Wanted(g), caught);
    }
  }

  lemma TargetHits(g: Goal, s: State, site: nat, value: Expr, t: Target)
    requires g.Touching? && Hits(g, MissedInTarget(t), DeferredInTarget(t))
    ensures Met(g, BindTarget(s, site, value, t, Wanted(g)))
  {
    HeadMeets(g, s, BoundByTarget(t), DeferredInTarget(t), MissedInTarget(t));
  }

  /** Binding the first `k` targets meets what was met before, or what target `j` hits. */
  lemma {:induction false} TargetsMeet(g: Goal, s: State, site: nat, value: Expr, targets: seq<Target>, k: nat, j: nat)
    requires k <= |targets| && j < |targets| && Apart(g, StoredInTargets(targets))
    requires Met(g, s) || (j < k && Hits(g, MissedInTarget(targets[j]), DeferredInTarget(targets[j])))
    ensures Met(g, BindTargets(s, site, value, targets, k, Wanted(g)))
    decreases k
  {
    if k > 0 && g.Touching? {
      var before, t := BindTargets(s, site, value, targets, k - 1, Wanted(g)), targets[k - 1];
      if Met(g, s) || j < k - 1 {
        TargetsMeet(g, s, site, value, targets, k - 1, j);
        TargetAt(targets, k - 1);
        TargetStep(g, before, site, value, t, Wanted(g), StoredInTargets(targets));
        StepMet(g, Hits(g, MissedInTarget(t), DeferredInTarget(t)), StoredInTargets(targets), before,
                BindTarget(before, site, value, t, Wanted(g)));
      } else {
        TargetHits(g, before, site, value, t);
      }
    }
  }

  lemma {:induction false} TargetTouches(targets: seq<Target>, n: string) returns (j: nat)
    requires n in MissedInTargets(targets) + DeferredInTargets(targets)
    ensures j < |targets|
    ensures n in MissedInTargets(targets) && n !in DeferredInTargets(targets) ==> n in MissedInTarget(targets[j])
    ensures n in DeferredInTargets(targets) ==> n in DeferredInTarget(targets[j])
  {
    if n in DeferredInTarget(targets[0]) || (n !in DeferredInTargets(targets) && n in MissedInTarget(targets[0])) {
      j := 0;
    } else {
      var i := TargetTouches(targets[1..], n);
      j := i + 1;
    }
  }

  /** The assignment's targets after a value that met the goal, or one of them hits it. */
  lemma AchieveTargets(now: State, site: nat, targets: seq<Target>, value: Expr, st: Status, g: Goal, j: nat)
    returns (c: Choice)
    requires MayFail(st, Normal) && g.Touching? && Apart(g, StoredInTargets(targets))
    requires j < |targets| && Hits(g, MissedInTarget(targets[j]), DeferredInTarget(targets[j]))
    ensures c.before == [] && AssignRun(now, site, targets, value, c).status == st
    ensures Met(g, AssignRun(now, site, targets, value, c).state)
  {
    var evaluated := Eval(now, BoundByExpr(value), Deferred(value), Wanted(g));
    if st == Normal {
      c := Choice(|targets| + 1, [], Wanted(g), []);
      TargetsMeet(g, evaluated, site, value, targets, |targets|, j);
    } else {
      c := Choice(j + 1, [], Wanted(g), []);
      PartsStored(targets[j]);
      var done := BindTargets(evaluated, site, value, targets, j, Wanted(g));
      HeadMeets(g, done, BoundByParts(targets[j]), DeferredInTarget(targets[j]), MissedInTarget(targets[j]));
    }
  }

  lemma AchieveAssign(now: State, site: nat, targets: seq<Target>, value: Expr, st: Status, g: Goal) returns (c: Choice)
    requires MayFail(st, Normal) && Apart(g, StoredInTargets(targets))
    requires Hits(g, MissedInTargets(targets) + Missed(value), DeferredInTargets(targets) + Deferred(value))
    ensures c.before == [] && AssignRun(now, site, targets, value, c).status == st
    ensures Met(g, AssignRun(now, site, targets, value, c).state)
  {
    if Hits(g, Missed(value), Deferred(value)) {
      c := Choice(if st == Normal then |targets| + 1 else 0, [], Wanted(g), []);
      HeadMeets(g, now, BoundByExpr(value), Deferred(value), Missed(value));
      if targets != [] {
        TargetsMeet(g, Eval(now, BoundByExpr(value), Deferred(value), Wanted(g)), site, value, targets, |targets|, 0);
      }
    } else {
      var j := TargetTouches(targets, g.n);
      c := AchieveTargets(now, site, targets, value, st, g, j);
    }
  }

  lemma OneTarget(t: Target)
    ensures DeferredInTargets([t]) == DeferredInTarget(t) && MissedInTargets([t]) == MissedInTarget(t)
    ensures StoredInTargets([t]) == StoredInTarget(t)
  {
    assert [t][1..] == [];
  }

  lemma AchievePlain(s: Stmt, st: Status, g: Goal, start: State) returns (c: Choice)
    requires !s.Compound? && Able(s, st, g) && Apart(g, Stored(s))
    ensures ExecStmt(s, start, c).status == st && Met(g, ExecStmt(s, start, c).state)
  {
    assert Begin(start, []) == start;
    match s
    case Assign(site, targets, value) => c := AchieveAssign(start, site, targets, value, st, g);
    case AnnAssign(site, target, annotated) =>
      if annotated.Some? {
        OneTarget(target);
        c := AchieveAssign(start, site, [target], annotated.value, st, g);
      } else {
        PartsStored(target);
        HeadMeets(g, start, BoundByParts(target), DeferredInTarget(target), MissedInTarget(target));
        c := Choice(if st == Raised then 0 else 1, [], Wanted(g), []);
      }
    case Plain(stores, parts) =>
      HeadMeets(g, start, stores + BoundByExprs(parts), DeferredAll(parts), MissedAll(parts));
      c := Choice(if st == Raised then 0 else 1, [], Wanted(g), []);
    case Jump(kind, parts) =>
      HeadMeets(g, start, BoundByExprs(parts), DeferredAll(parts), MissedAll(parts));
      c := Choice(if st == Raised then 0 else 1, [], Wanted(g), []);
    case Scope(name, evaluated, nonlocals) =>
      HeadMeets(g, start, {name} + BoundByExprs(evaluated), DeferredAll(evaluated) + nonlocals,
                BoundByExprs(evaluated));
      c := Choice(if st == Raised then 0 else 1, [], Wanted(g), []);
    case Declare(_) => c := NONE;
    case Assert(_, test) =>
      HeadMeets(g, start, BoundByExpr(test), Deferred(test), Missed(test));
      c := Choice(if st == Raised then 0 else 1, [], Wanted(g), []);
  }

  // ----- blocks -----

  lemma {:induction false} SamePrefix(ss: Block, start: State, c: Choice, d: Choice, i: nat)
    requires i <= |ss| && i <= |c.subs| && i <= |d.subs| && c.subs[..i] == d.subs[..i]
    ensures RunBlock(ss, start, c, i) == RunBlock(ss, start, d, i)
    decreases i
  {
    if i > 0 {
      assert c.subs[..i - 1] == c.subs[..i][..i - 1] == d.subs[..i][..i - 1] == d.subs[..i - 1];
      SamePrefix(ss, start, c, d, i - 1);
      assert c.subs[i - 1] == c.subs[..i][i - 1] == d.subs[i - 1];
    }
  }

  /** A run that ends with `st` and, if the goal was met before or can be met, meets it. */
  lemma {:induction false} AchieveStmt(s: Stmt, st: Status, g: Goal, start: State) returns (c: Choice)
    requires st != Stopped && Able(s, st, g) && Apart(g, Stored(s))
    ensures ExecStmt(s, start, c).status == st && Met(g, ExecStmt(s, start, c).state)
    decreases s, 6
  {
    if s.Compound? {
      c := AchieveCompound(s, st, g, start);
    } else {
      c := AchievePlain(s, st, g, start);
    }
  }

  /** The goal was met before. */
  lemma {:induction false} KeepStmt(s: Stmt, st: Status, g: Goal, start: State) returns (c: Choice)
    requires st != Stopped && Able(s, st, Just) && Met(g, start) && Apart(g, Stored(s))
    ensures ExecStmt(s, start, c).status == st && Met(g, ExecStmt(s, start, c).state)
    decreases s, 7
  {
    c := AchieveStmt(s, st, Just, start);
    CoverStmt(g, s, start, c);
    StepMet(g, Able(s, st, g), Stored(s), start, ExecStmt(s, start, c).state);
  }

  ghost predicate BlockRuns(ss: Block, i: nat, st: Status, g: Goal, start: State, c: Choice)
    requires i <= |ss|
  {
    |c.subs| == i && RunBlock(ss, start, c, i).status == st && Met(g, RunBlock(ss, start, c, i).state)
  }

  lemma BlockMore(ss: Block, i: nat, g: Goal, start: State, c: Choice, d: Choice, st: Status) returns (e: Choice)
    requires 0 < i <= |ss| && |c.subs| == i - 1 && RunBlock(ss, start, c, i - 1).status == Normal
    requires var r := ExecStmt(ss[i - 1], RunBlock(ss, start, c, i - 1).state, d); r.status == st && Met(g, r.state)
    ensures BlockRuns(ss, i, st, g, start, e)
  {
    e := c.(subs := c.subs + [d]);
    assert e.subs[..i - 1] == c.subs[..i - 1];
    SamePrefix(ss, start, c, e, i - 1);
  }

  lemma BlockEnded(ss: Block, i: nat, g: Goal, start: State, c: Choice, st: Status) returns (e: Choice)
    requires 0 < i <= |ss| && st != Normal && BlockRuns(ss, i - 1, st, g, start, c)
    ensures BlockRuns(ss, i, st, g, start, e)
  {
    e := c.(subs := c.subs + [NONE]);
    assert e.subs[..i - 1] == c.subs[..i - 1];
    SamePrefix(ss, start, c, e, i - 1);
  }

  lemma {:induction false} AchieveBlock(ss: Block, i: nat, st: Status, g: Goal, start: State) returns (c: Choice)
    requires i <= |ss| && st != Stopped && AbleBlock(ss, i, st, g) && Apart(g, StoredInBlock(ss))
    ensures BlockRuns(ss, i, st, g, start, c)
    decreases ss, i
  {
    if i == 0 {
      c := NONE;
    } else if st != Normal && AbleBlock(ss, i - 1, st, g) {
      var d := AchieveBlock(ss, i - 1, st, g, start);
      c := BlockEnded(ss, i, g, start, d, st);
    } else {
      StoredInBlockAt(ss, i - 1);
      if AbleBlock(ss, i - 1, Normal, g) && Able(ss[i - 1], st, Just) {
        var d := AchieveBlock(ss, i - 1, Normal, g, start);
        var e := KeepStmt(ss[i - 1], st, g, RunBlock(ss, start, d, i - 1).state);
        c := BlockMore(ss, i, g, start, d, e, st);
      } else {
        var d := AchieveBlock(ss, i - 1, Normal, Just, start);
        var e := AchieveStmt(ss[i - 1], st, g, RunBlock(ss, start, d, i - 1).state);
        c := BlockMore(ss, i, g, start, d, e, st);
      }
    }
  }

  lemma {:induction false} AchieveIn(s: Stmt, b: nat, st: Status, g: Goal, now: State) returns (c: Choice)
    requires st != Stopped && AbleIn(s, b, st, g) && Apart(g, Stored(s))
    ensures WholeBlock(s, b, now, c).status == st && Met(g, WholeBlock(s, b, now, c).state)
    decreases s, 0
  {
    if s.Compound? && b < |s.blocks| {
      BlockWithin(s, b);
      c := AchieveBlock(s.blocks[b].stmts, |s.blocks[b].stmts|, st, g, now);
    } else {
      c := NONE;
    }
  }

  /** Block `b` after a head that met the goal if `hit`. */
  lemma {:induction false} AchieveAfter(hit: bool, s: Stmt, b: nat, st: Status, g: Goal, now: State) returns (c: Choice)
    requires st != Stopped && AbleAfter(hit, s, b, st, g) && Apart(g, Stored(s)) && (hit ==> Met(g, now))
    ensures WholeBlock(s, b, now, c).status == st && Met(g, WholeBlock(s, b, now, c).state)
    decreases s, 1
  {
    if AbleIn(s, b, st, g) {
      c := AchieveIn(s, b, st, g, now);
    } else {
      c := AchieveIn(s, b, st, Just, now);
      CoverWhole(g, s, b, now, c);
      StepMet(g, AbleIn(s, b, st, g), Stored(s), now, WholeBlock(s, b, now, c).state);
    }
  }

  // ----- compound statements -----

  lemma {:induction false} AchieveCompound(s: Stmt, st: Status, g: Goal, start: State) returns (c: Choice)
    requires s.Compound? && st != Stopped && Able(s, st, g) && Apart(g, Stored(s))
    ensures ExecStmt(s, start, c).status == st && Met(g, ExecStmt(s, start, c).state)
    decreases s, 5
  {
    assert Begin(start, []) == start;
    match s.head {
      case If(_, test) => c := AchieveIf(s, test, st, g, start);
      case While(_, _) => c := AchieveWhile(s, st, g, start);
      case For(_, iter) => c := AchieveFor(s, iter, st, g, start);
      case With(items) => c := AchieveWith(s, items, st, g, start);
      case Try(handlers) => c := AchieveTry(s, handlers, st, g, start);
      case Match(subject, cases) => c := AchieveMatch(s, subject, cases, st, g, start);
    }
  }

  lemma {:induction false} AchieveIf(s: Stmt, test: Expr, st: Status, g: Goal, now: State) returns (c: Choice)
    requires s.Compound? && s.head.If? && s.head.test == test && st != Stopped && Able(s, st, g) && Apart(g, Stored(s))
    ensures c.before == [] && IfRun(s, test, now, c).status == st && Met(g, IfRun(s, test, now, c).state)
    decreases s, 2
  {
    var hit := Hits(g, Missed(test), Deferred(test));
    var after := Eval(now, BoundByExpr(test), Deferred(test), Wanted(g));
    HeadMeets(g, now, BoundByExpr(test), Deferred(test), Missed(test));
    AbleIf(s, st, g);
    if st == Raised && hit {
      c := Choice(0, [], Wanted(g), []);
    } else {
      var b := if AbleAfter(hit, s, 0, st, g) then 0 else 1;
      var d := AchieveAfter(hit, s, b, st, g, after);
      c := Choice(b + 1, [], Wanted(g), [d]);
    }
  }

  lemma {:induction false} AchieveWith(s: Stmt, items: seq<Item>, st: Status, g: Goal, now: State) returns (c: Choice)
    requires s.Compound? && s.head == With(items) && st != Stopped && Able(s, st, g) && Apart(g, Stored(s))
    ensures c.before == [] && WithRun(s, items, now, c).status == st && Met(g, WithRun(s, items, now, c).state)
    decreases s, 2
  {
    var hit := Hits(g, MissedInItems(items), DeferredInItems(items));
    var after := Eval(now, BoundByItems(items), DeferredInItems(items), Wanted(g));
    HeadMeets(g, now, BoundByItems(items), DeferredInItems(items), MissedInItems(items));
    AbleWith(s, st, g);
    if st == Raised && hit {
      c := Choice(0, [], Wanted(g), []);
    } else if AbleAfter(hit, s, 0, st, g) {
      var d := AchieveAfter(hit, s, 0, st, g, after);
      c := Choice(1, [], Wanted(g), [d]);
    } else {
      var d := AchieveAfter(hit, s, 0, Raised, g, after);
      c := Choice(2, [], Wanted(g), [d]);
    }
  }

  lemma TriedMeets(g: Goal, now: State, subject: Expr, cases: seq<CaseHead>, k: nat)
    requires k <= |cases| && TriedHits(g, subject, cases, k)
    ensures Met(g, Tried(now, subject, cases, k, Wanted(g)))
  {
    HeadMeets(g, now, BoundByExpr(subject) + BoundByCases(cases[..k]), Deferred(subject) + DeferredInCases(cases[..k]),
              Missed(subject) + MissedInCases(cases[..k]));
  }

  lemma {:induction false} AchieveMatch(s: Stmt, subject: Expr, cases: seq<CaseHead>, st: Status, g: Goal, now: State)
    returns (c: Choice)
    requires s.Compound? && s.head == Match(subject, cases) && st != Stopped && Able(s, st, g) && Apart(g, Stored(s))
    ensures c.before == [] && MatchRun(s, subject, cases, now, c).status == st
    ensures Met(g, MatchRun(s, subject, cases, now, c).state)
    decreases s, 3
  {
    AbleMatch(s, st, g);
    if MayFail(st, Normal) && TriedHits(g, subject, cases, |cases|) {
      TriedMeets(g, now, subject, cases, |cases|);
      c := Choice(if st == Raised then 0 else |cases| + 1, [], Wanted(g), []);
    } else {
      var k := AnyIsCase(s, subject, cases, |cases|, st, g);
      c := AchieveCase(s, subject, cases, k, st, g, now);
    }
  }

  lemma {:induction false} AchieveCase(s: Stmt, subject: Expr, cases: seq<CaseHead>, k: nat, st: Status, g: Goal,
                                       now: State)
    returns (c: Choice)
    requires s.Compound? && s.head == Match(subject, cases) && st != Stopped && Apart(g, Stored(s))
    requires k < |cases| && CaseAble(s, subject, cases, k, st, g)
    ensures c.before == [] && MatchRun(s, subject, cases, now, c).status == st
    ensures Met(g, MatchRun(s, subject, cases, now, c).state)
    decreases s, 2
  {
    AbleCase(s, k, st, g);
    var hit := TriedHits(g, subject, cases, k + 1);
    if hit {
      TriedMeets(g, now, subject, cases, k + 1);
    }
    var d := AchieveAfter(hit, s, k, st, g, Tried(now, subject, cases, k + 1, Wanted(g)));
    c := Choice(k + 1, [], Wanted(g), [d]);
  }

  // ----- loops -----

  /** Where an iteration that goes on leaves the loop. */
  ghost predicate GoesOn(s: Stmt, start: State, it: Choice, next: State)
    requires s.Compound? && (s.head.While? || s.head.For?)
  {
    && it.pick == 1 && it.subs != []
    && var after := Eval(Begin(start, it.before), LoopBinds(s.head, false), LoopDefers(s.head, false), it.during);
       var r := WholeBlock(s, 0, after, it.subs[0]);
       (r.status == Normal || r.status == Continued) && r.state == next
  }

  lemma IterationMeets(s: Stmt, exhausted: bool, g: Goal, start: State) returns (after: State)
    requires s.Compound? && (s.head.While? || s.head.For?)
    ensures after == Eval(Begin(start, []), LoopBinds(s.head, exhausted), LoopDefers(s.head, exhausted), Wanted(g))
    ensures LoopHits(s, exhausted, g) ==> Met(g, after)
  {
    after := Eval(Begin(start, []), LoopBinds(s.head, exhausted), LoopDefers(s.head, exhausted), Wanted(g));
    HeadMeets(g, Begin(start, []), LoopBinds(s.head, exhausted), LoopDefers(s.head, exhausted),
              LoopMisses(s.head, exhausted));
  }

  lemma {:induction false} AchieveAgain(s: Stmt, g: Goal, start: State) returns (it: Choice, next: State)
    requires s.Compound? && (s.head.While? || s.head.For?) && Again(s, g) && Apart(g, Stored(s))
    ensures GoesOn(s, start, it, next) && Met(g, next)
    decreases s, 2
  {
    AbleAgain(s, g);
    var hit := LoopHits(s, false, g);
    var after := IterationMeets(s, false, g, start);
    var st := if AbleAfter(hit, s, 0, Normal, g) then Normal else Continued;
    var d := AchieveAfter(hit, s, 0, st, g, after);
    it := Choice(1, [], Wanted(g), [d]);
    next := WholeBlock(s, 0, after, d).state;
  }

  ghost predicate Finishes(s: Stmt, start: State, it: Choice, st: Status, g: Goal)
    requires s.Compound? && (s.head.While? || s.head.For?)
  {
    forall c: Choice, k: nat :: k < |c.subs| && c.subs[k] == it ==>
        Loop(s, start, c, k).status == st && Met(g, Loop(s, start, c, k).state)
  }

  lemma {:induction false} AchieveLoopEnd(s: Stmt, st: Status, g: Goal, start: State) returns (it: Choice)
    requires s.Compound? && (s.head.While? || s.head.For?) && st != Stopped && LoopEnd(s, st, g) && Apart(g, Stored(s))
    ensures Finishes(s, start, it, st, g)
    decreases s, 2
  {
    AbleLoopEnd(s, st, g);
    var hit := LoopHits(s, false, g);
    if st == Raised && hit {
      var after := IterationMeets(s, false, g, start);
      it := Choice(0, [], Wanted(g), []);
    } else if AbleAfter(LoopHits(s, true, g), s, 1, st, g) {
      var after := IterationMeets(s, true, g, start);
      var d := AchieveAfter(LoopHits(s, true, g), s, 1, st, g, after);
      it := Choice(2, [], Wanted(g), [d]);
    } else {
      var after := IterationMeets(s, false, g, start);
      var d := AchieveAfter(hit, s, 0, if st == Normal then Broke else st, g, after);
      it := Choice(1, [], Wanted(g), [d]);
    }
  }

  lemma LoopTwice(s: Stmt, start: State, it: Choice, next: State, last: Choice, st: Status, g: Goal, c: Choice)
    requires s.Compound? && (s.head.While? || s.head.For?) && GoesOn(s, start, it, next)
    requires Finishes(s, next, last, st, g)
    requires c.subs == [it, last]
    ensures Loop(s, start, c, 0).status == st && Met(g, Loop(s, start, c, 0).state)
  {
    assert c.subs[1] == last;
    assert Loop(s, next, c, 1).status == st && Met(g, Loop(s, next, c, 1).state);
    assert c.subs[0] == it;
  }

  /** The iterations of a run of the loop. */
  lemma {:induction false} AchieveLoop(s: Stmt, st: Status, g: Goal, start: State) returns (subs: seq<Choice>)
    requires s.Compound? && (s.head.While? || s.head.For?) && st != Stopped && Apart(g, Stored(s))
    requires LoopAble(s, st, g) || (LoopAble(s, st, Just) && Met(g, start))
    ensures forall c: Choice :: c.subs == subs ==>
            Loop(s, start, c, 0).status == st && Met(g, Loop(s, start, c, 0).state)
    decreases s, 3
  {
    AbleLoop(s, st, g);
    AbleLoop(s, st, Just);
    if LoopEnd(s, st, g) {
      var it := AchieveLoopEnd(s, st, g, start);
      subs := [it];
      forall c: Choice | c.subs == subs ensures Loop(s, start, c, 0).status == st && Met(g,
                                                                                         Loop(s, start, c, 0).state) {
        assert c.subs[0] == it;
      }
    } else if LoopAble(s, st, g) {
      var it, next := AchieveAgain(s, g, start);
      var last := FinishMet(s, st, g, next);
      subs := [it, last];
      forall c: Choice | c.subs == subs ensures Loop(s, start, c, 0).status == st && Met(g,
                                                                                         Loop(s, start, c, 0).state) {
        LoopTwice(s, start, it, next, last, st, g, c);
      }
    } else {
      var it := FinishMet(s, st, g, start);
      subs := [it];
      forall c: Choice | c.subs == subs ensures Loop(s, start, c, 0).status == st && Met(g,
                                                                                         Loop(s, start, c, 0).state) {
        assert c.subs[0] == it;
      }
    }
  }

  /** A last iteration, the goal having been met before. */
  lemma {:induction false} FinishMet(s: Stmt, st: Status, g: Goal, start: State) returns (it: Choice)
    requires s.Compound? && (s.head.While? || s.head.For?) && st != Stopped && LoopEnd(s, st, Just) && Met(g, start)
    requires Apart(g, Stored(s))
    ensures Finishes(s, start, it, st, g)
    decreases s, 3, 0
  {
    it := AchieveLoopEnd(s, st, Just, start);
    forall c: Choice, k: nat | k < |c.subs| && c.subs[k] == it
      ensures Loop(s, start, c, k).status == st && Met(g, Loop(s, start, c, k).state)
    {
      CoverLoop(g, s, start, c, k);
      StepMet(g, LoopAble(s, st, g), Stored(s), start, Loop(s, start, c, k).state);
    }
  }

  lemma {:induction false} AchieveWhile(s: Stmt, st: Status, g: Goal, now: State) returns (c: Choice)
    requires s.Compound? && s.head.While? && st != Stopped && Able(s, st, g) && Apart(g, Stored(s))
    ensures c.before == [] && Loop(s, now, c, 0).status == st && Met(g, Loop(s, now, c, 0).state)
    decreases s, 4
  {
    AbleWhile(s, st, g);
    var subs := AchieveLoop(s, st, g, now);
    c := Choice(0, [], [], subs);
  }

  lemma {:induction false} AchieveFor(s: Stmt, iter: Expr, st: Status, g: Goal, now: State) returns (c: Choice)
    requires s.Compound? && s.head.For? && s.head.iter == iter && st != Stopped && Able(s, st, g) && Apart(g, Stored(s))
    ensures c.before == [] && ForRun(s, iter, now, c).status == st && Met(g, ForRun(s, iter, now, c).state)
    decreases s, 4
  {
    AbleFor(s, st, g);
    var hit := Hits(g, Missed(iter), Deferred(iter));
    var after := Eval(now, BoundByExpr(iter), Deferred(iter), Wanted(g));
    HeadMeets(g, now, BoundByExpr(iter), Deferred(iter), Missed(iter));
    if st == Raised && hit {
      c := Choice(0, [], Wanted(g), []);
    } else {
      var subs := AchieveLoop(s, st, g, after);
      c := Choice(1, [], Wanted(g), subs);
    }
  }

  // ----- try -----

  ghost predicate MiddleRuns(s: Stmt, handlers: seq<HandlerHead>, st: Status, g: Goal, now: State, c: Choice) {
    |c.subs| == 3 && c.before == [] && Guarded(s, handlers, now, c).status == st && Met(g, Guarded(s, handlers, now,
                                                                                                   c).state)
  }

  lemma AskedMeets(g: Goal, now: State, handlers: seq<HandlerHead>, k: nat)
    requires k <= |handlers| && AskedHits(g, handlers, k)
    ensures Met(g, Asked(now, handlers, k, Wanted(g)))
  {
    HeadMeets(g, now, BoundByHandlers(handlers[..k]), DeferredInHandlers(handlers[..k]),
              MissedInHandlers(handlers[..k]));
  }

  /** A body that ends with `st`, and meets the goal if that is asked of it. */
  lemma {:induction false} AchieveHandler(s: Stmt, handlers: seq<HandlerHead>, k: nat, st: Status, g: Goal, now: State)
    returns (c: Choice)
    requires s.Compound? && s.head == Try(handlers) && st != Stopped && Apart(g, Stored(s)) && 1 <= k <= |handlers|
    requires HandlerAble(s, handlers, k, st, g)
    ensures MiddleRuns(s, handlers, st, g, now, c)
    decreases s, 2
  {
    AbleHandler(s, handlers, k, st, g);
    var early := AbleIn(s, 0, Raised, g) && AbleIn(s, k, st, Just);
    var d := AchieveIn(s, 0, Raised, if early then g else Just, now);
    var body := WholeBlock(s, 0, now, d);
    var caught := Asked(body.state, handlers, k, Wanted(g));
    AskedStep(g, s, handlers, body.state, k, Wanted(g));
    if early {
      StepMet(g, AskedHits(g, handlers, k), Stored(s), body.state, caught);
    }
    if AskedHits(g, handlers, k) {
      AskedMeets(g, body.state, handlers, k);
    }
    var e := AchieveAfter(early || AskedHits(g, handlers, k), s, k, st, g, caught);
    c := Choice(k, [], Wanted(g), [d, e, NONE]);
    var r := WholeBlock(s, k, caught, e);
    LeaveStep(g, s, handlers, r.state, k, Wanted(g));
    StepMet(g, false, Stored(s), r.state, Eval(r.state, OwnName(handlers[k - 1]), {}, Wanted(g)));
  }

  lemma {:induction false} AchieveElse(s: Stmt, handlers: seq<HandlerHead>, st: Status, g: Goal, now: State)
    returns (c: Choice)
    requires s.Compound? && s.head == Try(handlers) && st != Stopped && Apart(g, Stored(s))
    requires Both(AbleIn(s, 0, Normal, Just), AbleIn(s, 0, Normal, g), AbleIn(s, |handlers| + 1, st, Just),
                  AbleIn(s, |handlers| + 1, st, g))
    ensures MiddleRuns(s, handlers, st, g, now, c)
    decreases s, 2
  {
    var b := |handlers| + 1;
    var early := AbleIn(s, 0, Normal, g) && AbleIn(s, b, st, Just);
    var d := AchieveIn(s, 0, Normal, if early then g else Just, now);
    var body := WholeBlock(s, 0, now, d);
    var e := AchieveAfter(early, s, b, st, g, body.state);
    c := Choice(0, [], [], [d, e, NONE]);
  }

  lemma {:induction false} AchieveMiddle(s: Stmt, handlers: seq<HandlerHead>, st: Status, g: Goal, now: State)
    returns (c: Choice)
    requires s.Compound? && s.head == Try(handlers) && st != Stopped && Apart(g, Stored(s))
    requires MiddleAble(s, handlers, st, g)
    ensures MiddleRuns(s, handlers, st, g, now, c)
    decreases s, 3
  {
    AbleMiddle(s, handlers, st, g);
    if AnyHandler(s, handlers, |handlers|, st, g) {
      var k := AnyIsHandler(s, handlers, |handlers|, st, g);
      c := AchieveHandler(s, handlers, k, st, g, now);
    } else if st == Raised && (AbleIn(s, 0, Raised, g) || (AbleIn(s, 0, Raised, Just) && AskedHits(g, handlers,
                                                                                                   |handlers|))) {
      c := AchieveUncaught(s, handlers, g, now);
    } else if st != Normal && st != Raised && AbleIn(s, 0, st, g) {
      var d := AchieveIn(s, 0, st, g, now);
      c := Choice(0, [], [], [d, NONE, NONE]);
    } else {
      c := AchieveElse(s, handlers, st, g, now);
    }
  }

  lemma {:induction false} AchieveUncaught(s: Stmt, handlers: seq<HandlerHead>, g: Goal, now: State) returns (c: Choice)
    requires s.Compound? && s.head == Try(handlers) && Apart(g, Stored(s))
    requires AbleIn(s, 0, Raised, g) || (AbleIn(s, 0, Raised, Just) && AskedHits(g, handlers, |handlers|))
    ensures MiddleRuns(s, handlers, Raised, g, now, c)
    decreases s, 2
  {
    var d := AchieveIn(s, 0, Raised, if AbleIn(s, 0, Raised, g) then g else Just, now);
    var body := WholeBlock(s, 0, now, d);
    AskedStep(g, s, handlers, body.state, |handlers|, Wanted(g));
    if AbleIn(s, 0, Raised, g) {
      StepMet(g, AskedHits(g, handlers, |handlers|), Stored(s), body.state,
              Asked(body.state, handlers, |handlers|, Wanted(g)));
    } else {
      AskedMeets(g, body.state, handlers, |handlers|);
    }
    c := Choice(0, [], Wanted(g), [d, NONE, NONE]);
  }

  /** The finally block, after a middle part that ended with `m`. */
  lemma {:induction false} AchieveFinally(s: Stmt, handlers: seq<HandlerHead>, m: Status, st: Status, g: Goal,
                                          now: State, c: Choice)
    returns (d: Choice)
    requires s.Compound? && s.head == Try(handlers) && m != Stopped && st != Stopped && Apart(g, Stored(s))
    requires MiddleRuns(s, handlers, m, Just, now, c)
    requires AbleIn(s, |handlers| + 2, st, g) || (AbleIn(s, |handlers| + 2, st, Just) && Met(g, Guarded(s, handlers,
                                                                                                        now, c).state))
    ensures d.before == [] && TryRun(s, handlers, now, d).status == (if st == Normal then m else st)
    ensures Met(g, TryRun(s, handlers, now, d).state)
    decreases s, 2
  {
    var middle := Guarded(s, handlers, now, c);
    var met := Met(g, middle.state);
    var e := AchieveAfter(met, s, |handlers| + 2, st, g, middle.state);
    d := c.(subs := [c.subs[0], c.subs[1], e]);
    GuardedAlike(s, handlers, now, c, d);
  }

  lemma AnyMiddleOne(s: Stmt, handlers: seq<HandlerHead>, g: Goal) returns (m: Status)
    requires AnyMiddle(s, handlers, g)
    ensures m != Stopped && MiddleAble(s, handlers, m, g)
  {
    m := if MiddleAble(s, handlers, Normal, g) then Normal
         else if MiddleAble(s, handlers, Raised, g) then Raised
         else if MiddleAble(s, handlers, Broke, g) then Broke
         else if MiddleAble(s, handlers, Continued, g) then Continued
         else Returned;
  }

  lemma {:induction false} AchieveTry(s: Stmt, handlers: seq<HandlerHead>, st: Status, g: Goal, now: State)
    returns (c: Choice)
    requires s.Compound? && s.head == Try(handlers) && st != Stopped && Able(s, st, g) && Apart(g, Stored(s))
    ensures c.before == [] && TryRun(s, handlers, now, c).status == st && Met(g, TryRun(s, handlers, now, c).state)
    decreases s, 4
  {
    AbleTry(s, st, g);
    var last := |handlers| + 2;
    if Both(MiddleAble(s, handlers, st, Just), MiddleAble(s, handlers, st, g), AbleIn(s, last, Normal, Just),
            AbleIn(s, last, Normal, g)) {
      var early := MiddleAble(s, handlers, st, g) && AbleIn(s, last, Normal, Just);
      var d := AchieveMiddle(s, handlers, st, if early then g else Just, now);
      c := AchieveFinally(s, handlers, st, Normal, g, now, d);
    } else {
      var early := AnyMiddle(s, handlers, g) && AbleIn(s, last, st, Just);
      var goal := if early then g else Just;
      var m := AnyMiddleOne(s, handlers, goal);
      var d := AchieveMiddle(s, handlers, m, goal, now);
      c := AchieveFinally(s, handlers, m, st, g, now, d);
    }
  }

  // ----- entering a block -----

  /** The run enters block `b`, the goal being met. */
  ghost predicate Enters(r: Run, b: nat, g: Goal, e: Entry) {
    e in r.entries && e.block == b && Met(g, e.state)
  }

  /** An evaluation keeps met what is. */
  lemma EvalKeeps(g: Goal, now: State, binds: set<string>, defers: set<string>, list: seq<string>)
    requires Met(g, now)
    ensures Met(g, Eval(now, binds, defers, list))
  {
    EvalStep(g, now, binds, defers, list, binds, {});
    StepMet(g, Hits(g, binds, defers), {}, now, Eval(now, binds, defers, list));
  }

  lemma LoopEntry(s: Stmt, start: State, c: Choice, k: nat, b: nat, list: seq<string>) returns (e: Entry)
    requires s.Compound? && (s.head.While? || s.head.For?) && b <= 1
    requires k < |c.subs| && c.subs[k] == Choice(b + 1, [], list, [NONE])
    ensures e == Entry(b, Eval(Begin(start, []), LoopBinds(s.head, b == 1), LoopDefers(s.head, b == 1), list), NONE)
    ensures e in Loop(s, start, c, k).entries
  {
    e := Entry(b, Eval(Begin(start, []), LoopBinds(s.head, b == 1), LoopDefers(s.head, b == 1), list), NONE);
    assert Loop(s, start, c, k).entries[0] == e;
  }

  /** The iterations of a loop that enters block `b`. */
  lemma EnterLoop(s: Stmt, b: nat, g: Goal, start: State) returns (subs: seq<Choice>, e: Entry)
    requires s.Compound? && (s.head.While? || s.head.For?) && b <= 1 && Apart(g, Stored(s))
    requires LoopHits(s, b == 1, g) || Again(s, g) || Met(g, start)
    ensures forall c: Choice :: c.subs == subs ==> Enters(Loop(s, start, c, 0), b, g, e)
  {
    assert Begin(start, []) == start;
    LoopStored(s, b == 1);
    var it := Choice(b + 1, [], Wanted(g), [NONE]);
    if LoopHits(s, b == 1, g) || Met(g, start) {
      subs := [it];
      e := LoopEntry(s, start, Choice(0, [], [], subs), 0, b, Wanted(g));
      var after := IterationMeets(s, b == 1, g, start);
      if Met(g, start) {
        EvalKeeps(g, start, LoopBinds(s.head, b == 1), LoopDefers(s.head, b == 1), Wanted(g));
      }
      forall c: Choice | c.subs == subs ensures Enters(Loop(s, start, c, 0), b, g, e) {
        var e' := LoopEntry(s, start, c, 0, b, Wanted(g));
      }
    } else {
      var before, next := AchieveAgain(s, g, start);
      assert Begin(next, []) == next;
      subs := [before, it];
      e := LoopEntry(s, next, Choice(0, [], [], subs), 1, b, Wanted(g));
      EvalKeeps(g, next, LoopBinds(s.head, b == 1), LoopDefers(s.head, b == 1), Wanted(g));
      forall c: Choice | c.subs == subs ensures Enters(Loop(s, start, c, 0), b, g, e) {
        var e' := LoopEntry(s, next, c, 1, b, Wanted(g));
        LoopEntriesGoOn(s, start, before, next, c);
      }
    }
  }

  lemma LoopEntriesGoOn(s: Stmt, start: State, it: Choice, next: State, c: Choice)
    requires s.Compound? && (s.head.While? || s.head.For?) && GoesOn(s, start, it, next)
    requires |c.subs| > 1 && c.subs[0] == it
    ensures forall e :: e in Loop(s, next, c, 1).entries ==> e in Loop(s, start, c, 0).entries
    ensures s.head.While? ==> Loop(s, start, c, 0).tests == [Begin(start, it.before)] + Loop(s, next, c, 1).tests
  {
    assert Loop(s, start, c, 0).entries == [Loop(s, start, c, 0).entries[0]] + Loop(s, next, c, 1).entries;
  }

  lemma EnterHandler(s: Stmt, handlers: seq<HandlerHead>, b: nat, g: Goal, now: State) returns (c: Choice, e: Entry)
    requires s.Compound? && s.head == Try(handlers) && 1 <= b <= |handlers| && Apart(g, Stored(s))
    requires AbleIn(s, 0, Raised, g) || (AbleIn(s, 0, Raised, Just) && (AskedHits(g, handlers, b) || Met(g, now)))
    ensures c.before == [] && Enters(TryRun(s, handlers, now, c), b, g, e)
  {
    var hit := AbleIn(s, 0, Raised, g) || Met(g, now);
    var x := AchieveFrom(s, 0, Raised, g, now);
    var left := WholeBlock(s, 0, now, x);
    AskedStep(g, s, handlers, left.state, b, Wanted(g));
    if hit {
      StepMet(g, AskedHits(g, handlers, b), Stored(s), left.state, Asked(left.state, handlers, b, Wanted(g)));
    } else {
      AskedMeets(g, left.state, handlers, b);
    }
    c := Choice(b, [], Wanted(g), [x, NONE, NONE]);
    e := Entry(b, Asked(left.state, handlers, b, Wanted(g)), NONE);
    assert Guarded(s, handlers, now, c).entries == [Entry(0, now, x), e];
    TryEntries(s, handlers, now, c, e);
  }

  lemma TryEntries(s: Stmt, handlers: seq<HandlerHead>, now: State, c: Choice, e: Entry)
    requires |c.subs| >= 3 && e in Guarded(s, handlers, now, c).entries
    ensures e in TryRun(s, handlers, now, c).entries
  {
  }

  /** A block that ends with `st`, meeting the goal where it can or where it was met before. */
  lemma AchieveFrom(s: Stmt, b: nat, st: Status, g: Goal, now: State) returns (c: Choice)
    requires st != Stopped && Apart(g, Stored(s)) && (AbleIn(s, b, st, Just) || AbleIn(s, b, st, g))
    ensures WholeBlock(s, b, now, c).status == st
    ensures AbleIn(s, b, st, g) || Met(g, now) ==> Met(g, WholeBlock(s, b, now, c).state)
  {
    if AbleIn(s, b, st, g) {
      c := AchieveIn(s, b, st, g, now);
    } else if Met(g, now) {
      c := AchieveAfter(true, s, b, st, g, now);
    } else {
      c := AchieveIn(s, b, st, Just, now);
    }
  }

  lemma EnterElse(s: Stmt, handlers: seq<HandlerHead>, g: Goal, now: State) returns (c: Choice, e: Entry)
    requires s.Compound? && s.head == Try(handlers) && Apart(g, Stored(s))
    requires AbleIn(s, 0, Normal, g) || (AbleIn(s, 0, Normal, Just) && Met(g, now))
    ensures c.before == [] && Enters(TryRun(s, handlers, now, c), |handlers| + 1, g, e)
  {
    var x := AchieveFrom(s, 0, Normal, g, now);
    c := Choice(0, [], [], [x, NONE, NONE]);
    e := Entry(|handlers| + 1, WholeBlock(s, 0, now, x).state, NONE);
    assert Guarded(s, handlers, now, c).entries == [Entry(0, now, x), e];
    TryEntries(s, handlers, now, c, e);
  }

  lemma EnterFinally(s: Stmt, handlers: seq<HandlerHead>, g: Goal, now: State) returns (c: Choice, e: Entry)
    requires s.Compound? && s.head == Try(handlers) && Apart(g, Stored(s))
    requires AnyMiddle(s, handlers, g) || (AnyMiddle(s, handlers, Just) && Met(g, now))
    ensures c.before == [] && Enters(TryRun(s, handlers, now, c), |handlers| + 2, g, e)
  {
    var goal := if AnyMiddle(s, handlers, g) then g else Just;
    var m := AnyMiddleOne(s, handlers, goal);
    var x := AchieveMiddle(s, handlers, m, goal, now);
    var middle := Guarded(s, handlers, now, x);
    if Met(g, now) {
      CoverGuarded(g, s, handlers, now, x);
      StepMet(g, MiddleAble(s, handlers, m, g), Stored(s), now, middle.state);
    }
    c := x.(subs := [x.subs[0], x.subs[1], NONE]);
    GuardedAlike(s, handlers, now, x, c);
    e := Entry(|handlers| + 2, middle.state, NONE);
    var r := TryRun(s, handlers, now, c);
    assert r.entries == middle.entries + [e];
  }

  lemma EnterTry(s: Stmt, handlers: seq<HandlerHead>, b: nat, g: Goal, now: State) returns (c: Choice, e: Entry)
    requires s.Compound? && s.head == Try(handlers) && Apart(g, Stored(s))
    requires (AbleEnter(s, b, g) || (AbleEnter(s, b, Just) && Met(g, now)))
    ensures c.before == [] && Enters(TryRun(s, handlers, now, c), b, g, e)
  {
    if b == 0 {
      c := Choice(0, [], [], [NONE, NONE, NONE]);
      e := Entry(0, now, NONE);
      assert Guarded(s, handlers, now, c).entries[0] == e;
      TryEntries(s, handlers, now, c, e);
    } else if b <= |handlers| {
      c, e := EnterHandler(s, handlers, b, g, now);
    } else if b == |handlers| + 1 {
      c, e := EnterElse(s, handlers, g, now);
    } else {
      c, e := EnterFinally(s, handlers, g, now);
    }
  }

  lemma EnterIf(s: Stmt, test: Expr, b: nat, g: Goal, now: State) returns (c: Choice, e: Entry)
    requires s.Compound? && s.head.If? && s.head.test == test && b <= 1 && Apart(g, Stored(s))
    requires Hits(g, Missed(test), Deferred(test)) || Met(g, now)
    ensures c.before == [] && Enters(IfRun(s, test, now, c), b, g, e)
  {
    var after := EnterHead(s, g, now, BoundByExpr(test), Deferred(test), Missed(test));
    c, e := Choice(b + 1, [], Wanted(g), [NONE]), Entry(b, after, NONE);
    EnterOnly(s, b, after, c);
  }

  lemma EnterWith(s: Stmt, items: seq<Item>, g: Goal, now: State) returns (c: Choice, e: Entry)
    requires s.Compound? && s.head == With(items) && Apart(g, Stored(s))
    requires Hits(g, MissedInItems(items), DeferredInItems(items)) || Met(g, now)
    ensures c.before == [] && Enters(WithRun(s, items, now, c), 0, g, e)
  {
    var after := EnterHead(s, g, now, BoundByItems(items), DeferredInItems(items), MissedInItems(items));
    c, e := Choice(1, [], Wanted(g), [NONE]), Entry(0, after, NONE);
    EnterOnly(s, 0, after, c);
  }

  lemma EnterMatch(s: Stmt, subject: Expr, cases: seq<CaseHead>, b: nat, g: Goal, now: State)
    returns (c: Choice, e: Entry)
    requires s.Compound? && s.head == Match(subject, cases) && b < |cases| && Apart(g, Stored(s))
    requires TriedHits(g, subject, cases, b + 1) || Met(g, now)
    ensures c.before == [] && Enters(MatchRun(s, subject, cases, now, c), b, g, e)
  {
    var after := Tried(now, subject, cases, b + 1, Wanted(g));
    if Met(g, now) {
      TriedStep(g, s, subject, cases, now, now, b + 1, Wanted(g));
      StepMet(g, TriedHits(g, subject, cases, b + 1), Stored(s), now, after);
    } else {
      TriedMeets(g, now, subject, cases, b + 1);
    }
    c, e := Choice(b + 1, [], Wanted(g), [NONE]), Entry(b, after, NONE);
    EnterOnly(s, b, after, c);
  }

  lemma EnterFor(s: Stmt, iter: Expr, b: nat, g: Goal, now: State) returns (c: Choice, e: Entry)
    requires s.Compound? && s.head.For? && s.head.iter == iter && b <= 1 && Apart(g, Stored(s))
    requires Hits(g, Missed(iter), Deferred(iter)) || LoopHits(s, b == 1, g) || Again(s, g) || Met(g, now)
    ensures c.before == [] && Enters(ForRun(s, iter, now, c), b, g, e)
  {
    var after := Eval(now, BoundByExpr(iter), Deferred(iter), Wanted(g));
    HeadMeets(g, now, BoundByExpr(iter), Deferred(iter), Missed(iter));
    if Met(g, now) {
      EvalKeeps(g, now, BoundByExpr(iter), Deferred(iter), Wanted(g));
    }
    var subs;
    subs, e := EnterLoop(s, b, g, after);
    c := Choice(1, [], Wanted(g), subs);
    assert ForRun(s, iter, now, c) == Loop(s, after, c, 0);
  }

  /** A run of the statement that enters block `b`, having met the goal. */
  lemma AchieveEnter(s: Stmt, b: nat, g: Goal, start: State) returns (c: Choice, e: Entry)
    requires Apart(g, Stored(s)) && (AbleEnter(s, b, g) || (AbleEnter(s, b, Just) && Met(g, start)))
    ensures Enters(ExecStmt(s, start, c), b, g, e)
  {
    assert Begin(start, []) == start;
    match s.head {
      case If(_, test) => c, e := EnterIf(s, test, b, g, start);
      case While(_, _) =>
        var subs;
        subs, e := EnterLoop(s, b, g, start);
        c := Choice(0, [], [], subs);
      case For(_, iter) => c, e := EnterFor(s, iter, b, g, start);
      case With(items) => c, e := EnterWith(s, items, g, start);
      case Try(handlers) => c, e := EnterTry(s, handlers, b, g, start);
      case Match(subject, cases) => c, e := EnterMatch(s, subject, cases, b, g, start);
    }
  }

  lemma EnterOnly(s: Stmt, b: nat, now: State, c: Choice)
    requires c.subs == [NONE]
    ensures Enter(s, b, now, c).entries == [Entry(b, now, NONE)]
  {
  }

  lemma EnterHead(s: Stmt, g: Goal, now: State, binds: set<string>, defers: set<string>, caught: set<string>)
    returns (after: State)
    requires caught <= binds <= Stored(s) + caught && Apart(g, Stored(s)) && (Hits(g, caught, defers) || Met(g, now))
    ensures after == Eval(now, binds, defers, Wanted(g)) && Met(g, after)
  {
    after := Eval(now, binds, defers, Wanted(g));
    HeadMeets(g, now, binds, defers, caught);
    if Met(g, now) {
      EvalStep(g, now, binds, defers, Wanted(g), caught, Stored(s));
      StepMet(g, Hits(g, caught, defers), Stored(s), now, after);
    }
  }

  // ----- the choices inside a block are free -----

  /** The same choices with another choice for one nested block still enter it in the same state. */
  lemma {:induction false} ReplaceEntry(s: Stmt, start: State, c: Choice, e: Entry, d: Choice) returns (c': Choice)
    requires e in ExecStmt(s, start, c).entries
    ensures Entry(e.block, e.state, d) in ExecStmt(s, start, c').entries
  {
    var now := Begin(start, c.before);
    match s.head
    case If(_, test) =>
      c' := ReplaceOnly(s, if c.pick == 1 then 0 else 1, Eval(now, BoundByExpr(test), Deferred(test), c.during), c, d);
    case While(_, _) => c' := ReplaceIteration(s, now, c, 0, e, d);
    case For(_, iter) => c' := ReplaceIteration(s, Eval(now, BoundByExpr(iter), Deferred(iter), c.during), c, 0, e, d);
    case With(items) => c' := ReplaceOnly(s, 0, Eval(now, BoundByItems(items), DeferredInItems(items), c.during), c, d);
    case Try(handlers) => c' := ReplaceInTry(s, handlers, now, c, e, d);
    case Match(subject, cases) =>
      c' := ReplaceOnly(s, c.pick - 1, Tried(now, subject, cases, c.pick, c.during), c, d);
  }

  lemma ReplaceOnly(s: Stmt, b: nat, now: State, c: Choice, d: Choice) returns (c': Choice)
    ensures c' == if c.subs == [] then c else c.(subs := c.subs[0 := d])
    ensures c.subs == [] ==> Enter(s, b, now, c).entries == []
    ensures c.subs != [] ==>
              Enter(s, b, now, c).entries == [Entry(b, now, c.subs[0])] && Enter(s, b, now,
                                                                                 c').entries == [Entry(b, now, d)]
  {
    c' := if c.subs == [] then c else c.(subs := c.subs[0 := d]);
  }

  lemma {:induction false} ReplaceIteration(s: Stmt, start: State, c: Choice, k: nat, e: Entry, d: Choice)
    returns (c': Choice)
    requires s.Compound? && (s.head.While? || s.head.For?)
    requires e in Loop(s, start, c, k).entries
    ensures c'.(subs := []) == c.(subs := []) && |c'.subs| == |c.subs| && forall i :: 0 <= i < k && i < |c.subs| ==>
            c'.subs[i] == c.subs[i]
    ensures Entry(e.block, e.state, d) in Loop(s, start, c', k).entries
    decreases |c.subs| - k
  {
    var it := c.subs[k];
    var exhausted := it.pick > 1;
    var after := Eval(Begin(start, it.before), LoopBinds(s.head, exhausted), LoopDefers(s.head, exhausted), it.during);
    var b := if exhausted then 1 else 0;
    if e == Entry(b, after, it.subs[0]) {
      c' := c.(subs := c.subs[k := it.(subs := it.subs[0 := d])]);
      assert Loop(s, start, c', k).entries[0] == Entry(b, after, d);
    } else {
      c' := ReplaceIteration(s, WholeBlock(s, 0, after, it.subs[0]).state, c, k + 1, e, d);
      assert c'.subs[k] == it;
    }
  }

  lemma ReplaceInTry(s: Stmt, handlers: seq<HandlerHead>, now: State, c: Choice, e: Entry, d: Choice)
    returns (c': Choice)
    requires e in TryRun(s, handlers, now, c).entries
    ensures c'.before == c.before && Entry(e.block, e.state, d) in TryRun(s, handlers, now, c').entries
  {
    var middle := Guarded(s, handlers, now, c);
    if e in middle.entries {
      c' := ReplaceInGuarded(s, handlers, now, c, e, d);
      TryEntries(s, handlers, now, c', Entry(e.block, e.state, d));
    } else {
      c' := c.(subs := [c.subs[0], c.subs[1], d]);
      GuardedAlike(s, handlers, now, c, c');
      assert TryRun(s, handlers, now, c').entries == middle.entries + [Entry(|handlers| + 2, middle.state, d)];
    }
  }

  lemma GuardedAlike(s: Stmt, handlers: seq<HandlerHead>, now: State, c: Choice, d: Choice)
    requires |c.subs| >= 3 && |d.subs| >= 3 && c.pick == d.pick && c.during == d.during && c.subs[0] == d.subs[0]
    requires c.subs[1] == d.subs[1]
    ensures Guarded(s, handlers, now, c) == Guarded(s, handlers, now, d)
  {
  }

  lemma ReplaceInGuarded(s: Stmt, handlers: seq<HandlerHead>, now: State, c: Choice, e: Entry, d: Choice)
    returns (c': Choice)
    requires |c.subs| >= 3 && e in Guarded(s, handlers, now, c).entries
    ensures c'.before == c.before && |c'.subs| >= 3
    ensures Entry(e.block, e.state, d) in Guarded(s, handlers, now, c').entries
  {
    if e == Entry(0, now, c.subs[0]) {
      c' := c.(subs := c.subs[0 := d]);
      assert Guarded(s, handlers, now, c').entries[0] == Entry(0, now, d);
    } else {
      c' := c.(subs := c.subs[1 := d]);
      assert Guarded(s, handlers, now, c').entries[1] == Entry(e.block, e.state, d);
    }
  }

  // ----- evaluating a condition -----

  /** A condition is evaluated after deferred code has run, if the name is in its reach. */
  lemma AchieveTest(s: Stmt, g: Goal, start: State) returns (c: Choice)
    requires IsCondition(s) && Met(g, start)
    ensures var tests := ExecStmt(s, start, c).tests;
            |tests| > 0 && forall n :: g == Touching(n, true) ==> IsElsewhere(n, tests[0].env)
  {
    var now := Begin(start, Wanted(g));
    c := Choice(0, Wanted(g), [], [NONE]);
    assert Begin(now, []) == now;
    assert ExecStmt(s, start, c).tests == [now];
    if g.Touching? && g.all {
      RebindElsewhere(start.env, start.armed, [g.n], g.n);
    }
  }

  /** A loop goes on and evaluates its condition a second time. */
  lemma AchieveLaterTest(s: Stmt, g: Goal, start: State) returns (c: Choice)
    requires s.Compound? && s.head.While? && Apart(g, Stored(s)) && (Again(s, g) || (Again(s, Just) && Met(g, start)))
    ensures var tests := ExecStmt(s, start, c).tests;
            |tests| > 1 && forall n :: g == Touching(n, true) ==> IsElsewhere(n, tests[1].env)
  {
    var goal := if Again(s, g) then g else Just;
    var it, next := AchieveAgain(s, goal, start);
    if Met(g, start) {
      AgainKeeps(s, g, start, it, next);
    }
    var last := Choice(0, Wanted(g), [], []);
    c := Choice(0, [], [], [it, last]);
    assert Begin(start, []) == start;
    LoopEntriesGoOn(s, start, it, next, c);
    assert Loop(s, next, c, 1).tests == [Begin(next, Wanted(g))];
    if g.Touching? && g.all {
      RebindElsewhere(next.env, next.armed, [g.n], g.n);
    }
  }

  lemma AgainKeeps(s: Stmt, g: Goal, start: State, it: Choice, next: State)
    requires s.Compound? && (s.head.While? || s.head.For?) && GoesOn(s, start, it, next) && Met(g, start)
    requires Apart(g, Stored(s))
    ensures Met(g, next)
  {
    var now := Begin(start, it.before);
    BeginStep(g, start, it.before, Stored(s));
    StepMet(g, false, Stored(s), start, now);
    LoopStored(s, false);
    EvalKeeps(g, now, LoopBinds(s.head, false), LoopDefers(s.head, false), it.during);
    var after := Eval(now, LoopBinds(s.head, false), LoopDefers(s.head, false), it.during);
    CoverWhole(g, s, 0, after, it.subs[0]);
    var r := WholeBlock(s, 0, after, it.subs[0]);
    StepMet(g, AbleIn(s, 0, r.status, g), Stored(s), after, r.state);
  }
}
