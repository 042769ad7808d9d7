/**
 What runs can do, read off the syntax: how a statement can end, which blocks it can enter, and
 whether deferred or uncollected code can touch a name on the way.
 */
module PythonReach {
  import opened PythonSyntax
  import opened PythonRuns

  /**
   What a run is asked for: just to end or enter somewhere, or on the way to touch the name `n`. Code
   touches a name by creating deferred code that may rebind it and, if `all` is set, by binding it
   where the analysis does not look.
   */
  datatype Goal = Just | Touching(n: string, all: bool)

  /** Evaluating something that captures `caught` and creates code for `defers` meets the goal. */
  predicate Hits(g: Goal, caught: set<string>, defers: set<string>) {
    g.Just? || g.n in defers || (g.all && g.n in caught)
  }

  /** One thing after the other, the goal being met in either. */
  predicate Both(firstCan: bool, firstHits: bool, secondCan: bool, secondHits: bool) {
    (firstHits && secondCan) || (firstCan && secondHits)
  }

  // ----- endings -----

  /** Some run of the statement ends with `st` and meets the goal. */
  predicate Able(s: Stmt, st: Status, g: Goal)
    decreases s, 7
  {
    match s
    case Assign(_, targets, value) => MayFail(st, Normal) && Hits(g, MissedInTargets(targets) + Missed(value),
                                                                  DeferredInTargets(targets) + Deferred(value))
    case AnnAssign(_, target, annotated) =>
      MayFail(st, Normal)
      && Hits(g, MissedInTarget(target) + if annotated.None? then {} else Missed(annotated.value),
              DeferredInTarget(target) + if annotated.None? then {} else Deferred(annotated.value))
    case Plain(_, parts) => MayFail(st, Normal) && Hits(g, MissedAll(parts), DeferredAll(parts))
    case Jump(kind, parts) => MayFail(st, JumpStatus(kind)) && Hits(g, MissedAll(parts), DeferredAll(parts))
    case Scope(_, evaluated, nonlocals) =>
      MayFail(st, Normal) && Hits(g, BoundByExprs(evaluated), DeferredAll(evaluated) + nonlocals)
    case Declare(_) => st == Normal && g.Just?
    case Assert(_, test) => MayFail(st, Normal) && Hits(g, Missed(test), Deferred(test))
    case Compound(head, _) =>
      match head
      case If(_, test) => IfAble(s, Hits(g, Missed(test), Deferred(test)), st, g)
      case While(_, _) => LoopAble(s, st, g)
      case For(_, iter) => ForAble(s, Hits(g, Missed(iter), Deferred(iter)), st, g)
      case With(items) => WithAble(s, Hits(g, MissedInItems(items), DeferredInItems(items)), st, g)
      case Try(handlers) => TryAble(s, handlers, st, g)
      case Match(subject, cases) => MatchAble(s, subject, cases, st, g)
  }

  predicate MayFail(st: Status, after: Status) { st == after || st == Raised }

  /** Some run of the first `i` statements ends with `st` and meets the goal. */
  predicate AbleBlock(ss: Block, i: nat, st: Status, g: Goal)
    requires i <= |ss|
    decreases ss, i
  {
    if i == 0 then st == Normal && g.Just?
    else
      || (st != Normal && AbleBlock(ss, i - 1, st, g))
      || Both(AbleBlock(ss, i - 1, Normal, Just), AbleBlock(ss, i - 1, Normal, g), Able(ss[i - 1], st, Just),
              Able(ss[i - 1], st, g))
  }

  predicate AbleIn(s: Stmt, b: nat, st: Status, g: Goal)
    decreases s, 0
  {
    if s.Compound? && b < |s.blocks| then AbleBlock(s.blocks[b].stmts, |s.blocks[b].stmts|, st, g) else st == Normal && g.Just?
  }

  /** Block `b`, after a head that meets the goal if `hit`. */
  predicate AbleAfter(hit: bool, s: Stmt, b: nat, st: Status, g: Goal)
    decreases s, 1
  {
    AbleIn(s, b, st, g) || (hit && AbleIn(s, b, st, Just))
  }

  predicate IfAble(s: Stmt, hit: bool, st: Status, g: Goal)
    decreases s, 2
  {
    (st == Raised && hit) || AbleAfter(hit, s, 0, st, g) || AbleAfter(hit, s, 1, st, g)
  }

  predicate WithAble(s: Stmt, hit: bool, st: Status, g: Goal)
    decreases s, 2
  {
    (st == Raised && hit) || AbleAfter(hit, s, 0, st, g) || (st == Normal && AbleAfter(hit, s, 0, Raised, g))
  }

  predicate TriedHits(g: Goal, subject: Expr, cases: seq<CaseHead>, k: nat)
    requires k <= |cases|
  {
    Hits(g, Missed(subject) + MissedInCases(cases[..k]), Deferred(subject) + DeferredInCases(cases[..k]))
  }

  predicate CaseAble(s: Stmt, subject: Expr, cases: seq<CaseHead>, k: nat, st: Status, g: Goal)
    requires k < |cases|
    decreases s, 2
  {
    AbleAfter(TriedHits(g, subject, cases, k + 1), s, k, st, g)
  }

  /** One of the first `n` cases. */
  predicate AnyCase(s: Stmt, subject: Expr, cases: seq<CaseHead>, n: nat, st: Status, g: Goal)
    requires n <= |cases|
    decreases s, 3, n
  {
    n > 0 && (AnyCase(s, subject, cases, n - 1, st, g) || CaseAble(s, subject, cases, n - 1, st, g))
  }

  predicate MatchAble(s: Stmt, subject: Expr, cases: seq<CaseHead>, st: Status, g: Goal)
    decreases s, 4
  {
    (MayFail(st, Normal) && TriedHits(g, subject, cases, |cases|)) || AnyCase(s, subject, cases, |cases|, st, g)
  }

  predicate LoopHits(s: Stmt, exhausted: bool, g: Goal)
    requires s.Compound? && (s.head.While? || s.head.For?)
  {
    Hits(g, LoopMisses(s.head, exhausted), LoopDefers(s.head, exhausted))
  }

  /** An iteration goes on to the next one. */
  predicate Again(s: Stmt, g: Goal)
    requires s.Compound? && (s.head.While? || s.head.For?)
    decreases s, 2
  {
    AbleAfter(LoopHits(s, false, g), s, 0, Normal, g) || AbleAfter(LoopHits(s, false, g), s, 0, Continued, g)
  }

  /** The last iteration, or the exhaustion of the loop. */
  predicate LoopEnd(s: Stmt, st: Status, g: Goal)
    requires s.Compound? && (s.head.While? || s.head.For?)
    decreases s, 2
  {
    var hit := LoopHits(s, false, g);
    || (st == Raised && hit)
    || (st == Normal && AbleAfter(hit, s, 0, Broke, g))
    || ((st == Raised || st == Returned) && AbleAfter(hit, s, 0, st, g))
    || AbleAfter(LoopHits(s, true, g), s, 1, st, g)
  }

  predicate LoopAble(s: Stmt, st: Status, g: Goal)
    requires s.Compound? && (s.head.While? || s.head.For?)
    decreases s, 3
  {
    LoopEnd(s, st, g) || (Again(s, g) && LoopEnd(s, st, Just))
  }

  predicate ForAble(s: Stmt, hit: bool, st: Status, g: Goal)
    requires s.Compound? && s.head.For?
    decreases s, 4
  {
    (st == Raised && hit) || LoopAble(s, st, g) || (hit && LoopAble(s, st, Just))
  }

  predicate AskedHits(g: Goal, handlers: seq<HandlerHead>, k: nat)
    requires k <= |handlers|
  {
    Hits(g, MissedInHandlers(handlers[..k]), DeferredInHandlers(handlers[..k]))
  }

  predicate HandlerAble(s: Stmt, handlers: seq<HandlerHead>, k: nat, st: Status, g: Goal)
    requires 1 <= k <= |handlers|
    decreases s, 2
  {
    Both(AbleIn(s, 0, Raised, Just), AbleIn(s, 0, Raised, g), AbleIn(s, k, st, Just),
         AbleAfter(AskedHits(g, handlers, k), s, k, st, g))
  }

  /** One of the first `n` handlers. */
  predicate AnyHandler(s: Stmt, handlers: seq<HandlerHead>, n: nat, st: Status, g: Goal)
    requires n <= |handlers|
    decreases s, 3, n
  {
    n > 0 && (AnyHandler(s, handlers, n - 1, st, g) || HandlerAble(s, handlers, n, st, g))
  }

  /** The body with a handler or the else block, up to the finally block. */
  predicate MiddleAble(s: Stmt, handlers: seq<HandlerHead>, st: Status, g: Goal)
    decreases s, 4
  {
    || AnyHandler(s, handlers, |handlers|, st, g)
    || (st == Raised && (AbleIn(s, 0, Raised, g) || (AbleIn(s, 0, Raised, Just) && AskedHits(g, handlers, |handlers|))))
    || Both(AbleIn(s, 0, Normal, Just), AbleIn(s, 0, Normal, g), AbleIn(s, |handlers| + 1, st, Just),
            AbleIn(s, |handlers| + 1, st, g))
    || (st != Normal && st != Raised && AbleIn(s, 0, st, g))
  }

  predicate AnyMiddle(s: Stmt, handlers: seq<HandlerHead>, g: Goal)
    decreases s, 5
  {
    || MiddleAble(s, handlers, Normal, g) || MiddleAble(s, handlers, Raised, g) || MiddleAble(s, handlers, Broke, g)
    || MiddleAble(s, handlers, Continued, g) || MiddleAble(s, handlers, Returned, g)
  }

  predicate TryAble(s: Stmt, handlers: seq<HandlerHead>, st: Status, g: Goal)
    decreases s, 6
  {
    var last := |handlers| + 2;
    || Both(MiddleAble(s, handlers, st, Just), MiddleAble(s, handlers, st, g), AbleIn(s, last, Normal, Just),
            AbleIn(s, last, Normal, g))
    || (st != Normal && Both(AnyMiddle(s, handlers, Just), AnyMiddle(s, handlers, g), AbleIn(s, last, st, Just),
                             AbleIn(s, last, st, g)))
  }

  // ----- shapes -----

  lemma AfterJust(hit: bool, s: Stmt, b: nat, st: Status)
    ensures AbleAfter(hit, s, b, st, Just) <==> AbleIn(s, b, st, Just)
  {
  }

  lemma AbleIf(s: Stmt, st: Status, g: Goal)
    requires s.Compound? && s.head.If?
    ensures var hit := Hits(g, Missed(s.head.test), Deferred(s.head.test));
            Able(s, st, g) <==> (st == Raised && hit) || AbleAfter(hit, s, 0, st, g) || AbleAfter(hit, s, 1, st, g)
  {
    assert Able(s, st, g) == IfAble(s, Hits(g, Missed(s.head.test), Deferred(s.head.test)), st, g);
  }

  lemma AbleWith(s: Stmt, st: Status, g: Goal)
    requires s.Compound? && s.head.With?
    ensures var hit := Hits(g, MissedInItems(s.head.items), DeferredInItems(s.head.items));
            Able(s, st, g) <==>
                (st == Raised && hit) || AbleAfter(hit, s, 0, st, g) || (st == Normal && AbleAfter(hit, s, 0, Raised,
                                                                                                   g))
  {
    assert Able(s, st, g) == WithAble(s, Hits(g, MissedInItems(s.head.items), DeferredInItems(s.head.items)), st, g);
  }

  lemma AbleMatch(s: Stmt, st: Status, g: Goal)
    requires s.Compound? && s.head.Match?
    ensures var subject, cases := s.head.subject, s.head.cases;
            Able(s, st, g) <==>
                (MayFail(st, Normal) && TriedHits(g, subject, cases, |cases|)) || AnyCase(s, subject, cases, |cases|,
                                                                                          st, g)
  {
    assert Able(s, st, g) == MatchAble(s, s.head.subject, s.head.cases, st, g);
  }

  lemma {:induction false} CaseIsAny(s: Stmt, subject: Expr, cases: seq<CaseHead>, k: nat, n: nat, st: Status, g: Goal)
    requires k < n <= |cases| && CaseAble(s, subject, cases, k, st, g)
    ensures AnyCase(s, subject, cases, n, st, g)
    decreases n
  {
    if k < n - 1 {
      CaseIsAny(s, subject, cases, k, n - 1, st, g);
    }
  }

  lemma {:induction false} AnyIsCase(s: Stmt, subject: Expr, cases: seq<CaseHead>, n: nat, st: Status, g: Goal)
    returns (k: nat)
    requires n <= |cases| && AnyCase(s, subject, cases, n, st, g)
    ensures k < n && CaseAble(s, subject, cases, k, st, g)
    decreases n
  {
    if CaseAble(s, subject, cases, n - 1, st, g) {
      k := n - 1;
    } else {
      k := AnyIsCase(s, subject, cases, n - 1, st, g);
    }
  }

  lemma {:induction false} HandlerIsAny(s: Stmt, handlers: seq<HandlerHead>, k: nat, n: nat, st: Status, g: Goal)
    requires 1 <= k <= n <= |handlers| && HandlerAble(s, handlers, k, st, g)
    ensures AnyHandler(s, handlers, n, st, g)
    decreases n
  {
    if k < n {
      HandlerIsAny(s, handlers, k, n - 1, st, g);
    }
  }

  lemma {:induction false} AnyIsHandler(s: Stmt, handlers: seq<HandlerHead>, n: nat, st: Status, g: Goal)
    returns (k: nat)
    requires n <= |handlers| && AnyHandler(s, handlers, n, st, g)
    ensures 1 <= k <= n && HandlerAble(s, handlers, k, st, g)
    decreases n
  {
    if HandlerAble(s, handlers, n, st, g) {
      k := n;
    } else {
      k := AnyIsHandler(s, handlers, n - 1, st, g);
    }
  }

  lemma AbleCase(s: Stmt, k: nat, st: Status, g: Goal)
    requires s.Compound? && s.head.Match? && k < |s.head.cases|
    ensures CaseAble(s, s.head.subject, s.head.cases, k, st, g) <==>
            AbleAfter(TriedHits(g, s.head.subject, s.head.cases, k + 1), s, k, st, g)
  {
  }

  lemma AbleWhile(s: Stmt, st: Status, g: Goal)
    requires s.Compound? && s.head.While?
    ensures Able(s, st, g) <==> LoopAble(s, st, g)
  {
  }

  lemma AbleFor(s: Stmt, st: Status, g: Goal)
    requires s.Compound? && s.head.For?
    ensures var hit := Hits(g, Missed(s.head.iter), Deferred(s.head.iter));
            Able(s, st, g) <==> (st == Raised && hit) || LoopAble(s, st, g) || (hit && LoopAble(s, st, Just))
  {
    assert Able(s, st, g) == ForAble(s, Hits(g, Missed(s.head.iter), Deferred(s.head.iter)), st, g);
  }

  lemma AbleLoop(s: Stmt, st: Status, g: Goal)
    requires s.Compound? && (s.head.While? || s.head.For?)
    ensures LoopAble(s, st, g) <==> LoopEnd(s, st, g) || (Again(s, g) && LoopEnd(s, st, Just))
  {
  }

  lemma AbleAgain(s: Stmt, g: Goal)
    requires s.Compound? && (s.head.While? || s.head.For?)
    ensures var hit := LoopHits(s, false, g);
            Again(s, g) <==> AbleAfter(hit, s, 0, Normal, g) || AbleAfter(hit, s, 0, Continued, g)
  {
  }

  lemma AbleLoopEnd(s: Stmt, st: Status, g: Goal)
    requires s.Compound? && (s.head.While? || s.head.For?)
    ensures var hit := LoopHits(s, false, g);
            LoopEnd(s, st, g) <==>
              || (st == Raised && hit)
              || (st == Normal && AbleAfter(hit, s, 0, Broke, g))
              || ((st == Raised || st == Returned) && AbleAfter(hit, s, 0, st, g))
              || AbleAfter(LoopHits(s, true, g), s, 1, st, g)
  {
  }

  lemma AbleTry(s: Stmt, st: Status, g: Goal)
    requires s.Compound? && s.head.Try?
    ensures var handlers := s.head.handlers;
            var last := |handlers| + 2;
            Able(s, st, g) <==>
              || Both(MiddleAble(s, handlers, st, Just), MiddleAble(s, handlers, st, g), AbleIn(s, last, Normal, Just),
                      AbleIn(s, last, Normal, g))
              || (st != Normal && Both(AnyMiddle(s, handlers, Just), AnyMiddle(s, handlers, g),
                                       AbleIn(s, last, st, Just), AbleIn(s, last, st, g)))
  {
    assert Able(s, st, g) == TryAble(s, s.head.handlers, st, g);
  }

  lemma AbleMiddle(s: Stmt, handlers: seq<HandlerHead>, st: Status, g: Goal)
    ensures MiddleAble(s, handlers, st, g) <==>
              || AnyHandler(s, handlers, |handlers|, st, g)
              || (st == Raised && (AbleIn(s, 0, Raised, g) || (AbleIn(s, 0, Raised, Just) && AskedHits(g, handlers,
                                                                                                       |handlers|))))
              || Both(AbleIn(s, 0, Normal, Just), AbleIn(s, 0, Normal, g), AbleIn(s, |handlers| + 1, st, Just),
                      AbleIn(s, |handlers| + 1, st, g))
              || (st != Normal && st != Raised && AbleIn(s, 0, st, g))
  {
  }

  lemma AbleHandler(s: Stmt, handlers: seq<HandlerHead>, k: nat, st: Status, g: Goal)
    requires 1 <= k <= |handlers|
    ensures HandlerAble(s, handlers, k, st, g) <==>
              Both(AbleIn(s, 0, Raised, Just), AbleIn(s, 0, Raised, g), AbleIn(s, k, st, Just),
                   AbleAfter(AskedHits(g, handlers, k), s, k, st, g))
  {
  }

  lemma AnyMiddleIs(s: Stmt, handlers: seq<HandlerHead>, st: Status, g: Goal)
    requires st != Stopped && MiddleAble(s, handlers, st, g)
    ensures AnyMiddle(s, handlers, g)
  {
  }

  // ----- entries -----

  /** Some run of the statement enters block `b` having met the goal. */
  predicate AbleEnter(s: Stmt, b: nat, g: Goal) {
    s.Compound? &&
    match s.head
    case If(_, test) => b <= 1 && Hits(g, Missed(test), Deferred(test))
    case While(_, _) => b <= 1 && (LoopHits(s, b == 1, g) || Again(s, g))
    case For(_, iter) => b <= 1 && (Hits(g, Missed(iter), Deferred(iter)) || LoopHits(s, b == 1, g) || Again(s, g))
    case With(items) => b == 0 && Hits(g, MissedInItems(items), DeferredInItems(items))
    case Match(subject, cases) => b < |cases| && TriedHits(g, subject, cases, b + 1)
    case Try(handlers) =>
      if b == 0 then g.Just?
      else if b <= |handlers| then AbleIn(s, 0, Raised, g) || (AbleIn(s, 0, Raised, Just) && AskedHits(g, handlers, b))
      else if b == |handlers| + 1 then AbleIn(s, 0, Normal, g)
      else b == |handlers| + 2 && AnyMiddle(s, handlers, g)
  }

  // ----- steps of a run -----

  predicate IsElsewhere(n: string, env: Env) { n in env && env[n] == Elsewhere }

  /** The goal is met: the name may be rebound by deferred code or, where that counts, has been bound elsewhere. */
  predicate Met(g: Goal, s: State) {
    g.Just? || g.n in s.armed || (g.all && IsElsewhere(g.n, s.env))
  }

  /** The goal is about a name the stored names do not hold. */
  predicate Apart(g: Goal, stores: set<string>) { g.Touching? && g.all ==> g.n !in stores }

  /**
   From `a` to `b` the run may store `stores`. What was met stays met. If nothing touched the name, it
   stays out of reach of deferred code and keeps its binding.
   */
  ghost predicate Step(g: Goal, touched: bool, stores: set<string>, a: State, b: State) {
    g.Touching? ==>
      && (g.n in a.armed ==> g.n in b.armed)
      && (g.n !in a.armed && !touched ==> g.n !in b.armed)
      && (g.all && g.n !in stores && IsElsewhere(g.n, a.env) ==> IsElsewhere(g.n, b.env))
      && (g.all && g.n !in stores && g.n !in a.armed && !touched ==> Same(g.n, a.env, b.env))
  }

  lemma StepThen(g: Goal, t: bool, u: bool, stores: set<string>, a: State, b: State, c: State)
    requires Step(g, t, stores, a, b) && Step(g, u, stores, b, c)
    ensures Step(g, t || u, stores, a, c)
  {
  }

  lemma StepWider(g: Goal, t: bool, u: bool, stores: set<string>, more: set<string>, a: State, b: State)
    requires Step(g, t, stores, a, b) && (t ==> u) && stores <= more
    ensures Step(g, u, more, a, b)
  {
  }

  lemma StepMet(g: Goal, touched: bool, stores: set<string>, a: State, b: State)
    requires Step(g, touched, stores, a, b) && Met(g, a) && Apart(g, stores)
    ensures Met(g, b)
  {
  }

  lemma BeginStep(g: Goal, s: State, list: seq<string>, stores: set<string>)
    ensures Step(g, false, stores, s, Begin(s, list))
  {
    if g.Touching? {
      if g.n !in s.armed {
        RebindKeeps(s.env, s.armed, list, g.n);
      }
      if IsElsewhere(g.n, s.env) {
        RebindElsewhere(s.env, s.armed, list, g.n);
      }
    }
  }

  lemma EvalStep(g: Goal, s: State, binds: set<string>, defers: set<string>, list: seq<string>, caught: set<string>,
                 stores: set<string>)
    requires binds <= stores + caught
    ensures Step(g, Hits(g, caught, defers), stores, s, Eval(s, binds, defers, list))
  {
    if g.Touching? {
      var names := binds + defers + s.armed;
      if g.n !in names {
        RebindKeeps(s.env, names, list, g.n);
      }
      if IsElsewhere(g.n, s.env) {
        RebindElsewhere(s.env, names, list, g.n);
      }
    }
  }

  /** Evaluating something can meet the goal. */
  lemma EvalMeets(g: Goal, s: State, binds: set<string>, defers: set<string>, list: seq<string>, caught: set<string>)
    requires Hits(g, caught, defers) && caught <= binds && (g.Touching? ==> list == [g.n])
    ensures Met(g, Eval(s, binds, defers, list))
  {
    if g.Touching? && g.n !in defers {
      RebindElsewhere(s.env, binds + defers + s.armed, list, g.n);
    }
  }
}
