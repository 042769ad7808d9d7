/**
 Inside a condition: what each load of a name sees while the test is evaluated from left to right, and
 when it is the tracked value. Loads in the bodies of lambdas and generator expressions are not made by
 the test itself and are left aside.
 */
module TimeoutLoads {
  import opened PythonSyntax
  import opened PythonRuns
  import opened PythonReach
  import opened PythonWitness
  import opened TimeoutDataflow
  import opened TimeoutSoundness

  datatype Load = Load(name: string, state: State)

  /** The state an evaluation leaves, and the loads it has made. */
  datatype Look = Look(state: State, loads: seq<Load>)

  // ----- evaluation -----

  /** The parts of an expression that are evaluated one after the other, if at all. */
  function PartCount(e: Expr): nat {
    match e
    case Call(_, args, keywords) => |args| + |keywords|
    case Not(_) => 1
    case Compare(_, operands) => |operands|
    case Lambda(defaults, _) => |defaults|
    case Comprehension(_, _, clauses) => |clauses| + 1
    case Operation(parts) => |parts|
    case _ => 0
  }

  function Part(e: Expr, i: nat): (p: Expr)
    requires i < PartCount(e)
    ensures p < e
  {
    match e
    case Call(_, args, keywords) => if i < |args| then args[i] else keywords[i - |args|]
    case Not(operand) => operand
    case Compare(_, operands) => operands[i]
    case Lambda(defaults, _) => defaults[i]
    case Comprehension(_, element, clauses) => if i < |clauses| then clauses[i] else element
    case Operation(parts) => parts[i]
  }

  function Sub(c: Choice, i: nat): Choice { if i < |c.subs| then c.subs[i] else NONE }

  /** Short circuits and exceptions leave parts out: a choice of 0. */
  function Evaluate(e: Expr, s: State, c: Choice): Look
    decreases e, 2, 0
  {
    if c.pick == 0 then Look(s, [])
    else
      var now := Begin(s, c.before);
      match e
      case Name(id) => Look(now, [Load(id, now)])
      case Walrus(target, value) =>
        var r := Evaluate(value, now, Sub(c, 0));
        if c.pick == 1 then r else Look(r.state.(env := r.state.env[target := Elsewhere]), r.loads)
      case Conditional(test, body, orElse) =>
        var first := Evaluate(test, now, Sub(c, 0));
        var second := Evaluate(if c.pick == 1 then body else orElse, first.state, Sub(c, 1));
        Look(second.state, first.loads + second.loads)
      case Generator(_, _) => Look(now.(armed := now.armed + Deferred(e)), [])
      case Comprehension(targets, _, _) =>
        var r := Rounds(e, now, c, |c.subs|);
        Look(r.state, Outside(r.loads, targets))
      case _ => EvaluateParts(e, now, c, PartCount(e))
  }

  function EvaluateParts(e: Expr, s: State, c: Choice, k: nat): Look
    requires k <= PartCount(e)
    decreases e, 0, k
  {
    if k == 0 then Look(s, [])
    else
      var before := EvaluateParts(e, s, c, k - 1);
      var r := Evaluate(Part(e, k - 1), before.state, Sub(c, k - 1));
      Look(r.state, before.loads + r.loads)
  }

  /** The first `k` rounds of a comprehension. */
  function Rounds(e: Expr, s: State, c: Choice, k: nat): Look
    requires k <= |c.subs|
    decreases e, 1, k
  {
    if k == 0 then Look(s, [])
    else
      var before := Rounds(e, s, c, k - 1);
      var r := EvaluateParts(e, before.state, c.subs[k - 1], PartCount(e));
      Look(r.state, before.loads + r.loads)
  }

  /** The loads of other names than the comprehension's own. */
  function Outside(loads: seq<Load>, own: set<string>): (r: seq<Load>)
    ensures forall l :: l in r <==> l in loads && l.name !in own
  {
    if loads == [] then []
    else
      var rest := Outside(loads[1..], own);
      assert loads == [loads[0]] + loads[1..];
      if loads[0].name in own then rest else [loads[0]] + rest
  }

  // ----- what the syntax says -----

  /** Evaluating the expression may bind `n`, or create code that may. */
  predicate Rebinds(e: Expr, n: string)
    decreases e, 1, 0
  {
    match e
    case Walrus(target, value) => target == n || Rebinds(value, n)
    case Conditional(test, body, orElse) => Rebinds(test, n) || Rebinds(body, n) || Rebinds(orElse, n)
    case Generator(_, _) => n in Deferred(e)
    case _ => RebindsBefore(e, PartCount(e), n)
  }

  /** One of the first `k` parts does. */
  predicate RebindsBefore(e: Expr, k: nat, n: string)
    requires k <= PartCount(e)
    decreases e, 0, k
  {
    k > 0 && (RebindsBefore(e, k - 1, n) || Rebinds(Part(e, k - 1), n))
  }

  predicate LoadsName(e: Expr, n: string)
    decreases e, 1, 0
  {
    match e
    case Name(id) => id == n
    case Walrus(_, value) => LoadsName(value, n)
    case Conditional(test, body, orElse) => LoadsName(test, n) || LoadsName(body, n) || LoadsName(orElse, n)
    case Comprehension(targets, _, _) => n !in targets && LoadsBefore(e, PartCount(e), n)
    case _ => LoadsBefore(e, PartCount(e), n)
  }

  predicate LoadsBefore(e: Expr, k: nat, n: string)
    requires k <= PartCount(e)
    decreases e, 0, k
  {
    k > 0 && (LoadsBefore(e, k - 1, n) || LoadsName(Part(e, k - 1), n))
  }

  /** Some load of `n` follows something in the same expression that rebinds `n`. */
  predicate LoadsAfter(e: Expr, n: string)
    decreases e, 1, 0
  {
    match e
    case Walrus(_, value) => LoadsAfter(value, n)
    case Conditional(test, body, orElse) =>
      || LoadsAfter(test, n) || LoadsAfter(body, n) || LoadsAfter(orElse, n)
      || (Rebinds(test, n) && (LoadsName(body, n) || LoadsName(orElse, n)))
    case Comprehension(_, _, _) => LoadsName(e, n) && Rebinds(e, n)
    case _ => LoadsAfterBefore(e, PartCount(e), n)
  }

  predicate LoadsAfterBefore(e: Expr, k: nat, n: string)
    requires k <= PartCount(e)
    decreases e, 0, k
  {
    && k > 0
    && (|| LoadsAfterBefore(e, k - 1, n) || LoadsAfter(Part(e, k - 1), n)
        || (RebindsBefore(e, k - 1, n) && LoadsName(Part(e, k - 1), n)))
  }

  // ----- the same names as for statements -----

  lemma {:induction false} InAll(es: seq<Expr>, n: string)
    ensures n in BoundByExprs(es) + DeferredAll(es) <==>
            exists i :: 0 <= i < |es| && n in BoundByExpr(es[i]) + Deferred(es[i])
  {
    if es != [] {
      InAll(es[1..], n);
      if i :| 0 <= i < |es| && n in BoundByExpr(es[i]) + Deferred(es[i]) {
        assert i > 0 ==> es[1..][i - 1] == es[i];
      }
      if i :| 0 <= i < |es[1..]| && n in BoundByExpr(es[1..][i]) + Deferred(es[1..][i]) {
        assert es[i + 1] == es[1..][i];
      }
    }
  }

  lemma {:induction false} PartsRebind(e: Expr, k: nat, n: string)
    requires k <= PartCount(e)
    ensures RebindsBefore(e, k, n) <==> exists i :: 0 <= i < k && Rebinds(Part(e, i), n)
  {
    if k > 0 {
      PartsRebind(e, k - 1, n);
    }
  }

  /** An expression rebinds what the run of a statement says it may bind or defer. */
  lemma {:induction false} RebindsIff(e: Expr, n: string)
    ensures Rebinds(e, n) <==> n in BoundByExpr(e) + Deferred(e)
    decreases e
  {
    PartsRebind(e, PartCount(e), n);
    forall i | 0 <= i < PartCount(e) ensures Rebinds(Part(e, i), n) <==>
        n in BoundByExpr(Part(e, i)) + Deferred(Part(e, i)) {
      RebindsIff(Part(e, i), n);
    }
    match e
    case Name(_) =>
    case Literal(_) =>
    case Call(_, args, keywords) => CallRebinds(e, n);
    case Not(operand) => assert Part(e, 0) == operand;
    case Compare(_, operands) =>
      InAll(operands, n);
      assert forall i :: 0 <= i < |operands| ==> Part(e, i) == operands[i];
    case Walrus(_, value) => RebindsIff(value, n);
    case Conditional(test, body, orElse) =>
      RebindsIff(test, n);
      RebindsIff(body, n);
      RebindsIff(orElse, n);
    case Lambda(defaults, _) =>
      InAll(defaults, n);
      assert forall i :: 0 <= i < |defaults| ==> Part(e, i) == defaults[i];
    case Generator(_, _) =>
    case Comprehension(_, _, _) => ComprehensionRebinds(e, n);
    case Operation(parts) =>
      InAll(parts, n);
      assert forall i :: 0 <= i < |parts| ==> Part(e, i) == parts[i];
  }

  lemma CallRebinds(e: Expr, n: string)
    requires e.Call?
    ensures n in BoundByExpr(e) + Deferred(e) <==>
            exists i :: 0 <= i < PartCount(e) && n in BoundByExpr(Part(e, i)) + Deferred(Part(e, i))
  {
    InAll(e.args, n);
    InAll(e.keywords, n);
    if i :| 0 <= i < |e.args| && n in BoundByExpr(e.args[i]) + Deferred(e.args[i]) {
      assert Part(e, i) == e.args[i];
    }
    if i :| 0 <= i < |e.keywords| && n in BoundByExpr(e.keywords[i]) + Deferred(e.keywords[i]) {
      assert Part(e, |e.args| + i) == e.keywords[i];
    }
  }

  lemma ComprehensionRebinds(e: Expr, n: string)
    requires e.Comprehension?
    ensures n in BoundByExpr(e) + Deferred(e) <==>
            exists i :: 0 <= i < PartCount(e) && n in BoundByExpr(Part(e, i)) + Deferred(Part(e, i))
  {
    InAll(e.clauses, n);
    assert Part(e, |e.clauses|) == e.element;
    if i :| 0 <= i < |e.clauses| && n in BoundByExpr(e.clauses[i]) + Deferred(e.clauses[i]) {
      assert Part(e, i) == e.clauses[i];
    }
  }

  // ----- no evaluation does more -----

  /**
   What an evaluation from `s` does to a name no deferred code is about: kept unless rebound, and so
   seen unless loaded after that.
   */
  ghost predicate Sees(s: State, r: Look, rebinds: bool, loads: bool, after: bool, n: string) {
    && (!rebinds ==> n !in r.state.armed && Same(n, s.env, r.state.env))
    && (forall l :: l in r.loads && l.name == n ==> loads && (!after ==> Same(n, s.env, l.state.env)))
  }

  lemma SeesThen(s: State, a: Look, t: State, b: Look, ra: bool, la: bool, aa: bool, rb: bool, lb: bool, ab: bool,
                 n: string)
    requires Sees(s, a, ra, la, aa, n) && t == a.state && (!ra ==> Sees(t, b, rb, lb, ab, n))
    requires ra ==> forall l :: l in b.loads && l.name == n ==> lb
    ensures Sees(s, Look(b.state, a.loads + b.loads), ra || rb, la || lb, aa || ab || (ra && lb), n)
  {
  }

  lemma SeesBegun(s: State, list: seq<string>, r: Look, rebinds: bool, loads: bool, after: bool, n: string)
    requires n !in s.armed && Sees(Begin(s, list), r, rebinds, loads, after, n)
    ensures Sees(s, r, rebinds, loads, after, n)
  {
    RebindKeeps(s.env, s.armed, list, n);
  }

  /** Only names the expression loads are loaded. */
  lemma {:induction false} OnlyLoads(e: Expr, s: State, c: Choice, n: string)
    ensures forall l :: l in Evaluate(e, s, c).loads && l.name == n ==> LoadsName(e, n)
    decreases e, 2, 0
  {
    if c.pick != 0 {
      var now := Begin(s, c.before);
      match e
      case Name(_) =>
      case Walrus(_, value) => OnlyLoads(value, now, Sub(c, 0), n);
      case Conditional(test, body, orElse) =>
        OnlyLoads(test, now, Sub(c, 0), n);
        OnlyLoads(if c.pick == 1 then body else orElse, Evaluate(test, now, Sub(c, 0)).state, Sub(c, 1), n);
      case Generator(_, _) =>
      case Comprehension(_, _, _) => OnlyRoundLoads(e, now, c, |c.subs|, n);
      case _ => OnlyPartLoads(e, now, c, PartCount(e), n);
    }
  }

  lemma {:induction false} OnlyPartLoads(e: Expr, s: State, c: Choice, k: nat, n: string)
    requires k <= PartCount(e)
    ensures forall l :: l in EvaluateParts(e, s, c, k).loads && l.name == n ==> LoadsBefore(e, k, n)
    decreases e, 0, k
  {
    if k > 0 {
      OnlyPartLoads(e, s, c, k - 1, n);
      OnlyLoads(Part(e, k - 1), EvaluateParts(e, s, c, k - 1).state, Sub(c, k - 1), n);
    }
  }

  lemma {:induction false} OnlyRoundLoads(e: Expr, s: State, c: Choice, k: nat, n: string)
    requires k <= |c.subs|
    ensures forall l :: l in Rounds(e, s, c, k).loads && l.name == n ==> LoadsBefore(e, PartCount(e), n)
    decreases e, 1, k
  {
    if k > 0 {
      OnlyRoundLoads(e, s, c, k - 1, n);
      OnlyPartLoads(e, Rounds(e, s, c, k - 1).state, c.subs[k - 1], PartCount(e), n);
    }
  }

  lemma {:induction false} SeesExpr(e: Expr, s: State, c: Choice, n: string)
    requires n !in s.armed
    ensures Sees(s, Evaluate(e, s, c), Rebinds(e, n), LoadsName(e, n), LoadsAfter(e, n), n)
    decreases e, 2, 0
  {
    if c.pick != 0 {
      var now := Begin(s, c.before);
      SeesNow(e, now, c, n);
      SeesBegun(s, c.before, Evaluate(e, s, c), Rebinds(e, n), LoadsName(e, n), LoadsAfter(e, n), n);
    }
  }

  lemma {:induction false} SeesNow(e: Expr, now: State, c: Choice, n: string)
    requires n !in now.armed && c.pick != 0
    ensures forall s: State :: Begin(s, c.before) == now ==>
            Sees(now, Evaluate(e, s, c), Rebinds(e, n), LoadsName(e, n), LoadsAfter(e, n), n)
    decreases e, 1, 1
  {
    match e
    case Name(_) =>
    case Walrus(_, value) => SeesExpr(value, now, Sub(c, 0), n);
    case Conditional(test, body, orElse) => SeesConditional(e, now, c, n);
    case Generator(_, _) =>
    case Comprehension(_, _, _) => SeesRounds(e, now, c, |c.subs|, n);
    case _ => SeesParts(e, now, c, PartCount(e), n);
  }

  lemma {:induction false} SeesConditional(e: Expr, now: State, c: Choice, n: string)
    requires n !in now.armed && c.pick != 0 && e.Conditional?
    ensures var first := Evaluate(e.test, now, Sub(c, 0));
            var second := Evaluate(if c.pick == 1 then e.body else e.orElse, first.state, Sub(c, 1));
            Sees(now, Look(second.state, first.loads + second.loads), Rebinds(e, n), LoadsName(e, n), LoadsAfter(e, n),
                 n)
    decreases e, 1, 0
  {
    var branch := if c.pick == 1 then e.body else e.orElse;
    var first := Evaluate(e.test, now, Sub(c, 0));
    var second := Evaluate(branch, first.state, Sub(c, 1));
    SeesExpr(e.test, now, Sub(c, 0), n);
    OnlyLoads(branch, first.state, Sub(c, 1), n);
    if !Rebinds(e.test, n) {
      SeesExpr(branch, first.state, Sub(c, 1), n);
    }
    SeesThen(now, first, first.state, second, Rebinds(e.test, n), LoadsName(e.test, n), LoadsAfter(e.test, n),
             Rebinds(branch, n), LoadsName(branch, n), LoadsAfter(branch, n), n);
  }

  lemma {:induction false} SeesParts(e: Expr, s: State, c: Choice, k: nat, n: string)
    requires n !in s.armed && k <= PartCount(e)
    ensures Sees(s, EvaluateParts(e, s, c, k), RebindsBefore(e, k, n), LoadsBefore(e, k, n), LoadsAfterBefore(e, k, n),
                 n)
    decreases e, 0, k
  {
    if k > 0 {
      var p, before := Part(e, k - 1), EvaluateParts(e, s, c, k - 1);
      var r := Evaluate(p, before.state, Sub(c, k - 1));
      SeesParts(e, s, c, k - 1, n);
      OnlyLoads(p, before.state, Sub(c, k - 1), n);
      if !RebindsBefore(e, k - 1, n) {
        SeesExpr(p, before.state, Sub(c, k - 1), n);
      }
      SeesThen(s, before, before.state, r, RebindsBefore(e, k - 1, n), LoadsBefore(e, k - 1, n),
               LoadsAfterBefore(e, k - 1, n),
               Rebinds(p, n), LoadsName(p, n), LoadsAfter(p, n), n);
    }
  }

  lemma {:induction false} SeesRounds(e: Expr, s: State, c: Choice, k: nat, n: string)
    requires n !in s.armed && k <= |c.subs| && e.Comprehension?
    ensures var all, loads := PartCount(e), LoadsBefore(e, PartCount(e), n);
            Sees(s, Rounds(e, s, c, k), RebindsBefore(e, all, n), loads, loads && RebindsBefore(e, all, n), n)
    decreases e, 1, 0, k
  {
    if k > 0 {
      var all, before := PartCount(e), Rounds(e, s, c, k - 1);
      var r := EvaluateParts(e, before.state, c.subs[k - 1], all);
      SeesRounds(e, s, c, k - 1, n);
      OnlyPartLoads(e, before.state, c.subs[k - 1], all, n);
      if !RebindsBefore(e, all, n) {
        SeesParts(e, before.state, c.subs[k - 1], all, n);
        if LoadsAfterBefore(e, all, n) {
          AfterNeedsBoth(e, all, n);
        }
      }
    }
  }

  /** A load after a rebinding takes both. */
  lemma {:induction false} AfterNeedsBoth(e: Expr, k: nat, n: string)
    requires k <= PartCount(e) && LoadsAfterBefore(e, k, n)
    ensures RebindsBefore(e, k, n) && LoadsBefore(e, k, n)
    decreases e, 0, k
  {
    if LoadsAfterBefore(e, k - 1, n) {
      AfterNeedsBoth(e, k - 1, n);
    } else if LoadsAfter(Part(e, k - 1), n) {
      AfterTakesBoth(Part(e, k - 1), n);
    }
  }

  lemma {:induction false} AfterTakesBoth(e: Expr, n: string)
    requires LoadsAfter(e, n)
    ensures Rebinds(e, n) && LoadsName(e, n)
    decreases e, 1, 0
  {
    if e.Walrus? {
      AfterTakesBoth(e.value, n);
    } else if e.Conditional? {
      if LoadsAfter(e.test, n) {
        AfterTakesBoth(e.test, n);
      } else if LoadsAfter(e.body, n) {
        AfterTakesBoth(e.body, n);
      } else if LoadsAfter(e.orElse, n) {
        AfterTakesBoth(e.orElse, n);
      }
    } else if !e.Comprehension? {
      AfterNeedsBoth(e, PartCount(e), n);
    }
  }

  // ----- some evaluation does as much -----

  /** The name is bound elsewhere, or deferred code may see to that. */
  predicate Lost(s: State, n: string) { Met(Touching(n, true), s) }

  /** Some load of the name sees it bound elsewhere. */
  ghost predicate SeesStale(r: Look, n: string) {
    exists l :: l in r.loads && l.name == n && IsElsewhere(n, l.state.env)
  }

  lemma LostBegun(s: State, list: seq<string>, n: string)
    requires Lost(s, n)
    ensures Lost(Begin(s, list), n)
  {
    BeginStep(Touching(n, true), s, list, {});
    StepMet(Touching(n, true), false, {}, s, Begin(s, list));
  }

  /** What is lost stays lost. */
  lemma {:induction false} LostStays(e: Expr, s: State, c: Choice, n: string)
    requires Lost(s, n)
    ensures Lost(Evaluate(e, s, c).state, n)
    decreases e, 2, 0
  {
    if c.pick != 0 {
      var now := Begin(s, c.before);
      LostBegun(s, c.before, n);
      if e.Walrus? {
        LostStays(e.value, now, Sub(c, 0), n);
      } else if e.Conditional? {
        LostStays(e.test, now, Sub(c, 0), n);
        LostStays(if c.pick == 1 then e.body else e.orElse, Evaluate(e.test, now, Sub(c, 0)).state, Sub(c, 1), n);
      } else if e.Comprehension? {
        LostInRounds(e, now, c, |c.subs|, n);
      } else if !e.Name? && !e.Generator? {
        LostInParts(e, now, c, PartCount(e), n);
      }
    }
  }

  lemma {:induction false} LostInParts(e: Expr, s: State, c: Choice, k: nat, n: string)
    requires Lost(s, n) && k <= PartCount(e)
    ensures Lost(EvaluateParts(e, s, c, k).state, n)
    decreases e, 0, k
  {
    if k > 0 {
      LostInParts(e, s, c, k - 1, n);
      LostStays(Part(e, k - 1), EvaluateParts(e, s, c, k - 1).state, Sub(c, k - 1), n);
    }
  }

  lemma {:induction false} LostInRounds(e: Expr, s: State, c: Choice, k: nat, n: string)
    requires Lost(s, n) && k <= |c.subs|
    ensures Lost(Rounds(e, s, c, k).state, n)
    decreases e, 1, k
  {
    if k > 0 {
      LostInRounds(e, s, c, k - 1, n);
      LostInParts(e, Rounds(e, s, c, k - 1).state, c.subs[k - 1], PartCount(e), n);
    }
  }

  /** The first `k` parts depend on the first `k` choices only. */
  lemma {:induction false} SameParts(e: Expr, s: State, c: Choice, d: Choice, k: nat)
    requires k <= PartCount(e) && forall i :: 0 <= i < k ==> Sub(c, i) == Sub(d, i)
    ensures EvaluateParts(e, s, c, k) == EvaluateParts(e, s, d, k)
    decreases k
  {
    if k > 0 {
      SameParts(e, s, c, d, k - 1);
    }
  }

  /** The choice with `d` for part `k`, and nothing after it. */
  function With(c: Choice, k: nat, d: Choice): (r: Choice)
    ensures r.pick == 1 && r.before == c.before && |r.subs| == k + 1
    ensures (forall i :: 0 <= i < k ==> Sub(r, i) == Sub(c, i)) && Sub(r, k) == d && forall i :: i > k ==>
            Sub(r, i) == NONE
  {
    Choice(1, c.before, [], seq(k, i requires 0 <= i < k => Sub(c, i)) + [d])
  }

  /** Leaving out all parts from `k` on. */
  lemma {:induction false} RestSkipped(e: Expr, s: State, c: Choice, k: nat, m: nat)
    requires k <= m <= PartCount(e) && forall i :: i >= k ==> Sub(c, i) == NONE
    ensures EvaluateParts(e, s, c, m) == EvaluateParts(e, s, c, k)
    decreases m
  {
    if k < m {
      RestSkipped(e, s, c, k, m - 1);
      var before := EvaluateParts(e, s, c, m - 1);
      assert Evaluate(Part(e, m - 1), before.state, Sub(c, m - 1)) == Look(before.state, []);
      assert before.loads + [] == before.loads;
    }
  }

  /** After the first `k` parts with choices `c`, part `k` with `d`, and no more. */
  lemma PartThen(e: Expr, s: State, c: Choice, k: nat, d: Choice) returns (r: Look)
    requires k < PartCount(e)
    ensures r == EvaluateParts(e, s, With(c, k, d), PartCount(e))
    ensures var before := EvaluateParts(e, s, c, k);
            var last := Evaluate(Part(e, k), before.state, d);
            r == Look(last.state, before.loads + last.loads)
  {
    var w := With(c, k, d);
    SameParts(e, s, w, c, k);
    RestSkipped(e, s, w, k + 1, PartCount(e));
    r := EvaluateParts(e, s, w, PartCount(e));
  }

  /** Nothing of the parts. */
  lemma NoParts(e: Expr, s: State, k: nat)
    requires k <= PartCount(e)
    ensures EvaluateParts(e, s, NONE, k) == Look(s, [])
  {
    RestSkipped(e, s, NONE, 0, k);
  }

  predicate InParts(e: Expr) { !e.Name? && !e.Walrus? && !e.Conditional? && !e.Generator? && !e.Comprehension? }

  lemma AsParts(e: Expr, s: State, c: Choice)
    requires InParts(e) && c.pick != 0 && c.before == []
    ensures Evaluate(e, s, c) == EvaluateParts(e, s, c, PartCount(e))
  {
    assert Begin(s, []) == s;
  }

  /** A comprehension of one round. */
  lemma AsOneRound(e: Expr, s: State, d: Choice) returns (c: Choice)
    requires e.Comprehension?
    ensures c == Choice(1, [], [], [d])
    ensures var r := EvaluateParts(e, s, d, PartCount(e)); Evaluate(e, s, c) == Look(r.state,
                                                                                     Outside(r.loads, e.targets))
  {
    c := Choice(1, [], [], [d]);
    OneRound(e, s, c);
    assert Begin(s, []) == s;
  }

  lemma OneRound(e: Expr, s: State, c: Choice)
    requires |c.subs| > 0
    ensures Rounds(e, s, c, 1) == EvaluateParts(e, s, c.subs[0], PartCount(e))
  {
    var r := EvaluateParts(e, s, c.subs[0], PartCount(e));
    assert Rounds(e, s, c, 0) == Look(s, []);
    assert [] + r.loads == r.loads;
  }

  lemma {:induction false} SomePartRebinds(e: Expr, k: nat, n: string) returns (i: nat)
    requires k <= PartCount(e) && RebindsBefore(e, k, n)
    ensures i < k && Rebinds(Part(e, i), n)
    decreases k
  {
    PartsRebind(e, k, n);
    i :| 0 <= i < k && Rebinds(Part(e, i), n);
  }

  lemma {:induction false} SomePartLoads(e: Expr, k: nat, n: string) returns (i: nat)
    requires k <= PartCount(e) && LoadsBefore(e, k, n)
    ensures i < k && LoadsName(Part(e, i), n)
    decreases k
  {
    if LoadsName(Part(e, k - 1), n) {
      i := k - 1;
    } else {
      i := SomePartLoads(e, k - 1, n);
    }
  }

  /** Only part `i`, with `d`. */
  lemma OnlyPart(e: Expr, s: State, i: nat, d: Choice) returns (c: Choice)
    requires i < PartCount(e)
    ensures c == With(NONE, i, d) && EvaluateParts(e, s, c, PartCount(e)) == Evaluate(Part(e, i), s, d)
  {
    c := With(NONE, i, d);
    NoParts(e, s, i);
    var r := PartThen(e, s, NONE, i, d);
    var last := Evaluate(Part(e, i), s, d);
    assert [] + last.loads == last.loads;
  }

  /** An evaluation that loses the name. */
  lemma {:induction false} Lose(e: Expr, s: State, n: string) returns (c: Choice)
    requires Rebinds(e, n)
    ensures Lost(Evaluate(e, s, c).state, n)
    decreases e
  {
    assert Begin(s, []) == s;
    if e.Walrus? {
      if e.target == n {
        c := Choice(2, [], [], []);
      } else {
        var d := Lose(e.value, s, n);
        c := Choice(2, [], [], [d]);
      }
    } else if e.Conditional? {
      if Rebinds(e.test, n) {
        var d := Lose(e.test, s, n);
        c := Choice(1, [], [], [d]);
      } else if Rebinds(e.body, n) {
        var d := Lose(e.body, s, n);
        c := Choice(1, [], [], [NONE, d]);
      } else {
        var d := Lose(e.orElse, s, n);
        c := Choice(2, [], [], [NONE, d]);
      }
    } else if e.Generator? {
      c := Choice(1, [], [], []);
    } else {
      var i := SomePartRebinds(e, PartCount(e), n);
      var d := Lose(Part(e, i), s, n);
      c := OnlyPart(e, s, i, d);
      c := Whole(e, s, c);
    }
  }

  /** The parts alone, or as a comprehension's only round. */
  lemma Whole(e: Expr, s: State, d: Choice) returns (c: Choice)
    requires (InParts(e) || e.Comprehension?) && d.pick != 0 && d.before == []
    ensures var r := EvaluateParts(e, s, d, PartCount(e));
            Evaluate(e, s, c) == if e.Comprehension? then Look(r.state, Outside(r.loads, e.targets)) else r
  {
    if e.Comprehension? {
      c := AsOneRound(e, s, d);
    } else {
      c := d;
      AsParts(e, s, c);
    }
  }

  lemma StaleIn(r: Look, l: Load, n: string)
    requires l in r.loads && l.name == n && IsElsewhere(n, l.state.env)
    ensures SeesStale(r, n)
  {
  }

  lemma StaleAppended(state: State, a: seq<Load>, b: Look, n: string)
    requires SeesStale(b, n)
    ensures SeesStale(Look(state, a + b.loads), n)
  {
    var l :| l in b.loads && l.name == n && IsElsewhere(n, l.state.env);
    StaleIn(Look(state, a + b.loads), l, n);
  }

  lemma StaleAhead(state: State, a: Look, b: seq<Load>, n: string)
    requires SeesStale(a, n)
    ensures SeesStale(Look(state, a.loads + b), n)
  {
    var l :| l in a.loads && l.name == n && IsElsewhere(n, l.state.env);
    StaleIn(Look(state, a.loads + b), l, n);
  }

  lemma StaleOutside(r: Look, own: set<string>, n: string)
    requires SeesStale(r, n) && n !in own
    ensures SeesStale(Look(r.state, Outside(r.loads, own)), n)
  {
    var l :| l in r.loads && l.name == n && IsElsewhere(n, l.state.env);
    StaleIn(Look(r.state, Outside(r.loads, own)), l, n);
  }

  /** An evaluation that loads a name lost before. */
  lemma {:induction false} LoadLost(e: Expr, s: State, n: string) returns (c: Choice)
    requires LoadsName(e, n) && Lost(s, n)
    ensures SeesStale(Evaluate(e, s, c), n)
    decreases e
  {
    assert Begin(s, []) == s;
    if e.Name? {
      c := Choice(1, [n], [], []);
      RebindElsewhere(s.env, s.armed, [n], n);
      StaleIn(Evaluate(e, s, c), Load(n, Begin(s, [n])), n);
    } else if e.Walrus? {
      var d := LoadLost(e.value, s, n);
      c := Choice(1, [], [], [d]);
    } else if e.Conditional? {
      c := LoadInBranch(e, s, n);
    } else {
      var i := SomePartLoads(e, PartCount(e), n);
      var d := LoadLost(Part(e, i), s, n);
      var w := OnlyPart(e, s, i, d);
      c := Whole(e, s, w);
      if e.Comprehension? {
        StaleOutside(EvaluateParts(e, s, w, PartCount(e)), e.targets, n);
      }
    }
  }

  lemma {:induction false} LoadInBranch(e: Expr, s: State, n: string) returns (c: Choice)
    requires e.Conditional? && LoadsName(e, n) && Lost(s, n)
    ensures SeesStale(Evaluate(e, s, c), n)
    decreases e, 0
  {
    assert Begin(s, []) == s;
    if LoadsName(e.test, n) {
      var d := LoadLost(e.test, s, n);
      c := Choice(1, [], [], [d]);
      var first := Evaluate(e.test, s, d);
      StaleAhead(first.state, first, [], n);
      assert Evaluate(e, s, c) == Look(first.state, first.loads + []);
    } else {
      var pick, branch := if LoadsName(e.body, n) then 1 else 2, if LoadsName(e.body, n) then e.body else e.orElse;
      var d := LoadLost(branch, s, n);
      c := Choice(pick, [], [], [NONE, d]);
      var second := Evaluate(branch, s, d);
      StaleAppended(second.state, [], second, n);
      assert Evaluate(e, s, c) == Look(second.state, [] + second.loads);
    }
  }

  /** An evaluation that loads the name after having lost it. */
  lemma {:induction false} LoseAndLoad(e: Expr, s: State, n: string) returns (c: Choice)
    requires LoadsAfter(e, n)
    ensures SeesStale(Evaluate(e, s, c), n)
    decreases e, 1, 0
  {
    assert Begin(s, []) == s;
    if e.Walrus? {
      var d := LoseAndLoad(e.value, s, n);
      c := Choice(1, [], [], [d]);
    } else if e.Conditional? {
      c := LoseInConditional(e, s, n);
    } else if e.Comprehension? {
      c := LoseInRounds(e, s, n);
    } else {
      c := LoseInParts(e, s, PartCount(e), n);
      AsParts(e, s, c);
    }
  }

  lemma {:induction false} LoseInConditional(e: Expr, s: State, n: string) returns (c: Choice)
    requires e.Conditional? && LoadsAfter(e, n)
    ensures SeesStale(Evaluate(e, s, c), n)
    decreases e, 0, 0
  {
    assert Begin(s, []) == s;
    if LoadsAfter(e.test, n) {
      var d := LoseAndLoad(e.test, s, n);
      c := Choice(1, [], [], [d]);
      var first := Evaluate(e.test, s, d);
      StaleAhead(first.state, first, [], n);
      assert Evaluate(e, s, c) == Look(first.state, first.loads + []);
    } else if LoadsAfter(e.body, n) || LoadsAfter(e.orElse, n) {
      var pick, branch := if LoadsAfter(e.body, n) then 1 else 2, if LoadsAfter(e.body, n) then e.body else e.orElse;
      var d := LoseAndLoad(branch, s, n);
      c := Choice(pick, [], [], [NONE, d]);
      var second := Evaluate(branch, s, d);
      StaleAppended(second.state, [], second, n);
      assert Evaluate(e, s, c) == Look(second.state, [] + second.loads);
    } else {
      var pick, branch := if LoadsName(e.body, n) then 1 else 2, if LoadsName(e.body, n) then e.body else e.orElse;
      var d := Lose(e.test, s, n);
      var first := Evaluate(e.test, s, d);
      var d' := LoadLost(branch, first.state, n);
      c := Choice(pick, [], [], [d, d']);
      var second := Evaluate(branch, first.state, d');
      StaleAppended(second.state, first.loads, second, n);
      assert Evaluate(e, s, c) == Look(second.state, first.loads + second.loads);
    }
  }

  lemma LoseInRounds(e: Expr, s: State, n: string) returns (c: Choice)
    requires e.Comprehension? && LoadsAfter(e, n)
    ensures SeesStale(Evaluate(e, s, c), n)
  {
    var all := PartCount(e);
    var i := SomePartRebinds(e, all, n);
    var d := Lose(Part(e, i), s, n);
    var x := OnlyPart(e, s, i, d);
    var after := EvaluateParts(e, s, x, all);
    var j := SomePartLoads(e, all, n);
    var d' := LoadLost(Part(e, j), after.state, n);
    var y := OnlyPart(e, after.state, j, d');
    var last := EvaluateParts(e, after.state, y, all);
    c := Choice(1, [], [], [x, y]);
    OneRound(e, s, c);
    var r := Rounds(e, s, c, 2);
    assert r == Look(last.state, after.loads + last.loads);
    StaleAppended(last.state, after.loads, last, n);
    StaleOutside(r, e.targets, n);
    assert Begin(s, []) == s;
  }

  /** The first `k` parts hold a load after a rebinding. */
  lemma {:induction false} LoseInParts(e: Expr, s: State, k: nat, n: string) returns (c: Choice)
    requires k <= PartCount(e) && LoadsAfterBefore(e, k, n)
    ensures c.pick != 0 && c.before == [] && SeesStale(EvaluateParts(e, s, c, PartCount(e)), n)
    decreases e, 0, k
  {
    if LoadsAfterBefore(e, k - 1, n) {
      c := LoseInParts(e, s, k - 1, n);
    } else if LoadsAfter(Part(e, k - 1), n) {
      var d := LoseAndLoad(Part(e, k - 1), s, n);
      c := OnlyPart(e, s, k - 1, d);
    } else {
      var i := SomePartRebinds(e, k - 1, n);
      var d := Lose(Part(e, i), s, n);
      c := LoadLater(e, s, i, d, k - 1, n);
    }
  }

  /** Part `i` loses the name, the later part `k` loads it. */
  lemma LoadLater(e: Expr, s: State, i: nat, d: Choice, k: nat, n: string) returns (c: Choice)
    requires i < k < PartCount(e) && Lost(Evaluate(Part(e, i), s, d).state, n) && LoadsName(Part(e, k), n)
    ensures c.pick != 0 && c.before == [] && SeesStale(EvaluateParts(e, s, c, PartCount(e)), n)
  {
    var x := OnlyPart(e, s, i, d);
    RestSkipped(e, s, x, i + 1, k);
    RestSkipped(e, s, x, i + 1, PartCount(e));
    var before := EvaluateParts(e, s, x, k);
    var d' := LoadLost(Part(e, k), before.state, n);
    c := With(x, k, d');
    var r := PartThen(e, s, x, k, d');
    var last := Evaluate(Part(e, k), before.state, d');
    StaleAppended(last.state, before.loads, last, n);
  }

  // ----- the exact condition -----

  /** Some run evaluates the condition. */
  predicate CanReach(ss: Block, path: seq<nat>, n: string, first: bool)
    requires ValidPath(ss, path)
  {
    TestFlow(StmtAt(ss, path), FlowAt(ss, path, BodyFlow(ss, n), n), n, first).reached
  }

  /** At `path`, in every run, each load of `n` by the test sees it bound by the assignment it is tracked to. */
  ghost predicate CurrentAtLoads(ss: Block, path: seq<nat>, n: string, first: bool)
    requires ValidPath(ss, path) && IsCondition(StmtAt(ss, path)) && n in SourcesAt(ss, map[], path)
  {
    forall env, c, at, d, l ::
      Reaches(ss, Start(ss, env), c, path, at, first) && l in Evaluate(Test(StmtAt(ss, path)), at, d).loads && l.name == n ==>
        n in l.state.env && l.state.env[n] == SourcesAt(ss, map[], path)[n]
  }

  /** The exact condition at the loads: the name is not in doubt on entering, and the test does not rebind it before. */
  lemma LoadIsCurrentIff(ss: Block, path: seq<nat>, n: string, first: bool)
    requires ValidPath(ss, path) && IsCondition(StmtAt(ss, path)) && n in SourcesAt(ss, map[], path)
    requires first || n !in Stored(StmtAt(ss, path))
    ensures var test := Test(StmtAt(ss, path));
            CurrentAtLoads(ss, path, n, first) <==>
            !(MayBeStale(ss, path, n, first) && LoadsName(test, n)) && !(CanReach(ss, path, n, first) && LoadsAfter(test, n))
  {
    var test := Test(StmtAt(ss, path));
    if MayBeStale(ss, path, n, first) && LoadsName(test, n) {
      DoubtIsLoaded(ss, path, n, first);
    } else if CanReach(ss, path, n, first) && LoadsAfter(test, n) {
      RebindingIsLoaded(ss, path, n, first);
    } else {
      forall env, c, at, d, l | Reaches(ss, Start(ss, env), c, path, at, first) && l in Evaluate(test, at, d).loads && l.name == n
        ensures n in l.state.env && l.state.env[n] == SourcesAt(ss, map[], path)[n]
      {
        OnlyLoads(test, at, d, n);
        TrackedOriginIsCurrent(ss, BodyFlow(ss, n), map[], Start(ss, env), c, path, at, first, n);
        ReachedIsOffered(ss, path, n, first, env, c, at);
        SeesExpr(test, at, d, n);
      }
    }
  }

  lemma ReachedIsOffered(ss: Block, path: seq<nat>, n: string, first: bool, env: Env, c: Choice, at: State)
    requires ValidPath(ss, path) && Reaches(ss, Start(ss, env), c, path, at, first)
    ensures CanReach(ss, path, n, first)
  {
    ReachedFlow(ss, BodyFlow(ss, n), Start(ss, env), c, path, at, first, n);
  }

  lemma DoubtIsLoaded(ss: Block, path: seq<nat>, n: string, first: bool)
    requires ValidPath(ss, path) && IsCondition(StmtAt(ss, path)) && n in SourcesAt(ss, map[], path)
    requires first || n !in Stored(StmtAt(ss, path))
    requires MayBeStale(ss, path, n, first) && LoadsName(Test(StmtAt(ss, path)), n)
    ensures !CurrentAtLoads(ss, path, n, first)
  {
    var want := Touching(n, true);
    PathNeedIsOffered(ss, path, BodyFlow(ss, n), map[], want, n, first);
    var c, at := PathAchieves(ss, path, BodyFlow(ss, n), map[], want, n, first, Start(ss, map[]));
    var d := LoadLost(Test(StmtAt(ss, path)), at, n);
    StaleLoad(ss, path, n, first, map[], c, at, d);
  }

  lemma RebindingIsLoaded(ss: Block, path: seq<nat>, n: string, first: bool)
    requires ValidPath(ss, path) && IsCondition(StmtAt(ss, path)) && n in SourcesAt(ss, map[], path)
    requires CanReach(ss, path, n, first) && LoadsAfter(Test(StmtAt(ss, path)), n)
    ensures !CurrentAtLoads(ss, path, n, first)
  {
    PathNeedIsOffered(ss, path, BodyFlow(ss, n), map[], Just, n, first);
    var c, at := PathAchieves(ss, path, BodyFlow(ss, n), map[], Just, n, first, Start(ss, map[]));
    var d := LoseAndLoad(Test(StmtAt(ss, path)), at, n);
    StaleLoad(ss, path, n, first, map[], c, at, d);
  }

  lemma StaleLoad(ss: Block, path: seq<nat>, n: string, first: bool, env: Env, c: Choice, at: State, d: Choice)
    requires ValidPath(ss, path) && IsCondition(StmtAt(ss, path)) && n in SourcesAt(ss, map[], path)
    requires Reaches(ss, Start(ss, env), c, path, at, first) && SeesStale(Evaluate(Test(StmtAt(ss, path)), at, d), n)
    ensures !CurrentAtLoads(ss, path, n, first)
  {
    SourcesAtAreAssignments(ss, map[], path, n);
    var l :| l in Evaluate(Test(StmtAt(ss, path)), at, d).loads && l.name == n && IsElsewhere(n, l.state.env);
  }

  // ----- a walrus in the condition itself -----

  /** `assert (n := poll()) and not n`. */
  function AssertRebound(n: string): Stmt {
    Assert(9, Operation([Walrus(n, Call(OtherCall, [], [])), Not(Name(n))]))
  }

  /** Reported, and current on entering the condition, yet the load sees the walrus. */
  lemma EarlierWalrusIsStale(n: string)
    ensures var ss := [WaitFor([NameTarget(n)]), AssertRebound(n)];
            && ReportedAt(ss, map[], [1], 9) && n in SourcesAt(ss, map[], [1])
            && AlwaysCurrent(ss, [1], n, true) && !CurrentAtLoads(ss, [1], n, true)
  {
    var ss := [WaitFor([NameTarget(n)]), AssertRebound(n)];
    var test := ss[1].test;
    WaitForFacts(n);
    DeclaredSimple(ss);
    var sources := SourcesBefore(ss, map[], 1);
    assert sources == Transfer(SourcesBefore(ss, map[], 0), ss[0]) == map[n := Assigned(0, ss[0].value)];
    assert test.parts[1..] == [Not(Name(n))];
    assert ConsumesWait(Not(Name(n)), sources, false);
    assert AnyConsumesWait(test.parts[1..], sources, false) && AnyConsumesWait(test.parts, sources, false);
    assert BlockFlow(ss, 1, BodyFlow(ss, n), n) == StmtFlow(ss[0], BodyFlow(ss, n), n);
    CurrentIffUndoubted(ss, [1], n, true);
    assert Part(test, 0) == test.parts[0] && Part(test, 1) == Not(Name(n));
    assert RebindsBefore(test, 1, n);
    assert LoadsBefore(Not(Name(n)), 1, n);
    assert LoadsAfterBefore(test, 2, n);
    LoadIsCurrentIff(ss, [1], n, true);
  }
}
