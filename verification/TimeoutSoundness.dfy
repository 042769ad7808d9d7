/**
 Soundness of the one-hop dataflow against every run of the code, and exactly when it fails: at a
 condition, a tracked name may be stale precisely if some way there creates code that rebinds it
 unseen, captures it unseen, or leaves the tracked assignment with its own targets overwriting it.
 */
module TimeoutSoundness {
  import opened PythonSyntax
  import opened PythonRuns
  import opened PythonReach
  import opened PythonCover
  import opened PythonWitness
  import opened TimeoutDataflow

  // ----- one assignment -----

  /** Of the first `k` targets, the last that binds `id` is the plain name, not a pattern that also holds it. */
  predicate SurvivesTo(targets: seq<Target>, k: nat, id: string)
    requires k <= |targets|
  {
    if k == 0 then false
    else
      var t := targets[k - 1];
      t == NameTarget(id) || ((t.NameTarget? || id !in BoundByTarget(t)) && SurvivesTo(targets, k - 1, id))
  }

  predicate Survives(targets: seq<Target>, id: string) { SurvivesTo(targets, |targets|, id) }

  lemma {:induction false} SurvivorIsBound(s: State, site: nat, value: Expr, targets: seq<Target>, k: nat,
                                           list: seq<string>, id: string)
    requires k <= |targets| && SurvivesTo(targets, k, id) && id !in s.armed && id !in DeferredInTargets(targets)
    ensures var r := BindTargets(s, site, value, targets, k, list).env; id in r && r[id] == Assigned(site, value)
    decreases k
  {
    var t, before := targets[k - 1], BindTargets(s, site, value, targets, k - 1, list);
    if t != NameTarget(id) {
      SurvivorIsBound(s, site, value, targets, k - 1, list, id);
      if t.OtherTarget? {
        TargetsStep(Touching(id, false), s, site, value, targets, k - 1, list, StoredInTargets(targets));
        TargetAt(targets, k - 1);
        RebindKeeps(before.env, BoundByTarget(t) + DeferredInTarget(t) + before.armed, list, id);
      }
    }
  }

  lemma {:induction false} OverwrittenIsLost(s: State, site: nat, value: Expr, targets: seq<Target>, k: nat, id: string)
    requires k <= |targets| && id in NameTargets(targets[..k]) && !SurvivesTo(targets, k, id)
    ensures IsElsewhere(id, BindTargets(s, site, value, targets, k, [id]).env)
    decreases k
  {
    var t, before := targets[k - 1], BindTargets(s, site, value, targets, k - 1, [id]);
    if !(t.OtherTarget? && id in BoundByTarget(t)) {
      assert targets[..k][..k - 1] == targets[..k - 1];
      NameTargetsFront(targets[..k], id);
      OverwrittenIsLost(s, site, value, targets, k - 1, id);
    }
    if t.OtherTarget? {
      RebindElsewhere(before.env, BoundByTarget(t) + DeferredInTarget(t) + before.armed, [id], id);
    }
  }

  lemma {:induction false} NameTargetsFront(targets: seq<Target>, id: string)
    requires targets != [] && id in NameTargets(targets) && targets[|targets| - 1] != NameTarget(id)
    ensures id in NameTargets(targets[..|targets| - 1])
  {
    if targets[0] != NameTarget(id) {
      NameTargetsFront(targets[1..], id);
      assert targets[..|targets| - 1][1..] == targets[1..][..|targets| - 2];
    }
  }

  /** The assignment leaves `id` bound by itself whenever it completes and no deferred code may rebind `id`. */
  ghost predicate AlwaysBinds(site: nat, targets: seq<Target>, value: Expr, id: string) {
    forall s: State, c ::
      var r := AssignRun(s, site, targets, value, c);
      r.status == Normal && id !in r.state.armed ==> id in r.state.env && r.state.env[id] == Assigned(site, value)
  }

  /**
   A name the assignment is tracked for is left bound by it, in every run, exactly when no later
   target of the same assignment binds it again.
   */
  lemma AssignmentBindsIff(site: nat, targets: seq<Target>, value: Expr, id: string)
    requires id in NameTargets(targets) && id !in DeferredInTargets(targets) + Deferred(value)
    ensures AlwaysBinds(site, targets, value, id) <==> Survives(targets, id)
  {
    if Survives(targets, id) {
      forall s: State, c
        ensures var r := AssignRun(s, site, targets, value, c);
                r.status == Normal && id !in r.state.armed ==>
                    id in r.state.env && r.state.env[id] == Assigned(site, value)
      {
        SurvivorSurvives(s, site, targets, value, c, id);
      }
    } else {
      var s := State(map[], {});
      var c := OverwriteIn(s, site, targets, value, id);
      AssignStep(Touching(id, false), s, site, targets, value, c, StoredInTargets(targets) + StoredInExpr(value));
    }
  }

  lemma SurvivorSurvives(s: State, site: nat, targets: seq<Target>, value: Expr, c: Choice, id: string)
    requires Survives(targets, id) && id !in DeferredInTargets(targets) + Deferred(value)
    ensures var r := AssignRun(s, site, targets, value, c);
            r.status == Normal && id !in r.state.armed ==> id in r.state.env && r.state.env[id] == Assigned(site, value)
  {
    var r := AssignRun(s, site, targets, value, c);
    if r.status == Normal && id !in r.state.armed {
      AssignStep(Touching(id, false), s, site, targets, value, c, StoredInTargets(targets) + StoredInExpr(value));
      SurvivorIsBound(Eval(s, BoundByExpr(value), Deferred(value), c.during), site, value, targets, |targets|,
                      c.during, id);
    }
  }

  /** A run of an assignment that overwrites its own name. */
  lemma OverwriteIn(s: State, site: nat, targets: seq<Target>, value: Expr, id: string) returns (c: Choice)
    requires id in NameTargets(targets) && !Survives(targets, id)
    ensures c.before == []
    ensures AssignRun(s, site, targets, value, c).status == Normal
    ensures IsElsewhere(id, AssignRun(s, site, targets, value, c).state.env)
  {
    c := Choice(|targets| + 1, [], [id], []);
    assert targets[..|targets|] == targets;
    OverwrittenIsLost(Eval(s, BoundByExpr(value), Deferred(value), [id]), site, value, targets, |targets|, id);
  }

  // ----- the exact flow of doubt -----

  /**
   What is possible at a point for one name: some run gets there; some run gets there with deferred
   code in existence that may rebind the name; some run gets there with such code, or with the name
   already bound elsewhere than where it is tracked to.
   */
  datatype Flow = Flow(reached: bool, armed: bool, doubt: bool)

  predicate TrackedSurvives(s: Stmt, n: string) {
    s.AnnAssign? || (s.Assign? && Survives(s.targets, n))
  }

  function StmtFlow(s: Stmt, f: Flow, n: string): Flow {
    var on := Able(s, Normal, Just);
    var armed := (f.armed && on) || (f.reached && Able(s, Normal, Touching(n, false)));
    Flow(f.reached && on, armed,
         if n in Stored(s) then armed || (f.reached && on && !TrackedSurvives(s, n))
         else (f.doubt && on) || (f.reached && Able(s, Normal, Touching(n, true))))
  }

  function BlockFlow(ss: Block, i: nat, f: Flow, n: string): Flow
    requires i <= |ss|
  {
    if i == 0 then f else StmtFlow(ss[i - 1], BlockFlow(ss, i - 1, f, n), n)
  }

  function EntryFlow(s: Stmt, b: nat, f: Flow, n: string): Flow {
    var on := AbleEnter(s, b, Just);
    Flow(f.reached && on,
         (f.armed && on) || (f.reached && AbleEnter(s, b, Touching(n, false))),
         (f.doubt && on) || (f.reached && AbleEnter(s, b, Touching(n, true))))
  }

  /** Before the statement at `path`. */
  function FlowAt(ss: Block, path: seq<nat>, f: Flow, n: string): Flow
    requires ValidPath(ss, path)
    decreases |path|
  {
    var before := BlockFlow(ss, path[0], f, n);
    if |path| == 1 then before
    else FlowAt(BlockAt(ss[path[0]], path[1]), path[2..], EntryFlow(ss[path[0]], path[1], before, n), n)
  }

  /** At the first evaluation of a condition, or at a later one. */
  function TestFlow(s: Stmt, f: Flow, n: string, first: bool): Flow {
    if first then f
    else
      var on := AbleTest(s, 1, Just);
      Flow(f.reached && on,
           (f.armed && on) || (f.reached && AbleTest(s, 1, Touching(n, false))),
           (f.doubt && on) || (f.reached && AbleTest(s, 1, Touching(n, true))))
  }

  /** A body that declares a name global or nonlocal leaves it to code elsewhere from the start. */
  function BodyFlow(ss: Block, n: string): Flow {
    Flow(true, n in DeclaredInBlock(ss), n in DeclaredInBlock(ss))
  }

  /** Some way to the condition at `path` leaves the name in doubt. */
  predicate MayBeStale(ss: Block, path: seq<nat>, n: string, first: bool)
    requires ValidPath(ss, path)
  {
    TestFlow(StmtAt(ss, path), FlowAt(ss, path, BodyFlow(ss, n), n), n, first).doubt
  }

  // ----- no run does more -----

  /** The flow allows the state: what it rules out does not hold. */
  ghost predicate Allows(f: Flow, sources: Sources, s: State, n: string) {
    && f.reached && (n in s.armed ==> f.armed)
    && (n in sources && !f.doubt ==> n !in s.armed && n in s.env && s.env[n] == sources[n])
  }

  lemma {:induction false} NameTargetsAreStored(targets: seq<Target>)
    ensures NameTargets(targets) <= StoredInTargets(targets)
  {
    if targets != [] {
      NameTargetsAreStored(targets[1..]);
    }
  }

  lemma TrackedIsStored(s: Stmt)
    ensures TimedAssignments(s).Keys <= Stored(s)
  {
    if s.Assign? {
      NameTargetsAreStored(s.targets);
    }
  }

  /** A tracked assignment that survives and that no deferred code follows leaves the name bound by itself. */
  lemma TrackedIsBound(s: Stmt, start: State, c: Choice, n: string)
    requires n in TimedAssignments(s) && TrackedSurvives(s, n) && !Able(s, Normal, Touching(n, false))
    requires ExecStmt(s, start, c).status == Normal && n !in ExecStmt(s, start, c).state.armed
    ensures var r := ExecStmt(s, start, c).state.env; n in r && r[n] == TimedAssignments(s)[n]
  {
    var now := Begin(start, c.before);
    match s
    case Assign(site, targets, value) => SurvivorSurvives(now, site, targets, value, c, n);
    case AnnAssign(site, target, annotated) =>
      assert DeferredInTargets([target]) == DeferredInTarget(target) + DeferredInTargets([target][1..]);
      SurvivorSurvives(now, site, [target], annotated.value, c, n);
  }

  lemma StmtAllows(s: Stmt, f: Flow, sources: Sources, start: State, c: Choice, n: string)
    requires Allows(f, sources, start, n) && ExecStmt(s, start, c).status == Normal
    ensures Allows(StmtFlow(s, f, n), Transfer(sources, s), ExecStmt(s, start, c).state, n)
  {
    var r := ExecStmt(s, start, c);
    CoverStmt(Touching(n, false), s, start, c);
    CoverStmt(Touching(n, true), s, start, c);
    TrackedIsStored(s);
    if n in TimedAssignments(s) && !StmtFlow(s, f, n).doubt {
      TrackedIsBound(s, start, c, n);
    }
  }

  lemma {:induction false} BlockAllows(ss: Block, i: nat, f: Flow, inherited: Sources, start: State, c: Choice,
                                       n: string)
    requires i <= |ss| && Allows(f, inherited, start, n) && RunBlock(ss, start, c, i).status == Normal
    ensures Allows(BlockFlow(ss, i, f, n), SourcesBefore(ss, inherited, i), RunBlock(ss, start, c, i).state, n)
    decreases i
  {
    if i > 0 {
      BlockAllows(ss, i - 1, f, inherited, start, c, n);
      StmtAllows(ss[i - 1], BlockFlow(ss, i - 1, f, n), SourcesBefore(ss, inherited, i - 1),
                 RunBlock(ss, start, c, i - 1).state, c.subs[i - 1], n);
    }
  }

  lemma EntryAllows(s: Stmt, f: Flow, sources: Sources, start: State, c: Choice, e: Entry, n: string)
    requires Allows(f, sources, start, n) && e in ExecStmt(s, start, c).entries
    ensures Allows(EntryFlow(s, e.block, f, n), Nested(sources, s), e.state, n)
  {
    CoverStmt(Touching(n, false), s, start, c);
    CoverStmt(Touching(n, true), s, start, c);
    var i :| 0 <= i < |ExecStmt(s, start, c).entries| && ExecStmt(s, start, c).entries[i] == e;
    assert EntryCovered(Touching(n, false), s, start, ExecStmt(s, start, c).entries[i]);
    assert EntryCovered(Touching(n, true), s, start, ExecStmt(s, start, c).entries[i]);
  }

  /** The first evaluation of a condition follows deferred code at most. */
  lemma FirstTest(s: Stmt, start: State, c: Choice, n: string)
    requires n !in start.armed && ExecStmt(s, start, c).tests != [] && IsCondition(s)
    ensures Same(n, start.env, ExecStmt(s, start, c).tests[0].env) && n !in ExecStmt(s, start, c).tests[0].armed
  {
    var now := Begin(start, c.before);
    RebindKeeps(start.env, start.armed, c.before, n);
    if s.Compound? && s.head.While? && c.subs != [] {
      RebindKeeps(now.env, now.armed, c.subs[0].before, n);
    }
  }

  lemma TestAllows(s: Stmt, f: Flow, sources: Sources, start: State, c: Choice, k: nat, n: string)
    requires Allows(f, sources, start, n) && k < |ExecStmt(s, start, c).tests| && IsCondition(s) && n in sources
    requires k == 0 || n !in Stored(s)
    ensures !TestFlow(s, f, n, k == 0).doubt ==>
              var at := ExecStmt(s, start, c).tests[k]; n !in at.armed && n in at.env && at.env[n] == sources[n]
  {
    if k == 0 {
      if !f.doubt {
        FirstTest(s, start, c, n);
      }
    } else {
      CoverStmt(Touching(n, true), s, start, c);
      assert TestCovered(Touching(n, true), s, start, k, ExecStmt(s, start, c).tests[k]);
    }
  }

  lemma {:induction false} ReachedIsValid(ss: Block, start: State, c: Choice, path: seq<nat>, at: State, first: bool)
    requires Reaches(ss, start, c, path, at, first)
    ensures ValidPath(ss, path)
    decreases |path|
  {
    if |path| > 1 {
      var s, before := ss[path[0]], RunBlock(ss, start, c, path[0]);
      var e :| e in ExecStmt(s, before.state, c.subs[path[0]]).entries && e.block == path[1]
            && Reaches(BlockAt(s, e.block), e.state, e.choice, path[2..], at, first);
      ReachedIsValid(BlockAt(s, e.block), e.state, e.choice, path[2..], at, first);
    }
  }

  /**
   Soundness: whenever a run evaluates the condition at `path` and the flow leaves no doubt, a name
   tracked there was last bound by the very assignment it is tracked to. For the later evaluations
   of a loop condition this is claimed of the names the loop does not store.
   */
  lemma {:induction false} TrackedOriginIsCurrent(
    ss: Block, f: Flow, inherited: Sources, start: State, c: Choice, path: seq<nat>, at: State, first: bool, n: string)
    requires Reaches(ss, start, c, path, at, first) && Allows(f, inherited, start, n)
    ensures ValidPath(ss, path)
    ensures var s := StmtAt(ss, path);
            && IsCondition(s) && n in SourcesAt(ss, inherited, path) && (first || n !in Stored(s))
            && !TestFlow(s, FlowAt(ss, path, f, n), n, first).doubt ==>
              n !in at.armed && n in at.env && at.env[n] == SourcesAt(ss, inherited, path)[n]
    decreases |path|
  {
    ReachedIsValid(ss, start, c, path, at, first);
    var i := path[0];
    var s, before, sources := ss[i], RunBlock(ss, start, c, i), SourcesBefore(ss, inherited, i);
    BlockAllows(ss, i, f, inherited, start, c, n);
    var run := ExecStmt(s, before.state, c.subs[i]);
    if |path| == 1 {
      var k :| 0 <= k < |run.tests| && run.tests[k] == at && (first <==> k == 0);
      if IsCondition(s) && n in sources && (first || n !in Stored(s)) {
        TestAllows(s, BlockFlow(ss, i, f, n), sources, before.state, c.subs[i], k, n);
      }
    } else {
      var e :| e in run.entries && e.block == path[1]
            && Reaches(BlockAt(s, e.block), e.state, e.choice, path[2..], at, first);
      EntryAllows(s, BlockFlow(ss, i, f, n), sources, before.state, c.subs[i], e, n);
      TrackedOriginIsCurrent(BlockAt(s, e.block), EntryFlow(s, e.block, BlockFlow(ss, i, f, n), n), Nested(sources, s),
                             e.state, e.choice, path[2..], at, first, n);
    }
  }

  /** A condition a run evaluates is one the flow reaches. */
  lemma {:induction false} ReachedFlow(ss: Block, f: Flow, start: State, c: Choice, path: seq<nat>, at: State,
                                       first: bool, n: string)
    requires Reaches(ss, start, c, path, at, first) && Allows(f, map[], start, n)
    ensures ValidPath(ss, path) && TestFlow(StmtAt(ss, path), FlowAt(ss, path, f, n), n, first).reached
    decreases |path|
  {
    ReachedIsValid(ss, start, c, path, at, first);
    var i := path[0];
    var s, before, flow := ss[i], RunBlock(ss, start, c, i), BlockFlow(ss, i, f, n);
    BlockAllows(ss, i, f, map[], start, c, n);
    var run := ExecStmt(s, before.state, c.subs[i]);
    if |path| == 1 {
      var k :| 0 <= k < |run.tests| && run.tests[k] == at && (first <==> k == 0);
      CoverStmt(Just, s, before.state, c.subs[i]);
      assert TestCovered(Just, s, before.state, k, run.tests[k]);
    } else {
      var e :| e in run.entries && e.block == path[1]
            && Reaches(BlockAt(s, e.block), e.state, e.choice, path[2..], at, first);
      EntryAllows(s, flow, SourcesBefore(ss, map[], i), before.state, c.subs[i], e, n);
      assert Allows(EntryFlow(s, e.block, flow, n), map[], e.state, n);
      ReachedFlow(BlockAt(s, e.block), EntryFlow(s, e.block, flow, n), e.state, e.choice, path[2..], at, first, n);
    }
  }

  // ----- some run does as much -----

  predicate Offers(f: Flow, g: Goal) {
    match g case Just => f.reached case Touching(_, all) => if all then f.doubt else f.armed
  }

  predicate About(g: Goal, n: string) { g.Just? || g.n == n }

  /** What must hold before the statement for `want` to hold after it. */
  function StmtNeed(s: Stmt, f: Flow, want: Goal): Goal {
    if want.Just? then Just
    else if want.all && want.n in Stored(s) then
      if !f.armed || (f.reached && Able(s, Normal, Touching(want.n, false))) then Just else Touching(want.n, false)
    else if f.reached && Able(s, Normal, want) then Just else want
  }

  function BlockNeed(ss: Block, i: nat, f: Flow, want: Goal, n: string): Goal
    requires i <= |ss|
  {
    if i == 0 then want else BlockNeed(ss, i - 1, f, StmtNeed(ss[i - 1], BlockFlow(ss, i - 1, f, n), want), n)
  }

  function EntryNeed(s: Stmt, b: nat, f: Flow, want: Goal): Goal {
    if f.reached && AbleEnter(s, b, want) then Just else want
  }

  function TestNeed(s: Stmt, f: Flow, want: Goal, first: bool): Goal {
    if !first && f.reached && AbleTest(s, 1, want) then Just else want
  }

  function PathNeed(ss: Block, path: seq<nat>, f: Flow, want: Goal, n: string, first: bool): Goal
    requires ValidPath(ss, path)
    decreases |path|
  {
    BlockNeed(ss, path[0], f, HereNeed(ss, path, f, want, n, first), n)
  }

  function HereNeed(ss: Block, path: seq<nat>, f: Flow, want: Goal, n: string, first: bool): Goal
    requires ValidPath(ss, path)
    decreases |path|, 0
  {
    var s, before := ss[path[0]], BlockFlow(ss, path[0], f, n);
    if |path| == 1 then TestNeed(s, before, want, first)
    else EntryNeed(s, path[1], before,
                   PathNeed(BlockAt(s, path[1]), path[2..], EntryFlow(s, path[1], before, n), want, n, first))
  }

  lemma NeedIsOffered(s: Stmt, f: Flow, want: Goal, n: string)
    requires About(want, n) && Offers(StmtFlow(s, f, n), want)
    ensures About(StmtNeed(s, f, want), n) && Offers(f, StmtNeed(s, f, want))
    ensures StmtNeed(s, f, want) == Touching(n, true) ==> want == Touching(n, true) && n !in Stored(s)
  {
  }

  lemma StmtAchieves(s: Stmt, f: Flow, want: Goal, n: string, start: State) returns (c: Choice)
    requires About(want, n) && Offers(StmtFlow(s, f, n), want) && Met(StmtNeed(s, f, want), start)
    requires want == Touching(n, true) && n in Stored(s) ==> n in TimedAssignments(s)
    ensures ExecStmt(s, start, c).status == Normal && Met(want, ExecStmt(s, start, c).state)
    decreases want.Touching? && want.all
  {
    if want.Just? {
      c := AchieveStmt(s, Normal, Just, start);
    } else if want.all && n in Stored(s) {
      if StmtFlow(s, f, n).armed {
        c := StmtAchieves(s, f, Touching(n, false), n, start);
      } else {
        c := OverwriteIn(start, s.site, s.targets, s.value, n);
        assert Begin(start, []) == start;
      }
    } else if f.reached && Able(s, Normal, want) {
      c := AchieveStmt(s, Normal, want, start);
    } else {
      c := KeepStmt(s, Normal, want, start);
    }
  }

  lemma {:induction false} BlockAchieves(ss: Block, i: nat, f: Flow, inherited: Sources, want: Goal, n: string,
                                         start: State)
    returns (c: Choice)
    requires i <= |ss| && About(want, n) && Offers(BlockFlow(ss, i, f, n), want)
    requires Met(BlockNeed(ss, i, f, want, n), start)
    requires want == Touching(n, true) ==> n in SourcesBefore(ss, inherited, i)
    ensures BlockRuns(ss, i, Normal, want, start, c)
    decreases i
  {
    if i == 0 {
      c := NONE;
    } else {
      var s, before := ss[i - 1], BlockFlow(ss, i - 1, f, n);
      var need := StmtNeed(s, before, want);
      NeedIsOffered(s, before, want, n);
      TrackedIsStored(s);
      var d := BlockAchieves(ss, i - 1, f, inherited, need, n, start);
      var e := StmtAchieves(s, before, want, n, RunBlock(ss, start, d, i - 1).state);
      c := BlockMore(ss, i, want, start, d, e, Normal);
    }
  }

  /** What a block needs is offered at its start, and asks for the inherited binding only where that is tracked. */
  lemma {:induction false} BlockNeedIsOffered(ss: Block, i: nat, f: Flow, inherited: Sources, want: Goal, n: string)
    requires i <= |ss| && About(want, n) && Offers(BlockFlow(ss, i, f, n), want)
    requires want == Touching(n, true) ==> n in SourcesBefore(ss, inherited, i)
    ensures StartFits(f, inherited, BlockNeed(ss, i, f, want, n), n)
    decreases i
  {
    if i > 0 {
      NeedIsOffered(ss[i - 1], BlockFlow(ss, i - 1, f, n), want, n);
      TrackedIsStored(ss[i - 1]);
      BlockNeedIsOffered(ss, i - 1, f, inherited, StmtNeed(ss[i - 1], BlockFlow(ss, i - 1, f, n), want), n);
    }
  }

  /** The condition at `path` may be asked for `want`, and what that takes is offered at the start. */
  ghost predicate Asks(ss: Block, path: seq<nat>, f: Flow, inherited: Sources, want: Goal, n: string, first: bool) {
    && ValidPath(ss, path) && IsCondition(StmtAt(ss, path)) && About(want, n)
    && Offers(TestFlow(StmtAt(ss, path), FlowAt(ss, path, f, n), n, first), want)
    && (want == Touching(n, true) ==> n in SourcesAt(ss, inherited, path) && (first || n !in Stored(StmtAt(ss, path))))
  }

  /** A need of the point before the statement at `path[0]`, as `HereNeed` gives it. */
  ghost predicate NeedFits(ss: Block, path: seq<nat>, f: Flow, inherited: Sources, need: Goal, n: string)
    requires path != [] && path[0] < |ss|
  {
    && About(need, n) && Offers(BlockFlow(ss, path[0], f, n), need)
    && (need == Touching(n, true) ==> n in SourcesBefore(ss, inherited, path[0]) && (|path| > 1 ==> n !in Stored(ss[path[0]])))
  }

  ghost predicate StartFits(f: Flow, inherited: Sources, need: Goal, n: string) {
    About(need, n) && Offers(f, need) && (need == Touching(n, true) ==> n in inherited)
  }

  lemma EntryNeedFits(s: Stmt, b: nat, f: Flow, sources: Sources, need: Goal, n: string)
    requires StartFits(EntryFlow(s, b, f, n), Nested(sources, s), need, n)
    ensures var here := EntryNeed(s, b, f, need);
            About(here, n) && Offers(f, here) && (here == Touching(n, true) ==> n in sources && n !in Stored(s))
    ensures Apart(need, Stored(s))
    ensures (AbleEnter(s, b, need) || (AbleEnter(s, b, Just) && EntryNeed(s, b, f, need) == need))
  {
  }

  lemma {:induction false} PathNeedIsOffered(ss: Block, path: seq<nat>, f: Flow, inherited: Sources, want: Goal,
                                             n: string, first: bool)
    requires Asks(ss, path, f, inherited, want, n, first)
    ensures NeedFits(ss, path, f, inherited, HereNeed(ss, path, f, want, n, first), n)
    ensures StartFits(f, inherited, PathNeed(ss, path, f, want, n, first), n)
    decreases |path|
  {
    var here := HereNeed(ss, path, f, want, n, first);
    if |path| > 1 {
      NestedNeedFits(ss, path, f, inherited, want, n, first);
    }
    BlockNeedIsOffered(ss, path[0], f, inherited, here, n);
  }

  lemma {:induction false} NestedNeedFits(ss: Block, path: seq<nat>, f: Flow, inherited: Sources, want: Goal,
                                          n: string, first: bool)
    requires Asks(ss, path, f, inherited, want, n, first) && |path| > 1
    ensures NeedFits(ss, path, f, inherited, HereNeed(ss, path, f, want, n, first), n)
    decreases |path|, 0
  {
    var s, before, sources := ss[path[0]], BlockFlow(ss, path[0], f, n), SourcesBefore(ss, inherited, path[0]);
    AsksInside(ss, path, f, inherited, want, n, first);
    PathNeedIsOffered(BlockAt(s, path[1]), path[2..], EntryFlow(s, path[1], before, n), Nested(sources, s), want, n,
                      first);
    EntryNeedFits(s, path[1], before, sources,
                  PathNeed(BlockAt(s, path[1]), path[2..], EntryFlow(s, path[1], before, n), want, n, first), n);
  }

  lemma AsksInside(ss: Block, path: seq<nat>, f: Flow, inherited: Sources, want: Goal, n: string, first: bool)
    requires Asks(ss, path, f, inherited, want, n, first) && |path| > 1
    ensures var s, before := ss[path[0]], BlockFlow(ss, path[0], f, n);
            Asks(BlockAt(s, path[1]), path[2..], EntryFlow(s, path[1], before, n),
                 Nested(SourcesBefore(ss, inherited, path[0]), s), want, n, first)
  {
  }

  /** A condition's own part: its first or a later evaluation, the wanted doubt having come true. */
  lemma TestAchieves(s: Stmt, f: Flow, want: Goal, n: string, first: bool, start: State) returns (c: Choice, k: nat)
    requires IsCondition(s) && About(want, n) && Offers(TestFlow(s, f, n, first), want)
    requires Met(TestNeed(s, f, want, first), start) && (want == Touching(n, true) ==> first || n !in Stored(s))
    ensures var tests := ExecStmt(s, start, c).tests;
            k < |tests| && (first <==> k == 0) && (want == Touching(n, true) ==> IsElsewhere(n, tests[k].env))
  {
    if first {
      c := AchieveTest(s, want, start);
      k := 0;
    } else {
      c := AchieveLaterTest(s, want, start);
      k := 1;
    }
  }

  /** A choice for the statement at `path[0]` that takes a run of its block's lead to the condition. */
  ghost predicate Leads(ss: Block, path: seq<nat>, now: State, d: Choice, at: State, first: bool)
    requires path != [] && path[0] < |ss|
  {
    var run := ExecStmt(ss[path[0]], now, d);
    if |path| == 1 then exists k :: 0 <= k < |run.tests| && run.tests[k] == at && (first <==> k == 0)
    else exists e :: e in run.entries && e.block == path[1]
                  && Reaches(BlockAt(ss[path[0]], e.block), e.state, e.choice, path[2..], at, first)
  }

  lemma LeadReaches(ss: Block, path: seq<nat>, g: Goal, start: State, lead: Choice, d: Choice, at: State, first: bool)
    returns (c: Choice)
    requires path != [] && path[0] < |ss| && BlockRuns(ss, path[0], Normal, g, start, lead)
    requires Leads(ss, path, RunBlock(ss, start, lead, path[0]).state, d, at, first)
    ensures Reaches(ss, start, c, path, at, first)
  {
    c := lead.(subs := lead.subs + [d]);
    assert c.subs[..path[0]] == lead.subs[..path[0]];
    SamePrefix(ss, start, lead, c, path[0]);
  }

  /** Completeness: what the flow offers at a condition, some run takes there. */
  lemma {:induction false} PathAchieves(
    ss: Block, path: seq<nat>, f: Flow, inherited: Sources, want: Goal, n: string, first: bool, start: State)
    returns (c: Choice, at: State)
    requires Asks(ss, path, f, inherited, want, n, first) && Met(PathNeed(ss, path, f, want, n, first), start)
    ensures Reaches(ss, start, c, path, at, first) && (want == Touching(n, true) ==> IsElsewhere(n, at.env))
    decreases |path|, 1
  {
    var i, here := path[0], HereNeed(ss, path, f, want, n, first);
    PathNeedIsOffered(ss, path, f, inherited, want, n, first);
    var lead := BlockAchieves(ss, i, f, inherited, here, n, start);
    var now := RunBlock(ss, start, lead, i).state;
    var d;
    if |path| == 1 {
      var k;
      d, k := TestAchieves(ss[i], BlockFlow(ss, i, f, n), want, n, first, now);
      at := ExecStmt(ss[i], now, d).tests[k];
    } else {
      d, at := NestedAchieves(ss, path, f, inherited, want, n, first, now);
    }
    c := LeadReaches(ss, path, here, start, lead, d, at, first);
  }

  lemma {:induction false} NestedAchieves(
    ss: Block, path: seq<nat>, f: Flow, inherited: Sources, want: Goal, n: string, first: bool, now: State)
    returns (d: Choice, at: State)
    requires Asks(ss, path, f, inherited, want, n, first) && |path| > 1
    requires Met(HereNeed(ss, path, f, want, n, first), now)
    ensures Leads(ss, path, now, d, at, first) && (want == Touching(n, true) ==> IsElsewhere(n, at.env))
    decreases |path|, 0
  {
    var s, before, sources := ss[path[0]], BlockFlow(ss, path[0], f, n), SourcesBefore(ss, inherited, path[0]);
    var inner, flow := BlockAt(s, path[1]), EntryFlow(s, path[1], before, n);
    var need := PathNeed(inner, path[2..], flow, want, n, first);
    AsksInside(ss, path, f, inherited, want, n, first);
    PathNeedIsOffered(inner, path[2..], flow, Nested(sources, s), want, n, first);
    EntryNeedFits(s, path[1], before, sources, need, n);
    var x, e := AchieveEnter(s, path[1], need, now);
    var y;
    y, at := PathAchieves(inner, path[2..], flow, Nested(sources, s), want, n, first, e.state);
    d := ReplaceEntry(s, now, x, e, y);
    var entry := Entry(path[1], e.state, y);
    assert entry in ExecStmt(s, now, d).entries && entry.block == path[1];
  }

  // ----- the exact condition -----

  /** Where a run of the body starts. */
  function Start(ss: Block, env: Env): State { State(env, DeclaredInBlock(ss)) }

  /** At `path`, in every run, the evaluation sees `n` bound by the assignment it is tracked to. */
  ghost predicate AlwaysCurrent(ss: Block, path: seq<nat>, n: string, first: bool)
    requires ValidPath(ss, path) && n in SourcesAt(ss, map[], path)
  {
    forall env, c, at :: Reaches(ss, Start(ss, env), c, path, at, first) ==>
      n in at.env && at.env[n] == SourcesAt(ss, map[], path)[n]
  }

  /**
   The exact condition: a tracked origin is current at every evaluation of the condition if and only
   if no way there leaves it in doubt. For the later evaluations of a loop condition this is claimed
   of the names the loop does not store.
   */
  lemma CurrentIffUndoubted(ss: Block, path: seq<nat>, n: string, first: bool)
    requires ValidPath(ss, path) && IsCondition(StmtAt(ss, path)) && n in SourcesAt(ss, map[], path)
    requires first || n !in Stored(StmtAt(ss, path))
    ensures AlwaysCurrent(ss, path, n, first) <==> !MayBeStale(ss, path, n, first)
  {
    var f := BodyFlow(ss, n);
    if MayBeStale(ss, path, n, first) {
      var want := Touching(n, true);
      PathNeedIsOffered(ss, path, f, map[], want, n, first);
      var c, at := PathAchieves(ss, path, f, map[], want, n, first, Start(ss, map[]));
      SourcesAtAreAssignments(ss, map[], path, n);
      assert Reaches(ss, Start(ss, map[]), c, path, at, first);
    } else {
      forall env, c, at | Reaches(ss, Start(ss, env), c, path, at, first)
        ensures n in at.env && at.env[n] == SourcesAt(ss, map[], path)[n]
      {
        TrackedOriginIsCurrent(ss, f, map[], Start(ss, env), c, path, at, first, n);
      }
    }
  }

  lemma {:induction false} SourcesAreAssignments(ss: Block, inherited: Sources, i: nat, n: string)
    requires i <= |ss| && forall m :: m in inherited ==> inherited[m].Assigned?
    ensures n in SourcesBefore(ss, inherited, i) ==> SourcesBefore(ss, inherited, i)[n].Assigned?
  {
    if i > 0 {
      SourcesAreAssignments(ss, inherited, i - 1, n);
    }
  }

  lemma {:induction false} SourcesAtAreAssignments(ss: Block, inherited: Sources, path: seq<nat>, n: string)
    requires ValidPath(ss, path) && forall m :: m in inherited ==> inherited[m].Assigned?
    ensures n in SourcesAt(ss, inherited, path) ==> SourcesAt(ss, inherited, path)[n].Assigned?
    decreases |path|
  {
    var sources := SourcesBefore(ss, inherited, path[0]);
    SourcesAreAssignments(ss, inherited, path[0], n);
    if |path| > 1 {
      forall m | m in sources ensures sources[m].Assigned? {
        SourcesAreAssignments(ss, inherited, path[0], m);
      }
      SourcesAtAreAssignments(BlockAt(ss[path[0]], path[1]), Nested(sources, ss[path[0]]), path[2..], n);
    }
  }

  // ----- what is tracked, and what a report means -----

  /** The last statement before `i` that stores `n` assigns it, plainly, the timed value `o`. */
  ghost predicate LastStoreIs(ss: Block, i: nat, n: string, o: Origin)
    requires i <= |ss|
  {
    exists j :: 0 <= j < i && n in TimedAssignments(ss[j]) && TimedAssignments(ss[j])[n] == o
             && forall k :: j < k < i ==> n !in Stored(ss[k])
  }

  ghost predicate Unstored(ss: Block, i: nat, n: string)
    requires i <= |ss|
  {
    forall k :: 0 <= k < i ==> n !in Stored(ss[k])
  }

  /**
   A name is tracked in a block exactly when the last statement to store it is a plain timed
   assignment, or nothing stores it and it was inherited.
   */
  lemma {:induction false} TrackedIffLastStore(ss: Block, inherited: Sources, i: nat, n: string, o: Origin)
    requires i <= |ss|
    ensures n in SourcesBefore(ss, inherited, i) && SourcesBefore(ss, inherited, i)[n] == o <==>
            LastStoreIs(ss, i, n, o) || (n in inherited && inherited[n] == o && Unstored(ss, i, n))
  {
    if i > 0 {
      TrackedIffLastStore(ss, inherited, i - 1, n, o);
      TrackedIsStored(ss[i - 1]);
      if n in TimedAssignments(ss[i - 1]) {
        assert LastStoreIs(ss, i, n, o) <==> TimedAssignments(ss[i - 1])[n] == o;
      } else if n !in Stored(ss[i - 1]) {
        assert LastStoreIs(ss, i, n, o) <==> LastStoreIs(ss, i - 1, n, o);
        assert Unstored(ss, i, n) <==> Unstored(ss, i - 1, n);
      } else {
        assert !LastStoreIs(ss, i, n, o);
      }
    }
  }

  ghost predicate Consumed(e: Expr, sources: Sources) {
    exists n :: n in Loads(e) && (OriginHas(sources, n, ClockReading) || OriginHas(sources, n, ReportingWait))
  }

  ghost predicate ConsumedAny(es: seq<Expr>, sources: Sources) {
    exists n :: n in LoadsAll(es) && (OriginHas(sources, n, ClockReading) || OriginHas(sources, n, ReportingWait))
  }

  lemma {:induction false} ClockLineConsumes(e: Expr, sources: Sources, line: int)
    requires line in ClockLines(e, sources)
    ensures Consumed(e, sources)
    decreases e
  {
    match e
    case Call(_, args, keywords) =>
      if line in ClockLinesAll(args, sources) {
        ClockLineConsumesAny(args, sources, line);
      } else {
        ClockLineConsumesAny(keywords, sources, line);
      }
    case Not(operand) => ClockLineConsumes(operand, sources, line);
    case Compare(_, operands) =>
      if line in ClockLinesAll(operands, sources) {
        ClockLineConsumesAny(operands, sources, line);
      }
    case Walrus(_, value) => ClockLineConsumes(value, sources, line);
    case Conditional(test, body, orElse) =>
      if line in ClockLines(test, sources) {
        ClockLineConsumes(test, sources, line);
      } else if line in ClockLines(body, sources) {
        ClockLineConsumes(body, sources, line);
      } else {
        ClockLineConsumes(orElse, sources, line);
      }
    case Lambda(defaults, body) =>
      if line in ClockLines(body, sources) {
        ClockLineConsumes(body, sources, line);
      } else {
        ClockLineConsumesAny(defaults, sources, line);
      }
    case Generator(element, clauses) =>
      if line in ClockLines(element, sources) {
        ClockLineConsumes(element, sources, line);
      } else {
        ClockLineConsumesAny(clauses, sources, line);
      }
    case Comprehension(_, element, clauses) =>
      if line in ClockLines(element, sources) {
        ClockLineConsumes(element, sources, line);
      } else {
        ClockLineConsumesAny(clauses, sources, line);
      }
    case Operation(parts) => ClockLineConsumesAny(parts, sources, line);
  }

  lemma {:induction false} ClockLineConsumesAny(es: seq<Expr>, sources: Sources, line: int)
    requires line in ClockLinesAll(es, sources)
    ensures ConsumedAny(es, sources)
    decreases es
  {
    if line in ClockLines(es[0], sources) {
      ClockLineConsumes(es[0], sources, line);
    } else {
      ClockLineConsumesAny(es[1..], sources, line);
    }
  }

  lemma {:induction false} WaitConsumes(e: Expr, sources: Sources, negated: bool)
    requires ConsumesWait(e, sources, negated)
    ensures Consumed(e, sources)
    decreases e
  {
    match e
    case Name(_) =>
    case Call(_, args, _) => WaitConsumesAny(args, sources, negated);
    case Not(operand) => WaitConsumes(operand, sources, !negated);
    case Compare(_, operands) => WaitConsumesAny(operands, sources, if AnyFalse(operands) then !negated else negated);
    case Walrus(_, value) => WaitConsumes(value, sources, negated);
    case Conditional(test, body, orElse) =>
      if ConsumesWait(test, sources, negated) {
        WaitConsumes(test, sources, negated);
      } else if ConsumesWait(body, sources, negated) {
        WaitConsumes(body, sources, negated);
      } else {
        WaitConsumes(orElse, sources, negated);
      }
    case Lambda(_, body) => WaitConsumes(body, sources, negated);
    case Generator(element, _) => WaitConsumes(element, sources, negated);
    case Comprehension(_, element, _) => WaitConsumes(element, sources, negated);
    case Operation(parts) => WaitConsumesAny(parts, sources, negated);
  }

  lemma {:induction false} WaitConsumesAny(es: seq<Expr>, sources: Sources, negated: bool)
    requires AnyConsumesWait(es, sources, negated)
    ensures ConsumedAny(es, sources)
    decreases es
  {
    if ConsumesWait(es[0], sources, negated) {
      WaitConsumes(es[0], sources, negated);
    } else {
      WaitConsumesAny(es[1..], sources, negated);
    }
  }

  /** The condition at `path` uses `n`, which is tracked there to an assignment of a timed value. */
  ghost predicate UsesTimed(ss: Block, path: seq<nat>, n: string) {
    && ValidPath(ss, path) && IsCondition(StmtAt(ss, path)) && n in Loads(Test(StmtAt(ss, path)))
    && n in SourcesAt(ss, map[], path) && SourcesAt(ss, map[], path)[n].Assigned? && Timed(SourcesAt(ss, map[],
                                                                                                     path)[n].value)
  }

  /**
   What a report means: its condition uses a name tracked to a timed assignment, and any name so used
   still holds that very assignment's value in every run exactly if no way there leaves it in doubt.
   */
  lemma ReportsAreGenuine(ss: Block, path: seq<nat>, line: int)
    requires ReportedAt(ss, map[], path, line)
    ensures exists n :: UsesTimed(ss, path, n)
    ensures forall n :: UsesTimed(ss, path, n) ==>
            (AlwaysCurrent(ss, path, n, true) <==> !MayBeStale(ss, path, n, true))
  {
    var s, sources := StmtAt(ss, path), SourcesAt(ss, map[], path);
    if line in ClockLines(Test(s), sources) {
      ClockLineConsumes(Test(s), sources, line);
    } else {
      WaitConsumes(Test(s), sources, false);
    }
    var n :| n in Loads(Test(s)) && (OriginHas(sources, n, ClockReading) || OriginHas(sources, n, ReportingWait));
    assert UsesTimed(ss, path, n);
    forall n | UsesTimed(ss, path, n) ensures AlwaysCurrent(ss, path, n, true) <==> !MayBeStale(ss, path, n, true) {
      CurrentIffUndoubted(ss, path, n, true);
    }
  }

  // ----- bodies the rule gets wrong, and some it gets right -----

  function WaitFor(targets: seq<Target>): Stmt { Assign(0, targets, Call(ReportingWait, [], [])) }

  function AssertNot(n: string): Stmt { Assert(9, Not(Name(n))) }

  /** A call, as of `any`, that consumes a generator expression which assigns the name. */
  function Rebinder(n: string): Stmt { Plain({}, [Call(OtherCall, [Generator(Walrus(n, Literal(false)), [])], [])]) }

  /** The definition of a lambda whose default assigns the name. */
  function Defaulter(f: string, n: string): Stmt {
    Assign(1, [NameTarget(f)], Lambda([Walrus(n, Literal(false))], Name(f)))
  }

  lemma OneNameTarget(n: string)
    ensures var targets := [NameTarget(n)];
            && NameTargets(targets) == {n} && StoredInTargets(targets) == {n} && Survives(targets, n)
            && DeferredInTargets(targets) == {} && MissedInTargets(targets) == {}
  {
    var targets := [NameTarget(n)];
    assert targets[1..] == [];
    assert NameTargets(targets) == {n} + NameTargets(targets[1..]);
    assert StoredInTargets(targets) == StoredInTarget(targets[0]) + StoredInTargets(targets[1..]);
    assert DeferredInTargets(targets) == DeferredInTarget(targets[0]) + DeferredInTargets(targets[1..]);
    assert MissedInTargets(targets) == MissedInTarget(targets[0]) + MissedInTargets(targets[1..]);
  }

  lemma WaitForFacts(n: string)
    ensures var s := WaitFor([NameTarget(n)]);
            && TimedAssignments(s) == map[n := Assigned(0, s.value)] && Stored(s) == {n} && TrackedSurvives(s, n)
            && Able(s, Normal, Just) && !Able(s, Normal, Touching(n, false)) && !Able(s, Normal, Touching(n, true))
  {
    OneNameTarget(n);
  }

  lemma OnlyExpr(e: Expr)
    ensures DeferredAll([e]) == Deferred(e) && StoredInExprs([e]) == StoredInExpr(e)
    ensures BoundByExprs([e]) == BoundByExpr(e)
  {
    assert [e][1..] == [];
    assert DeferredAll([e]) == Deferred(e) + DeferredAll([e][1..]);
    assert StoredInExprs([e]) == StoredInExpr(e) + StoredInExprs([e][1..]);
    assert BoundByExprs([e]) == BoundByExpr(e) + BoundByExprs([e][1..]);
  }

  lemma RebinderFacts(n: string)
    ensures var s := Rebinder(n);
            && Stored(s) == {} && TimedAssignments(s) == map[]
            && Able(s, Normal, Just) && Able(s, Normal, Touching(n, false)) && Able(s, Normal, Touching(n, true))
  {
    var g := Generator(Walrus(n, Literal(false)), []);
    var call := Call(OtherCall, [g], []);
    assert Deferred(g) == WalrusTargets(Walrus(n, Literal(false))) + WalrusTargetsAll([]) == {n};
    OnlyExpr(g);
    assert Deferred(call) == DeferredAll([g]) + DeferredAll([]) == {n};
    assert StoredInExpr(call) == StoredInExprs([g]) + StoredInExprs([]) == {};
    OnlyExpr(call);
  }

  lemma DefaulterFacts(f: string, n: string)
    requires f != n
    ensures var s := Defaulter(f, n);
            n !in Stored(s) && TimedAssignments(s) == map[] && Able(s, Normal, Just) && Able(s, Normal,
                                                                                             Touching(n, true))
  {
    var default := Walrus(n, Literal(false));
    OneNameTarget(f);
    OnlyExpr(default);
    assert BoundByExpr(default) == {n};
  }

  lemma AssertNotReports(ss: Block, path: seq<nat>, n: string)
    requires ValidPath(ss, path) && StmtAt(ss, path) == AssertNot(n)
    requires OriginHas(SourcesAt(ss, map[], path), n, ReportingWait)
    ensures ReportedAt(ss, map[], path, 9)
  {
    assert ConsumesWait(Name(n), SourcesAt(ss, map[], path), true);
  }

  /** Reported, although the generator expression may have rebound the name. */
  lemma GeneratorHidesRebinding(n: string)
    ensures var ss := [WaitFor([NameTarget(n)]), Rebinder(n), AssertNot(n)];
            ReportedAt(ss, map[], [2], 9) && n in SourcesAt(ss, map[], [2]) && !AlwaysCurrent(ss, [2], n, true)
  {
    var ss := [WaitFor([NameTarget(n)]), Rebinder(n), AssertNot(n)];
    WaitForFacts(n);
    RebinderFacts(n);
    var one := SourcesBefore(ss, map[], 1);
    assert one == Transfer(SourcesBefore(ss, map[], 0), ss[0]) == map[n := Assigned(0, ss[0].value)];
    assert SourcesBefore(ss, map[], 2) == Transfer(one, ss[1]) == one;
    AssertNotReports(ss, [2], n);
    assert BlockFlow(ss, 0, BodyFlow(ss, n), n).reached;
    assert BlockFlow(ss, 1, BodyFlow(ss, n), n).reached;
    assert BlockFlow(ss, 2, BodyFlow(ss, n), n).doubt;
    CurrentIffUndoubted(ss, [2], n, true);
  }

  /** Reported, although the default of a lambda has rebound the name at once. */
  lemma LambdaDefaultIsStale(f: string, n: string)
    requires f != n
    ensures var ss := [WaitFor([NameTarget(n)]), Defaulter(f, n), AssertNot(n)];
            ReportedAt(ss, map[], [2], 9) && n in SourcesAt(ss, map[], [2]) && !AlwaysCurrent(ss, [2], n, true)
  {
    var ss := [WaitFor([NameTarget(n)]), Defaulter(f, n), AssertNot(n)];
    WaitForFacts(n);
    DefaulterFacts(f, n);
    var one := SourcesBefore(ss, map[], 1);
    assert one == Transfer(SourcesBefore(ss, map[], 0), ss[0]) == map[n := Assigned(0, ss[0].value)];
    assert SourcesBefore(ss, map[], 2) == Transfer(one, ss[1]) == one;
    AssertNotReports(ss, [2], n);
    SecondFlow(ss, BodyFlow(ss, n), n);
    CurrentIffUndoubted(ss, [2], n, true);
  }

  lemma DeclaredSimple(ss: Block)
    requires forall i :: 0 <= i < |ss| ==> !ss[i].Compound? && !ss[i].Declare?
    ensures DeclaredInBlock(ss) == {}
  {
  }

  /** A generator expression after the condition is harmless. */
  lemma LaterGeneratorIsHarmless(n: string)
    ensures var ss := [WaitFor([NameTarget(n)]), AssertNot(n), Rebinder(n)];
            ReportedAt(ss, map[], [1], 9) && n in SourcesAt(ss, map[], [1]) && AlwaysCurrent(ss, [1], n, true)
  {
    var ss := [WaitFor([NameTarget(n)]), AssertNot(n), Rebinder(n)];
    WaitForFacts(n);
    DeclaredSimple(ss);
    assert SourcesBefore(ss, map[], 1) == Transfer(SourcesBefore(ss, map[], 0),
                                                   ss[0]) == map[n := Assigned(0, ss[0].value)];
    AssertNotReports(ss, [1], n);
    assert BlockFlow(ss, 1, BodyFlow(ss, n), n) == StmtFlow(ss[0], BodyFlow(ss, n), n);
    CurrentIffUndoubted(ss, [1], n, true);
  }

  /** A name the body declares global is anyone's to rebind. */
  lemma DeclaredNameIsStale(n: string)
    ensures var ss := [Declare({n}), WaitFor([NameTarget(n)]), AssertNot(n)];
            ReportedAt(ss, map[], [2], 9) && n in SourcesAt(ss, map[], [2]) && !AlwaysCurrent(ss, [2], n, true)
  {
    var ss := [Declare({n}), WaitFor([NameTarget(n)]), AssertNot(n)];
    WaitForFacts(n);
    assert n in DeclaredInBlock(ss);
    assert SourcesBefore(ss, map[], 1) == Transfer(SourcesBefore(ss, map[], 0), ss[0]) == map[];
    assert SourcesBefore(ss, map[], 2) == Transfer(SourcesBefore(ss, map[], 1),
                                                   ss[1]) == map[n := Assigned(0, ss[1].value)];
    AssertNotReports(ss, [2], n);
    assert BlockFlow(ss, 1, BodyFlow(ss, n), n).armed;
    assert BlockFlow(ss, 2, BodyFlow(ss, n), n).doubt;
    CurrentIffUndoubted(ss, [2], n, true);
  }

  /** A chained assignment whose second target unpacks over the first. */
  lemma ChainedTargetIsStale(n: string)
    ensures var ss := [WaitFor([NameTarget(n), OtherTarget({n}, [])]), AssertNot(n)];
            ReportedAt(ss, map[], [1], 9) && n in SourcesAt(ss, map[], [1]) && !AlwaysCurrent(ss, [1], n, true)
  {
    var targets := [NameTarget(n), OtherTarget({n}, [])];
    var ss := [WaitFor(targets), AssertNot(n)];
    assert targets[1..] == [targets[1]] && [targets[1]][1..] == [];
    assert NameTargets([targets[1]]) == NameTargets([targets[1]][1..]) == {};
    assert NameTargets(targets) == {n} + NameTargets(targets[1..]) == {n};
    NameTargetsAreStored(targets);
    assert !Survives(targets, n);
    assert SourcesBefore(ss, map[], 1) == Transfer(SourcesBefore(ss, map[], 0),
                                                   ss[0]) == map[n := Assigned(0, ss[0].value)];
    AssertNotReports(ss, [1], n);
    assert BlockFlow(ss, 1, BodyFlow(ss, n), n) == StmtFlow(ss[0], BodyFlow(ss, n), n);
    CurrentIffUndoubted(ss, [1], n, true);
  }

  /** A branch that creates a rebinding generator and then leaves the function. */
  function LeavingBranch(n: string,
                         test: Expr): Stmt { Compound(If(5, test), [Suite([Rebinder(n), Jump(Return, [])])]) }

  /** What happens on a way that leaves the function does not reach the condition. */
  lemma LeavingBranchIsHarmless(n: string)
    ensures var ss := [WaitFor([NameTarget(n)]), LeavingBranch(n, Literal(false)), AssertNot(n)];
            ReportedAt(ss, map[], [2], 9) && n in SourcesAt(ss, map[], [2]) && AlwaysCurrent(ss, [2], n, true)
  {
    var ss := [WaitFor([NameTarget(n)]), LeavingBranch(n, Literal(false)), AssertNot(n)];
    WaitForFacts(n);
    LeavingBranchFacts(n);
    var one := SourcesBefore(ss, map[], 1);
    assert one == Transfer(SourcesBefore(ss, map[], 0), ss[0]) == map[n := Assigned(0, ss[0].value)];
    assert SourcesBefore(ss, map[], 2) == Transfer(one, ss[1]) == one;
    AssertNotReports(ss, [2], n);
    assert ss[1..] == [ss[1], ss[2]] && ss[1..][1..] == [ss[2]] && [ss[2]][1..] == [];
    assert DeclaredInBlock([ss[2]]) == Declared(ss[2]) + DeclaredInBlock([ss[2]][1..]) == {};
    assert DeclaredInBlock(ss[1..]) == Declared(ss[1]) + DeclaredInBlock(ss[1..][1..]) == {};
    assert DeclaredInBlock(ss) == Declared(ss[0]) + DeclaredInBlock(ss[1..]) == {};
    SecondFlow(ss, BodyFlow(ss, n), n);
    CurrentIffUndoubted(ss, [2], n, true);
  }

  lemma SecondFlow(ss: Block, f: Flow, n: string)
    requires |ss| >= 2
    ensures BlockFlow(ss, 2, f, n) == StmtFlow(ss[1], StmtFlow(ss[0], f, n), n)
  {
    assert BlockFlow(ss, 0, f, n) == f;
    assert BlockFlow(ss, 1, f, n) == StmtFlow(ss[0], f, n);
  }

  lemma LeavingBranchFacts(n: string)
    ensures var s := LeavingBranch(n, Literal(false));
            && Stored(s) == {} && TimedAssignments(s) == map[] && Declared(s) == {}
            && !Able(s, Normal, Touching(n, false)) && !Able(s, Normal, Touching(n, true))
  {
    var s := LeavingBranch(n, Literal(false));
    var body := [Rebinder(n), Jump(Return, [])];
    RebinderFacts(n);
    assert body[1..] == [body[1]] && [body[1]][1..] == [];
    assert Stored(body[1]) == {};
    assert StoredInBlock([body[1]]) == Stored(body[1]) + StoredInBlock([body[1]][1..]) == {};
    assert StoredInBlock(body) == Stored(body[0]) + StoredInBlock(body[1..]) == {};
    assert s.blocks == [Suite(body)] && s.blocks[1..] == [];
    assert StoredInBlocks(s.blocks) == {};
    DeclaredSimple(body);
    assert DeclaredInBlocks(s.blocks) == DeclaredInBlock(body) + DeclaredInBlocks(s.blocks[1..]) == {};
    LeavingBranchLeaves(n, Touching(n, false));
    LeavingBranchLeaves(n, Touching(n, true));
  }

  lemma LeavingBranchLeaves(n: string, g: Goal)
    requires g.Touching?
    ensures !Able(LeavingBranch(n, Literal(false)), Normal, g)
  {
    var s := LeavingBranch(n, Literal(false));
    var body := [Rebinder(n), Jump(Return, [])];
    assert !Able(body[1], Normal, g) && !Able(body[1], Normal, Just);
    assert !AbleBlock(body, 2, Normal, g) && !AbleBlock(body, 2, Normal, Just);
    assert !AbleIn(s, 0, Normal, g) && !AbleIn(s, 0, Normal, Just) && !AbleIn(s, 1, Normal, g);
    AbleIf(s, Normal, g);
    assert !Hits(g, Missed(Literal(false)), Deferred(Literal(false)));
  }
}
