/**
 Which modules a change reaches through imports, and which of the reached test files fit the
 time budget. The import graph is given reversed, as a map from a module to its importers.
 */
module ImpactedTests {
  import opened Text
  import Sorting

  type Graph = map<string, set<string>>

  function Importers(g: Graph, name: string): set<string> {
    if name in g then g[name] else {}
  }

  /** Some chain of `n` imports leads from `m` down to a changed module. */
  ghost predicate Chain(g: Graph, changed: set<string>, m: string, n: nat)
    decreases n
  {
    if n == 0 then m in changed
    else exists k :: Chain(g, changed, k, n - 1) && m in Importers(g, k)
  }

  /** `d` holds exactly the modules some chain starts at, each with the length of a shortest one. */
  ghost predicate ShortestChains(g: Graph, changed: set<string>, d: map<string, nat>) {
    && (forall m :: m in d ==> Chain(g, changed, m, d[m]))
    && (forall m, n: nat :: Chain(g, changed, m, n) ==> m in d && d[m] <= n)
  }

  /** The modules of the changed Python files. */
  function ChangedModules(changed: seq<string>, moduleOf: string -> string): set<string> {
    set p | p in changed && EndsWith(p, ".py") :: moduleOf(p)
  }

  // ----- breadth first search -----

  ghost function Universe(g: Graph, changed: set<string>): set<string> {
    changed + set k, m | k in g && m in g[k] :: m
  }

  /** Every importer of `name` is at most one import further away than `name`. */
  ghost predicate Expanded(g: Graph, d: map<string, nat>, name: string)
    requires name in d
  {
    forall m :: m in Importers(g, name) ==> m in d && d[m] <= d[name] + 1
  }

  /** The queue is the frontier: by increasing distance, and nothing is known more than one further. */
  ghost predicate Frontier(d: map<string, nat>, queue: seq<string>) {
    && (forall i :: 0 <= i < |queue| ==> queue[i] in d)
    && (forall i, j :: 0 <= i < j < |queue| ==> d[queue[i]] <= d[queue[j]])
    && (queue != [] ==> forall m :: m in d ==> d[m] <= d[queue[0]] + 1)
  }

  ghost predicate Known(g: Graph, changed: set<string>, d: map<string, nat>) {
    && (forall m :: m in d ==> m in Universe(g, changed) && Chain(g, changed, m, d[m]))
    && (forall m :: m in changed ==> m in d && d[m] == 0)
  }

  lemma {:induction false} ClosedIsShortest(g: Graph, changed: set<string>, d: map<string, nat>, m: string, n: nat)
    requires forall s :: s in changed ==> s in d && d[s] == 0
    requires forall name :: name in d ==> Expanded(g, d, name)
    requires Chain(g, changed, m, n)
    ensures m in d && d[m] <= n
    decreases n
  {
    if n > 0 {
      var k :| Chain(g, changed, k, n - 1) && m in Importers(g, k);
      ClosedIsShortest(g, changed, d, k, n - 1);
      assert Expanded(g, d, k);
    }
  }

  method Seed(changed: seq<string>, moduleOf: string -> string)
    returns (distance: map<string, nat>, queue: seq<string>)
    ensures distance.Keys == ChangedModules(changed, moduleOf)
    ensures forall m :: m in distance ==> distance[m] == 0 && m in queue
    ensures forall i :: 0 <= i < |queue| ==> queue[i] in distance
  {
    distance, queue := map[], [];
    for i := 0 to |changed|
      invariant distance.Keys == ChangedModules(changed[..i], moduleOf)
      invariant forall m :: m in distance ==> distance[m] == 0 && m in queue
      invariant forall k :: 0 <= k < |queue| ==> queue[k] in distance
    {
      assert changed[..i + 1] == changed[..i] + [changed[i]];
      if EndsWith(changed[i], ".py") {
        var name := moduleOf(changed[i]);
        if name !in distance {
          queue := queue + [name];
        }
        distance := distance[name := 0];
        assert ChangedModules(changed[..i + 1], moduleOf) == ChangedModules(changed[..i], moduleOf) + {name};
      } else {
        assert ChangedModules(changed[..i + 1], moduleOf) == ChangedModules(changed[..i], moduleOf);
      }
    }
    assert changed[..|changed|] == changed;
  }

  /** `d'` extends `d` without changing it. */
  ghost predicate Extends(d: map<string, nat>, d': map<string, nat>) {
    d.Keys <= d'.Keys && forall m :: m in d ==> d'[m] == d[m]
  }

  /** The queue once the importers of `name`, all but `todo`, have been visited. */
  ghost predicate Visiting(g: Graph, name: string, d': map<string, nat>, queue': seq<string>, todo: set<string>)
    requires name in d'
  {
    && (forall m :: m in Importers(g, name) && m !in todo ==> m in d')
    && (forall m :: m in d' ==> d'[m] <= d'[name] + 1)
    && (forall i :: 0 <= i < |queue'| ==> queue'[i] in d' && d'[name] <= d'[queue'[i]])
    && (forall i, j :: 0 <= i < j < |queue'| ==> d'[queue'[i]] <= d'[queue'[j]])
  }

  lemma VisitNew(g: Graph, name: string, d: map<string, nat>, queue: seq<string>, todo: set<string>, importer: string)
    requires name in d && importer !in d && Visiting(g, name, d, queue, todo)
    ensures Visiting(g, name, d[importer := d[name] + 1], queue + [importer], todo - {importer})
  {
  }

  lemma StartVisiting(g: Graph, name: string, d: map<string, nat>, queue: seq<string>)
    requires name in d && Frontier(d, [name] + queue)
    ensures Visiting(g, name, d, queue, Importers(g, name))
  {
    var all := [name] + queue;
    assert forall i :: 0 <= i < |queue| ==> queue[i] == all[i + 1];
    assert all[0] == name;
  }

  /** Visits the importers of `name`, in any order: the new ones join the distances and the queue. */
  method Expand(g: Graph, ghost changed: set<string>, name: string, d: map<string, nat>, queue: seq<string>)
    returns (d': map<string, nat>, queue': seq<string>)
    requires Known(g, changed, d)
    requires name in d && Frontier(d, [name] + queue)
    ensures Known(g, changed, d')
    ensures Extends(d, d')
    ensures Expanded(g, d', name)
    ensures Frontier(d', queue')
    ensures forall m :: m in queue || (m in d' && m !in d) ==> m in queue'
    ensures d' == d ==> queue' == queue
  {
    d', queue' := d, queue;
    var todo := Importers(g, name);
    StartVisiting(g, name, d, queue);
    while todo != {}
      invariant todo <= Importers(g, name)
      invariant Progress(g, changed, name, d, queue, d', queue', todo)
      decreases todo
    {
      var importer :| importer in todo;
      if importer !in d' {
        Discover(g, changed, name, d, queue, d', queue', todo, importer);
        d' := d'[importer := d'[name] + 1];
        queue' := queue' + [importer];
      }
      todo := todo - {importer};
    }
    DoneVisiting(g, name, d', queue');
  }

  ghost predicate Progress(g: Graph, changed: set<string>, name: string, d: map<string, nat>, queue: seq<string>,
                           d': map<string, nat>, queue': seq<string>, todo: set<string>)
    requires name in d
  {
    && Known(g, changed, d') && Extends(d, d')
    && Visiting(g, name, d', queue', todo)
    && (forall m :: m in queue || (m in d' && m !in d) ==> m in queue')
    && (d' == d ==> queue' == queue)
  }

  lemma Discover(g: Graph, changed: set<string>, name: string, d: map<string, nat>, queue: seq<string>,
                 d': map<string, nat>, queue': seq<string>, todo: set<string>, importer: string)
    requires name in d && importer in todo && todo <= Importers(g, name) && importer !in d'
    requires Progress(g, changed, name, d, queue, d', queue', todo)
    ensures Progress(g, changed, name, d, queue, d'[importer := d'[name] + 1], queue' + [importer], todo - {importer})
  {
    NewChain(g, changed, name, d'[name], importer);
    VisitNew(g, name, d', queue', todo, importer);
  }

  lemma DoneVisiting(g: Graph, name: string, d: map<string, nat>, queue: seq<string>)
    requires name in d && Visiting(g, name, d, queue, {})
    ensures Expanded(g, d, name) && Frontier(d, queue)
  {
  }

  lemma NewChain(g: Graph, changed: set<string>, name: string, n: nat, importer: string)
    requires Chain(g, changed, name, n) && importer in Importers(g, name)
    ensures Chain(g, changed, importer, n + 1)
    ensures importer in Universe(g, changed)
  {
  }

  /** The distances are those of shortest import chains, to exactly the modules that have one. */
  method Impacted(changed: seq<string>, g: Graph, moduleOf: string -> string) returns (distance: map<string, nat>)
    ensures ShortestChains(g, ChangedModules(changed, moduleOf), distance)
  {
    ghost var modules := ChangedModules(changed, moduleOf);
    var queue;
    distance, queue := Seed(changed, moduleOf);
    SeedIsFrontier(g, modules, distance, queue);
    while queue != []
      invariant Searching(g, modules, distance, queue)
      decreases |Universe(g, modules) - distance.Keys|, |queue|
    {
      distance, queue := Step(g, modules, distance, queue);
    }
    Closed(g, modules, distance);
  }

  ghost predicate Searching(g: Graph, changed: set<string>, d: map<string, nat>, queue: seq<string>) {
    Known(g, changed, d) && Frontier(d, queue) && AllExpanded(g, d, queue)
  }

  lemma SeedIsFrontier(g: Graph, changed: set<string>, d: map<string, nat>, queue: seq<string>)
    requires d.Keys == changed && forall m :: m in d ==> d[m] == 0 && m in queue
    requires forall i :: 0 <= i < |queue| ==> queue[i] in d
    ensures Searching(g, changed, d, queue)
  {
  }

  /** Takes the first module off the queue and expands it. */
  method Step(g: Graph, ghost changed: set<string>, d: map<string, nat>, queue: seq<string>)
    returns (d': map<string, nat>, queue': seq<string>)
    requires queue != [] && Searching(g, changed, d, queue)
    ensures Searching(g, changed, d', queue')
    ensures var left, left' := |Universe(g, changed) - d.Keys|, |Universe(g, changed) - d'.Keys|;
            left' < left || (left' == left && |queue'| < |queue|)
  {
    var name := queue[0];
    assert queue == [name] + queue[1..];
    d', queue' := Expand(g, changed, name, d, queue[1..]);
    StillExpanded(g, d, queue, d', queue');
    KnownInUniverse(g, changed, d');
    Shrinks(Universe(g, changed), d, d');
  }

  lemma KnownInUniverse(g: Graph, changed: set<string>, d: map<string, nat>)
    requires Known(g, changed, d)
    ensures d.Keys <= Universe(g, changed)
  {
  }

  /** Every known module that has left the queue is expanded. */
  ghost predicate AllExpanded(g: Graph, d: map<string, nat>, queue: seq<string>) {
    forall name :: name in d && name !in queue ==> Expanded(g, d, name)
  }

  lemma StillExpanded(g: Graph, d: map<string, nat>, q: seq<string>, d': map<string, nat>, q': seq<string>)
    requires q != [] && q[0] in d && AllExpanded(g, d, q)
    requires Extends(d, d')
    requires Expanded(g, d', q[0])
    requires forall m :: m in q[1..] || (m in d' && m !in d) ==> m in q'
    ensures AllExpanded(g, d', q')
  {
    forall n | n in d' && n !in q' ensures Expanded(g, d', n) {
      if n != q[0] {
        assert n in d && n !in q[1..];
        assert q == [q[0]] + q[1..];
        assert Expanded(g, d, n);
      }
    }
  }

  lemma Closed(g: Graph, changed: set<string>, d: map<string, nat>)
    requires Known(g, changed, d) && AllExpanded(g, d, [])
    ensures ShortestChains(g, changed, d)
  {
    forall m, n: nat | Chain(g, changed, m, n) ensures m in d && d[m] <= n {
      ClosedIsShortest(g, changed, d, m, n);
    }
  }

  lemma Shrinks(universe: set<string>, d: map<string, nat>, d': map<string, nat>)
    requires Extends(d, d') && d'.Keys <= universe
    ensures |universe - d'.Keys| < |universe - d.Keys| || d' == d
    ensures |universe - d'.Keys| <= |universe - d.Keys|
  {
    var small, big := universe - d'.Keys, universe - d.Keys;
    assert big == small + (big - small);
    assert |big| == |small| + |big - small|;
    if d'.Keys != d.Keys {
      var m :| m in d'.Keys && m !in d.Keys;
      assert m in big - small;
    } else {
      assert d' == d;
    }
  }

  lemma {:induction false} ChainMonotone(g: Graph, changed: set<string>, more: set<string>, m: string, n: nat)
    requires changed <= more && Chain(g, changed, m, n)
    ensures Chain(g, more, m, n)
    decreases n
  {
    if n > 0 {
      var k :| Chain(g, changed, k, n - 1) && m in Importers(g, k);
      ChainMonotone(g, changed, more, k, n - 1);
    }
  }

  /** A larger change reaches every module the smaller one reached, no further away. */
  lemma LargerChangeReachesMore(g: Graph, changed: set<string>, more: set<string>, d: map<string, nat>, d': map<string,
                                nat>)
    requires changed <= more
    requires ShortestChains(g, changed, d) && ShortestChains(g, more, d')
    ensures d.Keys <= d'.Keys
    ensures forall m :: m in d ==> d'[m] <= d[m]
  {
    forall m | m in d ensures m in d' && d'[m] <= d[m] {
      ChainMonotone(g, changed, more, m, d[m]);
    }
  }

  // ----- the budgeted selection -----

  datatype Budget = Budget(seconds: real, workers: nat) {
    function Wall(cpu: real): real
      requires workers > 0
    {
      cpu / workers as real
    }
    /** The recorded test seconds all workers together may spend. */
    function Limit(): real { seconds * workers as real }
  }

  method Fits(b: Budget, cpu: real) returns (fits: bool)
    requires b.workers > 0
    ensures fits <==> cpu <= b.Limit()
  {
    fits := b.Wall(cpu) <= b.seconds;
    QuotientBelow(cpu, b.workers as real, b.seconds);
  }

  lemma QuotientBelow(x: real, w: real, bound: real)
    requires w > 0.0
    ensures x / w <= bound <==> x <= bound * w
  {
    var q := x / w;
    assert q * w == x;
    if q <= bound {
      assert q * w <= bound * w;
    } else {
      assert bound * w < q * w;
    }
  }

  datatype Selection = Selection(files: seq<string>, leftOut: seq<string>, seconds: real)

  datatype Candidate = Candidate(distance: nat, cost: real, path: string)

  /** The order of the tuples the candidates are sorted by. */
  predicate CandidateLe(a: Candidate, b: Candidate) {
    a.distance < b.distance ||
    (a.distance == b.distance && (a.cost < b.cost || (a.cost == b.cost && StringLe(a.path, b.path))))
  }

  lemma CandidateOrder()
    ensures Sorting.TotalOrder(CandidateLe)
  {
    forall a: Candidate, b: Candidate ensures CandidateLe(a, b) || CandidateLe(b, a) {
      StringLeTotal(a.path, b.path);
    }
    forall a: Candidate, b: Candidate, c: Candidate | CandidateLe(a, b) && CandidateLe(b, c) ensures CandidateLe(a, c) {
      if a.distance == c.distance && a.cost == c.cost {
        StringLeTransitive(a.path, b.path, c.path);
      }
    }
  }

  function SumCost(paths: seq<string>, cost: string -> real): real {
    if paths == [] then 0.0 else cost(paths[0]) + SumCost(paths[1..], cost)
  }

  /** The recorded cost of those of the paths that are in `among`. */
  function SumCostOf(paths: seq<string>, among: set<string>, cost: string -> real): real {
    if paths == [] then 0.0
    else (if paths[0] in among then cost(paths[0]) else 0.0) + SumCostOf(paths[1..], among, cost)
  }

  lemma {:induction false} SumCostAppend(paths: seq<string>, p: string, among: set<string>, cost: string -> real)
    ensures SumCost(paths + [p], cost) == SumCost(paths, cost) + cost(p)
    ensures SumCostOf(paths + [p], among, cost) == SumCostOf(paths, among, cost) + (if p in among then cost(p) else 0.0)
  {
    if paths == [] {
      assert paths + [p] == [p];
    } else {
      assert (paths + [p])[1..] == paths[1..] + [p];
      SumCostAppend(paths[1..], p, among, cost);
    }
  }

  lemma {:induction false} SumCostInsert(p: string, paths: seq<string>, among: set<string>, cost: string -> real)
    ensures SumCost(Sorting.Insert(p, paths, StringLe), cost) == cost(p) + SumCost(paths, cost)
    ensures SumCostOf(Sorting.Insert(p, paths, StringLe), among, cost)
         == (if p in among then cost(p) else 0.0) + SumCostOf(paths, among, cost)
  {
    if paths == [] {
      assert [p][1..] == [];
    } else if StringLe(p, paths[0]) {
      assert ([p] + paths)[1..] == paths;
    } else {
      SumCostInsert(p, paths[1..], among, cost);
      var r := Sorting.Insert(p, paths[1..], StringLe);
      assert ([paths[0]] + r)[1..] == r;
    }
  }

  lemma {:induction false} SumCostSort(paths: seq<string>, among: set<string>, cost: string -> real)
    ensures SumCost(Sorting.Sort(paths, StringLe), cost) == SumCost(paths, cost)
    ensures SumCostOf(Sorting.Sort(paths, StringLe), among, cost) == SumCostOf(paths, among, cost)
  {
    if paths != [] {
      SumCostSort(paths[1..], among, cost);
      SumCostInsert(paths[0], Sorting.Sort(paths[1..], StringLe), among, cost);
    }
  }

  /** The inputs of one selection besides the change itself. */
  datatype Suite = Suite(sources: seq<string>, moduleOf: string -> string, isTest: string -> bool, cost: string -> real)

  ghost predicate ValidSuite(s: Suite) {
    && (forall p :: s.isTest(p) ==> EndsWith(p, ".py"))
    && (forall p :: s.cost(p) >= 0.0)
  }

  function ReachedTests(s: Suite, sources: seq<string>, reached: map<string, nat>): (tests: seq<string>)
    ensures forall p :: p in tests <==> p in sources && s.isTest(p) && s.moduleOf(p) in reached
  {
    if sources == [] then []
    else (if s.isTest(sources[0]) && s.moduleOf(sources[0]) in reached then [sources[0]] else [])
         + ReachedTests(s, sources[1..], reached)
  }

  function Candidates(s: Suite, tests: seq<string>, reached: map<string, nat>): (c: seq<Candidate>)
    requires forall p :: p in tests ==> s.moduleOf(p) in reached
    ensures |c| == |tests|
    ensures forall i :: 0 <= i < |c| ==> c[i] == Candidate(reached[s.moduleOf(tests[i])], s.cost(tests[i]), tests[i])
  {
    if tests == [] then []
    else [Candidate(reached[s.moduleOf(tests[0])], s.cost(tests[0]), tests[0])] + Candidates(s, tests[1..], reached)
  }

  function Paths(c: seq<Candidate>): (paths: seq<string>)
    ensures |paths| == |c| && forall i :: 0 <= i < |c| ==> paths[i] == c[i].path
  {
    if c == [] then [] else [c[0].path] + Paths(c[1..])
  }

  lemma {:induction false} PathsInsert(x: Candidate, c: seq<Candidate>)
    ensures multiset(Paths(Sorting.Insert(x, c, CandidateLe))) == multiset{x.path} + multiset(Paths(c))
  {
    if c != [] {
      assert Paths(c) == [c[0].path] + Paths(c[1..]);
      if CandidateLe(x, c[0]) {
        assert ([x] + c)[1..] == c;
      } else {
        PathsInsert(x, c[1..]);
        var r := Sorting.Insert(x, c[1..], CandidateLe);
        assert ([c[0]] + r)[1..] == r;
      }
    }
  }

  lemma {:induction false} PathsSort(c: seq<Candidate>)
    ensures multiset(Paths(Sorting.Sort(c, CandidateLe))) == multiset(Paths(c))
  {
    if c != [] {
      PathsSort(c[1..]);
      PathsInsert(c[0], Sorting.Sort(c[1..], CandidateLe));
      assert Paths(c) == [c[0].path] + Paths(c[1..]);
    }
  }

  lemma PathsAre(s: Suite, tests: seq<string>, reached: map<string, nat>)
    requires forall p :: p in tests ==> s.moduleOf(p) in reached
    ensures Paths(Candidates(s, tests, reached)) == tests
  {
  }

  ghost predicate Genuine(s: Suite, reached: map<string, nat>, c: Candidate) {
    && s.isTest(c.path) && s.moduleOf(c.path) in reached
    && c.distance == reached[s.moduleOf(c.path)] && c.cost == s.cost(c.path)
  }

  /** The reached tests by distance, then cost, then name. */
  method Rank(s: Suite, reached: map<string, nat>) returns (ranked: seq<Candidate>)
    ensures Sorting.Sorted(ranked, CandidateLe)
    ensures multiset(Paths(ranked)) == multiset(ReachedTests(s, s.sources, reached))
    ensures forall i :: 0 <= i < |ranked| ==> Genuine(s, reached, ranked[i])
  {
    var tests := ReachedTests(s, s.sources, reached);
    var unsorted := Candidates(s, tests, reached);
    ranked := Sorting.Sort(unsorted, CandidateLe);
    CandidateOrder();
    Sorting.SortSorts(unsorted, CandidateLe);
    PathsAre(s, tests, reached);
    PathsSort(unsorted);
    forall i | 0 <= i < |ranked| ensures Genuine(s, reached, ranked[i]) {
      assert ranked[i] in multiset(ranked);
      assert ranked[i] in unsorted;
    }
  }

  predicate SameDistance(s: Suite, reached: map<string, nat>, p: string, q: string) {
    && s.moduleOf(p) in reached && s.moduleOf(q) in reached
    && reached[s.moduleOf(p)] == reached[s.moduleOf(q)]
  }

  /** An untouched chosen file drags in every reached file as near as it that costs no more. */
  ghost predicate CheapestFirst(s: Suite, reached: map<string, nat>, touched: set<string>, chosen: seq<string>,
                                leftOut: seq<string>) {
    forall p, q ::
      p in chosen && p !in touched && q in leftOut && SameDistance(s, reached, p, q) ==> NoDearer(s, p, q)
  }

  /** No file left out would still fit. */
  ghost predicate NothingMoreFits(s: Suite, limit: real, spent: real, leftOut: seq<string>) {
    forall q :: q in leftOut ==> spent + s.cost(q) > limit
  }

  /** The greedy pass over the ranked candidates. */
  method Take(s: Suite, reached: map<string, nat>, ranked: seq<Candidate>, touched: set<string>, budget: Budget)
    returns (chosen: seq<string>, leftOut: seq<string>, spent: real)
    requires budget.workers > 0 && ValidSuite(s)
    requires Sorting.Sorted(ranked, CandidateLe)
    requires forall i :: 0 <= i < |ranked| ==> Genuine(s, reached, ranked[i])
    ensures multiset(chosen) + multiset(leftOut) == multiset(Paths(ranked))
    ensures spent == SumCost(chosen, s.cost)
    ensures spent <= Max(0.0, budget.Limit()) + SumCostOf(chosen, touched, s.cost)
    ensures forall q :: q in leftOut ==> q !in touched
    ensures NothingMoreFits(s, budget.Limit(), spent, leftOut)
    ensures CheapestFirst(s, reached, touched, chosen, leftOut)
  {
    chosen, leftOut, spent := [], [], 0.0;
    ghost var limit := budget.Limit();
    var i := 0;
    while i < |ranked|
      invariant 0 <= i <= |ranked|
      invariant Taken(s, reached, ranked, i, touched, limit, chosen, leftOut, spent)
    {
      var c := ranked[i];
      var fits := Fits(budget, spent + c.cost);
      if c.path in touched || fits {
        TakeOne(s, reached, ranked, i, touched, limit, chosen, leftOut, spent);
        chosen, spent := chosen + [c.path], spent + c.cost;
      } else {
        LeaveOne(s, reached, ranked, i, touched, limit, chosen, leftOut, spent);
        leftOut := leftOut + [c.path];
      }
      i := i + 1;
    }
    assert Paths(ranked)[..i] == Paths(ranked);
  }

  /** What the pass has established after the first `i` candidates. */
  ghost predicate Taken(s: Suite, reached: map<string, nat>, ranked: seq<Candidate>, i: nat, touched: set<string>,
                        limit: real, chosen: seq<string>, leftOut: seq<string>, spent: real)
    requires i <= |ranked|
  {
    && multiset(chosen) + multiset(leftOut) == multiset(Paths(ranked)[..i])
    && spent == SumCost(chosen, s.cost)
    && SumCostOf(chosen, touched, s.cost) >= 0.0
    && spent <= Max(0.0, limit) + SumCostOf(chosen, touched, s.cost)
    && (forall q :: q in leftOut ==> q !in touched)
    && NothingMoreFits(s, limit, spent, leftOut)
    && CheapestFirst(s, reached, touched, chosen, leftOut)
  }

  lemma TakeOne(s: Suite, reached: map<string, nat>, ranked: seq<Candidate>, i: nat, touched: set<string>,
                limit: real, chosen: seq<string>, leftOut: seq<string>, spent: real)
    requires i < |ranked| && ValidSuite(s)
    requires Genuine(s, reached, ranked[i])
    requires Taken(s, reached, ranked, i, touched, limit, chosen, leftOut, spent)
    requires ranked[i].path in touched || spent + ranked[i].cost <= limit
    ensures Taken(s, reached, ranked, i + 1, touched, limit, chosen + [ranked[i].path], leftOut, spent + ranked[i].cost)
  {
    var c := ranked[i];
    assert s.cost(c.path) >= 0.0;
    assert Paths(ranked)[..i + 1] == Paths(ranked)[..i] + [c.path];
    SumCostAppend(chosen, c.path, touched, s.cost);
    if c.path !in touched {
      Earlier(s, reached, c, leftOut, limit, spent);
    }
  }

  lemma LeaveOne(s: Suite, reached: map<string, nat>, ranked: seq<Candidate>, i: nat, touched: set<string>,
                 limit: real, chosen: seq<string>, leftOut: seq<string>, spent: real)
    requires i < |ranked| && Sorting.Sorted(ranked, CandidateLe)
    requires forall k :: 0 <= k < |ranked| ==> Genuine(s, reached, ranked[k])
    requires Taken(s, reached, ranked, i, touched, limit, chosen, leftOut, spent)
    requires ranked[i].path !in touched && spent + ranked[i].cost > limit
    ensures Taken(s, reached, ranked, i + 1, touched, limit, chosen, leftOut + [ranked[i].path], spent)
  {
    var c := ranked[i];
    assert Genuine(s, reached, c);
    assert Paths(ranked)[..i + 1] == Paths(ranked)[..i] + [c.path];
    forall p | p in chosen ensures exists k :: 0 <= k < i && ranked[k].path == p {
      assert p in multiset(chosen) + multiset(leftOut);
      assert p in Paths(ranked)[..i];
    }
    Later(s, reached, ranked, i, chosen);
  }

  function Max(a: real, b: real): real { if a < b then b else a }

  /** A file that fits now is strictly cheaper than every file left out before. */
  lemma Earlier(s: Suite, reached: map<string, nat>, c: Candidate, leftOut: seq<string>, limit: real, spent: real)
    requires Genuine(s, reached, c)
    requires NothingMoreFits(s, limit, spent, leftOut)
    requires spent + c.cost <= limit
    ensures forall q :: q in leftOut ==> s.cost(c.path) < s.cost(q)
  {
  }

  /** `p` is no dearer than `q`, ties by name. */
  predicate NoDearer(s: Suite, p: string, q: string) {
    s.cost(p) < s.cost(q) || (s.cost(p) == s.cost(q) && StringLe(p, q))
  }

  /** A file left out now ranks after every file chosen before. */
  lemma Later(s: Suite, reached: map<string, nat>, ranked: seq<Candidate>, i: nat, chosen: seq<string>)
    requires i < |ranked| && Sorting.Sorted(ranked, CandidateLe)
    requires forall k :: 0 <= k < |ranked| ==> Genuine(s, reached, ranked[k])
    requires forall p :: p in chosen ==> exists k :: 0 <= k < i && ranked[k].path == p
    ensures forall p :: p in chosen && s.moduleOf(p) in reached && reached[s.moduleOf(p)] == ranked[i].distance ==>
              NoDearer(s, p, ranked[i].path)
  {
    var c := ranked[i];
    assert Genuine(s, reached, c);
    forall p | p in chosen && s.moduleOf(p) in reached && reached[s.moduleOf(p)] == c.distance
      ensures NoDearer(s, p, c.path)
    {
      var k :| 0 <= k < i && ranked[k].path == p;
      assert CandidateLe(ranked[k], c);
      assert Genuine(s, reached, ranked[k]);
    }
  }

  /** The changed test files that still exist. */
  function Touched(s: Suite, changed: seq<string>): set<string> {
    set p | p in changed && s.isTest(p) && p in s.sources
  }

  /**
   The selection: chosen and left-out files partition the reached tests; every touched test runs;
   the cost exceeds the budget by no more than the touched files; nothing left out still fits; at
   each distance the untouched files that run are the cheapest.
   */
  method Select(s: Suite, changed: seq<string>, reverse: Graph, budget: Budget)
    returns (selection: Selection, reached: map<string, nat>)
    requires budget.workers > 0 && ValidSuite(s)
    ensures ShortestChains(reverse, ChangedModules(changed, s.moduleOf), reached)
    ensures multiset(selection.files) + multiset(selection.leftOut) == multiset(ReachedTests(s, s.sources, reached))
    ensures Sorting.Sorted(selection.files, StringLe) && Sorting.Sorted(selection.leftOut, StringLe)
    ensures forall p :: p in Touched(s, changed) ==> p in selection.files && p !in selection.leftOut
    ensures var spent := SumCost(selection.files, s.cost);
            && selection.seconds == budget.Wall(spent)
            && spent <= Max(0.0, budget.Limit()) + SumCostOf(selection.files, Touched(s, changed), s.cost)
            && NothingMoreFits(s, budget.Limit(), spent, selection.leftOut)
    ensures CheapestFirst(s, reached, Touched(s, changed), selection.files, selection.leftOut)
  {
    reached := Impacted(changed, reverse, s.moduleOf);
    var touched := Touched(s, changed);
    var ranked := Rank(s, reached);
    var chosen, leftOut, spent := Take(s, reached, ranked, touched, budget);
    var files, left := Sorting.Sort(chosen, StringLe), Sorting.Sort(leftOut, StringLe);
    selection := Selection(files, left, budget.Wall(spent));
    StringOrder();
    Sorting.SortSorts(chosen, StringLe);
    Sorting.SortSorts(leftOut, StringLe);
    SumCostSort(chosen, touched, s.cost);
    SameMembers(files, chosen);
    SameMembers(left, leftOut);
    TouchedIsReached(s, changed, reverse, reached);
    forall p | p in touched ensures p in files && p !in left {
      assert p in ReachedTests(s, s.sources, reached);
      assert p in multiset(chosen) + multiset(leftOut);
    }
  }

  lemma StringOrder()
    ensures Sorting.TotalOrder(StringLe)
  {
    forall a: string, b: string ensures StringLe(a, b) || StringLe(b, a) {
      StringLeTotal(a, b);
    }
    forall a: string, b: string, c: string | StringLe(a, b) && StringLe(b, c) ensures StringLe(a, c) {
      StringLeTransitive(a, b, c);
    }
  }

  lemma SameMembers(a: seq<string>, b: seq<string>)
    requires multiset(a) == multiset(b)
    ensures forall p :: p in a <==> p in b
  {
    forall p ensures p in a <==> p in b {
      assert p in a <==> p in multiset(a);
      assert p in b <==> p in multiset(b);
    }
  }

  lemma TouchedIsReached(s: Suite, changed: seq<string>, reverse: Graph, reached: map<string, nat>)
    requires ValidSuite(s)
    requires ShortestChains(reverse, ChangedModules(changed, s.moduleOf), reached)
    ensures forall p :: p in Touched(s, changed) ==> s.moduleOf(p) in reached && reached[s.moduleOf(p)] == 0
  {
    forall p | p in Touched(s, changed) ensures s.moduleOf(p) in reached && reached[s.moduleOf(p)] == 0 {
      assert Chain(reverse, ChangedModules(changed, s.moduleOf), s.moduleOf(p), 0);
    }
  }
}
