/**
 The static alias map of the contract gate: every target a local name may be bound to, within caps.
 A local whose targets do not fit carries a marker, and a marked map is an error of the scan.
 */
module Aliases {
  import opened Text

  const MAX_ALIAS_TARGETS := 64
  const MAX_ALIAS_PASSES := 64
  const MAX_ALIAS_LENGTH := 512
  const AMBIGUOUS_ALIAS := "<ambiguous-alias>"

  type Names = map<string, set<string>>

  /**
   One assignment: its local, the names its own type parameters hide, and the targets its value has
   under a given alias map.
   */
  datatype Assignment = Assignment(local: string, shadowed: set<string>, targets: Names -> set<string>)

  /** An import binds a local name to one target. */
  datatype Import = Import(local: string, target: string)

  predicate Fits(targets: set<string>) {
    |targets| <= MAX_ALIAS_TARGETS && forall t :: t in targets ==> |t| <= MAX_ALIAS_LENGTH
  }

  function Short(targets: set<string>): set<string> {
    set t | t in targets && |t| <= MAX_ALIAS_LENGTH
  }

  ghost function FirstOf(targets: set<string>): set<string> {
    var order := Enumerate(Short(targets));
    set i | 0 <= i < |order| && i < MAX_ALIAS_TARGETS :: order[i]
  }

  function Known(names: Names, local: string): set<string> {
    if local in names then names[local] else {}
  }

  ghost function Capped(targets: set<string>): set<string> {
    if Fits(targets) then targets else FirstOf(targets) + {AMBIGUOUS_ALIAS}
  }

  ghost function Bound(names: Names, local: string, targets: set<string>): Names {
    if targets == {} then names else names[local := Capped(Known(names, local) + targets)]
  }

  function Unshadowed(names: Names, shadowed: set<string>): Names {
    map n | n in names && n !in shadowed :: names[n]
  }

  ghost function Assigned(names: Names, a: Assignment): Names {
    Bound(names, a.local, a.targets(Unshadowed(names, a.shadowed)))
  }

  ghost predicate MarkedAt(names: Names, local: string) {
    local in names && AMBIGUOUS_ALIAS in names[local]
  }

  ghost predicate Marked(names: Names) {
    exists local :: MarkedAt(names, local)
  }

  /** Every target in `small` is in `large`, under the same local. */
  ghost predicate Below(small: Names, large: Names) {
    forall local :: Known(small, local) <= Known(large, local)
  }

  ghost predicate UnlessMarked(names: Names, fixed: Names) {
    !Marked(names) ==> Below(names, fixed)
  }

  // ----- binding -----

  /** The marker of a local is never lost. */
  lemma MarkerStays(names: Names, local: string, targets: set<string>, marked: string)
    requires MarkedAt(names, marked)
    ensures MarkedAt(Bound(names, local, targets), marked)
  {
  }

  /** A binding that leaves its local unmarked hit no cap: it added its targets and dropped nothing. */
  lemma UnmarkedDropsNothing(names: Names, local: string, targets: set<string>)
    requires !MarkedAt(Bound(names, local, targets), local)
    ensures Below(names, Bound(names, local, targets))
    ensures targets <= Known(Bound(names, local, targets), local)
    ensures targets != {} ==> Fits(Known(names, local) + targets)
    ensures Known(Bound(names, local, targets), local) == Known(names, local) + targets
  {
  }

  /** The first of the ordered targets, as many as the cap allows. */
  method FirstTargets(order: seq<string>) returns (r: set<string>)
    ensures r == set i | 0 <= i < |order| && i < MAX_ALIAS_TARGETS :: order[i]
  {
    r := {};
    var i := 0;
    while i < |order| && i < MAX_ALIAS_TARGETS
      invariant 0 <= i <= |order| && i <= MAX_ALIAS_TARGETS
      invariant forall t :: t in r <==> t in order[..i]
    {
      assert order[..i + 1] == order[..i] + [order[i]];
      r := r + {order[i]};
      i := i + 1;
    }
  }

  method Cap(targets: set<string>) returns (r: set<string>)
    ensures r == Capped(targets)
  {
    if Fits(targets) {
      return targets;
    }
    var order := SortedMembers(Short(targets));
    r := FirstTargets(order);
    r := r + {AMBIGUOUS_ALIAS};
  }

  // ----- assignments -----

  /** What the first `n` assignments do to a map, one after the other. */
  ghost function AssignedTo(names: Names, assignments: seq<Assignment>, n: nat): Names
    requires n <= |assignments|
    decreases n
  {
    if n == 0 then names else Assigned(AssignedTo(names, assignments, n - 1), assignments[n - 1])
  }

  /** None of the first `n` assignments changes the map. */
  ghost predicate Settled(names: Names, assignments: seq<Assignment>, n: nat)
    requires n <= |assignments|
  {
    forall i :: 0 <= i < n ==> SettledAt(names, assignments[i])
  }

  ghost predicate SettledAt(names: Names, a: Assignment) {
    Assigned(names, a) == names
  }

  lemma SettledMore(names: Names, assignments: seq<Assignment>, n: nat)
    requires n < |assignments| && Settled(names, assignments, n) && SettledAt(names, assignments[n])
    ensures Settled(names, assignments, n + 1)
  {
  }

  lemma AssignedNext(names: Names, assignments: seq<Assignment>, n: nat)
    requires n < |assignments|
    ensures AssignedTo(names, assignments, n + 1) == Assigned(AssignedTo(names, assignments, n), assignments[n])
  {
  }

  ghost predicate ClosedAt(names: Names, a: Assignment) {
    a.targets(Unshadowed(names, a.shadowed)) <= Known(names, a.local)
  }

  /** Each assignment's targets are in its local's set. */
  ghost predicate Closed(names: Names, assignments: seq<Assignment>) {
    forall i :: 0 <= i < |assignments| ==> ClosedAt(names, assignments[i])
  }

  lemma SettledIsClosed(names: Names, assignments: seq<Assignment>)
    requires Settled(names, assignments, |assignments|) && !Marked(names)
    ensures Closed(names, assignments)
  {
    forall i | 0 <= i < |assignments| ensures ClosedAt(names, assignments[i]) {
      var a := assignments[i];
      assert SettledAt(names, a);
      assert !MarkedAt(names, a.local);
      UnmarkedDropsNothing(names, a.local, a.targets(Unshadowed(names, a.shadowed)));
    }
  }

  /** A value has no fewer targets under a larger map. */
  ghost predicate Monotone(a: Assignment) {
    forall small, large :: Below(small, large) ==> a.targets(small) <= a.targets(large)
  }

  /** A map above `start` that every one of the assignments, all monotone, leaves as it is. */
  ghost predicate Fixed(fixed: Names, start: Names, assignments: seq<Assignment>) {
    Below(start, fixed) && Closed(fixed, assignments) && forall i :: 0 <= i < |assignments| ==> Monotone(assignments[i])
  }

  lemma AssignedStaysBelow(names: Names, a: Assignment, fixed: Names)
    requires Below(names, fixed) && ClosedAt(fixed, a) && Monotone(a) && !Marked(Assigned(names, a))
    ensures Below(Assigned(names, a), fixed)
  {
    var small, large := Unshadowed(names, a.shadowed), Unshadowed(fixed, a.shadowed);
    forall local ensures Known(small, local) <= Known(large, local) {
      assert Known(names, local) <= Known(fixed, local);
    }
    assert Below(small, large);
    var after := Assigned(names, a);
    assert !MarkedAt(after, a.local);
    UnmarkedDropsNothing(names, a.local, a.targets(small));
    forall local ensures Known(after, local) <= Known(fixed, local) {
      assert Known(names, local) <= Known(fixed, local);
    }
  }

  lemma FixedAt(fixed: Names, start: Names, assignments: seq<Assignment>, i: nat)
    requires Fixed(fixed, start, assignments) && i < |assignments|
    ensures ClosedAt(fixed, assignments[i]) && Monotone(assignments[i])
  {
  }

  lemma StepStaysBelow(before: Names, a: Assignment, fixed: Names)
    requires ClosedAt(fixed, a) && Monotone(a) && !Marked(Assigned(before, a))
    requires (!Marked(before) ==> Below(before, fixed))
    ensures Below(Assigned(before, a), fixed)
  {
    UnmarkedWas(before, a.local, a.targets(Unshadowed(before, a.shadowed)));
    AssignedStaysBelow(before, a, fixed);
  }

  /** A run of assignments that ends unmarked was never marked, and stays below every fixed map. */
  lemma {:induction false} RunStaysBelow(start: Names, assignments: seq<Assignment>, n: nat, fixed: Names)
    requires n <= |assignments| && Fixed(fixed, start, assignments)
    ensures UnlessMarked(AssignedTo(start, assignments, n), fixed)
    decreases n
  {
    if n > 0 {
      RunStaysBelow(start, assignments, n - 1, fixed);
      FixedAt(fixed, start, assignments, n - 1);
      AssignedNext(start, assignments, n - 1);
      var before, a := AssignedTo(start, assignments, n - 1), assignments[n - 1];
      if !Marked(Assigned(before, a)) {
        StepStaysBelow(before, a, fixed);
      }
    }
  }

  lemma UnmarkedWas(names: Names, local: string, targets: set<string>)
    requires !Marked(Bound(names, local, targets))
    ensures !Marked(names)
  {
    if Marked(names) {
      var marked :| MarkedAt(names, marked);
      MarkerStays(names, local, targets, marked);
      assert false;
    }
  }

  // ----- the map -----

  class Bindings {
    var names: Names
    /** Every pair of a local and a target ever handed to `Bind`. */
    ghost var bound: iset<(string, string)>

    constructor ()
      ensures names == map[] && bound == iset{} && Faithful()
    {
      names, bound := map[], iset{};
    }

    /** Unless it is marked, the map holds exactly what was ever bound, and no local exceeds a cap. */
    ghost predicate Faithful()
      reads this
    {
      Holds(names, bound)
    }

    /** Adds possible targets of a local; says whether the map changed. */
    method Bind(local: string, targets: set<string>) returns (changed: bool)
      requires Faithful()
      modifies this
      ensures Faithful()
      ensures bound == old(bound) + BoundPairs(local, targets)
      ensures names == Bound(old(names), local, targets)
      ensures changed <==> names != old(names)
    {
      HoldsMore(names, bound, local, targets);
      bound := bound + BoundPairs(local, targets);
      if targets == {} {
        return false;
      }
      var previous := Known(names, local);
      var combined := Cap(previous + targets);
      assert combined != {};
      ghost var before := names;
      names := names[local := combined];
      changed := combined != previous;
      assert names == before <==> local in before && before[local] == combined;
    }

    method AddImport(i: Import, ghost fixed: Names)
      requires Faithful()
      modifies this
      ensures Faithful() && old(bound) <= bound && (i.local, i.target) in bound
      ensures i.target in Known(fixed, i.local) && UnlessMarked(old(names), fixed) ==> UnlessMarked(names, fixed)
    {
      ImportStaysBelow(names, i, fixed);
      assert (i.local, i.target) in BoundPairs(i.local, {i.target});
      var _ := Bind(i.local, {i.target});
    }

    method Assign(a: Assignment) returns (changed: bool)
      requires Faithful()
      modifies this
      ensures Faithful() && old(bound) <= bound
      ensures names == Assigned(old(names), a)
      ensures !changed ==> names == old(names) && SettledAt(names, a)
    {
      changed := Bind(a.local, a.targets(Unshadowed(names, a.shadowed)));
    }

    /** One pass over the assignments. */
    method Pass(assignments: seq<Assignment>) returns (changed: bool)
      requires Faithful()
      modifies this
      ensures Faithful() && old(bound) <= bound
      ensures names == AssignedTo(old(names), assignments, |assignments|)
      ensures !changed ==> names == old(names) && Settled(names, assignments, |assignments|)
    {
      changed := false;
      for i := 0 to |assignments|
        invariant Faithful() && old(bound) <= bound
        invariant names == AssignedTo(old(names), assignments, i)
        invariant !changed ==> names == old(names) && Settled(names, assignments, i)
      {
        AssignedNext(old(names), assignments, i);
        var more := Assign(assignments[i]);
        if !changed && !more {
          SettledMore(names, assignments, i);
        }
        changed := changed || more;
      }
    }

    /**
     Follows chains of assignments to a fixed point, within the allowed passes. The outcome is
     marked, or it is closed under every assignment and, for monotone values, the least such map.
     */
    method AssignmentBindings(assignments: seq<Assignment>, ghost fixed: Names)
      requires Faithful()
      modifies this
      ensures Faithful() && old(bound) <= bound
      ensures Marked(names) || Closed(names, assignments)
      ensures !Marked(names) && Fixed(fixed, old(names), assignments) ==> Below(names, fixed)
      ensures Marked(old(names)) ==> Marked(names)
    {
      var passes := if |assignments| + 1 < MAX_ALIAS_PASSES then |assignments| + 1 else MAX_ALIAS_PASSES;
      for p := 0 to passes
        invariant Faithful() && old(bound) <= bound
        invariant Marked(old(names)) ==> Marked(names)
        invariant !Marked(names) && Fixed(fixed, old(names), assignments) ==> Below(names, fixed)
      {
        PassKeeps(names, old(names), assignments, fixed);
        var changed := Pass(assignments);
        if !changed {
          if !Marked(names) {
            SettledIsClosed(names, assignments);
          }
          return;
        }
      }
      if assignments != [] {
        names := names[AMBIGUOUS_ALIAS := {AMBIGUOUS_ALIAS}];
        assert MarkedAt(names, AMBIGUOUS_ALIAS);
      }
    }
  }

  ghost function BoundPairs(local: string, targets: set<string>): iset<(string, string)> {
    iset t | t in targets :: (local, t)
  }

  ghost predicate Holds(names: Names, bound: iset<(string, string)>) {
    !Marked(names) ==>
      && (forall local, t :: t in Known(names, local) <==> (local, t) in bound)
      && (forall local :: Fits(Known(names, local)))
  }

  lemma HoldsMore(names: Names, bound: iset<(string, string)>, local: string, targets: set<string>)
    requires Holds(names, bound)
    ensures Holds(Bound(names, local, targets), bound + BoundPairs(local, targets))
  {
    var after := Bound(names, local, targets);
    if !Marked(after) {
      UnmarkedWas(names, local, targets);
      assert !MarkedAt(after, local);
      UnmarkedDropsNothing(names, local, targets);
      forall l, t ensures t in Known(after, l) <==> (l, t) in bound + BoundPairs(local, targets) {
        assert t in Known(names, l) <==> (l, t) in bound;
        assert (l, t) in BoundPairs(local, targets) <==> l == local && t in targets;
      }
      forall l ensures Fits(Known(after, l)) {
        assert Fits(Known(names, l));
      }
    }
  }

  lemma {:induction false} RunStaysMarked(start: Names, assignments: seq<Assignment>, n: nat)
    requires n <= |assignments| && Marked(start)
    ensures Marked(AssignedTo(start, assignments, n))
    decreases n
  {
    if n > 0 {
      RunStaysMarked(start, assignments, n - 1);
      var before, a := AssignedTo(start, assignments, n - 1), assignments[n - 1];
      if !Marked(AssignedTo(start, assignments, n)) {
        UnmarkedWas(before, a.local, a.targets(Unshadowed(before, a.shadowed)));
        assert false;
      }
    }
  }

  lemma PassKeeps(names: Names, start: Names, assignments: seq<Assignment>, fixed: Names)
    requires Marked(start) ==> Marked(names)
    requires !Marked(names) && Fixed(fixed, start, assignments) ==> Below(names, fixed)
    ensures var after := AssignedTo(names, assignments, |assignments|);
            && (Marked(start) ==> Marked(after))
            && (!Marked(after) && Fixed(fixed, start, assignments) ==> Below(after, fixed))
  {
    var after := AssignedTo(names, assignments, |assignments|);
    if Marked(names) {
      RunStaysMarked(names, assignments, |assignments|);
    } else if !Marked(after) && Fixed(fixed, start, assignments) {
      RunStaysBelow(names, assignments, |assignments|, fixed);
    }
  }

  // ----- a source -----

  ghost predicate Imported(names: Names, imports: seq<Import>) {
    forall i :: 0 <= i < |imports| ==> imports[i].target in Known(names, imports[i].local)
  }

  ghost predicate ImportsBound(bound: iset<(string, string)>, imports: seq<Import>, n: nat)
    requires n <= |imports|
  {
    forall k :: 0 <= k < n ==> (imports[k].local, imports[k].target) in bound
  }

  lemma HoldsImports(names: Names, bound: iset<(string, string)>, imports: seq<Import>)
    requires Holds(names, bound) && ImportsBound(bound, imports, |imports|) && !Marked(names)
    ensures Imported(names, imports) && forall local :: Fits(Known(names, local))
  {
  }

  method BindImports(imports: seq<Import>, ghost fixed: Names) returns (result: Bindings)
    ensures fresh(result) && result.Faithful() && ImportsBound(result.bound, imports, |imports|)
    ensures !Marked(result.names) && Imported(fixed, imports) ==> Below(result.names, fixed)
  {
    result := new Bindings();
    for i := 0 to |imports|
      invariant fresh(result) && result.Faithful() && ImportsBound(result.bound, imports, i)
      invariant Imported(fixed, imports) ==> UnlessMarked(result.names, fixed)
    {
      result.AddImport(imports[i], fixed);
    }
  }

  /** Collects the aliases of a source from its imports and its assignments. */
  method BindingsOf(imports: seq<Import>, assignments: seq<Assignment>, ghost fixed: Names) returns (names: Names)
    ensures Marked(names) || (Imported(names, imports) && Closed(names, assignments) && forall local :: Fits(Known(names, local)))
    ensures !Marked(names) && Imported(fixed, imports) && Fixed(fixed, map[], assignments) ==> Below(names, fixed)
  {
    var result := BindImports(imports, fixed);
    result.AssignmentBindings(assignments, fixed);
    names := result.names;
    if !Marked(names) {
      HoldsImports(names, result.bound, imports);
    }
  }

  lemma ImportStaysBelow(names: Names, i: Import, fixed: Names)
    ensures var after := Bound(names, i.local, {i.target});
            !Marked(after) && i.target in Known(fixed, i.local) && Below(names, fixed) ==>
                !Marked(names) && Below(after, fixed)
    ensures !Marked(Bound(names, i.local, {i.target})) ==> !Marked(names)
  {
    var after := Bound(names, i.local, {i.target});
    if !Marked(after) {
      UnmarkedWas(names, i.local, {i.target});
      assert !MarkedAt(after, i.local);
      UnmarkedDropsNothing(names, i.local, {i.target});
      if i.target in Known(fixed, i.local) && Below(names, fixed) {
        forall local ensures Known(after, local) <= Known(fixed, local) {
          assert Known(names, local) <= Known(fixed, local);
        }
      }
    }
  }

  /** The errors a scan reports for its alias map: one for each marked local. */
  method AliasErrors(path: string, names: Names) returns (errors: seq<string>)
    ensures |errors| == |set local | local in names && AMBIGUOUS_ALIAS in names[local]|
    ensures errors == [] <==> !Marked(names)
  {
    errors := [];
    var rest := names.Keys;
    ghost var marked: set<string> := {};
    while rest != {}
      invariant rest <= names.Keys
      invariant marked == set local | local in names.Keys - rest && AMBIGUOUS_ALIAS in names[local]
      invariant |errors| == |marked|
    {
      var local :| local in rest;
      if AMBIGUOUS_ALIAS in names[local] {
        errors := errors + [path + ": static aliases exceed the bounded resolver"];
        marked := marked + {local};
      }
      rest := rest - {local};
    }
    ghost var all := set local | local in names && AMBIGUOUS_ALIAS in names[local];
    assert marked == all;
    if Marked(names) {
      ghost var local :| MarkedAt(names, local);
      assert local in all;
    } else {
      assert forall local :: local in all ==> MarkedAt(names, local);
      assert all == {};
    }
  }

  /** The alias analysis fails closed: a source without alias errors has a complete and exact alias map. */
  method ScanAliases(path: string, imports: seq<Import>, assignments: seq<Assignment>, ghost fixed: Names)
    returns (names: Names, errors: seq<string>)
    ensures errors == [] ==>
            Imported(names, imports) && Closed(names, assignments) && forall local :: Fits(Known(names, local))
    ensures errors == [] && Imported(fixed, imports) && Fixed(fixed, map[], assignments) ==> Below(names, fixed)
    ensures errors == [] <==> forall local :: local in names ==> AMBIGUOUS_ALIAS !in names[local]
  {
    names := BindingsOf(imports, assignments, fixed);
    errors := AliasErrors(path, names);
    if forall local :: local in names ==> AMBIGUOUS_ALIAS !in names[local] {
      assert !Marked(names);
    } else {
      var local :| local in names && AMBIGUOUS_ALIAS in names[local];
      assert MarkedAt(names, local);
    }
  }
}
