/**
 The bounded resolver of the contract gate: follows a dotted name through the exports of modules,
 keeping every alternative, until nothing more can be rewritten.
 */
module Resolver {
  import opened Text
  import opened Aliases

  const MAX_RESOLUTION_PATHS := 256

  /** What each module exports: for each name, its possible targets. */
  type Exports = map<string, Names>

  // ----- rewriting -----

  function TargetsAt(exports: Exports, parts: seq<string>, i: nat): set<string>
    requires i < |parts|
  {
    var owner := Join(parts[..i], '.');
    if owner in exports then Aliases.Known(exports[owner], parts[i]) else {}
  }

  /** The first `i` parts name a module that exports the next part. */
  predicate ExportedAt(exports: Exports, parts: seq<string>, i: nat)
    requires i < |parts|
  {
    TargetsAt(exports, parts, i) != {}
  }

  /** The longest exported prefix has `i` parts. */
  ghost predicate Longest(exports: Exports, parts: seq<string>, i: nat) {
    && 0 < i < |parts| && ExportedAt(exports, parts, i)
    && forall k :: i < k < |parts| ==> !ExportedAt(exports, parts, k)
  }

  function Spliced(target: string, parts: seq<string>, i: nat): string
    requires i < |parts|
  {
    Join([target] + parts[i + 1..], '.')
  }

  /** One step: a target of the longest exported prefix replaces that prefix. Stop names stay. */
  ghost predicate Rewrites(exports: Exports, stops: set<string>, a: string, b: string) {
    a !in stops && RewritesParts(exports, Split(a, '.'), b)
  }

  ghost predicate RewritesParts(exports: Exports, parts: seq<string>, b: string) {
    exists i: nat, target :: Longest(exports, parts, i) && target in TargetsAt(exports, parts, i) && b == Spliced(target, parts, i)
  }

  /** A stop name, or a name without an exported prefix. */
  ghost predicate Final(exports: Exports, stops: set<string>, a: string) {
    a in stops || Normal(exports, Split(a, '.'))
  }

  ghost predicate Normal(exports: Exports, parts: seq<string>) {
    forall i: nat :: 0 < i < |parts| ==> !ExportedAt(exports, parts, i)
  }

  ghost predicate Leads(exports: Exports, stops: set<string>, name: string, n: string, steps: nat)
    decreases steps
  {
    if steps == 0 then n == name
    else exists p :: Leads(exports, stops, name, p, steps - 1) && Rewrites(exports, stops, p, n)
  }

  ghost predicate Reaches(exports: Exports, stops: set<string>, name: string, n: string) {
    exists steps: nat :: Leads(exports, stops, name, n, steps)
  }

  lemma ReachesMore(exports: Exports, stops: set<string>, name: string, p: string, n: string)
    requires Reaches(exports, stops, name, p) && Rewrites(exports, stops, p, n)
    ensures Reaches(exports, stops, name, n)
  {
    var steps: nat :| Leads(exports, stops, name, p, steps);
    assert Leads(exports, stops, name, n, steps + 1);
  }

  // ----- one name -----

  /** The rewritings of a name by its longest exported prefix; nothing when it has none. */
  method RewriteAll(exports: Exports, parts: seq<string>) returns (found: bool, next: set<string>)
    requires |parts| >= 1
    ensures found <==> !Normal(exports, parts)
    ensures forall b :: b in next <==> RewritesParts(exports, parts, b)
  {
    found, next := false, {};
    var index := |parts| - 1;
    while index > 0
      invariant 0 <= index < |parts|
      invariant forall k :: index < k < |parts| ==> !ExportedAt(exports, parts, k)
    {
      var targets := TargetsAt(exports, parts, index);
      if targets != {} {
        next := set t | t in targets :: Spliced(t, parts, index);
        assert Longest(exports, parts, index);
        LongestUnique(exports, parts, index);
        return true, next;
      }
      index := index - 1;
    }
  }

  lemma LongestUnique(exports: Exports, parts: seq<string>, i: nat)
    requires Longest(exports, parts, i)
    ensures forall k: nat :: Longest(exports, parts, k) ==> k == i
  {
  }

  method Listed(s: set<string>) returns (order: seq<string>)
    ensures |order| == |s| && forall x :: x in order <==> x in s
  {
    order := [];
    var rest := s;
    while rest != {}
      invariant rest <= s && |order| + |rest| == |s| && forall x :: x in order <==> x in s - rest
    {
      var x :| x in rest;
      order, rest := order + [x], rest - {x};
    }
  }

  // ----- the worklist -----

  /** Every rewriting of `n` is known. */
  ghost predicate Followed(exports: Exports, stops: set<string>, n: string, seen: set<string>, pending: seq<string>) {
    forall b :: Rewrites(exports, stops, n, b) ==> b in seen || b in pending
  }

  ghost predicate Sound(exports: Exports, stops: set<string>, name: string, seen: set<string>, pending: seq<string>) {
    forall n :: n in seen || n in pending ==> Reaches(exports, stops, name, n)
  }

  ghost predicate Explored(exports: Exports, stops: set<string>, name: string, seen: set<string>,
                           pending: seq<string>) {
    && (name in seen || name in pending)
    && (forall n :: n in seen ==> Followed(exports, stops, n, seen, pending))
    && (forall n :: n in seen ==> |n| <= MAX_ALIAS_LENGTH)
  }

  /** The finals among the names seen so far. */
  ghost predicate Settles(exports: Exports, stops: set<string>, seen: set<string>, resolved: set<string>) {
    forall n :: n in resolved <==> n in seen && Final(exports, stops, n)
  }

  ghost predicate ClosedSet(exports: Exports, stops: set<string>, s: set<string>) {
    forall n :: n in s ==> Followed(exports, stops, n, s, [])
  }

  lemma ClosedStep(exports: Exports, stops: set<string>, s: set<string>, p: string, n: string)
    requires ClosedSet(exports, stops, s) && p in s && Rewrites(exports, stops, p, n)
    ensures n in s
  {
    assert Followed(exports, stops, p, s, []);
  }

  lemma {:induction false} ClosedHolds(exports: Exports, stops: set<string>, name: string, s: set<string>, n: string,
                                       steps: nat)
    requires ClosedSet(exports, stops, s) && name in s && Leads(exports, stops, name, n, steps)
    ensures n in s
    decreases steps
  {
    if steps > 0 {
      var p :| Leads(exports, stops, name, p, steps - 1) && Rewrites(exports, stops, p, n);
      ClosedHolds(exports, stops, name, s, p, steps - 1);
      ClosedStep(exports, stops, s, p, n);
    }
  }

  lemma ExploreSkips(exports: Exports, stops: set<string>, name: string, seen: set<string>, rest: seq<string>,
                     last: string)
    requires Explored(exports, stops, name, seen, rest + [last]) && last in seen
    ensures Explored(exports, stops, name, seen, rest)
  {
    forall n | n in seen ensures Followed(exports, stops, n, seen, rest) {
      assert Followed(exports, stops, n, seen, rest + [last]);
    }
  }

  lemma ExploreTakes(exports: Exports, stops: set<string>, name: string, seen: set<string>, rest: seq<string>,
                     last: string, more: seq<string>)
    requires Explored(exports, stops, name, seen, rest + [last]) && |last| <= MAX_ALIAS_LENGTH
    requires forall b :: b in more <==> Rewrites(exports, stops, last, b)
    ensures Explored(exports, stops, name, seen + {last}, rest + more)
  {
    forall n | n in seen + {last} ensures Followed(exports, stops, n, seen + {last}, rest + more) {
      assert n != last ==> Followed(exports, stops, n, seen, rest + [last]);
    }
  }

  lemma SoundTakes(exports: Exports, stops: set<string>, name: string, seen: set<string>, rest: seq<string>,
                   last: string, more: seq<string>)
    requires Sound(exports, stops, name, seen, rest + [last])
    requires forall b :: b in more <==> Rewrites(exports, stops, last, b)
    ensures Sound(exports, stops, name, seen + {last}, rest + more)
  {
    assert last in rest + [last];
    forall n | n in more ensures Reaches(exports, stops, name, n) {
      ReachesMore(exports, stops, name, last, n);
    }
  }

  /** One name off the stack: its rewritings, and whether it is final. */
  method Follow(exports: Exports, stops: set<string>, current: string)
    returns (final: bool, more: seq<string>, ghost next: set<string>)
    ensures final <==> Final(exports, stops, current)
    ensures forall b :: b in more <==> Rewrites(exports, stops, current, b)
    ensures |more| == |next| && forall b :: b in next <==> Rewrites(exports, stops, current, b)
  {
    if current in stops {
      return true, [], {};
    }
    var found, all := RewriteAll(exports, Split(current, '.'));
    more := Listed(all);
    final, next := !found, all;
  }

  // ----- counting the ways -----

  /** Exactly the rewritings of the names in `names`. */
  ghost predicate AreWays(exports: Exports, stops: set<string>, names: set<string>, ways: set<(string, string)>) {
    forall a, b :: (a, b) in ways <==> a in names && Rewrites(exports, stops, a, b)
  }

  ghost function WaysFrom(a: string, next: set<string>): (ways: set<(string, string)>)
    ensures |ways| == |next| && forall x, b :: (x, b) in ways <==> x == a && b in next
  {
    if next == {} then {}
    else
      var b :| b in next;
      var rest := WaysFrom(a, next - {b});
      assert (a, b) !in rest;
      rest + {(a, b)}
  }

  lemma WaysAdd(ways: set<(string, string)>, a: string, next: set<string>)
    requires forall b :: (a, b) !in ways
    ensures |ways + WaysFrom(a, next)| == |ways| + |next|
  {
    var more := WaysFrom(a, next);
    forall w | w in more ensures w !in ways {
      assert w == (w.0, w.1);
    }
    assert ways !! more;
  }

  lemma WaysMore(exports: Exports, stops: set<string>, seen: set<string>, ways: set<(string, string)>, a: string,
                 next: set<string>)
    requires AreWays(exports, stops, seen, ways) && a !in seen && forall b :: b in next <==>
            Rewrites(exports, stops, a, b)
    ensures AreWays(exports, stops, seen + {a}, ways + WaysFrom(a, next))
    ensures |ways + WaysFrom(a, next)| == |ways| + |next|
  {
    WaysAdd(ways, a, next);
    var more := WaysFrom(a, next);
    forall x, b ensures (x, b) in ways + more <==> x in seen + {a} && Rewrites(exports, stops, x, b) {
      assert (x, b) in more <==> x == a && b in next;
    }
  }

  lemma {:induction false} SameSize(a: set<string>, b: set<string>)
    requires a <= b && |a| == |b|
    ensures a == b
  {
    if x :| x in b && x !in a {
      Cardinality(a, b - {x});
    }
  }

  /** What is reachable, said by a finite set. */
  ghost predicate IsReach(exports: Exports, stops: set<string>, name: string, reach: set<string>) {
    forall n :: n in reach <==> Reaches(exports, stops, name, n)
  }

  /** Every name in `within` is short, and their rewritings stay among them. */
  ghost predicate Enclosed(exports: Exports, stops: set<string>, name: string, within: set<string>) {
    name in within && ClosedSet(exports, stops, within) && forall n :: n in within ==> |n| <= MAX_ALIAS_LENGTH
  }

  lemma SoundIsEnclosed(exports: Exports, stops: set<string>, name: string, seen: set<string>, pending: seq<string>,
                        within: set<string>)
    requires Sound(exports, stops, name, seen, pending) && Enclosed(exports, stops, name, within)
    ensures seen <= within && forall n :: n in pending ==> n in within
    ensures |seen| <= |within|
  {
    forall n | n in seen || n in pending ensures n in within {
      var steps: nat :| Leads(exports, stops, name, n, steps);
      ClosedHolds(exports, stops, name, within, n, steps);
    }
    Cardinality(seen, within);
  }

  lemma {:induction false} Cardinality(a: set<string>, b: set<string>)
    requires a <= b
    ensures |a| <= |b|
  {
    if a != {} {
      var x :| x in a;
      Cardinality(a - {x}, b - {x});
    }
  }

  ghost function FinalsIn(exports: Exports, stops: set<string>, reach: set<string>): set<string> {
    set n | n in reach && Final(exports, stops, n)
  }

  /** What the worklist knows, the arrivals counted: each is pending, was new, or was met again. */
  ghost predicate Working(exports: Exports, stops: set<string>, name: string, seen: set<string>, pending: seq<string>,
                          ways: set<(string, string)>, repeats: nat) {
    && Sound(exports, stops, name, seen, pending) && Explored(exports, stops, name, seen, pending)
    && AreWays(exports, stops, seen, ways) && |pending| + |seen| + repeats == 1 + |ways|
  }

  lemma WorkBegins(exports: Exports, stops: set<string>, name: string)
    ensures Working(exports, stops, name, {}, [name], {}, 0)
  {
    assert Leads(exports, stops, name, name, 0);
  }

  lemma WorkSkips(exports: Exports, stops: set<string>, name: string, seen: set<string>, rest: seq<string>,
                  last: string,
                  ways: set<(string, string)>, repeats: nat)
    requires Working(exports, stops, name, seen, rest + [last], ways, repeats) && last in seen
    ensures Working(exports, stops, name, seen, rest, ways, repeats + 1)
  {
    ExploreSkips(exports, stops, name, seen, rest, last);
  }

  lemma WorkTakes(exports: Exports, stops: set<string>, name: string, seen: set<string>, rest: seq<string>,
                  last: string,
                  more: seq<string>, next: set<string>, ways: set<(string, string)>, repeats: nat)
    requires Working(exports, stops, name, seen, rest + [last], ways, repeats) && last !in seen
    requires |last| <= MAX_ALIAS_LENGTH
    requires |more| == |next| && forall b :: b in more <==> Rewrites(exports, stops, last, b)
    requires forall b :: b in next <==> Rewrites(exports, stops, last, b)
    ensures Working(exports, stops, name, seen + {last}, rest + more, ways + WaysFrom(last, next), repeats)
  {
    ExploreTakes(exports, stops, name, seen, rest, last, more);
    SoundTakes(exports, stops, name, seen, rest, last, more);
    WaysMore(exports, stops, seen, ways, last, next);
  }

  /** What is said of exactly 256 names. */
  ghost predicate DecidedAtTheLimit(exports: Exports, stops: set<string>, name: string, within: set<string>,
                                    ways: set<(string, string)>, repeats: nat, limited: bool) {
    Enclosed(exports, stops, name, within) && IsReach(exports, stops, name, within) && |within| == MAX_RESOLUTION_PATHS ==>
      AreWays(exports, stops, within, ways) && (limited <==> repeats < |ways| - (MAX_RESOLUTION_PATHS - 1))
  }

  lemma WorkStops(exports: Exports, stops: set<string>, name: string, seen: set<string>, pending: seq<string>,
                  ways: set<(string, string)>, repeats: nat, within: set<string>, current: string)
    requires Working(exports, stops, name, seen, pending, ways, repeats) && current in pending
    requires |seen| <= MAX_RESOLUTION_PATHS
    requires |seen| == MAX_RESOLUTION_PATHS || |current| > MAX_ALIAS_LENGTH
    ensures !(Enclosed(exports, stops, name, within) && |within| < MAX_RESOLUTION_PATHS)
    ensures DecidedAtTheLimit(exports, stops, name, within, ways, repeats, true)
  {
    if Enclosed(exports, stops, name, within) {
      SoundIsEnclosed(exports, stops, name, seen, pending, within);
      assert current in within;
      if |within| == MAX_RESOLUTION_PATHS {
        SameSize(seen, within);
      }
    }
  }

  lemma WorkEnds(exports: Exports, stops: set<string>, name: string, seen: set<string>,
                 ways: set<(string, string)>, repeats: nat, within: set<string>)
    requires Working(exports, stops, name, seen, [], ways, repeats)
    ensures IsReach(exports, stops, name, seen) && DecidedAtTheLimit(exports, stops, name, within, ways, repeats, false)
  {
    forall n | Reaches(exports, stops, name, n) ensures n in seen {
      var steps: nat :| Leads(exports, stops, name, n, steps);
      ClosedHolds(exports, stops, name, seen, n, steps);
    }
    assert IsReach(exports, stops, name, within) ==> within == seen;
  }

  lemma SettlesMore(exports: Exports, stops: set<string>, seen: set<string>, resolved: set<string>, n: string,
                    final: bool)
    requires Settles(exports, stops, seen, resolved) && (final <==> Final(exports, stops, n))
    ensures Settles(exports, stops, seen + {n}, if final then resolved + {n} else resolved)
  {
  }

  /** All that is resolved is final and was reached. */
  ghost predicate OnlyFinals(exports: Exports, stops: set<string>, name: string, resolved: set<string>) {
    forall n :: n in resolved && n != AMBIGUOUS_ALIAS ==> Reaches(exports, stops, name, n) && Final(exports, stops, n)
  }

  lemma SettledFinals(exports: Exports, stops: set<string>, name: string, seen: set<string>, pending: seq<string>,
                      resolved: set<string>)
    requires Settles(exports, stops, seen, resolved) && Sound(exports, stops, name, seen, pending)
    ensures resolved == FinalsIn(exports, stops, seen)
    ensures OnlyFinals(exports, stops, name, resolved) && OnlyFinals(exports, stops, name, resolved + {AMBIGUOUS_ALIAS})
  {
  }

  /**
   Resolves a name over any export graph, cyclic ones too. Unless the limit is hit, the result is
   exactly the stop names and normal forms the name can be rewritten to. The limit puts the marker in
   the result. It is hit if more than 256 names or one longer than 512 can be reached, and is not hit
   if all that can be reached lies in fewer than 256 names, none longer than 512. With exactly 256
   such names it is hit if and only if some arrival is still pending at the last new name: of the
   `ways` from name to name all but 255 are repeated arrivals, and `repeats` of them have been met. So
   it is not hit if every name is arrived at in one way only, whatever the order.
   */
  method Resolve(name: string, exports: Exports, stops: set<string>, ghost within: set<string>)
    returns (resolved: set<string>, ghost limited: bool, ghost reach: set<string>,
             ghost ways: set<(string, string)>, ghost repeats: nat)
    ensures limited ==> AMBIGUOUS_ALIAS in resolved
    ensures !limited ==> IsReach(exports, stops, name, reach) && resolved == FinalsIn(exports, stops, reach)
    ensures !limited ==> |reach| <= MAX_RESOLUTION_PATHS && forall n :: n in reach ==> |n| <= MAX_ALIAS_LENGTH
    ensures Enclosed(exports, stops, name, within) && |within| < MAX_RESOLUTION_PATHS ==> !limited
    ensures DecidedAtTheLimit(exports, stops, name, within, ways, repeats, limited)
    ensures OnlyFinals(exports, stops, name, resolved)
  {
    var pending := [name];
    var seen: set<string> := {};
    resolved, limited, reach, ways, repeats := {}, false, {}, {}, 0;
    WorkBegins(exports, stops, name);
    while pending != []
      invariant |seen| <= MAX_RESOLUTION_PATHS
      invariant Working(exports, stops, name, seen, pending, ways, repeats)
      invariant Settles(exports, stops, seen, resolved)
      decreases MAX_RESOLUTION_PATHS - |seen|, |pending|
    {
      var current, rest := pending[|pending| - 1], pending[..|pending| - 1];
      assert pending == rest + [current];
      if |seen| >= MAX_RESOLUTION_PATHS || |current| > MAX_ALIAS_LENGTH {
        WorkStops(exports, stops, name, seen, pending, ways, repeats, within, current);
        SettledFinals(exports, stops, name, seen, pending, resolved);
        resolved, limited := resolved + {AMBIGUOUS_ALIAS}, true;
        return;
      }
      pending := rest;
      if current in seen {
        WorkSkips(exports, stops, name, seen, rest, current, ways, repeats);
        repeats := repeats + 1;
      } else {
        var final, more, next := Follow(exports, stops, current);
        WorkTakes(exports, stops, name, seen, rest, current, more, next, ways, repeats);
        SettlesMore(exports, stops, seen, resolved, current, final);
        seen, ways := seen + {current}, ways + WaysFrom(current, next);
        if final {
          resolved := resolved + {current};
        }
        pending := rest + more;
      }
    }
    reach := seen;
    SettledFinals(exports, stops, name, seen, pending, resolved);
    WorkEnds(exports, stops, name, seen, ways, repeats, within);
  }
}
