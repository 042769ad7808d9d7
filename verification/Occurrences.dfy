/**
 Occurrence counts of the contract gate: a counter by consumer path, module and symbol, moved along
 renames and held to a baseline.
 */
module Occurrences {

  datatype Key = Key(path: string, mod: string, symbol: string)

  /** A counter: a missing key counts zero. */
  type Counts = map<Key, nat>

  function Count(c: Counts, k: Key): nat {
    if k in c then c[k] else 0
  }

  // ----- totals -----

  ghost function Total(c: Counts): nat
    decreases |c|
  {
    if c == map[] then 0
    else
      var k :| k in c;
      c[k] + Total(c - {k})
  }

  /** Any key may be taken out of a total. */
  lemma {:induction false} TotalWithout(c: Counts, k: Key)
    requires k in c
    ensures Total(c) == c[k] + Total(c - {k})
    decreases |c|
  {
    var first :| first in c && Total(c) == c[first] + Total(c - {first});
    if first != k {
      TotalWithout(c - {first}, k);
      TotalWithout(c - {k}, first);
      assert (c - {first}) - {k} == (c - {k}) - {first};
    }
  }

  lemma TotalWith(c: Counts, k: Key, n: nat)
    ensures Total(c[k := n]) + Count(c, k) == Total(c) + n
  {
    var after := c[k := n];
    TotalWithout(after, k);
    assert after - {k} == c - {k};
    if k in c {
      TotalWithout(c, k);
    } else {
      assert c - {k} == c;
    }
  }

  ghost predicate Below(small: Counts, large: Counts) {
    forall k :: Count(small, k) <= Count(large, k)
  }

  lemma {:induction false} TotalBelow(small: Counts, large: Counts)
    requires Below(small, large)
    ensures Total(small) <= Total(large)
    decreases |small|
  {
    if small != map[] {
      var k :| k in small;
      assert Count(small, k) <= Count(large, k);
      TotalWithout(small, k);
      if k in large {
        TotalWithout(large, k);
      } else {
        assert large - {k} == large;
      }
      forall j ensures Count(small - {k}, j) <= Count(large - {k}, j) {
        assert Count(small, j) <= Count(large, j);
      }
      TotalBelow(small - {k}, large - {k});
    }
  }

  /** Keys that occur more often than the baseline allows. */
  function Ratchet(current: Counts, baseline: Counts): (grown: set<Key>)
    ensures grown == {} <==> Below(current, baseline)
  {
    var grown := set k | k in current && current[k] > Count(baseline, k);
    assert forall k :: Count(current, k) > Count(baseline, k) ==> k in grown;
    grown
  }

  // ----- renames -----

  function Moved(k: Key, renames: map<string, string>): Key {
    if k.path in renames then k.(path := renames[k.path]) else k
  }

  /** The counts that land on `to`. */
  ghost function Landing(c: Counts, renames: map<string, string>, to: Key): Counts {
    map k | k in c && Moved(k, renames) == to :: c[k]
  }

  /** Each count of `moved` is the sum of the counts that land on it. */
  ghost predicate Relocated(c: Counts, renames: map<string, string>, moved: Counts) {
    forall to :: Count(moved, to) == Total(Landing(c, renames, to))
  }

  lemma LandingMore(c: Counts, renames: map<string, string>, k: Key, n: nat, to: Key)
    requires k !in c
    ensures Total(Landing(c[k := n], renames, to)) == Total(Landing(c, renames, to)) + if to == Moved(k, renames) then n else 0
  {
    var landing := Landing(c, renames, to);
    if to == Moved(k, renames) {
      assert Landing(c[k := n], renames, to) == landing[k := n];
      TotalWith(landing, k, n);
    } else {
      assert Landing(c[k := n], renames, to) == landing;
    }
  }

  lemma RelocatedMore(c: Counts, renames: map<string, string>, moved: Counts, k: Key, n: nat, after: Counts)
    requires k !in c && Relocated(c, renames, moved)
    requires after == moved[Moved(k, renames) := Count(moved, Moved(k, renames)) + n]
    ensures Relocated(c[k := n], renames, after)
  {
    var more := c[k := n];
    forall to ensures Count(after, to) == Total(Landing(more, renames, to)) {
      assert Count(moved, to) == Total(Landing(c, renames, to));
      LandingMore(c, renames, k, n, to);
    }
  }

  /** Moves each consumer's allowance along its rename; nothing is gained or lost, even where two land on one key. */
  method RelocatedCounts(c: Counts, renames: map<string, string>) returns (moved: Counts)
    ensures Relocated(c, renames, moved)
    ensures Total(moved) == Total(c)
  {
    moved := map[];
    ghost var done: Counts := map[];
    var rest := c.Keys;
    assert forall to :: Landing(done, renames, to) == map[];
    while rest != {}
      invariant rest <= c.Keys && done == c - rest
      invariant Relocated(done, renames, moved) && Total(moved) == Total(done)
    {
      var k :| k in rest;
      var to := Moved(k, renames);
      TotalWith(done, k, c[k]);
      TotalWith(moved, to, Count(moved, to) + c[k]);
      ghost var before := moved;
      moved := moved[to := Count(moved, to) + c[k]];
      RelocatedMore(done, renames, before, k, c[k], moved);
      done, rest := done[k := c[k]], rest - {k};
    }
    assert done == c;
  }

  /** Counts with nothing under a renamed path stay where they are. */
  lemma NothingToMove(c: Counts, renames: map<string, string>)
    requires forall k :: k in c ==> k.path !in renames
    ensures Relocated(c, renames, c)
  {
    forall to ensures Count(c, to) == Total(Landing(c, renames, to)) {
      var landing := Landing(c, renames, to);
      if to in c {
        assert landing == map[to := c[to]];
        TotalWithout(landing, to);
        assert landing - {to} == map[];
      } else {
        assert landing == map[];
      }
    }
  }
}
