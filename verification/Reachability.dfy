/** Connectivity through adjacent cells, defined by explicit paths. */
module Reachability {
  import opened Grid

  /** p is a walk through neighbouring cells that never leaves `inside`. */
  ghost predicate Path(inside: set<Cell>, p: seq<Cell>) {
    && 0 < |p|
    && (forall i :: 0 <= i < |p| ==> p[i] in inside)
    && (forall i :: 0 < i < |p| ==> p[i] in Neighbors(p[i - 1]))
  }

  ghost predicate Connects(inside: set<Cell>, from: set<Cell>, p: seq<Cell>, x: Cell) {
    Path(inside, p) && p[0] in from && p[|p| - 1] == x
  }

  ghost predicate ReachableFrom(inside: set<Cell>, from: set<Cell>, x: Cell) {
    exists p :: Connects(inside, from, p, x)
  }

  /** All cells of `inside` that a path inside it joins to `from`. */
  ghost function Reach(inside: set<Cell>, from: set<Cell>): (s: set<Cell>)
    ensures s <= inside
  {
    set x | x in inside && ReachableFrom(inside, from, x)
  }

  ghost predicate ClosedIn(inside: set<Cell>, s: set<Cell>) {
    forall x, y :: x in s && y in inside && y in Neighbors(x) ==> y in s
  }

  lemma ReachSource(inside: set<Cell>, from: set<Cell>, x: Cell)
    requires x in inside && x in from
    ensures x in Reach(inside, from)
  {
    assert Connects(inside, from, [x], x);
  }

  lemma ReachStep(inside: set<Cell>, from: set<Cell>, x: Cell, y: Cell)
    requires x in Reach(inside, from) && y in inside && y in Neighbors(x)
    ensures y in Reach(inside, from)
  {
    var p :| Connects(inside, from, p, x);
    assert Connects(inside, from, p + [y], y);
  }

  lemma ReachIsClosed(inside: set<Cell>, from: set<Cell>)
    ensures from * inside <= Reach(inside, from)
    ensures ClosedIn(inside, Reach(inside, from))
  {
    forall x | x in from * inside ensures x in Reach(inside, from) {
      ReachSource(inside, from, x);
    }
    forall x, y | x in Reach(inside, from) && y in inside && y in Neighbors(x) ensures y in Reach(inside, from) {
      ReachStep(inside, from, x, y);
    }
  }

  lemma {:induction false} PathStaysIn(inside: set<Cell>, s: set<Cell>, p: seq<Cell>, i: nat)
    requires Path(inside, p) && p[0] in s && ClosedIn(inside, s) && i < |p|
    ensures p[i] in s
  {
    if i > 0 {
      PathStaysIn(inside, s, p, i - 1);
    }
  }

  /** Reach is the least closed set over its sources. */
  lemma ReachIsLeast(inside: set<Cell>, from: set<Cell>, s: set<Cell>)
    requires from * inside <= s && ClosedIn(inside, s)
    ensures Reach(inside, from) <= s
  {
    forall x | x in Reach(inside, from) ensures x in s {
      var p :| Connects(inside, from, p, x);
      PathStaysIn(inside, s, p, |p| - 1);
    }
  }

  /** What remains reachable is reachable without leaving what remains. */
  lemma ReachIsIdempotent(inside: set<Cell>, from: set<Cell>)
    ensures Reach(Reach(inside, from), from) == Reach(inside, from)
  {
    var kept := Reach(inside, from);
    ReachIsClosed(inside, from);
    ReachIsClosed(kept, from);
    ReachIsLeast(inside, from, Reach(kept, from));
  }

  lemma ReachIsMonotone(inside: set<Cell>, from: set<Cell>, wider: set<Cell>)
    requires inside <= wider
    ensures Reach(inside, from) <= Reach(wider, from)
  {
    ReachIsClosed(wider, from);
    ReachIsLeast(inside, from, Reach(wider, from));
  }

  // ------------------------------------------------- breadth-first worklists

  /** State of a breadth-first search: the seen cells contain the sources, are
      all reachable, and are closed except at the cells still pending. */
  ghost predicate Frontier(inside: set<Cell>, from: set<Cell>, seen: set<Cell>, pending: set<Cell>) {
    && from * inside <= seen
    && seen <= Reach(inside, from)
    && pending <= seen
    && forall x, y :: x in seen - pending && y in inside && y in Neighbors(x) ==> y in seen
  }

  lemma FrontierExhausted(inside: set<Cell>, from: set<Cell>, seen: set<Cell>)
    requires Frontier(inside, from, seen, {})
    ensures seen == Reach(inside, from)
  {
    ReachIsLeast(inside, from, seen);
  }
}
