/** Boards as values: a colour in 0..5 on every cell, or -1 where it is empty. */
module Boards {
  import opened Grid
  import opened Reachability

  const COLOURS := 6
  const EMPTY := -1

  predicate IsColour(v: int) { 0 <= v < COLOURS }

  type Colour = c: int | IsColour(c) witness 0

  type CellValue = v: int | v == EMPTY || IsColour(v) witness EMPTY

  ghost predicate IsBoard(b: map<Cell, int>) {
    b.Keys == AllCells() && forall p :: p in b ==> b[p] == EMPTY || IsColour(b[p])
  }

  type Board = b: map<Cell, int> | IsBoard(b)
    ghost witness map p | p in AllCells() :: EMPTY

  ghost predicate Full(b: Board, p: Cell) {
    InBoard(p) && b[p] >= 0
  }

  ghost function Occupied(b: Board): (s: set<Cell>)
    ensures forall p :: p in s <==> Full(b, p)
  {
    set p | p in AllCells() && b[p] >= 0
  }

  ghost function Bubbles(b: Board): nat {
    |Occupied(b)|
  }

  ghost function Put(b: Board, p: Cell, v: int): Board
    requires InBoard(p) && (v == EMPTY || IsColour(v))
  {
    b[p := v]
  }

  ghost function Erase(b: Board, s: set<Cell>): (e: Board)
    ensures Occupied(e) == Occupied(b) - s
  {
    map p | p in AllCells() :: if p in s then EMPTY else b[p]
  }

  lemma EraseCounts(b: Board, s: set<Cell>)
    requires s <= Occupied(b)
    ensures Bubbles(Erase(b, s)) == Bubbles(b) - |s|
  {
  }

  lemma PutCounts(b: Board, p: Cell, v: int)
    requires InBoard(p) && b[p] == EMPTY && IsColour(v)
    ensures Occupied(Put(b, p, v)) == Occupied(b) + {p}
    ensures Bubbles(Put(b, p, v)) == Bubbles(b) + 1
  {
    assert Occupied(Put(b, p, v)) == Occupied(b) + {p};
  }

  // ------------------------------------------------- groups and anchoring

  ghost function OfColour(b: Board, v: int): (s: set<Cell>)
    ensures forall p :: p in s <==> InBoard(p) && b[p] == v
  {
    set p | p in AllCells() && b[p] == v
  }

  /** The connected group of the colour found at p. */
  ghost function Group(b: Board, p: Cell): set<Cell>
    requires InBoard(p)
  {
    Reach(OfColour(b, b[p]), {p})
  }

  ghost function TopRow(): (s: set<Cell>)
    ensures forall p :: p in s <==> InBoard(p) && p.r == 0
  {
    set p | p in AllCells() && p.r == 0
  }

  ghost function Hanging(b: Board): (s: set<Cell>)
    ensures s <= Occupied(b)
  {
    Reach(Occupied(b), TopRow())
  }

  /** Every bubble hangs from the top row through other bubbles. */
  ghost predicate Anchored(b: Board) {
    Hanging(b) == Occupied(b)
  }

  ghost function Matched(b: Board, p: Cell): set<Cell>
    requires InBoard(p)
  {
    if Full(b, p) && |Group(b, p)| >= 3 then Group(b, p) else {}
  }

  ghost function Cleared(b: Board, p: Cell): Board
    requires InBoard(p)
  {
    Erase(b, Matched(b, p))
  }

  ghost function Floating(b: Board): set<Cell> {
    Occupied(b) - Hanging(b)
  }

  ghost function Dropped(b: Board): Board {
    Erase(b, Floating(b))
  }

  lemma MatchedIsOccupied(b: Board, p: Cell)
    requires InBoard(p)
    ensures Matched(b, p) <= Occupied(b)
  {
  }

  /** Clearing at a bubble takes its whole group if that has three or more
      members, and otherwise nothing; every other cell stays as it is. */
  lemma ClearedExactly(b: Board, p: Cell)
    requires Full(b, p)
    ensures forall q :: InBoard(q) ==>
              Cleared(b, p)[q] == if |Group(b, p)| >= 3 && q in Group(b, p) then EMPTY else b[q]
    ensures Bubbles(Cleared(b, p)) == Bubbles(b) - (if |Group(b, p)| >= 3 then |Group(b, p)| else 0)
  {
    hide Group, Bubbles;
    MatchedIsOccupied(b, p);
    EraseCounts(b, Matched(b, p));
  }

  /** Dropping leaves an anchored board, whose bubbles are the hanging ones in
      their colours, and a second drop finds nothing to remove. */
  lemma DropAnchors(b: Board)
    ensures Anchored(Dropped(b))
    ensures Occupied(Dropped(b)) == Hanging(b)
    ensures forall p :: p in Hanging(b) ==> Dropped(b)[p] == b[p]
    ensures Floating(Dropped(b)) == {} && Dropped(Dropped(b)) == Dropped(b)
  {
    assert Occupied(Dropped(b)) == Hanging(b);
    ReachIsIdempotent(Occupied(b), TopRow());
    assert Dropped(Dropped(b)) == Dropped(b);
  }

  /** A board is anchored exactly when a drop would remove nothing. */
  lemma AnchoredMeansNothingDrops(b: Board)
    ensures Anchored(b) <==> |Floating(b)| == 0
    ensures Anchored(b) <==> Dropped(b) == b
  {
    hide Hanging, Erase;
    if Floating(b) == {} {
      EraseNothing(b);
    } else {
      var p :| p in Floating(b);
      ErasedAt(b, Floating(b), p);
    }
  }

  lemma ErasedAt(b: Board, s: set<Cell>, p: Cell)
    requires p in s && Full(b, p)
    ensures Erase(b, s) != b
  {
    assert Erase(b, s)[p] == EMPTY;
  }

  /** Every bubble below the first row touches one in the row above it. */
  ghost predicate Propped(b: Board) {
    forall p :: Full(b, p) && p.r > 0 ==> exists q :: Full(b, q) && q.r == p.r - 1 && p in Neighbors(q)
  }

  lemma {:induction false} ProppedHangs(b: Board, p: Cell)
    requires Propped(b) && Full(b, p)
    ensures p in Hanging(b)
    decreases p.r
  {
    if p.r == 0 {
      ReachSource(Occupied(b), TopRow(), p);
    } else {
      var q :| Full(b, q) && q.r == p.r - 1 && p in Neighbors(q);
      ProppedHangs(b, q);
      ReachStep(Occupied(b), TopRow(), q, p);
    }
  }

  /** A condition on single bubbles that makes a board anchored. */
  lemma ProppedIsAnchored(b: Board)
    requires Propped(b)
    ensures Anchored(b)
  {
    forall p | p in Occupied(b) ensures p in Hanging(b) {
      ProppedHangs(b, p);
    }
  }

  lemma EraseNothing(b: Board)
    ensures Erase(b, {}) == b
  {
  }

  /** Adding one bubble to an anchored board leaves nothing else floating. */
  lemma QuietDrop(b: Board, p: Cell, v: int)
    requires Anchored(b) && InBoard(p) && b[p] == EMPTY && IsColour(v)
    ensures var landed := Put(b, p, v);
            Dropped(landed) == if |Floating(landed)| == 0 then landed else b
  {
    var landed := Put(b, p, v);
    PutCounts(b, p, v);
    ReachIsMonotone(Occupied(b), TopRow(), Occupied(landed));
    assert Floating(landed) <= {p};
    if p in Floating(landed) {
      assert Floating(landed) == {p};
      EraseLast(b, p, v);
    } else {
      assert Floating(landed) == {};
      EraseNothing(landed);
    }
  }

  lemma EraseLast(b: Board, p: Cell, v: int)
    requires InBoard(p) && b[p] == EMPTY && IsColour(v)
    ensures Erase(Put(b, p, v), {p}) == b
  {
  }

  /** A group does not depend on which of its members it is grown from. */
  lemma GroupOfMember(b: Board, p: Cell, q: Cell)
    requires InBoard(p) && q in Group(b, p)
    ensures Group(b, q) == Group(b, p)
  {
    var like := OfColour(b, b[p]);
    GroupWithin(like, p, q);
    GroupSymmetric(like, p, q);
    GroupWithin(like, q, p);
  }

  lemma GroupWithin(like: set<Cell>, p: Cell, q: Cell)
    requires q in Reach(like, {p})
    ensures Reach(like, {q}) <= Reach(like, {p})
  {
    ReachIsClosed(like, {p});
    ReachIsLeast(like, {q}, Reach(like, {p}));
  }

  lemma GroupSymmetric(like: set<Cell>, p: Cell, q: Cell)
    requires like <= AllCells() && q in Reach(like, {p})
    ensures p in Reach(like, {q})
  {
    hide Neighbors, AllCells;
    var w :| Connects(like, {p}, w, q);
    var back := seq(|w|, i requires 0 <= i < |w| => w[|w| - 1 - i]);
    forall i | 0 < i < |back| ensures back[i] in Neighbors(back[i - 1]) {
      AdjacencyIsSymmetric(w[|w| - 1 - i], w[|w| - i]);
    }
    assert Connects(like, {q}, back, p);
  }
}
