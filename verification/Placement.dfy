/** Where a landing bubble comes to rest: the snapped cell, or the nearest empty
    cell of the 5 by 5 window around it. */
module Placement {
  import opened Wrappers
  import opened Grid
  import opened Boards
  import opened Resolve

  const WINDOW := 2

  predicate InWindow(base: Cell, q: Cell) {
    base.r - WINDOW <= q.r <= base.r + WINDOW && base.c - WINDOW <= q.c <= base.c + WINDOW
  }

  function RealSquare(x: real): real { x * x }

  function PointDistance2(p: Cell, x: real, y: real): real {
    RealSquare(CenterX(p) as real - x) + RealSquare(CenterY(p) as real - y)
  }

  predicate ScansBefore(p: Cell, q: Cell) {
    p.r < q.r || (p.r == q.r && p.c < q.c)
  }

  ghost predicate Candidate(b: Board, base: Cell, q: Cell) {
    InBoard(q) && InWindow(base, q) && b[q] < 0
  }

  ghost predicate Ahead(dq: real, q: Cell, dk: real, k: Cell) {
    dq < dk || (dq == dk && (q == k || ScansBefore(q, k)))
  }

  ghost predicate NoWorse(x: real, y: real, q: Cell, k: Cell) {
    Ahead(PointDistance2(q, x, y), q, PointDistance2(k, x, y), k)
  }

  lemma AheadIsTotalOrder(da: real, a: Cell, db: real, b: Cell, dc: real, c: Cell)
    ensures Ahead(da, a, db, b) || Ahead(db, b, da, a)
    ensures Ahead(da, a, db, b) && Ahead(db, b, dc, c) ==> Ahead(da, a, dc, c)
  {
  }

  /** q is a closest empty cell of the window, the first in scan order if several. */
  ghost predicate IsNearestEmpty(b: Board, base: Cell, x: real, y: real, q: Cell) {
    Candidate(b, base, q) && forall k :: Candidate(b, base, k) ==> NoWorse(x, y, q, k)
  }

  ghost function NearestEmpty(b: Board, base: Cell, x: real, y: real): (q: Option<Cell>)
    ensures q.Some? ==> IsNearestEmpty(b, base, x, y, q.value)
  {
    if q :| IsNearestEmpty(b, base, x, y, q) then Some(q) else None
  }

  lemma NearestEmptyIsUnique(b: Board, base: Cell, x: real, y: real, q: Cell)
    requires IsNearestEmpty(b, base, x, y, q)
    ensures NearestEmpty(b, base, x, y) == Some(q)
  {
    var k := NearestEmpty(b, base, x, y).value;
    assert NoWorse(x, y, q, k) && NoWorse(x, y, k, q);
  }

  /** A scan of the window standing at offset (dr, dc) has seen q. */
  predicate SeenBy(base: Cell, dr: int, dc: int, q: Cell) {
    q.r - base.r < dr || (q.r - base.r == dr && q.c - base.c < dc)
  }

  ghost predicate BestSeen(b: Board, base: Cell, x: real, y: real, dr: int, dc: int, best: Cell) {
    if best.r < 0 then
      forall k :: Candidate(b, base, k) ==> !SeenBy(base, dr, dc, k)
    else
      && Candidate(b, base, best) && SeenBy(base, dr, dc, best)
      && forall k :: Candidate(b, base, k) && SeenBy(base, dr, dc, k) ==> NoWorse(x, y, best, k)
  }

  lemma BestAdvances(b: Board, base: Cell, x: real, y: real, dr: int, dc: int, best: Cell)
    requires BestSeen(b, base, x, y, dr, dc, best)
    requires -WINDOW <= dr <= WINDOW && -WINDOW <= dc <= WINDOW
    ensures var q := Cell(base.r + dr, base.c + dc);
            var better := InBoard(q) && b[q] < 0 &&
                          (best.r < 0 || PointDistance2(q, x, y) < PointDistance2(best, x, y));
            BestSeen(b, base, x, y, dr, dc + 1, if better then q else best)
  {
    var q := Cell(base.r + dr, base.c + dc);
    forall k | Candidate(b, base, k) && SeenBy(base, dr, dc + 1, k) && !SeenBy(base, dr, dc, k) ensures k == q {}
  }

  /** Scans the window row by row for the empty cell nearest to (x, y); -1 as a
      row stands for none found yet. */
  method FindNearestEmpty(board: array2<int>, baseR: int, baseC: int, x: real, y: real, ghost b: Board)
    returns (bestR: int, bestC: int, ok: bool)
    requires Holds(board, b)
    ensures ok <==> exists k :: Candidate(b, Cell(baseR, baseC), k)
    ensures ok ==> NearestEmpty(b, Cell(baseR, baseC), x, y) == Some(Cell(bestR, bestC))
    ensures !ok ==> NearestEmpty(b, Cell(baseR, baseC), x, y) == None
  {
    hide PointDistance2;
    ghost var base := Cell(baseR, baseC);
    bestR, bestC := -1, -1;
    var best := 0.0;
    for dr := -WINDOW to WINDOW + 1
      invariant BestSeen(b, base, x, y, dr, -WINDOW, Cell(bestR, bestC))
      invariant bestR >= 0 ==> best == PointDistance2(Cell(bestR, bestC), x, y)
    {
      for dc := -WINDOW to WINDOW + 1
        invariant BestSeen(b, base, x, y, dr, dc, Cell(bestR, bestC))
        invariant bestR >= 0 ==> best == PointDistance2(Cell(bestR, bestC), x, y)
      {
        var q := Cell(baseR + dr, baseC + dc);
        BestAdvances(b, base, x, y, dr, dc, Cell(bestR, bestC));
        if !InBoard(q) || board[q.r, q.c] >= 0 {
          continue;
        }
        var d2 := PointDistance2(q, x, y);
        if bestR < 0 || d2 < best {
          best := d2;
          bestR, bestC := q.r, q.c;
        }
      }
    }
    ok := bestR >= 0;
    if ok {
      assert IsNearestEmpty(b, base, x, y, Cell(bestR, bestC));
      NearestEmptyIsUnique(b, base, x, y, Cell(bestR, bestC));
    }
  }

  /** The cell a bubble landing at (x, y) takes, if it finds one. */
  ghost function LandingCell(b: Board, x: real, y: real): (q: Option<Cell>)
    ensures q.Some? ==> InBoard(q.value) && b[q.value] == EMPTY
  {
    var p := NearestCell(x, y);
    if b[p] >= 0 then NearestEmpty(b, p, x, y) else Some(p)
  }

  /** A landing is refused exactly when the snapped cell and every other cell of
      its window on the board are occupied. */
  lemma RefusedIffWindowFull(b: Board, x: real, y: real)
    ensures LandingCell(b, x, y) == None <==>
            forall q :: InBoard(q) && InWindow(NearestCell(x, y), q) ==> b[q] >= 0
  {
    var p := NearestCell(x, y);
    if b[p] >= 0 {
      if k :| Candidate(b, p, k) {
        var all := set j | j in AllCells() && Candidate(b, p, j);
        assert k in all;
        var q := Best(x, y, all);
        NearestEmptyIsUnique(b, p, x, y, q);
      } else {
        forall q | InBoard(q) && InWindow(p, q) ensures b[q] >= 0 {
          assert !Candidate(b, p, q);
        }
      }
    } else {
      assert InWindow(p, p);
    }
  }

  /** Which cell that is: the snapped one if it is empty, and otherwise an empty
      cell at most two rows and two columns away that no other such cell is
      nearer to the point than, the first in scan order if several are as near. */
  lemma LandsNearest(b: Board, x: real, y: real)
    ensures b[NearestCell(x, y)] == EMPTY ==> LandingCell(b, x, y) == Some(NearestCell(x, y))
    ensures b[NearestCell(x, y)] != EMPTY && LandingCell(b, x, y).Some? ==>
              var p, q := NearestCell(x, y), LandingCell(b, x, y).value;
              && InBoard(q) && b[q] == EMPTY && p.r - 2 <= q.r <= p.r + 2 && p.c - 2 <= q.c <= p.c + 2
              && forall k :: InBoard(k) && b[k] == EMPTY && p.r - 2 <= k.r <= p.r + 2 && p.c - 2 <= k.c <= p.c + 2 ==>
                   PointDistance2(q, x, y) <= PointDistance2(k, x, y) &&
                   (PointDistance2(q, x, y) == PointDistance2(k, x, y) && k != q ==>
                      q.r < k.r || (q.r == k.r && q.c < k.c))
  {
    hide PointDistance2;
    var p := NearestCell(x, y);
    if b[p] != EMPTY && LandingCell(b, x, y).Some? {
      var q := LandingCell(b, x, y).value;
      assert IsNearestEmpty(b, p, x, y, q);
      forall k | InBoard(k) && b[k] == EMPTY && p.r - 2 <= k.r <= p.r + 2 && p.c - 2 <= k.c <= p.c + 2
        ensures NoWorse(x, y, q, k)
      {
        assert Candidate(b, p, k);
      }
    }
  }

  lemma Best(x: real, y: real, s: set<Cell>) returns (q: Cell)
    requires s != {}
    ensures q in s && forall k :: k in s ==> NoWorse(x, y, q, k)
    decreases |s|
  {
    q :| q in s;
    var rest := s - {q};
    if rest != {} {
      var k := Best(x, y, rest);
      q := Better(x, y, q, k, rest);
    }
    forall k | k in s ensures NoWorse(x, y, q, k) {
      assert k in rest || s == rest + {k};
    }
  }

  lemma Better(x: real, y: real, q: Cell, k: Cell, rest: set<Cell>) returns (w: Cell)
    requires k in rest && forall j :: j in rest ==> NoWorse(x, y, k, j)
    ensures w in {q, k} && NoWorse(x, y, w, q) && forall j :: j in rest ==> NoWorse(x, y, w, j)
  {
    w := if NoWorse(x, y, q, k) then q else k;
    forall j | j in rest ensures NoWorse(x, y, w, j) {
      AheadIsTotalOrder(PointDistance2(q, x, y), q, PointDistance2(k, x, y), k, PointDistance2(j, x, y), j);
    }
    AheadIsTotalOrder(PointDistance2(q, x, y), q, PointDistance2(k, x, y), k, PointDistance2(q, x, y), q);
  }
}
