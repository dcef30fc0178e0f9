/** The hexagonal board: cell coordinates, adjacency, world geometry and the
    snapping of world points to cells. Odd rows are shifted right by one radius.
    Every cell centre has integer coordinates; only free points are real. */
module Grid {

  const ROWS := 14
  const COLS := 17
  const RADIUS := 16
  const DIAMETER := 32
  const ROW_GAP := 28

  datatype Cell = Cell(r: int, c: int)

  predicate InBoard(p: Cell) {
    0 <= p.r < ROWS && 0 <= p.c < COLS
  }

  ghost function AllCells(): (s: set<Cell>)
    ensures forall p :: p in s <==> InBoard(p)
  {
    set r, c | 0 <= r < ROWS && 0 <= c < COLS :: Cell(r, c)
  }

  /** The remainder test `row%2 == 1` of the source: false on negative rows. */
  predicate Odd(r: int) {
    0 <= r && r % 2 == 1
  }

  function Shift(r: int): int {
    if Odd(r) then RADIUS else 0
  }

  function Neighbors(p: Cell): seq<Cell> {
    var Cell(r, c) := p;
    if Odd(r) then
      [Cell(r - 1, c), Cell(r - 1, c + 1), Cell(r, c - 1), Cell(r, c + 1), Cell(r + 1, c), Cell(r + 1, c + 1)]
    else
      [Cell(r - 1, c - 1), Cell(r - 1, c), Cell(r, c - 1), Cell(r, c + 1), Cell(r + 1, c - 1), Cell(r + 1, c)]
  }

  function CenterX(p: Cell): int {
    RADIUS + Shift(p.r) + p.c * DIAMETER
  }

  function CenterY(p: Cell): int {
    RADIUS + p.r * ROW_GAP
  }

  function Square(x: int): int { x * x }

  function CenterDistance2(p: Cell, q: Cell): int {
    Square(CenterX(p) - CenterX(q)) + Square(CenterY(p) - CenterY(q))
  }

  lemma SquareGrows(k: nat, x: int)
    requires x + k <= 0 || k <= x
    ensures k * k <= Square(x)
  {
    if k <= x {
      assert k * k <= k * x <= x * x;
    } else {
      assert k * k <= k * -x <= -x * -x;
    }
  }

  /** The distance of two cells from the difference of their rows and columns:
      in rows of different parity the columns are half a bubble apart. */
  lemma OffsetDistance(p: Cell, q: Cell)
    requires 0 <= p.r && 0 <= q.r
    ensures p.r == q.r ==> CenterDistance2(p, q) == Square((p.c - q.c) * DIAMETER)
    ensures p.r - q.r in {-1, 1} ==>
              CenterDistance2(p, q) ==
              Square(RADIUS + (if Odd(p.r) then p.c - q.c else p.c - q.c - 1) * DIAMETER)
              + Square((p.r - q.r) * ROW_GAP)
    ensures Square((p.r - q.r) * ROW_GAP) <= CenterDistance2(p, q)
  {
    SquareGrows(0, CenterX(p) - CenterX(q));
    hide Square;
    assert CenterY(p) - CenterY(q) == (p.r - q.r) * ROW_GAP;
    if p.r - q.r in {-1, 1} {
      var k := if Odd(p.r) then p.c - q.c else p.c - q.c - 1;
      assert Odd(q.r) == !Odd(p.r);
      assert Shift(p.r) - Shift(q.r) == if Odd(p.r) then RADIUS else -RADIUS;
      assert CenterX(p) - CenterX(q) == RADIUS + k * DIAMETER;
    } else if p.r == q.r {
      assert CenterX(p) - CenterX(q) == (p.c - q.c) * DIAMETER;
      SquareOfZero();
    }
  }

  lemma SquareOfZero()
    ensures Square(0) == 0
  {
  }

  lemma SameRowDistance(k: int)
    requires k != 0
    ensures Square(k * DIAMETER) == 1024 || 4096 <= Square(k * DIAMETER)
    ensures Square(k * DIAMETER) == 1024 <==> k in {-1, 1}
  {
    if k !in {-1, 1} {
      SquareGrows(64, k * DIAMETER);
    }
  }

  /** Consecutive rows are half a bubble apart, so dx is an odd multiple of 16. */
  lemma NextRowDistance(k: int, dy: int)
    requires dy in {-ROW_GAP, ROW_GAP}
    ensures k in {-1, 0} ==> Square(RADIUS + k * DIAMETER) + Square(dy) == 1040
    ensures k !in {-1, 0} ==> 3088 <= Square(RADIUS + k * DIAMETER) + Square(dy)
  {
    assert Square(dy) == 784;
    if k !in {-1, 0} {
      SquareGrows(48, RADIUS + k * DIAMETER);
    }
  }

  /** Neighbours side by side, or in the next row on either side of the cell. */
  lemma NeighborsAre(p: Cell, q: Cell)
    ensures q in Neighbors(p) <==>
            || (q.r == p.r && q.c - p.c in {-1, 1})
            || (q.r - p.r in {-1, 1} && q.c - p.c in {0, if Odd(p.r) then 1 else -1})
  {
    var n := Neighbors(p);
    assert q in n <==> q == n[0] || q == n[1] || q == n[2] || q == n[3] || q == n[4] || q == n[5];
  }

  /** Adjacency is exactly geometric closeness: touching bubbles are at squared
      distance 1024 or 1040, and every other pair of cells is at 3088 or more. */
  lemma AdjacencyIsCloseness(p: Cell, q: Cell)
    requires InBoard(p) && InBoard(q) && p != q
    ensures q in Neighbors(p) <==> CenterDistance2(p, q) <= 1040
    ensures q !in Neighbors(p) <==> 3088 <= CenterDistance2(p, q)
  {
    hide Neighbors, CenterDistance2, Square, CenterX, CenterY;
    NeighborsAre(p, q);
    OffsetDistance(p, q);
    if p.r == q.r {
      SameRowDistance(p.c - q.c);
    } else if p.r - q.r in {-1, 1} {
      NextRowDistance(if Odd(p.r) then p.c - q.c else p.c - q.c - 1, (p.r - q.r) * ROW_GAP);
    } else {
      SquareGrows(56, (p.r - q.r) * ROW_GAP);
    }
  }

  lemma AdjacencyIsSymmetric(p: Cell, q: Cell)
    requires InBoard(p) && InBoard(q) && q in Neighbors(p)
    ensures p in Neighbors(q) && p != q
  {
  }

  // ---------------------------------------------------------------- rounding

  /** Rounding to the nearest integer, halves away from zero. */
  function RoundHalfAway(x: real): int {
    if x >= 0.0 then (x + 0.5).Floor else -((0.5 - x).Floor)
  }

  /** The rounded value is a nearest integer, and of two equally near ones it
      is the one farther from zero; this pins it down for every input. */
  lemma RoundsToNearest(x: real, n: int)
    ensures n == RoundHalfAway(x) <==>
            (-0.5 < x - n as real < 0.5) ||
            (x - n as real == -0.5 && x >= 0.0) ||
            (x - n as real == 0.5 && x < 0.0)
  {
  }

  function Clamp(lo: int, hi: int, v: int): int {
    if v < lo then lo else if v > hi then hi else v
  }

  /** The column of `row` whose centre is nearest to the abscissa `x`. */
  function NearestCol(row: int, x: real): int {
    Clamp(0, COLS - 1, RoundHalfAway((x - RADIUS as real - Shift(row) as real) / DIAMETER as real))
  }

  function NearestCell(x: real, y: real): (p: Cell)
    ensures InBoard(p)
  {
    var row := Clamp(0, ROWS - 1, RoundHalfAway((y - RADIUS as real) / ROW_GAP as real));
    Cell(row, NearestCol(row, x))
  }

  /** Snapping inverts the centre map, and tolerates any displacement short of
      half a row vertically and half a bubble horizontally. */
  lemma SnapInvertsCenter(p: Cell, x: real, y: real)
    requires InBoard(p)
    requires -16.0 < x - CenterX(p) as real < 16.0
    requires -14.0 < y - CenterY(p) as real < 14.0
    ensures NearestCell(x, y) == p
  {
    RoundsToNearest((y - RADIUS as real) / ROW_GAP as real, p.r);
    RoundsToNearest((x - RADIUS as real - Shift(p.r) as real) / DIAMETER as real, p.c);
  }

  function Distance(a: int, x: real): real {
    if a as real <= x then x - a as real else a as real - x
  }

  lemma SameRow(p: Cell)
    ensures CenterY(p) == CenterY(Cell(p.r, 0))
  {
  }

  lemma RowMiss(r: int, y: real)
    ensures Distance(CenterY(Cell(r, 0)), y) == Miss(28.0, 16.0, y, r)
  {
  }

  lemma ColumnMiss(r: int, c: int, x: real)
    ensures Distance(CenterX(Cell(r, c)), x) == Miss(32.0, 16.0 + Shift(r) as real, x, c)
  {
  }

  /** For every point, on the board or off it: the row snapped to is the nearest
      of the 14, the column the nearest of its 17, and of two equally near ones
      the later. */
  lemma SnapIsNearest(x: real, y: real)
    ensures var p := NearestCell(x, y);
            && 0 <= p.r < 14 && 0 <= p.c < 17
            && (forall r :: 0 <= r < 14 ==>
                  Distance(CenterY(p), y) <= Distance(CenterY(Cell(r, 0)), y) &&
                  (r > p.r ==> Distance(CenterY(p), y) < Distance(CenterY(Cell(r, 0)), y)))
            && forall c :: 0 <= c < 17 ==>
                 Distance(CenterX(p), x) <= Distance(CenterX(Cell(p.r, c)), x) &&
                 (c > p.c ==> Distance(CenterX(p), x) < Distance(CenterX(Cell(p.r, c)), x))
  {
    hide RoundHalfAway, Clamp, Miss, Distance, CenterX, CenterY, Shift;
    var p := NearestCell(x, y);
    assert Distance(CenterY(p), y) == Distance(CenterY(Cell(p.r, 0)), y) by { SameRow(p); }
    var v, u := (y - RADIUS as real) / ROW_GAP as real, (x - RADIUS as real - Shift(p.r) as real) / DIAMETER as real;
    RoundsToNearest(v, RoundHalfAway(v));
    RoundsToNearest(u, RoundHalfAway(u));
    RowMiss(p.r, y);
    forall r | 0 <= r < 14
      ensures Distance(CenterY(p), y) <= Distance(CenterY(Cell(r, 0)), y)
      ensures r > p.r ==> Distance(CenterY(p), y) < Distance(CenterY(Cell(r, 0)), y)
    {
      RowMiss(r, y);
      ClampedIsNearest(28.0, 16.0, y, v, RoundHalfAway(v), 13, r);
    }
    forall c | 0 <= c < 17
      ensures Distance(CenterX(p), x) <= Distance(CenterX(Cell(p.r, c)), x)
      ensures c > p.c ==> Distance(CenterX(p), x) < Distance(CenterX(Cell(p.r, c)), x)
    {
      ColumnMiss(p.r, p.c, x);
      ColumnMiss(p.r, c, x);
      ClampedIsNearest(32.0, 16.0 + Shift(p.r) as real, x, u, RoundHalfAway(u), 16, c);
    }
  }

  function Magnitude(a: real): real {
    if a < 0.0 then -a else a
  }

  /** How far x is from the k-th of the points first, first + step, ... */
  function Miss(step: real, first: real, x: real, k: int): real {
    Magnitude(x - first - k as real * step)
  }

  lemma IndexIsNearest(u: real, n: int, last: nat, k: nat)
    requires k <= last
    requires (-0.5 < u - n as real < 0.5) || (u - n as real == -0.5 && u >= 0.0) || (u - n as real == 0.5 && u < 0.0)
    ensures var m := Clamp(0, last, n);
            && Magnitude(u - m as real) <= Magnitude(u - k as real)
            && (k > m ==> Magnitude(u - m as real) < Magnitude(u - k as real))
  {
  }

  /** Of the points first, first + step, ... the one at the rounded and clamped
      index is nearest. */
  lemma ClampedIsNearest(step: real, first: real, x: real, u: real, n: int, last: nat, k: nat)
    requires step > 0.0 && x == first + u * step && k <= last
    requires (-0.5 < u - n as real < 0.5) || (u - n as real == -0.5 && u >= 0.0) || (u - n as real == 0.5 && u < 0.0)
    ensures var m := Clamp(0, last, n);
            && Miss(step, first, x, m) <= Miss(step, first, x, k)
            && (k > m ==> Miss(step, first, x, m) < Miss(step, first, x, k))
  {
    hide Clamp, Magnitude, Miss;
    IndexIsNearest(u, n, last, k);
    var m := Clamp(0, last, n);
    Scaled(step, first, x, u, m);
    Scaled(step, first, x, u, k);
    ScaledCompare(step, Magnitude(u - m as real), Magnitude(u - k as real));
  }

  lemma Scaled(step: real, first: real, x: real, u: real, m: int)
    requires step > 0.0 && x == first + u * step
    ensures Miss(step, first, x, m) == Magnitude(u - m as real) * step
  {
    var a := u - m as real;
    assert x - first - m as real * step == a * step;
    if a < 0.0 {
      assert -a * step > 0.0;
    } else {
      assert a * step >= 0.0;
    }
  }

  lemma ScaledCompare(step: real, a: real, b: real)
    requires step > 0.0
    ensures a <= b ==> a * step <= b * step
    ensures a < b ==> a * step < b * step
  {
    if a <= b {
      assert (b - a) * step >= 0.0;
    }
    if a < b {
      assert (b - a) * step > 0.0;
    }
  }

  /** Where the centre abscissa of cell p lands in the row below: an even row
      keeps its columns, an odd row moves one to the right, except that both of
      its last two columns fall on the last column. Every unclamped quotient is
      an exact half, so the direction in which halves round decides all of it. */
  lemma ColumnBelow(p: Cell)
    requires InBoard(p)
    ensures NearestCol(p.r + 1, CenterX(p) as real) ==
            if !Odd(p.r) then p.c else if p.c < COLS - 1 then p.c + 1 else COLS - 1
  {
    var q := (CenterX(p) as real - RADIUS as real - Shift(p.r + 1) as real) / DIAMETER as real;
    if Odd(p.r) {
      assert q == p.c as real + 0.5;
      RoundsToNearest(q, p.c + 1);
    } else {
      assert q == p.c as real - 0.5;
      RoundsToNearest(q, if p.c == 0 then -1 else p.c);
    }
  }
}
