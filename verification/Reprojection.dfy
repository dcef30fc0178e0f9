/** Pushing the whole board down one row: each bubble is reprojected by its
    world abscissa onto the row below, and a full top row is added. */
module Reprojection {
  import opened Grid
  import opened Reachability
  import opened Boards

  const LAST := COLS - 1

  predicate IsRow(row: seq<int>) {
    |row| == COLS && forall c :: 0 <= c < COLS ==> row[c] == EMPTY || IsColour(row[c])
  }

  type Row = row: seq<int> | IsRow(row) witness seq(COLS, c => EMPTY)

  predicate FullRow(row: Row) {
    forall c :: 0 <= c < COLS ==> row[c] >= 0
  }

  ghost function RowOf(b: Board, r: int): Row
    requires 0 <= r < ROWS
  {
    seq(COLS, c requires 0 <= c < COLS => b[Cell(r, c)])
  }

  // ------------------------------------------------- the intended result

  /** Two bubbles of row r compete for the last column below. */
  ghost predicate Collides(b: Board, r: int)
    requires 0 <= r < ROWS
  {
    Odd(r) && b[Cell(r, LAST - 1)] >= 0 && b[Cell(r, LAST)] >= 0
  }

  /** The rightmost column at or left of k below row r that stays free when the
      row moves one column to the right. */
  ghost function Gap(b: Board, r: int, k: int): (g: int)
    requires 0 <= r < ROWS && 0 <= k < COLS
    ensures 0 <= g <= k && (g == 0 || b[Cell(r, g - 1)] < 0)
    ensures forall j :: g <= j < k ==> b[Cell(r, j)] >= 0
    decreases k
  {
    if k == 0 || b[Cell(r, k - 1)] < 0 then k else Gap(b, r, k - 1)
  }

  /** The cell of the row below that the abscissa of p falls on. */
  ghost function Below(p: Cell): Cell {
    Cell(p.r + 1, if !Odd(p.r) then p.c else if p.c < LAST then p.c + 1 else LAST)
  }

  /** Where the bubble at p ends up: below, except that of two bubbles competing
      for the last column the right one fills the nearest gap to the left. */
  ghost function Target(b: Board, p: Cell): (q: Cell)
    requires InBoard(p) && p.r < ROWS - 1
    ensures InBoard(q) && q.r == p.r + 1
  {
    if p.c == LAST && Collides(b, p.r) then Cell(p.r + 1, Gap(b, p.r, LAST - 1)) else Below(p)
  }

  /** The place whose bubble ends up at q; column -1 stands for none. */
  ghost function Source(b: Board, q: Cell): (p: Cell)
    requires InBoard(q) && 0 < q.r
    ensures p.r == q.r - 1 && -1 <= p.c < COLS
  {
    var r := q.r - 1;
    Cell(r, if !Odd(r) then q.c
            else if q.c == LAST then (if b[Cell(r, LAST - 1)] >= 0 then LAST - 1 else LAST)
            else if Collides(b, r) && q.c == Gap(b, r, LAST - 1) then LAST
            else q.c - 1)
  }

  ghost function Pushed(b: Board, top: Row): Board {
    map q | q in AllCells() ::
      if q.r == 0 then top[q.c] else var p := Source(b, q); if p.c < 0 then EMPTY else b[p]
  }

  ghost function LastRow(): (s: set<Cell>)
    ensures forall p :: p in s <==> InBoard(p) && p.r == ROWS - 1
  {
    set p | p in AllCells() && p.r == ROWS - 1
  }

  ghost predicate LastRowEmpty(b: Board) {
    forall p :: Full(b, p) ==> p.r < ROWS - 1
  }

  /** Reprojection by rounded abscissa is exactly the move to `Below`. */
  lemma BelowIsNearest(p: Cell)
    requires InBoard(p)
    ensures Below(p) == Cell(p.r + 1, NearestCol(p.r + 1, CenterX(p) as real))
  {
    ColumnBelow(p);
  }

  // ------------------------------------------------- nothing is lost

  lemma SourceOfTarget(b: Board, p: Cell)
    requires Full(b, p) && p.r < ROWS - 1
    ensures Source(b, Target(b, p)) == p
  {
  }

  lemma TargetOfSource(b: Board, q: Cell)
    requires InBoard(q) && 0 < q.r && Full(b, Source(b, q))
    ensures Target(b, Source(b, q)) == q
  {
  }

  lemma TargetKeepsColour(b: Board, top: Row, p: Cell)
    requires Full(b, p) && p.r < ROWS - 1
    ensures Pushed(b, top)[Target(b, p)] == b[p]
  {
    SourceOfTarget(b, p);
  }

  lemma TargetIsOnto(b: Board, top: Row, q: Cell)
    requires Full(Pushed(b, top), q) && 0 < q.r
    ensures Full(b, Source(b, q)) && Target(b, Source(b, q)) == q
  {
    TargetOfSource(b, q);
  }

  lemma EvenRowPushed(b: Board, top: Row, r: int)
    requires 0 <= r < ROWS - 1 && !Odd(r)
    ensures RowOf(Pushed(b, top), r + 1) == RowOf(b, r)
  {
  }

  lemma PushedAt(b: Board, top: Row, q: Cell)
    requires InBoard(q) && 0 < q.r
    ensures Pushed(b, top)[q] == if Source(b, q).c < 0 then EMPTY else b[Source(b, q)]
  {
    hide Source;
  }

  lemma OddSource(b: Board, r: int, c: int)
    requires 0 <= r < ROWS - 1 && Odd(r) && 0 <= c < COLS
    ensures Source(b, Cell(r + 1, c)) ==
            Cell(r, if Collides(b, r) && c == Gap(b, r, LAST - 1) then LAST
                    else if !Collides(b, r) && b[Cell(r, LAST - 1)] < 0 && c == LAST then LAST
                    else c - 1)
  {
    hide Gap;
  }

  lemma OddRowPushedAt(b: Board, top: Row, r: int, c: int)
    requires 0 <= r < ROWS - 1 && Odd(r) && 0 <= c < COLS
    ensures Pushed(b, top)[Cell(r + 1, c)] ==
            if Collides(b, r) && c == Gap(b, r, LAST - 1) then b[Cell(r, LAST)]
            else if !Collides(b, r) && b[Cell(r, LAST - 1)] < 0 && c == LAST then b[Cell(r, LAST)]
            else if c == 0 then EMPTY
            else b[Cell(r, c - 1)]
  {
    PushedAt(b, top, Cell(r + 1, c));
    OddSource(b, r, c);
    hide Pushed, Source, Gap, Collides;
  }

  lemma OddRowPushed(b: Board, top: Row, r: int)
    requires 0 <= r < ROWS - 1 && Odd(r)
    ensures var row, moved := RowOf(b, r), [EMPTY] + RowOf(b, r)[..LAST];
            RowOf(Pushed(b, top), r + 1) ==
              if Collides(b, r) then moved[Gap(b, r, LAST - 1) := row[LAST]]
              else if row[LAST - 1] >= 0 then moved
              else moved[LAST := row[LAST]]
  {
    var row, moved := RowOf(b, r), [EMPTY] + RowOf(b, r)[..LAST];
    hide Pushed, Collides;
    forall c | 0 < c < COLS ensures moved[c] == b[Cell(r, c - 1)] {}
    forall c | 0 <= c < COLS
      ensures RowOf(Pushed(b, top), r + 1)[c] ==
              if Collides(b, r) && c == Gap(b, r, LAST - 1) then row[LAST]
              else if !Collides(b, r) && row[LAST - 1] < 0 && c == LAST then row[LAST]
              else moved[c]
    {
      OddRowPushedAt(b, top, r, c);
    }
  }

  lemma ShiftedColours(row: seq<int>, g: int, v: int)
    requires |row| == COLS && 0 <= g < COLS
    requires v == ([EMPTY] + row[..LAST])[g] ==> row[LAST] == EMPTY
    requires v != ([EMPTY] + row[..LAST])[g] ==> v == row[LAST] && ([EMPTY] + row[..LAST])[g] == EMPTY
    ensures multiset(([EMPTY] + row[..LAST])[g := v]) == multiset(row)
  {
    var moved := [EMPTY] + row[..LAST];
    assert row == row[..LAST] + [row[LAST]];
    if v == moved[g] {
      assert moved[g := v] == moved;
    } else {
      assert multiset(moved[g := v]) == multiset(moved)[EMPTY := multiset(moved)[EMPTY] - 1] + multiset{v};
    }
  }

  /** Row r + 1 afterwards holds the colours of row r before, with multiplicity. */
  lemma RowColoursKept(b: Board, top: Row, r: int)
    requires 0 <= r < ROWS - 1
    ensures multiset(RowOf(Pushed(b, top), r + 1)) == multiset(RowOf(b, r))
  {
    if !Odd(r) {
      EvenRowPushed(b, top, r);
    } else {
      OddRowPushed(b, top, r);
      RowColoursOdd(b, r, RowOf(b, r), RowOf(Pushed(b, top), r + 1));
    }
  }

  lemma RowColoursOdd(b: Board, r: int, row: Row, low: Row)
    requires 0 <= r < ROWS && Odd(r)
    requires row[LAST] == b[Cell(r, LAST)] && row[LAST - 1] == b[Cell(r, LAST - 1)]
    requires forall c :: 0 <= c < COLS ==> row[c] == b[Cell(r, c)]
    requires var moved := [EMPTY] + row[..LAST];
             low == if Collides(b, r) then moved[Gap(b, r, LAST - 1) := row[LAST]]
                    else if row[LAST - 1] >= 0 then moved
                    else moved[LAST := row[LAST]]
    ensures multiset(low) == multiset(row)
  {
    var moved := [EMPTY] + row[..LAST];
    if Collides(b, r) {
      var g := Gap(b, r, LAST - 1);
      assert moved[g] == EMPTY by {
        if g > 0 { assert moved[g] == row[g - 1]; }
      }
      ShiftedColours(row, g, row[LAST]);
    } else if row[LAST - 1] >= 0 {
      assert moved[0 := EMPTY] == moved;
      ShiftedColours(row, 0, EMPTY);
    } else {
      assert moved[LAST] == row[LAST - 1] == EMPTY;
      ShiftedColours(row, LAST, row[LAST]);
    }
  }

  ghost function Image(b: Board, s: set<Cell>): set<Cell>
    requires s <= Occupied(b) - LastRow()
  {
    set p | p in s :: Target(b, p)
  }

  lemma {:induction false} ImageSize(b: Board, s: set<Cell>)
    requires s <= Occupied(b) - LastRow()
    ensures |Image(b, s)| == |s|
  {
    if s == {} {
      assert Image(b, s) == {};
    } else {
      var x :| x in s;
      var rest := s - {x};
      ImageSize(b, rest);
      forall p | p in rest ensures Target(b, p) != Target(b, x) {
        SourceOfTarget(b, p);
        SourceOfTarget(b, x);
      }
      assert Image(b, s) == Image(b, rest) + {Target(b, x)};
    }
  }

  lemma PushedOccupied(b: Board, top: Row)
    requires FullRow(top)
    ensures Occupied(Pushed(b, top)) == TopRow() + Image(b, Occupied(b) - LastRow())
  {
    var s := Occupied(b) - LastRow();
    forall q | q in Occupied(Pushed(b, top)) ensures q in TopRow() + Image(b, s) {
      if q.r > 0 {
        TargetIsOnto(b, top, q);
        assert Source(b, q) in s;
      }
    }
    forall p | p in s ensures Target(b, p) in Occupied(Pushed(b, top)) {
      TargetKeepsColour(b, top, p);
    }
  }

  lemma TopRowSize()
    ensures |TopRow()| == COLS
  {
    TopRowPrefix(COLS);
    assert TopRow() == set c | 0 <= c < COLS :: Cell(0, c);
  }

  lemma {:induction false} TopRowPrefix(n: nat)
    ensures |set c | 0 <= c < n :: Cell(0, c)| == n
  {
    if n > 0 {
      TopRowPrefix(n - 1);
      assert (set c | 0 <= c < n :: Cell(0, c)) == (set c | 0 <= c < n - 1 :: Cell(0, c)) + {Cell(0, n - 1)};
    } else {
      assert (set c | 0 <= c < n :: Cell(0, c)) == {};
    }
  }

  /** Exactly the last row is lost and exactly one full row is gained. */
  lemma PushedCounts(b: Board, top: Row)
    requires FullRow(top)
    ensures Bubbles(Pushed(b, top)) == COLS + |Occupied(b) - LastRow()|
  {
    var s := Occupied(b) - LastRow();
    PushedOccupied(b, top);
    ImageSize(b, s);
    TopRowSize();
    ImageIsBelow(b, s);
  }

  lemma PushedGains(b: Board, top: Row)
    requires FullRow(top) && LastRowEmpty(b)
    ensures Bubbles(Pushed(b, top)) == COLS + Bubbles(b)
  {
    PushedCounts(b, top);
    assert Occupied(b) - LastRow() == Occupied(b);
  }

  lemma ImageIsBelow(b: Board, s: set<Cell>)
    requires s <= Occupied(b) - LastRow()
    ensures TopRow() !! Image(b, s)
    ensures |TopRow() + Image(b, s)| == |TopRow()| + |Image(b, s)|
  {
  }

  // ------------------------------------------------- anchoring survives

  lemma TopIsHanging(b: Board, c: int)
    requires Full(b, Cell(0, c))
    ensures Cell(0, c) in Hanging(b)
  {
    ReachSource(Occupied(b), TopRow(), Cell(0, c));
  }

  lemma HangingSpreads(b: Board, x: Cell, y: Cell)
    requires x in Hanging(b) && Full(b, y) && y in Neighbors(x)
    ensures y in Hanging(b)
  {
    ReachStep(Occupied(b), TopRow(), x, y);
  }

  /** Along an unbroken run of a row, one hanging bubble holds up all others. */
  lemma {:induction false} RunHangs(b: Board, r: int, i: int, j: int)
    requires 0 <= r < ROWS && 0 <= i < COLS && 0 <= j < COLS
    requires forall c :: i <= c <= j || j <= c <= i ==> b[Cell(r, c)] >= 0
    requires Cell(r, i) in Hanging(b)
    ensures Cell(r, j) in Hanging(b)
    decreases if i < j then j - i else i - j
  {
    if i != j {
      var next := if i < j then i + 1 else i - 1;
      HangingSpreads(b, Cell(r, i), Cell(r, next));
      RunHangs(b, r, next, j);
    }
  }

  /** After a collision everything from the refilled gap to the last column of
      the row below is occupied. */
  lemma CollisionRun(b: Board, top: Row, r: int, c: int)
    requires 0 <= r < ROWS - 1 && Collides(b, r) && Gap(b, r, LAST - 1) <= c < COLS
    ensures Full(Pushed(b, top), Cell(r + 1, c))
  {
    var q := Cell(r + 1, c);
    assert Full(b, Source(b, q));
  }

  /** The bubble's target and the place below it hold each other up: they
      coincide or end an unbroken run. */
  lemma TargetAndBelow(b: Board, top: Row, p: Cell)
    requires Full(b, p) && p.r < ROWS - 1
    ensures Full(Pushed(b, top), Below(p))
    ensures Target(b, p) in Hanging(Pushed(b, top)) <==> Below(p) in Hanging(Pushed(b, top))
  {
    hide Pushed, Hanging, Gap, Collides;
    var after := Pushed(b, top);
    if p.c == LAST && Collides(b, p.r) {
      var g, low := Gap(b, p.r, LAST - 1), p.r + 1;
      forall c | g <= c <= LAST ensures after[Cell(low, c)] >= 0 {
        CollisionRun(b, top, p.r, c);
      }
      if Below(p) in Hanging(after) {
        RunHangs(after, low, LAST, g);
      }
      if Target(b, p) in Hanging(after) {
        RunHangs(after, low, g, LAST);
      }
    } else {
      TargetKeepsColour(b, top, p);
    }
  }

  lemma PlacesBelowTouch(x: Cell, y: Cell)
    requires InBoard(x) && InBoard(y) && y in Neighbors(x)
    ensures Below(x) == Below(y) || Below(y) in Neighbors(Below(x))
  {
    NeighborsAre(x, y);
    NeighborsAre(Below(x), Below(y));
    hide Neighbors;
  }

  lemma HangingMoves(b: Board, top: Row, x: Cell, y: Cell)
    requires Full(b, x) && Full(b, y) && y in Neighbors(x) && x.r < ROWS - 1 && y.r < ROWS - 1
    requires Target(b, x) in Hanging(Pushed(b, top))
    ensures Target(b, y) in Hanging(Pushed(b, top))
  {
    TargetAndBelow(b, top, x);
    TargetAndBelow(b, top, y);
    PlacesBelowTouch(x, y);
    if Below(x) != Below(y) {
      HangingSpreads(Pushed(b, top), Below(x), Below(y));
    }
  }

  /** Row 0 drops unmoved to row 1, right below the new full top row. */
  lemma TopBubbleHangs(b: Board, top: Row, p: Cell)
    requires Full(b, p) && p.r == 0 && FullRow(top)
    ensures Target(b, p) in Hanging(Pushed(b, top))
  {
    TargetKeepsColour(b, top, p);
    TopIsHanging(Pushed(b, top), p.c);
    HangingSpreads(Pushed(b, top), Cell(0, p.c), Target(b, p));
  }

  lemma {:induction false} PathHangs(b: Board, top: Row, w: seq<Cell>, i: nat)
    requires FullRow(top) && LastRowEmpty(b)
    requires Path(Occupied(b), w) && w[0] in TopRow() && i < |w|
    ensures Target(b, w[i]) in Hanging(Pushed(b, top))
  {
    if i == 0 {
      TopBubbleHangs(b, top, w[0]);
    } else {
      PathHangs(b, top, w, i - 1);
      HangingMoves(b, top, w[i - 1], w[i]);
    }
  }

  lemma HangingLands(b: Board, top: Row, p: Cell)
    requires FullRow(top) && LastRowEmpty(b) && p in Hanging(b)
    ensures Target(b, p) in Hanging(Pushed(b, top))
  {
    var w :| Connects(Occupied(b), TopRow(), w, p);
    PathHangs(b, top, w, |w| - 1);
  }

  lemma CellHangsAfter(b: Board, top: Row, q: Cell)
    requires FullRow(top) && LastRowEmpty(b) && Anchored(b)
    requires Full(Pushed(b, top), q)
    ensures q in Hanging(Pushed(b, top))
  {
    if q.r == 0 {
      TopIsHanging(Pushed(b, top), q.c);
    } else {
      TargetIsOnto(b, top, q);
      HangingLands(b, top, Source(b, q));
    }
  }

  /** A board whose bubbles all hang from the top row is pushed to a board with
      the same property, right-wall relocations included. */
  lemma AnchoringSurvives(b: Board, top: Row)
    requires FullRow(top) && LastRowEmpty(b) && Anchored(b)
    ensures Anchored(Pushed(b, top))
  {
    forall q | q in Occupied(Pushed(b, top)) ensures q in Hanging(Pushed(b, top)) {
      CellHangsAfter(b, top, q);
    }
  }
}
