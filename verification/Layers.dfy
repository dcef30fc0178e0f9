/** The loops that build the board pushed down by one row. */
module Layers {
  import opened Grid
  import opened Boards
  import opened Resolve
  import opened Reprojection

  function Distance(i: int, j: int): nat {
    if i < j then j - i else i - j
  }

  /** j is preferred to k around the centre: nearer, or as near and to the left. */
  predicate Preferred(center: int, j: int, k: int) {
    Distance(center, j) < Distance(center, k) || (Distance(center, j) == Distance(center, k) && j <= k)
  }

  predicate FreeAt(board: array2<int>, row: int, c: int)
    requires 0 <= row < board.Length0
    reads board
  {
    0 <= c < board.Length1 && board[row, c] < 0
  }

  /** Searches a row outwards from `center`, left before right, as far as the
      row is long; from a centre on the row it fails only when the row is full.
      From a centre farther out the source would index outside the row. */
  method NearestEmptyInRow(board: array2<int>, row: int, center: int) returns (col: int, ok: bool)
    requires 0 <= row < board.Length0 && -1 <= center <= board.Length1
    ensures ok <==> exists k :: FreeAt(board, row, k) && Distance(center, k) < board.Length1
    ensures ok ==> FreeAt(board, row, col) && forall k :: FreeAt(board, row, k) ==> Preferred(center, col, k)
    ensures !ok ==> col == -1
  {
    if center >= 0 && center < board.Length1 && board[row, center] < 0 {
      assert FreeAt(board, row, center);
      return center, true;
    }
    var d := 1;
    while d < board.Length1
      invariant forall k :: FreeAt(board, row, k) ==> d <= Distance(center, k)
    {
      var l := center - d;
      if l >= 0 && board[row, l] < 0 {
        assert FreeAt(board, row, l);
        return l, true;
      }
      var r := center + d;
      if r < board.Length1 && board[row, r] < 0 {
        assert FreeAt(board, row, r);
        return r, true;
      }
      d := d + 1;
    }
    return -1, false;
  }

  /** Row `low` of the grid under construction once the first c bubbles of the
      row above it on board b have been moved. */
  ghost predicate RowMoved(grid: array2<int>, b: Board, low: int, c: int)
    requires grid.Length0 == ROWS && grid.Length1 == COLS && 0 < low < ROWS
    reads grid
  {
    forall t :: 0 <= t < COLS ==>
      grid[low, t] == var p := Source(b, Cell(low, t)); if 0 <= p.c < c then b[p] else EMPTY
  }

  lemma OnlyTargetTakes(b: Board, p: Cell, q: Cell)
    requires Full(b, p) && p.r < ROWS - 1 && InBoard(q) && q.r == p.r + 1
    ensures Source(b, q) == p <==> Target(b, p) == q
  {
    SourceOfTarget(b, p);
    if Source(b, q) == p {
      TargetOfSource(b, q);
    }
  }

  /** When p's turn comes, its target is free, and the cell below it is taken
      exactly in a collision. */
  lemma TakenBelow(grid: array2<int>, b: Board, p: Cell, low: int)
    requires grid.Length0 == ROWS && grid.Length1 == COLS
    requires Full(b, p) && low == p.r + 1 < ROWS && RowMoved(grid, b, low, p.c)
    ensures grid[low, Below(p).c] >= 0 <==> (p.c == LAST && Collides(b, p.r))
    ensures FreeAt(grid, low, Target(b, p).c)
  {
    OnlyTargetTakes(b, p, Below(p));
    OnlyTargetTakes(b, p, Target(b, p));
  }

  /** In a collision the free place nearest to the last column is the gap. */
  lemma NearestIsGap(grid: array2<int>, b: Board, p: Cell, low: int, col: int)
    requires grid.Length0 == ROWS && grid.Length1 == COLS
    requires Full(b, p) && low == p.r + 1 < ROWS && RowMoved(grid, b, low, p.c)
    requires p.c == LAST && Collides(b, p.r)
    requires FreeAt(grid, low, col)
    requires forall k :: FreeAt(grid, low, k) ==> Preferred(LAST, col, k)
    ensures Cell(low, col) == Target(b, p)
  {
    var g := Gap(b, p.r, LAST - 1);
    TakenBelow(grid, b, p, low);
    assert Preferred(LAST, col, g);
    assert col <= g;
  }

  /** The column a bubble is moved to, and whether there is room for it: there
      always is, so no bubble is ever discarded. */
  method ChooseColumn(grid: array2<int>, low: int, p: Cell, ghost b: Board) returns (col: int, ok: bool)
    requires grid.Length0 == ROWS && grid.Length1 == COLS
    requires Full(b, p) && low == p.r + 1 < ROWS && RowMoved(grid, b, low, p.c)
    ensures ok && Cell(low, col) == Target(b, p)
  {
    col, ok := NearestCol(low, CenterX(p) as real), true;
    BelowIsNearest(p);
    TakenBelow(grid, b, p, low);
    if grid[low, col] >= 0 {
      var alt;
      alt, ok := NearestEmptyInRow(grid, low, col);
      assert FreeAt(grid, low, Target(b, p).c);
      if ok {
        NearestIsGap(grid, b, p, low, alt);
        col := alt;
      }
    }
  }

  method MoveBubble(grid: array2<int>, low: int, p: Cell, colour: int, ghost b: Board)
    requires grid.Length0 == ROWS && grid.Length1 == COLS
    requires Full(b, p) && b[p] == colour && low == p.r + 1 < ROWS && RowMoved(grid, b, low, p.c)
    modifies grid
    ensures RowMoved(grid, b, low, p.c + 1)
    ensures forall i, t :: 0 <= i < ROWS && i != low && 0 <= t < COLS ==> grid[i, t] == old(grid[i, t])
  {
    var col, ok := ChooseColumn(grid, low, p, b);
    if ok {
      grid[low, col] := colour;
    }
    forall t | 0 <= t < COLS
      ensures grid[low, t] == var q := Source(b, Cell(low, t)); if 0 <= q.c < p.c + 1 then b[q] else EMPTY
    {
      OnlyTargetTakes(b, p, Cell(low, t));
    }
  }

  method MoveRow(board: array2<int>, grid: array2<int>, low: int, ghost b: Board)
    requires Holds(board, b) && board != grid && grid.Length0 == ROWS && grid.Length1 == COLS
    requires 0 < low < ROWS && forall t :: 0 <= t < COLS ==> grid[low, t] == EMPTY
    modifies grid
    ensures RowMoved(grid, b, low, COLS)
    ensures forall i, t :: 0 <= i < ROWS && i != low && 0 <= t < COLS ==> grid[i, t] == old(grid[i, t])
  {
    for c := 0 to COLS
      invariant RowMoved(grid, b, low, c)
      invariant forall i, t :: 0 <= i < ROWS && i != low && 0 <= t < COLS ==> grid[i, t] == old(grid[i, t])
    {
      var colour := board[low - 1, c];
      if colour < 0 {
        continue;
      }
      MoveBubble(grid, low, Cell(low - 1, c), colour, b);
    }
  }

  /** Rows lo..hi-1 of the grid are those of the board b. */
  ghost predicate RowsAre(grid: array2<int>, b: Board, lo: int, hi: int)
    requires grid.Length0 == ROWS && grid.Length1 == COLS && 0 <= lo && hi <= ROWS
    reads grid
  {
    forall i, t :: lo <= i < hi && 0 <= t < COLS ==> grid[i, t] == b[Cell(i, t)]
  }

  lemma RowMovedIsPushed(grid: array2<int>, b: Board, top: Row, low: int)
    requires grid.Length0 == ROWS && grid.Length1 == COLS && 0 < low < ROWS
    requires RowMoved(grid, b, low, COLS)
    ensures RowsAre(grid, Pushed(b, top), low, low + 1)
  {
  }

  method FillTop(grid: array2<int>, top: Row, ghost goal: Board)
    requires grid.Length0 == ROWS && grid.Length1 == COLS && RowsAre(grid, goal, 1, ROWS)
    requires forall t :: 0 <= t < COLS ==> goal[Cell(0, t)] == top[t]
    modifies grid
    ensures RowsAre(grid, goal, 0, ROWS)
  {
    for c := 0 to COLS
      invariant forall t :: 0 <= t < c ==> grid[0, t] == top[t]
      invariant RowsAre(grid, goal, 1, ROWS)
    {
      grid[0, c] := top[c];
    }
  }

  /** The whole reprojection onto a fresh grid, with `top` as its first row. */
  method PushDown(board: array2<int>, top: Row) returns (grid: array2<int>)
    requires IsGrid(board)
    ensures fresh(grid) && IsGrid(grid)
    ensures View(grid) == Pushed(View(board), top)
  {
    ghost var b := View(board);
    ghost var goal := Pushed(b, top);
    grid := new int[ROWS, COLS]((i, j) => EMPTY);
    for low := ROWS downto 1
      invariant RowsAre(grid, goal, low, ROWS)
      invariant forall i, t :: 0 <= i < low && 0 <= t < COLS ==> grid[i, t] == EMPTY
    {
      MoveRow(board, grid, low, b);
      RowMovedIsPushed(grid, b, top, low);
    }
    FillTop(grid, top, goal);
    HoldsView(grid, goal);
  }
}
