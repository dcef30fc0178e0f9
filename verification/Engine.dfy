/** The engine's mutable player state and its operations, each proved to do
    what the value-level rules say. */
module Engine {
  import opened Wrappers
  import opened Grid
  import opened Boards
  import opened Resolve
  import opened Placement
  import opened Reprojection
  import opened Layers
  import opened Rules

  class MovingBubble {
    var X: real
    var Y: real
    var VX: real
    var VY: real
    var Color: int

    constructor (x: real, y: real, vx: real, vy: real, color: int)
      ensures Value() == Moving(x, y, vx, vy, color)
    {
      X, Y, VX, VY, Color := x, y, vx, vy, color;
    }

    ghost function Value(): Moving
      reads this
    {
      Moving(X, Y, VX, VY, Color)
    }

    /** Free flight for dt seconds, with a bounce when a wall is reached. */
    method Fly(dt: real)
      modifies this
      ensures Value() == Advance(old(Value()), dt)
    {
      X := X + VX * dt;
      Y := Y + VY * dt;
      if X <= BUBBLE_RADIUS {
        X := BUBBLE_RADIUS;
        VX := Abs(VX);
      } else if X >= BOARD_WIDTH - BUBBLE_RADIUS {
        X := BOARD_WIDTH - BUBBLE_RADIUS;
        VX := -Abs(VX);
      }
    }
  }

  /** The number of taken cells, scanning all of the board. */
  method CountBubbles(board: array2<int>, ghost b: Board) returns (cnt: nat)
    requires Holds(board, b)
    ensures cnt == Bubbles(b)
  {
    cnt := 0;
    UnseenWraps(b, {}, 0);
    for r := 0 to ROWS
      invariant cnt == |Unseen(b, {}, r, 0)|
    {
      for c := 0 to COLS
        invariant cnt == |Unseen(b, {}, r, c)|
      {
        UnseenAdvances(b, {}, r, c);
        if board[r, c] >= 0 {
          cnt := cnt + 1;
        }
      }
      UnseenWraps(b, {}, r);
    }
    assert Occupied(b) - {} == Occupied(b);
  }

  method LastRowTaken(board: array2<int>, ghost b: Board) returns (taken: bool)
    requires Holds(board, b)
    ensures taken <==> !LastRowEmpty(b)
  {
    for c := 0 to COLS
      invariant forall p :: Full(b, p) && p.r == ROWS - 1 ==> p.c >= c
    {
      if board[ROWS - 1, c] >= 0 {
        assert Full(b, Cell(ROWS - 1, c));
        return true;
      }
    }
    return false;
  }

  /** Collision test of a flying bubble against every taken cell. */
  method CollideBoard(board: array2<int>, x: real, y: real, ghost b: Board) returns (hit: bool)
    requires Holds(board, b)
    ensures hit <==> Touches(b, x, y)
  {
    for r := 0 to ROWS
      invariant forall p :: Full(b, p) && p.r < r ==> PointDistance2(p, x, y) > 900.0
    {
      for c := 0 to COLS
        invariant forall p :: Full(b, p) && (p.r < r || (p.r == r && p.c < c)) ==> PointDistance2(p, x, y) > 900.0
      {
        var p := Cell(r, c);
        if board[r, c] < 0 {
          continue;
        }
        if PointDistance2(p, x, y) <= (DIAMETER - 2) as real * (DIAMETER - 2) as real {
          assert Full(b, p);
          return true;
        }
      }
    }
    return false;
  }

  /** Snaps a landing point to the cell it will take. */
  method ChooseCell(board: array2<int>, x: real, y: real, ghost b: Board) returns (row: int, col: int, ok: bool)
    requires Holds(board, b)
    ensures LandingCell(b, x, y) == if ok then Some(Cell(row, col)) else None
  {
    var p := NearestCell(x, y);
    row, col, ok := Clamp(0, ROWS - 1, p.r), Clamp(0, COLS - 1, p.c), true;
    if board[row, col] >= 0 {
      row, col, ok := FindNearestEmpty(board, row, col, x, y, b);
    }
  }

  /** Puts the landed bubble down and removes what it matched and cut loose. */
  method Settle(board: array2<int>, row: int, col: int, color: int, ghost b: Board)
    returns (removed: nat, dropped: nat, ghost settled: Board)
    requires Holds(board, b) && InBoard(Cell(row, col)) && IsColour(color)
    modifies board
    ensures IsGrid(board) && View(board) == settled
    ensures var landed := Put(b, Cell(row, col), color);
            && settled == Dropped(Cleared(landed, Cell(row, col)))
            && removed == |Matched(landed, Cell(row, col))|
            && dropped == |Floating(Cleared(landed, Cell(row, col)))|
  {
    board[row, col] := color;
    HoldsView(board, Put(b, Cell(row, col), color));
    removed := ClearMatches(board, row, col);
    dropped := DropFloating(board);
    settled := View(board);
  }

  method DealBoard(d: Deal) returns (board: array2<int>)
    ensures fresh(board) && Holds(board, InitialGame(d).board)
  {
    board := new int[ROWS, COLS]((i, j) => EMPTY);
    for r := 0 to INITIAL_ROWS
      invariant forall i, c :: 0 <= i < r && 0 <= c < COLS ==> board[i, c] == d.fill(Cell(i, c))
      invariant forall i, c :: r <= i < ROWS && 0 <= c < COLS ==> board[i, c] == EMPTY
    {
      for c := 0 to COLS
        invariant forall i, j :: 0 <= i < r && 0 <= j < COLS ==> board[i, j] == d.fill(Cell(i, j))
        invariant forall j :: 0 <= j < c ==> board[r, j] == d.fill(Cell(r, j))
        invariant forall j :: c <= j < COLS ==> board[r, j] == EMPTY
        invariant forall i, j :: r < i < ROWS && 0 <= j < COLS ==> board[i, j] == EMPTY
      {
        board[r, c] := d.fill(Cell(r, c));
      }
    }
  }

  class PlayerState {
    var Board: array2<int>
    var CurrentColor: int
    var NextColor: int
    var AimAngle: real
    var Moving: MovingBubble?
    var PendingShot: bool
    var ShotSeq: nat
    var ShotAngle: real
    var ShotColor: int
    var ShotAtMS: int
    var Score: int
    var Status: Status
    var LastTickMS: int

    ghost predicate Valid()
      reads this, Board, Moving
    {
      IsGrid(Board) && Rules.Valid(Value())
    }

    /** The game that this object currently represents. */
    ghost function Value(): Game
      requires IsGrid(Board)
      reads this, Board, Moving
    {
      Game(View(Board), CurrentColor, NextColor, AimAngle,
           if Moving == null then None else Some(Moving.Value()),
           PendingShot, ShotSeq, ShotAngle, ShotColor, ShotAtMS, Score, Status, LastTickMS)
    }

    /** A randomly filled board: only the first five rows hold bubbles. */
    constructor NewInitialState(d: Deal)
      ensures fresh(Board) && IsGrid(Board) && Moving == null
      ensures Value() == InitialGame(d)
      ensures CurrentColor == d.current && NextColor == d.next && AimAngle == -PI / 2.0 && LastTickMS == d.at
      ensures Status == Playing && !PendingShot && ShotSeq == 0 && Score == 0
      ensures forall r, c :: 0 <= r < 14 && 0 <= c < 17 ==> Board[r, c] == if r < 5 then d.fill(Cell(r, c)) else EMPTY
    {
      CurrentColor, NextColor := d.current, d.next;
      AimAngle, ShotAngle := -PI / 2.0, -PI / 2.0;
      Moving, PendingShot, ShotSeq := null, false, 0;
      ShotColor, ShotAtMS, Score, Status, LastTickMS := 0, 0, 0, Playing, d.at;
      var board := DealBoard(d);
      HoldsView(board, InitialGame(d).board);
      Board := board;
    }

    method CheckState()
      requires IsGrid(Board)
      modifies this`Status
      ensures IsGrid(Board)
      ensures Value() == old(Value()).(status := StatusOf(old(Value()).board))
    {
      ghost var b := View(Board);
      var cnt := CountBubbles(Board, b);
      if cnt == 0 {
        Status := Won;
        return;
      }
      var taken := LastRowTaken(Board, b);
      if taken {
        Status := Lost;
        return;
      }
      Status := Playing;
    }

    method PlaceAndResolve(draw: int) returns (ghost r: Resolution)
      requires Valid() && IsColour(draw)
      modifies this, Board
      ensures IsGrid(Board) && Board == old(Board)
      ensures old(Moving) == null ==> r == Resolution(old(Value()), false, 0, 0)
      ensures old(Moving) != null ==> r == Rules.PlaceAndResolve(old(Value()), draw)
      ensures Value() == r.game && Moving == null && LastTickMS == old(LastTickMS)
    {
      hide Put, Cleared, Dropped, Matched, Floating, StatusOf, LandingCell, Rules.PlaceAndResolve;
      ghost var g := Value();
      if Moving == null {
        return Resolution(g, false, 0, 0);
      }
      var row, col, ok := ChooseCell(Board, Moving.X, Moving.Y, g.board);
      if !ok {
        LostAt(g, draw);
        Moving := null;
        return Resolution(Value(), false, 0, 0);
      }
      r := SettleAt(row, col, draw);
    }

    /** Puts the moving bubble into its cell and settles what comes of it. */
    method SettleAt(row: int, col: int, draw: int) returns (ghost r: Resolution)
      requires Valid() && IsColour(draw) && Moving != null
      requires LandingCell(Value().board, Moving.X, Moving.Y) == Some(Cell(row, col))
      modifies this, Board
      ensures IsGrid(Board) && Board == old(Board)
      ensures r == Rules.PlaceAndResolve(old(Value()), draw)
      ensures Value() == r.game && Moving == null && LastTickMS == old(LastTickMS)
    {
      hide Put, Cleared, Dropped, Matched, Floating, StatusOf, LandingCell, Rules.PlaceAndResolve;
      ghost var g := Value();
      var color := Moving.Color;
      Moving := null;
      var removed, dropped;
      ghost var settled;
      removed, dropped, settled := Settle(Board, row, col, color, g.board);
      LandedAt(g, draw, Cell(row, col), settled, removed, dropped);
      PayAndReload(removed, dropped, draw);
      CheckState();
      r := Resolution(Value(), true, removed, dropped);
    }

    /** Scores the removed bubbles and moves the next colour into the shooter. */
    method PayAndReload(removed: nat, dropped: nat, draw: int)
      requires IsGrid(Board)
      modifies this`Score, this`CurrentColor, this`NextColor
      ensures IsGrid(Board)
      ensures Value() == old(Value()).(score := old(Score) + 10 * removed + 15 * dropped,
                                       current := old(NextColor), next := draw)
    {
      if removed > 0 {
        Score := Score + removed * 10;
      }
      if dropped > 0 {
        Score := Score + dropped * 15;
      }
      CurrentColor := NextColor;
      NextColor := draw;
    }

    method TickState(nowMS: int, draw: int) returns (ghost r: Resolution)
      requires Valid() && IsColour(draw)
      modifies this, Board, Moving
      ensures IsGrid(Board) && Board == old(Board)
      ensures r == Tick(old(Value()), nowMS, draw) && Value() == r.game
      ensures old(Moving) == null ==> Moving == null
      ensures LastTickMS == nowMS
    {
      hide Rules.PlaceAndResolve, Touches;
      ghost var g := Value();
      r := Tick(g, nowMS, draw);
      if Status != Playing {
        LastTickMS := nowMS;
        return;
      }
      var dt := (nowMS - LastTickMS) as real / 1000.0;
      if dt < 0.0 {
        dt := 0.0;
      }
      if dt > MAX_DT {
        dt := MAX_DT;
      }
      LastTickMS := nowMS;
      if Moving == null {
        return;
      }
      Moving.Fly(dt);
      var hit := CollideBoard(Board, Moving.X, Moving.Y, g.board);
      if Moving.Y <= BUBBLE_RADIUS || hit {
        ghost var landed := PlaceAndResolve(draw);
      }
    }

    method AddTopLayer(top: Row)
      requires Valid() && FullRow(top)
      modifies this
      ensures fresh(Board) && IsGrid(Board) && Moving == old(Moving)
      ensures Value() == AddLayer(old(Value()), top)
    {
      Board := PushDown(Board, top);
      CheckState();
    }

    method Fire(angle: real, heading: real -> Heading) returns (ghost result: Result<Game, ShotError>, ok: bool)
      requires Valid() && Upward(heading(ClampAim(angle)))
      modifies this
      ensures IsGrid(Board) && Board == old(Board)
      ensures result == Rules.Fire(old(Value()), angle, heading(ClampAim(angle))) && ok == result.Ok?
      ensures Value() == if ok then result.value else old(Value())
      ensures ok <==> old(Status) == Playing && old(Moving) == null
      ensures ok ==> Moving != null && Moving.X == 280.0 && Moving.Y == 688.0 && Moving.Color == CurrentColor
    {
      var h := heading(ClampAim(angle));
      result := Rules.Fire(Value(), angle, h);
      if Status != Playing || Moving != null {
        return result, false;
      }
      AimAngle := ClampAim(angle);
      Moving := new MovingBubble(BOARD_WIDTH / 2.0, SHOOTER_Y, h.cos * SPEED, h.sin * SPEED, CurrentColor);
      return result, true;
    }

    method BeginClientShot(angle: real, nowMS: int) returns (ghost result: Result<Game, ShotError>, ok: bool)
      requires Valid()
      modifies this
      ensures IsGrid(Board) && Board == old(Board) && Moving == old(Moving)
      ensures result == BeginShot(old(Value()), angle, nowMS) && ok == result.Ok?
      ensures Value() == if ok then result.value else old(Value())
    {
      result := BeginShot(Value(), angle, nowMS);
      if Status != Playing || Moving != null || PendingShot {
        return result, false;
      }
      AimAngle := ClampAim(angle);
      PendingShot := true;
      ShotSeq := ShotSeq + 1;
      ShotAngle := ClampAim(angle);
      ShotColor := CurrentColor;
      ShotAtMS := nowMS;
      return result, true;
    }

    method CommitLanding(angle: real, x: real, y: real, draw: int)
      returns (ghost result: Result<Resolution, ShotError>, ok: bool)
      requires Valid() && IsColour(draw)
      modifies this, Board
      ensures IsGrid(Board) && Board == old(Board) && (old(Moving) == null ==> Moving == null)
      ensures result == Rules.CommitLanding(old(Value()), angle, x, y, draw) && ok == result.Ok?
      ensures Value() == if ok then result.value.game else old(Value())
    {
      hide Rules.PlaceAndResolve, View;
      result := Rules.CommitLanding(Value(), angle, x, y, draw);
      if Status != Playing || !PendingShot || Moving != null {
        return result, false;
      }
      if x < 0.0 || x > BOARD_WIDTH || y < 0.0 || y > SHOOTER_Y + BUBBLE_RADIUS {
        return result, false;
      }
      AimAngle := ClampAim(angle);
      var color := ShotColor;
      PendingShot := false;
      Moving := new MovingBubble(x, y, 0.0, 0.0, color);
      ghost var landed := PlaceAndResolve(draw);
      return result, true;
    }
  }
}
