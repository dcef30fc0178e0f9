/** The browser client's landing simulation, and why the server always accepts
    the landing it reports. The canvas is 560 by 760. */
module Client {
  import opened Wrappers
  import opened Boards
  import opened Placement
  import opened Reprojection
  import opened Rules
  import opened Matches
  import Flight

  const STEPS := 5000
  const STEP := 1.0 / 120.0

  /** A board as the page received it: rows of any number and length, or no
      array at all. An entry is the number the script makes of what it finds
      there, 0 standing for whatever is no number. */
  datatype PageRow = NotARow | Cells(entries: seq<real>)

  datatype Snapshot = NotABoard | Rows(rows: seq<PageRow>)

  /** The script's conversion to a 32-bit integer. */
  function ToInt32(x: real): int {
    var t := if x >= 0.0 then x.Floor else -(-x).Floor;
    var m := t % 0x1_0000_0000;
    if m >= 0x8000_0000 then m - 0x1_0000_0000 else m
  }

  /** It drops the fraction and then any multiples of 2 to the 32, so that the
      result fits in 32 bits. */
  lemma ToInt32Wraps(x: real)
    ensures -0x8000_0000 <= ToInt32(x) < 0x8000_0000
    ensures exists k: int ::
              var whole := ToInt32(x) + 0x1_0000_0000 * k;
              if x >= 0.0 then whole as real <= x < whole as real + 1.0 else whole as real - 1.0 < x <= whole as real
  {
    var t := if x >= 0.0 then x.Floor else -(-x).Floor;
    var k := if t % 0x1_0000_0000 >= 0x8000_0000 then t / 0x1_0000_0000 + 1 else t / 0x1_0000_0000;
    assert ToInt32(x) + 0x1_0000_0000 * k == t;
    assert if x >= 0.0 then t as real <= x < t as real + 1.0 else t as real - 1.0 < x <= t as real by {
      if x < 0.0 {
        var f := (-x).Floor;
        assert f as real <= -x < f as real + 1.0;
        assert t as real == -(f as real);
      }
    }
  }

  function BubbleX(r: nat, c: nat): real {
    (Grid.RADIUS + (if r % 2 == 0 then 0 else Grid.RADIUS) + c * Grid.DIAMETER) as real
  }

  function BubbleY(r: nat): real {
    (Grid.RADIUS + r * Grid.ROW_GAP) as real
  }

  predicate Hits(board: Snapshot, r: nat, c: nat, x: real, y: real) {
    && board.Rows? && r < |board.rows| && board.rows[r].Cells? && c < |board.rows[r].entries|
    && ToInt32(board.rows[r].entries[c]) >= 0
    && RealSquare(x - BubbleX(r, c)) + RealSquare(y - BubbleY(r)) <= 900.0
  }

  method CollideBoard(board: Snapshot, x: real, y: real) returns (hit: bool)
    ensures hit <==> exists r: nat, c: nat :: Hits(board, r, c, x, y)
  {
    if board.NotABoard? {
      return false;
    }
    for r := 0 to |board.rows|
      invariant forall i: nat, j: nat :: i < r ==> !Hits(board, i, j, x, y)
    {
      if board.rows[r].NotARow? {
        continue;
      }
      var row := board.rows[r].entries;
      for c := 0 to |row|
        invariant forall i: nat, j: nat :: i < r || (i == r && j < c) ==> !Hits(board, i, j, x, y)
      {
        if ToInt32(row[c]) < 0 {
          continue;
        }
        var dx, dy := x - BubbleX(r, c), y - BubbleY(r);
        if dx * dx + dy * dy <= (Grid.DIAMETER - 2) as real * (Grid.DIAMETER - 2) as real {
          assert Hits(board, r, c, x, y);
          return true;
        }
      }
    }
    return false;
  }

  ghost predicate Halts(board: Snapshot, m: Moving) {
    m.y <= BUBBLE_RADIUS || exists r: nat, c: nat :: Hits(board, r, c, m.x, m.y)
  }

  /** The simulated bubble after n steps, bounces included. */
  function Simulated(h: Heading, n: nat): Moving {
    if n == 0 then Moving(BOARD_WIDTH / 2.0, SHOOTER_Y, h.cos * SPEED, h.sin * SPEED, 0)
    else Advance(Simulated(h, n - 1), STEP)
  }

  lemma {:induction false} SimulationStaysOnCourse(h: Heading, n: nat)
    ensures Flight.OnCourse(Simulated(h, n), h, n as real * STEP)
  {
    if n > 0 {
      SimulationStaysOnCourse(h, n - 1);
      Flight.AdvanceStaysOnCourse(Simulated(h, n - 1), h, (n - 1) as real * STEP, STEP);
      assert (n - 1) as real * STEP + STEP == n as real * STEP;
    }
  }

  /** Each step of an upward shot climbs by between 0.82 and 4.4. */
  lemma {:induction false} Climbs(h: Heading, n: nat)
    requires Upward(h)
    ensures Simulated(h, n).vy == h.sin * SPEED
    ensures SHOOTER_Y - 4.4 * n as real <= Simulated(h, n).y <= SHOOTER_Y - 0.823 * n as real
    ensures n > 0 ==> Simulated(h, n - 1).y - 4.4 <= Simulated(h, n).y
  {
    if n > 0 {
      Climbs(h, n - 1);
      SineBound(h);
      var d := h.sin * SPEED * STEP;
      assert Simulated(h, n).y == Simulated(h, n - 1).y + d;
      assert -4.4 <= d <= -0.823;
    }
  }

  lemma SineBound(h: Heading)
    requires Upward(h)
    ensures -1.0 <= h.sin <= -0.19
  {
    assert h.cos * h.cos >= 0.0;
    LargeSquares(h.sin, 1.0);
  }

  /** The first simulated step whose position touches a bubble or the ceiling. */
  ghost predicate FirstHalt(board: Snapshot, h: Heading, n: nat) {
    1 <= n && Halts(board, Simulated(h, n)) && forall k :: 1 <= k < n ==> !Halts(board, Simulated(h, k))
  }

  lemma FirstHaltIsLegal(board: Snapshot, h: Heading, n: nat)
    requires Upward(h) && FirstHalt(board, h, n)
    ensures LegalPosition(Simulated(h, n).x, Simulated(h, n).y)
  {
    SimulationStaysOnCourse(h, n);
    Climbs(h, n);
    if n > 1 {
      assert !Halts(board, Simulated(h, n - 1));
    }
  }

  /** The landing point the client sends: the first simulated position that
      touches a bubble or the ceiling. The loop never runs out of steps, and the
      server's bounds on reported positions always hold of its result. */
  method SimulateLanding(board: Snapshot, h: Heading) returns (hit: Option<(real, real)>, ghost steps: nat)
    requires Upward(h)
    ensures hit == Some((Simulated(h, steps).x, Simulated(h, steps).y))
    ensures FirstHalt(board, h, steps) && steps <= 817
    ensures LegalPosition(hit.value.0, hit.value.1)
  {
    var x, y := BOARD_WIDTH / 2.0, SHOOTER_Y;
    var vx, vy := h.cos * SPEED, h.sin * SPEED;
    steps := 0;
    for i := 0 to STEPS
      invariant i == steps <= 816
      invariant Simulated(h, steps) == Moving(x, y, vx, vy, 0)
      invariant forall k :: 1 <= k <= steps ==> !Halts(board, Simulated(h, k))
    {
      x := x + vx * STEP;
      y := y + vy * STEP;
      if x <= BUBBLE_RADIUS {
        x := BUBBLE_RADIUS;
        vx := Abs(vx);
      } else if x >= BOARD_WIDTH - BUBBLE_RADIUS {
        x := BOARD_WIDTH - BUBBLE_RADIUS;
        vx := -Abs(vx);
      }
      steps := steps + 1;
      Climbs(h, steps);
      var touching := CollideBoard(board, x, y);
      if y <= BUBBLE_RADIUS || touching {
        FirstHaltIsLegal(board, h, steps);
        return Some((x, y)), steps;
      }
    }
    return None, steps;
  }

  /** A landing so computed is accepted: whatever board the client simulated
      on, the server commits the hit of an accepted shot. */
  lemma SimulatedLandingIsAccepted(g: Game, board: Snapshot, h: Heading, n: nat, angle: real, now: int, draw: int)
    requires Valid(g) && IsColour(draw) && Upward(h) && BeginShot(g, angle, now).Ok?
    requires FirstHalt(board, h, n)
    ensures var m := Simulated(h, n);
            CommitLanding(BeginShot(g, angle, now).value, angle, m.x, m.y, draw).Ok?
  {
    hide PlaceAndResolve, Simulated, FirstHalt, Upward;
    FirstHaltIsLegal(board, h, n);
  }

  // ------------------------------------------------- simulating on the server's board

  /** What the server's board looks like to a client that has just been sent it. */
  ghost function SnapshotOf(b: Board): Snapshot {
    Rows(seq(Grid.ROWS, r requires 0 <= r < Grid.ROWS =>
      Cells(seq(Grid.COLS, c requires 0 <= c < Grid.COLS => RowOf(b, r)[c] as real))))
  }

  lemma CellSurvives(v: int)
    requires -1 <= v < 0x8000_0000
    ensures ToInt32(v as real) == v
  {
    assert -(v as real) == (-v) as real;
    if v < 0 {
      assert v + 0x1_0000_0000 == 0xFFFF_FFFF;
    }
  }

  lemma HitsIsCloseness(b: Board, r: nat, c: nat, x: real, y: real)
    ensures Hits(SnapshotOf(b), r, c, x, y) <==>
            Full(b, Grid.Cell(r, c)) && PointDistance2(Grid.Cell(r, c), x, y) <= 900.0
  {
    if r < Grid.ROWS && c < Grid.COLS {
      CellSurvives(RowOf(b, r)[c]);
      assert BubbleX(r, c) == Grid.CenterX(Grid.Cell(r, c)) as real;
      assert BubbleY(r) == Grid.CenterY(Grid.Cell(r, c)) as real;
      Flight.SquareOfOpposite(x - BubbleX(r, c), BubbleX(r, c) - x);
      Flight.SquareOfOpposite(y - BubbleY(r), BubbleY(r) - y);
    }
  }

  /** On the server's own board the client's collision test is the server's. */
  lemma HaltsIsStops(b: Board, m: Moving)
    ensures Halts(SnapshotOf(b), m) <==> Stops(b, m)
  {
    hide Hits;
    if r: nat, c: nat :| Hits(SnapshotOf(b), r, c, m.x, m.y) {
      HitsIsCloseness(b, r, c, m.x, m.y);
    }
    if p :| Full(b, p) && PointDistance2(p, m.x, m.y) <= COLLISION_DISTANCE * COLLISION_DISTANCE {
      HitsIsCloseness(b, p.r, p.c, m.x, m.y);
    }
  }

  /** Snapping moves a point of the play field by at most 14 down or up and 16
      sideways, at the walls and in the first and last row too. */
  lemma SnapIsClose(x: real, y: real)
    requires 16.0 <= x <= 544.0 && 2.0 <= y <= 394.0
    ensures PointDistance2(Grid.NearestCell(x, y), x, y) <= 452.0
  {
    var p := Grid.NearestCell(x, y);
    var u, v := (x - 16.0 - Grid.Shift(p.r) as real) / 32.0, (y - 16.0) / 28.0;
    Grid.RoundsToNearest(v, Grid.RoundHalfAway(v));
    Grid.RoundsToNearest(u, Grid.RoundHalfAway(u));
    assert -0.5 <= v - p.r as real <= 0.5;
    assert -0.5 <= u - p.c as real <= 0.5;
    SquareWithin(Grid.CenterX(p) as real - x, 16.0);
    SquareWithin(Grid.CenterY(p) as real - y, 14.0);
  }

  lemma SquareWithin(a: real, k: real)
    requires -k <= a <= k
    ensures RealSquare(a) <= k * k
  {
    if a >= 0.0 {
      assert a * a <= a * k <= k * k;
    } else {
      assert a * a <= -a * k <= k * k;
    }
  }

  /** A point within the square root of 452 of a centre was, one simulated step
      earlier, still within 30 of it. */
  lemma StepFromWithin(ax: real, ay: real, dx: real, dy: real)
    requires RealSquare(ax) + RealSquare(ay) <= 452.0 && RealSquare(dx) + RealSquare(dy) <= 18.8
    ensures RealSquare(ax + dx) + RealSquare(ay + dy) <= 900.0
  {
    SquareOfSum(ax, dx);
    SquareOfSum(ay, dy);
  }

  lemma SquareOfSum(a: real, d: real)
    ensures RealSquare(a + d) <= 1.2 * RealSquare(a) + 6.0 * RealSquare(d)
  {
    var e := a - 5.0 * d;
    assert e * e == a * a - 10.0 * (a * d) + 25.0 * (d * d) >= 0.0;
    assert (a + d) * (a + d) == a * a + 2.0 * (a * d) + d * d;
  }

  /** Where a simulation on a board that has its last row free can halt. */
  lemma HaltsInField(b: Board, h: Heading, n: nat)
    requires Upward(h) && LastRowEmpty(b) && FirstHalt(SnapshotOf(b), h, n)
    ensures var m := Simulated(h, n); 16.0 <= m.x <= 544.0 && 2.0 <= m.y <= 394.0
    ensures !Stops(b, Simulated(h, n - 1))
  {
    SimulationStaysOnCourse(h, n);
    Climbs(h, n);
    HaltsIsStops(b, Simulated(h, n));
    HaltsIsStops(b, Simulated(h, n - 1));
    hide Upward, Simulated;
    if n == 1 {
      StartsClear(b, h);
    }
    var m := Simulated(h, n);
    if m.y > BUBBLE_RADIUS {
      var p :| Full(b, p) && PointDistance2(p, m.x, m.y) <= 900.0;
      CloseInHeight(p, m.x, m.y);
    }
  }

  lemma StartsClear(b: Board, h: Heading)
    requires LastRowEmpty(b)
    ensures !Stops(b, Simulated(h, 0))
  {
    var m := Simulated(h, 0);
    forall p | Full(b, p) ensures PointDistance2(p, m.x, m.y) > 900.0 {
      if PointDistance2(p, m.x, m.y) <= 900.0 {
        CloseInHeight(p, m.x, m.y);
      }
    }
  }

  lemma CloseInHeight(p: Grid.Cell, x: real, y: real)
    requires PointDistance2(p, x, y) <= 900.0
    ensures Grid.CenterY(p) as real - 30.0 <= y <= Grid.CenterY(p) as real + 30.0
  {
    var dx, dy := Grid.CenterX(p) as real - x, Grid.CenterY(p) as real - y;
    assert dx * dx >= 0.0;
    LargeSquares(dy, 30.0);
  }

  lemma LargeSquares(a: real, k: real)
    requires 0.0 <= k
    ensures a < -k || k < a ==> k * k < RealSquare(a)
  {
    if k < a {
      assert k * k <= k * a < a * a;
    } else if a < -k {
      assert k * k <= k * -a < -a * -a;
    }
  }

  /** Client and server agree where a landing goes: simulated on the server's
      current board, the hit always snaps to an empty cell, so the landing is
      placed exactly there and never moved to a neighbour or lost. */
  lemma SyncedLandingSnaps(b: Board, h: Heading, n: nat)
    requires Upward(h) && LastRowEmpty(b) && FirstHalt(SnapshotOf(b), h, n)
    ensures var m := Simulated(h, n);
            LandingCell(b, m.x, m.y) == Some(Grid.NearestCell(m.x, m.y))
  {
    HaltsInField(b, h, n);
    var k, m := Simulated(h, n - 1), Simulated(h, n);
    var p := Grid.NearestCell(m.x, m.y);
    SnapIsClose(m.x, m.y);
    SimulationStaysOnCourse(h, n - 1);
    Flight.StepLength(k, h, (n - 1) as real * STEP, STEP);
    assert 270400.0 * RealSquare(STEP) <= 18.8;
    hide Upward, RealSquare, Simulated, FirstHalt;
    StepFromWithin(Grid.CenterX(p) as real - m.x, Grid.CenterY(p) as real - m.y, m.x - k.x, m.y - k.y);
    assert PointDistance2(p, k.x, k.y) <= 900.0;
    assert b[p] < 0;
  }

  lemma SyncedLandingIsPlaced(g: Game, h: Heading, n: nat, angle: real, now: int, draw: int)
    requires Valid(g) && IsColour(draw) && Upward(h) && BeginShot(g, angle, now).Ok?
    requires FirstHalt(SnapshotOf(g.board), h, n)
    ensures var m := Simulated(h, n);
            var r := CommitLanding(BeginShot(g, angle, now).value, angle, m.x, m.y, draw);
            r.Ok? && r.value.placed
  {
    SimulatedLandingIsAccepted(g, SnapshotOf(g.board), h, n, angle, now, draw);
    SyncedLandingSnaps(g.board, h, n);
    hide Simulated, FirstHalt, Upward, LandingCell;
  }

  /** Over whole runs of a match: a player shoots, the browser simulates on the
      board it had then, and anything happens in the match. As long as that shot
      is pending, its landing is accepted and placed where it snapped. */
  lemma PendingLandingIsPlaced(m: Match, p: Pid, h: Heading, n: nat, angle: real, now: int, es: seq<Event>,
                                draw: Colour)
    requires Consistent(m) && p in m.games && BeginShot(m.games[p], angle, now).Ok?
    requires Upward(h) && FirstHalt(SnapshotOf(m.games[p].board), h, n)
    ensures Consistent(Step(m, Shot(p, angle, now)))
    ensures var s, hit := Step(m, Shot(p, angle, now)), Simulated(h, n);
            var k := Run(s, es);
            && p in s.games && p in k.games
            && (k.games[p].pending && k.games[p].shotSeq == s.games[p].shotSeq ==>
                  && Protocol(k.games[p]) && k.games[p].board == m.games[p].board
                  && LandingCell(k.games[p].board, hit.x, hit.y) == Some(Grid.NearestCell(hit.x, hit.y))
                  && k.games[p].shotAngle == ClampAim(angle) && k.games[p].shotAt == now
                  && var r := CommitLanding(k.games[p], angle, hit.x, hit.y, draw);
                     r.Ok? && r.value.placed &&
                     LandsAs(m.games[p].board, m.games[p].current, Grid.NearestCell(hit.x, hit.y), r.value))
  {
    hide Simulated, FirstHalt, Upward, LandingCell, Consistent, Run, Rules.Valid, Follows, Step, LandsAs,
      PlaceAndResolve;
    StepKeepsConsistent(m, Shot(p, angle, now));
    var s := Step(m, Shot(p, angle, now));
    ShotIsHeard(m, p, angle, now);
    RunFollows(s, es, p);
    FirstHaltIsLegal(SnapshotOf(m.games[p].board), h, n);
    PlayerIsInOrder(m, p);
    PlayerIsInOrder(Run(s, es), p);
    SyncedLandingSnaps(m.games[p].board, h, n);
    PendingLandsAs(m.games[p], s.games[p], Run(s, es).games[p], angle, now, Simulated(h, n), draw);
  }

  /** The landing of a shot that is still pending, on the game before the shot. */
  lemma PendingLandsAs(g: Game, s: Game, k: Game, angle: real, now: int, hit: Moving, draw: Colour)
    requires Protocol(g) && BeginShot(g, angle, now).Ok? && s == BeginShot(g, angle, now).value
    requires Protocol(k) && Follows(s, k) && (k.pending ==> k.status == Playing) && LegalPosition(hit.x, hit.y)
    requires LandingCell(g.board, hit.x, hit.y).Some?
    ensures k.pending && k.shotSeq == s.shotSeq ==>
              && k.board == g.board && k.shotAngle == ClampAim(angle) && k.shotAt == now
              && var r := CommitLanding(k, angle, hit.x, hit.y, draw);
                 r.Ok? && r.value.placed &&
                 LandsAs(g.board, g.current, LandingCell(g.board, hit.x, hit.y).value, r.value)
  {
    hide LandsAs, LandingCell, PlaceAndResolve, LastRowEmpty;
    if k.pending && k.shotSeq == s.shotSeq {
      LandingOfShot(k, angle, hit.x, hit.y, draw);
      LandedIsPlaced(g.board, g.current, LandingCell(g.board, hit.x, hit.y).value,
                     CommitLanding(k, angle, hit.x, hit.y, draw).value);
    }
  }

  lemma LandedIsPlaced(b: Board, colour: int, p: Grid.Cell, r: Resolution)
    requires Grid.InBoard(p) && IsColour(colour) && LandsAs(b, colour, p, r)
    ensures r.placed
  {
    hide Group, Occupied;
  }

  lemma ShotIsHeard(m: Match, p: Pid, angle: real, now: int)
    requires Consistent(m) && p in m.games && BeginShot(m.games[p], angle, now).Ok?
    ensures var s := Step(m, Shot(p, angle, now));
            p in s.games && s.games[p] == BeginShot(m.games[p], angle, now).value
  {
    hide Protocol, Balanced, BeginShot;
  }

  lemma PlayerIsInOrder(m: Match, p: Pid)
    requires Consistent(m) && p in m.games
    ensures var g := m.games[p];
            && Protocol(g) && (g.pending ==> g.status == Playing) && (g.status == Playing ==> LastRowEmpty(g.board))
  {
  }
}
