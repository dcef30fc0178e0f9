/** One player's game as a value, and the meaning of every operation on it.
    Random draws, the clock and the cosine and sine of an angle are inputs. */
module Rules {
  import opened Wrappers
  import opened Grid
  import opened Boards
  import opened Reachability
  import opened Placement
  import opened Reprojection

  const BOARD_WIDTH := 560.0
  const SHOOTER_Y := 688.0
  const BUBBLE_RADIUS := 16.0
  const SPEED := 520.0
  const MAX_DT := 0.033
  const PI := 3.14159265358979323846264338327950288419716939937510582097494459
  const MIN_ANGLE := -PI + 0.2
  const MAX_ANGLE := -0.2
  const COLLISION_DISTANCE := 30.0

  datatype Status = Playing | Won | Lost

  datatype Moving = Moving(x: real, y: real, vx: real, vy: real, colour: int)

  datatype Game = Game(
    board: Board,
    current: int,
    next: int,
    aim: real,
    moving: Option<Moving>,
    pending: bool,
    shotSeq: nat,
    shotAngle: real,
    shotColour: int,
    shotAt: int,
    score: int,
    status: Status,
    lastTick: int)

  datatype ShotError = Finished | InFlight | NoPendingShot | InvalidPosition

  /** What a landing did: whether a cell was found, and how many bubbles the
      match and the fall removed. */
  datatype Resolution = Resolution(game: Game, placed: bool, cleared: nat, dropped: nat)

  const INITIAL_ROWS := 5

  /** The random draws and the clock reading behind one initial state. */
  datatype Deal = Deal(current: Colour, next: Colour, fill: Cell -> CellValue, at: int)

  ghost function InitialGame(d: Deal): Game {
    Game(map p | p in AllCells() :: if p.r < INITIAL_ROWS then d.fill(p) else EMPTY, d.current, d.next, -PI / 2.0, None,
         false, 0, -PI / 2.0, 0, 0, 0, Playing, d.at)
  }

  ghost predicate Valid(g: Game) {
    && IsColour(g.current) && IsColour(g.next) && IsColour(g.shotColour)
    && (g.moving.Some? ==> IsColour(g.moving.value.colour))
    && (g.status == Playing ==> LastRowEmpty(g.board))
  }

  function ClampAim(angle: real): real {
    if angle < MIN_ANGLE then MIN_ANGLE else if angle > MAX_ANGLE then MAX_ANGLE else angle
  }

  ghost function StatusOf(b: Board): Status {
    if Occupied(b) == {} then Won else if LastRowEmpty(b) then Playing else Lost
  }

  ghost function PlaceAndResolve(g: Game, draw: int): Resolution
    requires Valid(g) && g.moving.Some? && IsColour(draw)
  {
    var m := g.moving.value;
    match LandingCell(g.board, m.x, m.y)
    case None => Resolution(g.(moving := None), false, 0, 0)
    case Some(p) =>
      var landed := Put(g.board, p, m.colour);
      var cleared := Cleared(landed, p);
      var settled := Dropped(cleared);
      var n, k := |Matched(landed, p)|, |Floating(cleared)|;
      Resolution(g.(board := settled, moving := None, score := g.score + 10 * n + 15 * k,
                    current := g.next, next := draw, status := StatusOf(settled)),
                 true, n, k)
  }

  lemma LostAt(g: Game, draw: int)
    requires Valid(g) && g.moving.Some? && IsColour(draw)
    requires LandingCell(g.board, g.moving.value.x, g.moving.value.y) == None
    ensures PlaceAndResolve(g, draw) == Resolution(g.(moving := None), false, 0, 0)
  {
    hide Put, Cleared, Dropped, Matched, Floating, StatusOf, LandingCell;
  }

  lemma LandedAt(g: Game, draw: int, p: Cell, settled: Board, n: nat, k: nat)
    requires Valid(g) && g.moving.Some? && IsColour(draw)
    requires LandingCell(g.board, g.moving.value.x, g.moving.value.y) == Some(p)
    requires var landed := Put(g.board, p, g.moving.value.colour);
             settled == Dropped(Cleared(landed, p)) && n == |Matched(landed, p)| && k == |Floating(Cleared(landed, p))|
    ensures PlaceAndResolve(g, draw) ==
            Resolution(g.(board := settled, moving := None, score := g.score + 10 * n + 15 * k,
                          current := g.next, next := draw, status := StatusOf(settled)), true, n, k)
  {
    hide Put, Cleared, Dropped, Matched, Floating, StatusOf, LandingCell;
  }

  ghost function BeginShot(g: Game, angle: real, now: int): Result<Game, ShotError> {
    if g.status != Playing then Err(Finished)
    else if g.moving.Some? || g.pending then Err(InFlight)
    else
      Ok(g.(aim := ClampAim(angle), pending := true, shotSeq := g.shotSeq + 1, shotAngle := ClampAim(angle),
            shotColour := g.current, shotAt := now))
  }

  ghost predicate LegalPosition(x: real, y: real) {
    0.0 <= x <= BOARD_WIDTH && 0.0 <= y <= SHOOTER_Y + BUBBLE_RADIUS
  }

  ghost function CommitLanding(g: Game, angle: real, x: real, y: real, draw: int): Result<Resolution, ShotError>
    requires Valid(g) && IsColour(draw)
  {
    if g.status != Playing then Err(Finished)
    else if !g.pending || g.moving.Some? then Err(NoPendingShot)
    else if !LegalPosition(x, y) then Err(InvalidPosition)
    else
      Ok(PlaceAndResolve(g.(aim := ClampAim(angle), pending := false,
                            moving := Some(Moving(x, y, 0.0, 0.0, g.shotColour))), draw))
  }

  ghost function AddLayer(g: Game, top: Row): Game {
    g.(board := Pushed(g.board, top), status := StatusOf(Pushed(g.board, top)))
  }

  // ------------------------------------------------- server-side flight

  /** Direction of a clamped aim: a unit vector pointing clearly upwards. */
  datatype Heading = Heading(cos: real, sin: real)

  ghost predicate Upward(h: Heading) {
    h.cos * h.cos + h.sin * h.sin == 1.0 && h.sin <= -0.19
  }

  ghost function Fire(g: Game, angle: real, h: Heading): Result<Game, ShotError> {
    if g.status != Playing then Err(Finished)
    else if g.moving.Some? then Err(InFlight)
    else
      Ok(g.(aim := ClampAim(angle),
            moving := Some(Moving(BOARD_WIDTH / 2.0, SHOOTER_Y, h.cos * SPEED, h.sin * SPEED, g.current))))
  }

  function Abs(v: real): real { if v < 0.0 then -v else v }

  function Elapsed(last: int, now: int): real {
    var dt := (now - last) as real / 1000.0;
    if dt < 0.0 then 0.0 else if dt > MAX_DT then MAX_DT else dt
  }

  /** One step of free flight with bounces off the side walls. */
  function Advance(m: Moving, dt: real): Moving {
    var x, y := m.x + m.vx * dt, m.y + m.vy * dt;
    if x <= BUBBLE_RADIUS then m.(x := BUBBLE_RADIUS, y := y, vx := Abs(m.vx))
    else if x >= BOARD_WIDTH - BUBBLE_RADIUS then m.(x := BOARD_WIDTH - BUBBLE_RADIUS, y := y, vx := -Abs(m.vx))
    else m.(x := x, y := y)
  }

  ghost predicate Touches(b: Board, x: real, y: real) {
    exists p :: Full(b, p) && PointDistance2(p, x, y) <= COLLISION_DISTANCE * COLLISION_DISTANCE
  }

  ghost predicate Stops(b: Board, m: Moving) {
    m.y <= BUBBLE_RADIUS || Touches(b, m.x, m.y)
  }

  ghost function Tick(g: Game, now: int, draw: int): Resolution
    requires Valid(g) && IsColour(draw)
  {
    var h := g.(lastTick := now);
    if g.status != Playing || g.moving == None then Resolution(h, false, 0, 0)
    else
      var m := Advance(g.moving.value, Elapsed(g.lastTick, now));
      var h := h.(moving := Some(m));
      if Stops(g.board, m) then PlaceAndResolve(h, draw) else Resolution(h, false, 0, 0)
  }

  // ------------------------------------------------- what one operation keeps

  lemma StatusMeansRow(b: Board)
    ensures StatusOf(b) == Playing ==> LastRowEmpty(b)
    ensures StatusOf(b) == Lost <==> exists p :: Full(b, p) && p.r == ROWS - 1
    ensures StatusOf(b) == Won <==> forall p :: InBoard(p) ==> b[p] == EMPTY
  {
    if !LastRowEmpty(b) {
      var p :| Full(b, p) && p.r >= ROWS - 1;
      assert p in Occupied(b);
    }
    if forall p :: InBoard(p) ==> b[p] == EMPTY {
      assert Occupied(b) == {};
    }
    forall p | InBoard(p) && Occupied(b) == {} ensures b[p] == EMPTY {
      assert p !in Occupied(b);
    }
  }

  /** Bubbles are conserved by a landing: one placed, the cleared and the dropped
      gone, the score paid accordingly; and the board it leaves is anchored. */
  lemma LandingLedger(g: Game, draw: int)
    requires Valid(g) && g.moving.Some? && IsColour(draw)
    ensures var r := PlaceAndResolve(g, draw);
      && Valid(r.game) && r.game.moving == None
      && Bubbles(r.game.board) == Bubbles(g.board) + (if r.placed then 1 else 0) - r.cleared - r.dropped
      && r.game.score == g.score + 10 * r.cleared + 15 * r.dropped
      && (r.cleared == 0 || r.cleared >= 3)
      && (r.placed ==> Anchored(r.game.board))
      && (!r.placed ==> r.cleared == r.dropped == 0 && r.game == g.(moving := None))
      && (r.placed ==> r.game == g.(board := r.game.board, moving := None, score := r.game.score,
                                    current := g.next, next := draw, status := StatusOf(r.game.board)))
  {
    hide Anchored, Bubbles, StatusOf, Hanging, Group, Erase, Put;
    var m := g.moving.value;
    match LandingCell(g.board, m.x, m.y)
    case None =>
    case Some(p) =>
      var landed := Put(g.board, p, m.colour);
      var cleared := Cleared(landed, p);
      PutCounts(g.board, p, m.colour);
      MatchedIsOccupied(landed, p);
      EraseCounts(landed, Matched(landed, p));
      EraseCounts(cleared, Floating(cleared));
      DropAnchors(cleared);
      StatusMeansRow(Dropped(cleared));
  }

  /** What is left of board b when a bubble of the colour has landed in cell p:
      first its colour group goes, if it has three or more members, and then
      whatever no chain of bubbles joins to the top row; the rest stays. */
  ghost predicate LandsAs(b: Board, colour: int, p: Cell, r: Resolution)
    requires InBoard(p) && IsColour(colour)
  {
    var landed: Board := b[p := colour];
    var group := Group(landed, p);
    var rest := Occupied(landed) - (if |group| >= 3 then group else {});
    var kept := Reach(rest, TopRow());
    && r.placed && r.cleared == (if |group| >= 3 then |group| else 0) && r.dropped == |rest - kept|
    && Occupied(r.game.board) == kept
    && (forall q :: q in kept ==> r.game.board[q] == landed[q])
    && r.game.status == if kept == {} then Won
                        else if exists q :: q in kept && q.r == 13 then Lost
                        else Playing
  }

  lemma PlacedAs(g: Game, draw: int)
    requires Valid(g) && g.moving.Some? && IsColour(draw)
    ensures var m, r := g.moving.value, PlaceAndResolve(g, draw);
            match LandingCell(g.board, m.x, m.y)
            case None => r == Resolution(g.(moving := None), false, 0, 0)
            case Some(p) => LandsAs(g.board, m.colour, p, r)
  {
    hide Put, Cleared, Dropped, Matched, Floating, StatusOf, LandsAs;
    var m := g.moving.value;
    match LandingCell(g.board, m.x, m.y)
    case None =>
    case Some(p) => SettlesAs(g.board, m.colour, p, PlaceAndResolve(g, draw));
  }

  lemma SettlesAs(b: Board, colour: int, p: Cell, r: Resolution)
    requires InBoard(p) && IsColour(colour) && b[p] == EMPTY
    requires var cleared := Cleared(Put(b, p, colour), p);
             && r.placed && r.cleared == |Matched(Put(b, p, colour), p)| && r.dropped == |Floating(cleared)|
             && r.game.board == Dropped(cleared) && r.game.status == StatusOf(Dropped(cleared))
    ensures LandsAs(b, colour, p, r)
  {
    hide Group, Hanging, StatusOf, Cleared, Dropped, Matched, Occupied, Floating, Reach, TopRow, Put;
    var landed := Put(b, p, colour);
    var cleared := Cleared(landed, p);
    PutIsUpdate(b, p, colour);
    ClearedLeaves(landed, p);
    DroppedLeaves(landed, cleared);
    CellsMeanStatus(Dropped(cleared));
  }

  lemma DroppedLeaves(landed: Board, cleared: Board)
    requires forall q :: q in Occupied(cleared) ==> cleared[q] == landed[q]
    ensures var kept := Reach(Occupied(cleared), TopRow());
            && Occupied(Dropped(cleared)) == kept && Floating(cleared) == Occupied(cleared) - kept
            && forall q :: q in kept ==> Dropped(cleared)[q] == landed[q]
  {
    hide Reach, Dropped, Floating, Hanging;
    DropAnchors(cleared);
    HangingIs(cleared);
  }

  lemma PutIsUpdate(b: Board, p: Cell, v: int)
    requires InBoard(p) && IsColour(v)
    ensures Put(b, p, v) == b[p := v] && Full(Put(b, p, v), p)
  {
  }

  lemma HangingIs(b: Board)
    ensures Hanging(b) == Reach(Occupied(b), TopRow()) && Hanging(b) <= Occupied(b)
    ensures Floating(b) == Occupied(b) - Hanging(b)
  {
  }

  lemma CellsMeanStatus(b: Board)
    ensures StatusOf(b) == if Occupied(b) == {} then Won
                           else if exists q :: q in Occupied(b) && q.r == 13 then Lost
                           else Playing
  {
    StatusMeansRow(b);
    if p :| Full(b, p) && p.r == ROWS - 1 {
      assert p in Occupied(b);
    }
  }

  /** The bubbles that clearing leaves, and their colours. */
  lemma ClearedLeaves(b: Board, p: Cell)
    requires Full(b, p)
    ensures var gone := if |Group(b, p)| >= 3 then Group(b, p) else {};
            && Matched(b, p) == gone && Occupied(Cleared(b, p)) == Occupied(b) - gone
            && forall q :: q in Occupied(Cleared(b, p)) ==> Cleared(b, p)[q] == b[q]
  {
    hide Group;
  }

  /** A shot and its landing, on the game before them: which are accepted, that
      it is the colour in the shooter that lands, in the cell the point calls for,
      what then goes and what it pays, and what is in the shooter next. */
  lemma ShotLandsExactly(g: Game, shotAngle: real, now: int, angle: real, x: real, y: real, draw: int)
    requires Valid(g) && 0 <= draw < 6
    ensures var s := BeginShot(g, shotAngle, now);
            && (s.Ok? <==> g.status == Playing && g.moving == None && !g.pending)
            && (s.Ok? ==>
                  var r := CommitLanding(s.value, angle, x, y, draw);
                  && (r.Ok? <==> 0.0 <= x <= 560.0 && 0.0 <= y <= 704.0)
                  && (r.Ok? ==> LandsFrom(g, x, y, draw, r.value) && r.value.game.aim == ClampAim(angle)))
  {
    hide Group, LandingCell, LandsAs, PlaceAndResolve;
    var s := BeginShot(g, shotAngle, now);
    if s.Ok? && CommitLanding(s.value, angle, x, y, draw).Ok? {
      LandingOfShot(s.value, angle, x, y, draw);
    }
  }

  /** The landing at (x, y) of a shot of the colour in g's shooter. */
  ghost predicate LandsFrom(g: Game, x: real, y: real, draw: int, r: Resolution)
    requires IsColour(g.current)
  {
    var h := r.game;
    && !h.pending && h.moving == None
    && h.score == g.score + 10 * r.cleared + 15 * r.dropped
    && match LandingCell(g.board, x, y)
       case None => !r.placed && h.board == g.board && h.current == g.current && h.next == g.next
                    && h.status == g.status && r.cleared == r.dropped == 0
       case Some(p) => LandsAs(g.board, g.current, p, r) && h.current == g.next && h.next == draw
  }

  /** Any accepted landing of a pending shot whose colour is still in the shooter. */
  lemma LandingOfShot(g: Game, angle: real, x: real, y: real, draw: int)
    requires Valid(g) && IsColour(draw) && g.shotColour == g.current && CommitLanding(g, angle, x, y, draw).Ok?
    ensures var r := CommitLanding(g, angle, x, y, draw).value;
            LandsFrom(g, x, y, draw, r) && r.game.aim == ClampAim(angle)
  {
    hide Group, LandingCell, LandsAs, Put, Cleared, Dropped, Matched, Floating, StatusOf;
    var f := g.(aim := ClampAim(angle), pending := false, moving := Some(Moving(x, y, 0.0, 0.0, g.current)));
    PlacedAs(f, draw);
  }

  /** A shot that is accepted records the clamped angle, the time and the colour
      in the shooter, takes the next number, and touches nothing else. */
  lemma ShotIsRecorded(g: Game, angle: real, now: int)
    requires BeginShot(g, angle, now).Ok?
    ensures var s := BeginShot(g, angle, now).value;
            && s.pending && s.shotColour == g.current && s.shotAt == now && s.shotSeq == g.shotSeq + 1
            && s.shotAngle == s.aim == ClampAim(angle)
            && s.board == g.board && s.current == g.current && s.next == g.next && s.moving == None
            && s.score == g.score && s.status == Playing && s.lastTick == g.lastTick
  {
  }

  /** Clamping an aim gives the nearest angle that is at least 0.2 above either
      horizontal. */
  lemma ClampIsNearest(angle: real, other: real)
    ensures -PI + 0.2 <= ClampAim(angle) <= -0.2
    ensures -PI + 0.2 <= other <= -0.2 ==> Abs(ClampAim(angle) - angle) <= Abs(other - angle)
    ensures -PI + 0.2 <= angle <= -0.2 ==> ClampAim(angle) == angle
  {
  }

  /** The time of a tick in seconds: what has passed, but never less than none or
      more than 33 milliseconds. */
  lemma ElapsedIsCapped(last: int, now: int)
    ensures 0 <= now - last <= 33 ==> Elapsed(last, now) * 1000.0 == (now - last) as real
    ensures now <= last ==> Elapsed(last, now) == 0.0
    ensures now >= last + 33 ==> Elapsed(last, now) == 0.033
  {
  }

  /** On an anchored board a landing that completes no group moves nothing but
      the landed bubble: that bubble stays, or it alone falls. */
  lemma QuietLanding(g: Game, draw: int)
    requires Valid(g) && g.moving.Some? && IsColour(draw) && Anchored(g.board)
    ensures var r := PlaceAndResolve(g, draw);
      r.placed && r.cleared == 0 ==>
        var p := LandingCell(g.board, g.moving.value.x, g.moving.value.y).value;
        r.game.board == if r.dropped == 0 then Put(g.board, p, g.moving.value.colour) else g.board
  {
    var m := g.moving.value;
    var r := PlaceAndResolve(g, draw);
    if r.placed && r.cleared == 0 {
      var p := LandingCell(g.board, m.x, m.y).value;
      EraseNothing(Put(g.board, p, m.colour));
      QuietDrop(g.board, p, m.colour);
    }
  }

  /** A layer on a running game costs no bubble: 17 more, the deepest moved one
      row down, never a win. */
  lemma LayerLedger(g: Game, top: Row)
    requires Valid(g) && FullRow(top) && g.status == Playing
    ensures var h := AddLayer(g, top);
      && Valid(h)
      && Bubbles(h.board) == Bubbles(g.board) + COLS
      && h.status != Won
      && (Anchored(g.board) ==> Anchored(h.board))
  {
    var b := Pushed(g.board, top);
    PushedGains(g.board, top);
    StatusMeansRow(b);
    assert b[Cell(0, 0)] == top[0] >= 0;
    if Anchored(g.board) {
      AnchoringSurvives(g.board, top);
    }
  }
}
