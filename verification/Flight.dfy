/** Free flight: what a run of ticks after a shot keeps, that it always ends in
    a landing, and that between ticks no bubble is passed through. */
module Flight {
  import opened Wrappers
  import opened Grid
  import opened Boards
  import opened Placement
  import opened Rules

  /** The game after ticks at the given times, one colour draw at hand for each. */
  ghost function Ticks(g: Game, clock: seq<int>, draws: seq<int>): (r: Game)
    requires Valid(g) && |draws| == |clock| && forall i :: 0 <= i < |draws| ==> IsColour(draws[i])
    ensures Valid(r)
  {
    if clock == [] then g
    else
      var n := |clock| - 1;
      var before := Ticks(g, clock[..n], draws[..n]);
      TickIsValid(before, clock[n], draws[n]);
      Tick(before, clock[n], draws[n]).game
  }

  lemma TickIsValid(g: Game, now: int, draw: int)
    requires Valid(g) && IsColour(draw)
    ensures Valid(Tick(g, now, draw).game)
  {
    if g.status == Playing && g.moving.Some? {
      var m := Advance(g.moving.value, Elapsed(g.lastTick, now));
      var h := g.(lastTick := now, moving := Some(m));
      if Stops(g.board, m) {
        LandingLedger(h, draw);
      }
    }
  }

  function Before(start: int, clock: seq<int>): int {
    if clock == [] then start else clock[|clock| - 1]
  }

  /** Simulated seconds: each tick contributes its clamped interval. */
  function FlightTime(start: int, clock: seq<int>): real {
    if clock == [] then 0.0
    else
      var n := |clock| - 1;
      FlightTime(start, clock[..n]) + Elapsed(Before(start, clock[..n]), clock[n])
  }

  /** A bubble in flight t simulated seconds after it was fired towards h. */
  ghost predicate OnCourse(m: Moving, h: Heading, t: real) {
    && BUBBLE_RADIUS <= m.x <= BOARD_WIDTH - BUBBLE_RADIUS
    && m.y == SHOOTER_Y + h.sin * SPEED * t
    && m.vy == h.sin * SPEED
    && Abs(m.vx) == Abs(h.cos * SPEED)
  }

  lemma AdvanceStaysOnCourse(m: Moving, h: Heading, t: real, dt: real)
    requires OnCourse(m, h, t)
    ensures OnCourse(Advance(m, dt), h, t + dt)
  {
    assert h.sin * SPEED * (t + dt) == h.sin * SPEED * t + h.sin * SPEED * dt;
  }

  lemma FlightStarts(g: Game, angle: real, h: Heading)
    requires Valid(g) && Rules.Fire(g, angle, h).Ok?
    ensures var f := Rules.Fire(g, angle, h).value;
            && Valid(f) && f.status == Playing && f.board == g.board && f.lastTick == g.lastTick
            && f.moving.Some? && OnCourse(f.moving.value, h, 0.0) && !Stops(f.board, f.moving.value)
  {
    forall p | Full(g.board, p) ensures PointDistance2(p, BOARD_WIDTH / 2.0, SHOOTER_Y) > 900.0 {
      FarBelow(p);
    }
  }

  /** The shooter is far below every cell of the board. */
  lemma FarBelow(p: Cell)
    requires InBoard(p)
    ensures PointDistance2(p, BOARD_WIDTH / 2.0, SHOOTER_Y) > 900.0
  {
    var dx, dy := CenterX(p) as real - BOARD_WIDTH / 2.0, CenterY(p) as real - SHOOTER_Y;
    assert dy <= -308.0;
    assert RealSquare(dx) >= 0.0;
    assert RealSquare(dy) >= 308.0 * 308.0 by {
      assert (-dy) * (-dy) >= 308.0 * -dy >= 308.0 * 308.0;
    }
  }

  /** Along every run of ticks after a shot, the bubble has either landed or is
      on course, above the ceiling line and clear of all bubbles. */
  lemma {:induction false} FlightInvariant(g: Game, angle: real, h: Heading, clock: seq<int>, draws: seq<int>)
    requires Valid(g) && Rules.Fire(g, angle, h).Ok?
    requires |draws| == |clock| && forall i :: 0 <= i < |draws| ==> IsColour(draws[i])
    ensures var f := Rules.Fire(g, angle, h).value;
            Valid(f) &&
            var r := Ticks(f, clock, draws);
            && r.lastTick == Before(f.lastTick, clock)
            && (r.moving == None ||
                (r.status == Playing && r.board == f.board && !Stops(r.board, r.moving.value) &&
                 OnCourse(r.moving.value, h, FlightTime(f.lastTick, clock))))
  {
    hide OnCourse, Stops, PlaceAndResolve;
    FlightStarts(g, angle, h);
    if clock != [] {
      var f := Rules.Fire(g, angle, h).value;
      var n := |clock| - 1;
      FlightInvariant(g, angle, h, clock[..n], draws[..n]);
      var before := Ticks(f, clock[..n], draws[..n]);
      if before.moving.Some? {
        var dt := Elapsed(before.lastTick, clock[n]);
        AdvanceStaysOnCourse(before.moving.value, h, FlightTime(f.lastTick, clock[..n]), dt);
        var m := Advance(before.moving.value, dt);
        if Stops(before.board, m) {
          LandingLedger(before.(lastTick := clock[n], moving := Some(m)), draws[n]);
        }
      }
    }
  }

  /** Every flight settles: once the simulated time reaches 672/|VY| seconds the
      bubble is down, whatever the board, the tick times and the bounces. */
  lemma FlightSettles(g: Game, angle: real, h: Heading, clock: seq<int>, draws: seq<int>)
    requires Valid(g) && Upward(h) && Rules.Fire(g, angle, h).Ok?
    requires |draws| == |clock| && forall i :: 0 <= i < |draws| ==> IsColour(draws[i])
    requires FlightTime(g.lastTick, clock) >= (SHOOTER_Y - BUBBLE_RADIUS) / (-(h.sin * SPEED))
    ensures Valid(Rules.Fire(g, angle, h).value)
    ensures Ticks(Rules.Fire(g, angle, h).value, clock, draws).moving == None
  {
    hide OnCourse, Upward, Ticks, PlaceAndResolve, FlightTime;
    FlightInvariant(g, angle, h, clock, draws);
    var r := Ticks(Rules.Fire(g, angle, h).value, clock, draws);
    if r.moving.Some? {
      CourseEnds(r.moving.value, h, FlightTime(g.lastTick, clock));
    }
  }

  lemma CourseEnds(m: Moving, h: Heading, t: real)
    requires OnCourse(m, h, t) && Upward(h)
    requires t >= (SHOOTER_Y - BUBBLE_RADIUS) / (-(h.sin * SPEED))
    ensures m.y <= BUBBLE_RADIUS
  {
    Reaches(-(h.sin * SPEED), t, SHOOTER_Y - BUBBLE_RADIUS);
  }

  lemma Reaches(v: real, t: real, d: real)
    requires v > 0.0 && t >= d / v
    ensures v * t >= d
  {
    assert v * (d / v) == d;
    assert v * (t - d / v) >= 0.0;
  }

  // ------------------------------------------------- no tunnelling

  /** The point a fraction s of the way from a to e. */
  function Along(s: real, a: real, e: real): real {
    a + s * (e - a)
  }

  function Chord(s: real, a: real, c: real, l: real): real {
    (1.0 - s) * a + s * c - s * (1.0 - s) * l
  }

  lemma SegmentSquare(a: real, e: real, t: real)
    ensures RealSquare(Along(t, a, e)) == Chord(t, RealSquare(a), RealSquare(e), RealSquare(e - a))
  {
    var d := e - a;
    assert RealSquare(a + t * d) == a * a + 2.0 * (t * (a * d)) + t * t * (d * d);
    assert RealSquare(e) == a * a + 2.0 * (a * d) + d * d by { assert e == a + d; }
    assert t * RealSquare(e) == t * (a * a) + 2.0 * (t * (a * d)) + t * (d * d);
    assert t * (1.0 - t) * RealSquare(d) == t * (d * d) - t * t * (d * d);
  }

  /** A chord of squared length at most l between two points outside a circle of
      squared radius q stays outside the circle of squared radius q - l/4. */
  lemma ChordStaysOut(u: real, v: real, l: real, q: real, t: real)
    requires 0.0 <= t <= 1.0 && u > q && v > q && 0.0 <= l
    ensures Chord(t, u, v, l) > q - l / 4.0
  {
    WeightedMean(u - q, v - q, t);
    QuarterBound(t, l);
    var a, c := (1.0 - t) * u + t * v, t * (1.0 - t) * l;
    assert (1.0 - t) * (u - q) + t * (v - q) == a - q;
    assert a > q && c <= l / 4.0;
  }

  lemma WeightedMean(u: real, v: real, t: real)
    requires 0.0 <= t <= 1.0 && u > 0.0 && v > 0.0
    ensures (1.0 - t) * u + t * v > 0.0
  {
    var w := if u < v then u else v;
    assert (1.0 - t) * (u - w) >= 0.0 && t * (v - w) >= 0.0;
    assert (1.0 - t) * u + t * v == (1.0 - t) * (u - w) + t * (v - w) + w;
  }

  lemma QuarterBound(t: real, l: real)
    requires 0.0 <= l
    ensures t * (1.0 - t) * l <= l / 4.0
  {
    var s := t - 0.5;
    assert s * s == t * t - t + 0.25;
    assert t * (1.0 - t) == t - t * t;
    var k := t * (1.0 - t);
    assert k <= 0.25;
    assert (0.25 - k) * l >= 0.0;
  }

  lemma SpeedIsKept(vx: real, vy: real, c: real, s: real)
    requires Abs(vx) == Abs(c * SPEED) && vy == s * SPEED && c * c + s * s == 1.0
    ensures vx * vx + vy * vy == 270400.0
  {
    assert vx == c * SPEED || vx == -(c * SPEED);
    assert vx * vx == 270400.0 * (c * c);
    assert vy * vy == 270400.0 * (s * s);
  }

  lemma StepSquare(vx: real, vy: real, dt: real)
    requires vx * vx + vy * vy == 270400.0
    ensures RealSquare(vx * dt) + RealSquare(vy * dt) == 270400.0 * RealSquare(dt)
  {
    var q := dt * dt;
    assert RealSquare(vx * dt) == vx * vx * q;
    assert RealSquare(vy * dt) == vy * vy * q;
    assert vx * vx * q + vy * vy * q == (vx * vx + vy * vy) * q;
  }

  lemma TickSquare(dt: real)
    requires 0.0 <= dt <= MAX_DT
    ensures 270400.0 * RealSquare(dt) <= 294.4656
  {
    assert dt * dt <= dt * 0.033 <= 0.033 * 0.033;
  }

  /** Clamping at a wall only shortens the move of one step. */
  lemma MovesOnCourse(m: Moving, h: Heading, t: real, dt: real)
    requires OnCourse(m, h, t)
    ensures var n := Advance(m, dt);
            && RealSquare(n.x - m.x) <= RealSquare(m.vx * dt)
            && RealSquare(n.y - m.y) == RealSquare(m.vy * dt)
  {
    AdvanceMoves(m, dt);
    hide Advance, RealSquare;
    SquareBound(Advance(m, dt).x - m.x, m.vx * dt);
  }

  lemma AdvanceMoves(m: Moving, dt: real)
    requires BUBBLE_RADIUS <= m.x <= BOARD_WIDTH - BUBBLE_RADIUS
    ensures var n := Advance(m, dt);
            n.y - m.y == m.vy * dt && -Abs(m.vx * dt) <= n.x - m.x <= Abs(m.vx * dt)
  {
  }

  /** The straight move of one step is no longer than speed times time. */
  lemma StepLength(m: Moving, h: Heading, t: real, dt: real)
    requires OnCourse(m, h, t) && Upward(h)
    ensures var n := Advance(m, dt);
            RealSquare(n.x - m.x) + RealSquare(n.y - m.y) <= 270400.0 * RealSquare(dt)
  {
    hide Advance, Upward, Abs, OnCourse;
    MovesOnCourse(m, h, t, dt);
    SpeedOnCourse(m, h, t);
    StepSquare(m.vx, m.vy, dt);
  }

  lemma SpeedOnCourse(m: Moving, h: Heading, t: real)
    requires OnCourse(m, h, t) && Upward(h)
    ensures m.vx * m.vx + m.vy * m.vy == 270400.0
  {
    SpeedIsKept(m.vx, m.vy, h.cos, h.sin);
  }

  lemma SquareBound(a: real, b: real)
    requires -Abs(b) <= a <= Abs(b)
    ensures RealSquare(a) <= RealSquare(b)
  {
    var c, d := Abs(a), Abs(b);
    assert c * c <= c * d <= d * d;
  }

  /** Between two ticks that both report no landing, the bubble's straight path
      keeps more than the square root of 826 away from every bubble. */
  lemma NoTunnelling(b: Board, m: Moving, h: Heading, t: real, dt: real, p: Cell, s: real)
    requires OnCourse(m, h, t) && Upward(h) && 0.0 <= dt <= MAX_DT
    requires !Stops(b, m) && !Stops(b, Advance(m, dt))
    requires Full(b, p) && 0.0 <= s <= 1.0
    ensures var n := Advance(m, dt);
            PointDistance2(p, Along(s, m.x, n.x), Along(s, m.y, n.y)) > 826.0
  {
    hide RealSquare, Advance, OnCourse, Upward, CenterX, CenterY, Along;
    var n := Advance(m, dt);
    var cx, cy := CenterX(p) as real, CenterY(p) as real;
    StepLength(m, h, t, dt);
    TickSquare(dt);
    assert PointDistance2(p, m.x, m.y) > 900.0 && PointDistance2(p, n.x, n.y) > 900.0;
    MovedApart(cx - m.x, cy - m.y, cx - n.x, cy - n.y, n.x - m.x, n.y - m.y, s);
    AlongShifts(s, cx, m.x, n.x);
    AlongShifts(s, cy, m.y, n.y);
  }

  lemma AlongShifts(s: real, c: real, a: real, e: real)
    ensures c - Along(s, a, e) == Along(s, c - a, c - e)
  {
  }

  lemma MovedApart(ax: real, ay: real, ex: real, ey: real, dx: real, dy: real, s: real)
    requires RealSquare(ax) + RealSquare(ay) > 900.0 && RealSquare(ex) + RealSquare(ey) > 900.0
    requires ex - ax == -dx && ey - ay == -dy && RealSquare(dx) + RealSquare(dy) <= 294.4656
    requires 0.0 <= s <= 1.0
    ensures RealSquare(Along(s, ax, ex)) + RealSquare(Along(s, ay, ey)) > 826.0
  {
    hide RealSquare, Along, Chord;
    SegmentSquare(ax, ex, s);
    SegmentSquare(ay, ey, s);
    SquareOfOpposite(ex - ax, dx);
    SquareOfOpposite(ey - ay, dy);
    SquaresAreNatural(dx, dy);
    ChordsAdd(s, RealSquare(ax), RealSquare(ay), RealSquare(ex), RealSquare(ey), RealSquare(dx), RealSquare(dy));
    ChordStaysOut(RealSquare(ax) + RealSquare(ay), RealSquare(ex) + RealSquare(ey),
                  RealSquare(dx) + RealSquare(dy), 900.0, s);
  }

  lemma SquareOfOpposite(x: real, y: real)
    requires x == -y
    ensures RealSquare(x) == RealSquare(y)
  {
  }

  lemma SquaresAreNatural(x: real, y: real)
    ensures RealSquare(x) + RealSquare(y) >= 0.0
  {
  }

  lemma ChordsAdd(s: real, a: real, b: real, c: real, d: real, k: real, l: real)
    ensures Chord(s, a, c, k) + Chord(s, b, d, l) == Chord(s, a + b, c + d, k + l)
  {
    var w := s * (1.0 - s);
    assert w * (k + l) == w * k + w * l;
  }

  /** A bubble still in flight after a tick flew on from where it was. */
  lemma LastLeg(g: Game, now: int, draw: int)
    requires Valid(g) && IsColour(draw) && g.status == Playing && Tick(g, now, draw).game.moving.Some?
    ensures g.moving.Some?
    ensures var n := Advance(g.moving.value, Elapsed(g.lastTick, now));
            Tick(g, now, draw).game.moving == Some(n) && !Stops(g.board, n)
  {
    hide Stops, PlaceAndResolve;
    if g.moving.Some? {
      var n := Advance(g.moving.value, Elapsed(g.lastTick, now));
      if Stops(g.board, n) {
        LandingLedger(g.(lastTick := now, moving := Some(n)), draw);
      }
    }
  }

  /** No tunnelling over a whole run: the latest leg of any flight that is still
      going, wherever it ends, was clear of every bubble. */
  lemma FlownLegsAreClear(g: Game, angle: real, h: Heading, clock: seq<int>, draws: seq<int>, p: Cell, s: real)
    requires Valid(g) && Upward(h) && Rules.Fire(g, angle, h).Ok?
    requires 0 < |clock| == |draws| && forall i :: 0 <= i < |draws| ==> IsColour(draws[i])
    requires Full(g.board, p) && 0.0 <= s <= 1.0
    ensures Valid(Rules.Fire(g, angle, h).value)
    ensures var f, k := Rules.Fire(g, angle, h).value, |clock| - 1;
            var m, n := Ticks(f, clock[..k], draws[..k]).moving, Ticks(f, clock, draws).moving;
            n.Some? ==>
              m.Some? && PointDistance2(p, Along(s, m.value.x, n.value.x), Along(s, m.value.y, n.value.y)) > 826.0
  {
    hide OnCourse, Upward, Tick, Ticks, Rules.Fire, FlightTime, Advance, PointDistance2, Stops, Along;
    FlightStarts(g, angle, h);
    FlightInvariant(g, angle, h, clock, draws);
    var f, k := Rules.Fire(g, angle, h).value, |clock| - 1;
    LastTick(f, clock, draws);
    if Ticks(f, clock, draws).moving.Some? {
      FlightInvariant(g, angle, h, clock[..k], draws[..k]);
      var before := Ticks(f, clock[..k], draws[..k]);
      LandedStays(before, clock[k], draws[k]);
      LastLeg(before, clock[k], draws[k]);
      NoTunnelling(g.board, before.moving.value, h, FlightTime(f.lastTick, clock[..k]),
                   Elapsed(before.lastTick, clock[k]), p, s);
    }
  }

  lemma LastTick(g: Game, clock: seq<int>, draws: seq<int>)
    requires Valid(g) && 0 < |clock| == |draws| && forall i :: 0 <= i < |draws| ==> IsColour(draws[i])
    ensures var k := |clock| - 1;
            Ticks(g, clock, draws) == Tick(Ticks(g, clock[..k], draws[..k]), clock[k], draws[k]).game
  {
    hide Tick;
  }

  lemma LandedStays(g: Game, now: int, draw: int)
    requires Valid(g) && IsColour(draw)
    ensures g.moving == None ==> Tick(g, now, draw).game == g.(lastTick := now)
  {
  }
}
