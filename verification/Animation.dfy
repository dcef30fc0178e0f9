/** The browser's animation of a shot, which reports the landing only once the
    animated bubble comes within 14 of the simulated hit: why it always does at
    19 milliseconds a frame or less, and how it misses at 20.4. */
module Animation {
  import opened Wrappers
  import opened Placement
  import opened Rules
  import opened Client
  import Flight

  const NEAR := 14.0
  const SMOOTH := 0.019
  const ASIDE := 13.09
  const LANE := 528.0

  function FrameStep(last: real, ts: real): (dt: real)
    ensures 0.0 <= dt <= MAX_DT
    ensures 0.0 <= ts - last <= 33.0 ==> dt * 1000.0 == ts - last
    ensures (ts <= last ==> dt == 0.0) && (last + 33.0 <= ts ==> dt == 0.033)
  {
    var dt := (ts - last) / 1000.0;
    if dt < 0.0 then 0.0 else if dt > MAX_DT then MAX_DT else dt
  }

  predicate Near(x: real, y: real, hitX: real, hitY: real) {
    RealSquare(x - hitX) + RealSquare(y - hitY) <= NEAR * NEAR
  }

  /** The message that reports a landing. */
  datatype Landing = Landing(angle: real, x: real, y: real)

  /** The page's shot in flight, one animation frame at a time. */
  class LocalShot {
    var Flying: bool
    var X: real
    var Y: real
    var VX: real
    var VY: real
    var HitX: real
    var HitY: real
    var Angle: real
    var PendingLanding: bool
    var LastFrameTS: real

    ghost function Value(): Moving
      reads this
    {
      Moving(X, Y, VX, VY, 0)
    }

    constructor BeginLocalShot(angle: real, h: Heading, hitX: real, hitY: real, ts: real)
      ensures Flying && !PendingLanding && Value() == Glide(h, [])
      ensures Angle == angle && HitX == hitX && HitY == hitY && LastFrameTS == ts
    {
      Flying, PendingLanding, LastFrameTS := true, false, ts;
      X, Y, VX, VY := BOARD_WIDTH / 2.0, SHOOTER_Y, h.cos * SPEED, h.sin * SPEED;
      Angle, HitX, HitY := angle, hitX, hitY;
    }

    /** Moves the bubble; near its hit the flight is over, and the landing is
        sent if the connection is up. */
    method AdvanceLocalShot(ts: real, connected: bool) returns (land: Option<Landing>)
      modifies this
      ensures LastFrameTS == ts && Angle == old(Angle) && HitX == old(HitX) && HitY == old(HitY)
      ensures !old(Flying) ==>
                land == None && !Flying && Value() == old(Value()) && PendingLanding == old(PendingLanding)
      ensures old(Flying) ==>
                && Value() == Advance(old(Value()), FrameStep(old(LastFrameTS), ts))
                && (Flying <==> !Near(X, Y, HitX, HitY))
                && land == (if Flying || !connected then None else Some(Landing(Angle, HitX, HitY)))
                && PendingLanding == if Flying then old(PendingLanding) else connected
    {
      if !Flying {
        LastFrameTS := ts;
        return None;
      }
      var dt := FrameStep(LastFrameTS, ts);
      LastFrameTS := ts;
      X := X + VX * dt;
      Y := Y + VY * dt;
      if X <= BUBBLE_RADIUS {
        X := BUBBLE_RADIUS;
        VX := Abs(VX);
      } else if X >= BOARD_WIDTH - BUBBLE_RADIUS {
        X := BOARD_WIDTH - BUBBLE_RADIUS;
        VX := -Abs(VX);
      }
      var dx, dy := X - HitX, Y - HitY;
      if RealSquare(dx) + RealSquare(dy) <= NEAR * NEAR {
        Flying := false;
        if !connected {
          PendingLanding := false;
          return None;
        }
        PendingLanding := true;
        return Some(Landing(Angle, HitX, HitY));
      }
      return None;
    }
  }

  // ------------------------------------------------- flights of any frame steps

  /** The bubble after the given steps, bounces included. */
  function Glide(h: Heading, steps: seq<real>): Moving {
    if steps == [] then Moving(BOARD_WIDTH / 2.0, SHOOTER_Y, h.cos * SPEED, h.sin * SPEED, 0)
    else Advance(Glide(h, steps[..|steps| - 1]), steps[|steps| - 1])
  }

  function Time(steps: seq<real>): real {
    if steps == [] then 0.0 else Time(steps[..|steps| - 1]) + steps[|steps| - 1]
  }

  predicate StepsWithin(steps: seq<real>, d: real) {
    forall i :: 0 <= i < |steps| ==> 0.0 <= steps[i] <= d
  }

  function Even(step: real, n: nat): (s: seq<real>)
    ensures |s| == n && forall i :: 0 <= i < n ==> s[i] == step
  {
    seq(n, i => step)
  }

  lemma EvenExtends(step: real, n: nat)
    requires n > 0
    ensures Even(step, n)[..n - 1] == Even(step, n - 1) && Even(step, n)[n - 1] == step
  {
  }

  lemma {:induction false} EvenTime(step: real, n: nat)
    ensures Time(Even(step, n)) == n as real * step
  {
    if n > 0 {
      EvenExtends(step, n);
      EvenTime(step, n - 1);
      assert (n - 1) as real * step + step == n as real * step;
    }
  }

  /** The landing simulation is the flight with 120 even steps a second. */
  lemma {:induction false} SimulationIsGlide(h: Heading, n: nat)
    ensures Simulated(h, n) == Glide(h, Even(STEP, n))
  {
    hide Advance;
    if n > 0 {
      EvenExtends(STEP, n);
      SimulationIsGlide(h, n - 1);
    }
  }

  // ------------------------------------------------- the unfolded track

  /** Where a bubble is on the straight line its bounces fold up: the walls met
      and the distance run, of which meeting a wall cuts off the overshoot. */
  datatype Track = Track(walls: nat, run: real)

  function Roll(t: Track, w: real): Track {
    var wall := BUBBLE_RADIUS + LANE * (t.walls + 1) as real;
    if t.run + w >= wall then Track(t.walls + 1, wall) else t.(run := t.run + w)
  }

  predicate InLane(t: Track) {
    BUBBLE_RADIUS + LANE * t.walls as real <= t.run <= BUBBLE_RADIUS + LANE * (t.walls + 1) as real
  }

  function Times(a: real, b: real): real { a * b }

  function Tracked(speed: real, steps: seq<real>): Track {
    if steps == [] then Track(0, BOARD_WIDTH / 2.0)
    else Roll(Tracked(speed, steps[..|steps| - 1]), Times(speed, steps[|steps| - 1]))
  }

  function Rightward(right: bool, t: Track): bool {
    right <==> t.walls % 2 == 0
  }

  function Offset(t: Track): real {
    t.run - LANE * t.walls as real
  }

  function Folded(right: bool, t: Track): real {
    if Rightward(right, t) then Offset(t) else BOARD_WIDTH - Offset(t)
  }

  ghost predicate OnTrack(m: Moving, right: bool, speed: real, t: Track) {
    && InLane(t) && m.x == Folded(right, t)
    && m.vx == if Rightward(right, t) then speed else -speed
  }

  lemma RollFollows(m: Moving, right: bool, speed: real, t: Track, dt: real)
    requires OnTrack(m, right, speed, t) && 0.0 <= speed <= SPEED && 0.0 <= dt <= MAX_DT
    ensures OnTrack(Advance(m, dt), right, speed, Roll(t, Times(speed, dt)))
  {
    var w := Times(speed, dt);
    SpanBound(speed, dt);
    assert m.vx * dt == if Rightward(right, t) then w else -w;
    RollOffset(t, w);
    hide Roll;
    BounceOffset(Offset(t), w, Rightward(right, t), speed);
  }

  lemma SpanBound(speed: real, dt: real)
    requires 0.0 <= speed <= SPEED && 0.0 <= dt <= MAX_DT
    ensures 0.0 <= Times(speed, dt) <= 17.16
  {
    NonNegativeProduct(speed, dt);
    NonNegativeProduct(520.0 - speed, dt);
    assert (520.0 - speed) * dt == 520.0 * dt - speed * dt;
  }

  lemma NonNegativeProduct(a: real, b: real)
    requires 0.0 <= a && 0.0 <= b
    ensures 0.0 <= a * b
  {
  }

  lemma RollOffset(t: Track, w: real)
    requires InLane(t) && 0.0 <= w <= 17.16
    ensures InLane(Roll(t, w))
    ensures var u, met := Roll(t, w), Offset(t) + w >= BUBBLE_RADIUS + LANE;
            && u.walls == t.walls + (if met then 1 else 0)
            && Offset(u) == if met then BUBBLE_RADIUS else Offset(t) + w
  {
    var k := t.walls as real;
    assert (t.walls + 1) as real == k + 1.0 && LANE * (k + 1.0) == LANE * k + LANE;
    assert (t.walls + 2) as real == k + 2.0 && LANE * (k + 2.0) == LANE * k + 2.0 * LANE;
  }

  /** One bounded step along the lane, as the bouncing bubble takes it. */
  lemma BounceOffset(off: real, w: real, forward: bool, speed: real)
    requires BUBBLE_RADIUS <= off <= BUBBLE_RADIUS + LANE && 0.0 <= w <= 17.16 && 0.0 <= speed
    ensures var x, vx := if forward then off + w else BOARD_WIDTH - off - w, if forward then speed else -speed;
            var met := off + w >= BUBBLE_RADIUS + LANE;
            if x <= BUBBLE_RADIUS then Abs(vx) == speed && (met <==> !forward) && (!met ==> off + w == BUBBLE_RADIUS)
            else if x >= BOARD_WIDTH - BUBBLE_RADIUS then
              Abs(vx) == speed && (met <==> forward) && (!met ==> off + w == BUBBLE_RADIUS)
            else !met
  {
  }

  lemma {:induction false} GlideKeepsTrack(h: Heading, right: bool, speed: real, steps: seq<real>)
    requires StepsWithin(steps, MAX_DT) && 0.0 <= speed <= SPEED
    requires OnTrack(Glide(h, []), right, speed, Tracked(speed, []))
    ensures OnTrack(Glide(h, steps), right, speed, Tracked(speed, steps))
    ensures Flight.OnCourse(Glide(h, steps), h, Time(steps))
  {
    if steps == [] {
      GlideStarts(h);
    } else {
      LastRoll(speed, steps);
      assert Glide(h, steps) == Advance(Glide(h, steps[..|steps| - 1]), steps[|steps| - 1]);
      hide OnTrack, Roll, Times, Advance, Flight.OnCourse, Glide, Tracked, Time;
      var n := |steps| - 1;
      var m := Glide(h, steps[..n]);
      GlideKeepsTrack(h, right, speed, steps[..n]);
      RollFollows(m, right, speed, Tracked(speed, steps[..n]), steps[n]);
      Flight.AdvanceStaysOnCourse(m, h, Time(steps[..n]), steps[n]);
    }
  }

  lemma LastRoll(speed: real, steps: seq<real>)
    requires steps != []
    ensures var n := |steps| - 1;
            && Tracked(speed, steps) == Roll(Tracked(speed, steps[..n]), Times(speed, steps[n]))
            && Time(steps) == Time(steps[..n]) + steps[n]
  {
    hide Roll, Times;
  }

  lemma GlideStarts(h: Heading)
    ensures OnTrack(Glide(h, []), h.cos >= 0.0, 520.0 * Abs(h.cos), Tracked(520.0 * Abs(h.cos), []))
    ensures Flight.OnCourse(Glide(h, []), h, Time([]))
  {
  }

  lemma GlideOnTrack(h: Heading, steps: seq<real>)
    requires Upward(h) && StepsWithin(steps, MAX_DT)
    ensures var speed := 520.0 * Abs(h.cos);
            && 0.0 <= speed <= SPEED
            && OnTrack(Glide(h, steps), h.cos >= 0.0, speed, Tracked(speed, steps))
    ensures Flight.OnCourse(Glide(h, steps), h, Time(steps))
  {
    CosineBound(h);
    GlideStarts(h);
    hide OnTrack, Roll, Advance, Flight.OnCourse, Glide, Tracked, Upward;
    GlideKeepsTrack(h, h.cos >= 0.0, 520.0 * Abs(h.cos), steps);
  }

  lemma CosineBound(h: Heading)
    requires Upward(h)
    ensures 0.0 <= Abs(h.cos) <= 1.0 && Abs(h.cos) * Abs(h.cos) == h.cos * h.cos
  {
    assert h.sin * h.sin >= 0.0;
    LargeSquares(h.cos, 1.0);
  }

  // ------------------------------------------------- products

  lemma TimesAdds(a: real, b: real, c: real)
    ensures Times(a, b + c) == Times(a, b) + Times(a, c)
    ensures Times(a, b - c) == Times(a, b) - Times(a, c)
  {
  }

  lemma TimesBy520(a: real, b: real)
    ensures Times(a, 520.0 * b) == 520.0 * Times(a, b) && Times(520.0 * a, b) == 520.0 * Times(a, b)
  {
  }

  lemma TimesBy528(a: real, b: real)
    ensures Times(a, 528.0 * b) == 528.0 * Times(a, b)
  {
  }

  lemma TimesBySmooth(a: real, b: real)
    ensures Times(a, 9.88 * b) == 9.88 * Times(a, b) && Times(520.0 * a, SMOOTH) == 9.88 * a
    ensures Times(9.88 * a, b) == 9.88 * Times(a, b)
  {
  }

  lemma TimesNegates(a: real, b: real)
    ensures Times(a, -b) == -Times(a, b)
  {
  }

  lemma TimesGrows(a: real, b: real, c: real)
    requires 0.0 <= a && b <= c
    ensures Times(a, b) <= Times(a, c)
  {
    NonNegativeProduct(a, c - b);
    TimesAdds(a, c, b);
  }

  lemma TimesShrinks(c: real, x: real)
    requires 0.0 <= c <= 1.0 && 0.0 <= x
    ensures 0.0 <= Times(c, x) <= x
  {
    NonNegativeProduct(c, x);
    NonNegativeProduct(1.0 - c, x);
    assert (1.0 - c) * x == x - c * x;
  }

  lemma UnitSplits(c: real, s: real, x: real)
    requires c * c + s * s == 1.0
    ensures Times(c, Times(c, x)) + Times(s, Times(s, x)) == x
  {
    assert c * (c * x) + s * (s * x) == (c * c + s * s) * x;
  }

  /** The square of a distance, along and across a line of flight. */
  lemma UnitTurns(c: real, s: real, x: real, lag: real)
    requires c * c + s * s == 1.0
    ensures RealSquare(Times(c, x) - lag) + RealSquare(Times(s, x)) ==
            RealSquare(x - Times(c, lag)) + RealSquare(Times(s, lag))
  {
    assert (c * x - lag) * (c * x - lag) == c * c * (x * x) - 2.0 * (c * x * lag) + lag * lag;
    assert (x - c * lag) * (x - c * lag) == x * x - 2.0 * (c * x * lag) + c * c * (lag * lag);
    assert (c * c + s * s) * (x * x) == x * x && (c * c + s * s) * (lag * lag) == lag * lag;
    assert (s * x) * (s * x) == s * s * (x * x) && (s * lag) * (s * lag) == s * s * (lag * lag);
  }

  // ------------------------------------------------- what bounces cut off

  /** Where the bubble would be if no wall ever cut a step short. */
  function Free(speed: real, steps: seq<real>): real {
    BOARD_WIDTH / 2.0 + Times(speed, Time(steps))
  }

  /** What was cut off so far is less than one step's width for each wall met. */
  ghost predicate Lags(t: Track, free: real, wide: real) {
    InLane(t) && BOARD_WIDTH / 2.0 <= t.run <= free <= t.run + Times(wide, t.walls as real)
  }

  lemma FreeMoves(speed: real, steps: seq<real>)
    requires steps != []
    ensures var n := |steps| - 1;
            && Free(speed, steps) == Free(speed, steps[..n]) + Times(speed, steps[n])
            && Tracked(speed, steps) == Roll(Tracked(speed, steps[..n]), Times(speed, steps[n]))
  {
    LastRoll(speed, steps);
    hide Roll, Tracked, Time, Times;
    TimesAdds(speed, Time(steps[..|steps| - 1]), steps[|steps| - 1]);
  }

  lemma NothingLags(speed: real, wide: real)
    ensures Lags(Tracked(speed, []), Free(speed, []), wide)
  {
  }

  lemma {:induction false} OvershootBound(speed: real, d: real, steps: seq<real>)
    requires 0.0 <= speed <= SPEED && 0.0 <= d <= MAX_DT && StepsWithin(steps, d)
    ensures Lags(Tracked(speed, steps), Free(speed, steps), Times(speed, d))
  {
    hide Lags, Free, Tracked, Times, Roll;
    if steps == [] {
      NothingLags(speed, Times(speed, d));
    } else {
      var n := |steps| - 1;
      OvershootBound(speed, d, steps[..n]);
      SpanBound(speed, steps[n]);
      TimesGrows(speed, steps[n], d);
      FreeMoves(speed, steps);
      RollLags(Tracked(speed, steps[..n]), Times(speed, steps[n]), Free(speed, steps[..n]), Times(speed, d));
    }
  }

  lemma RollLags(t: Track, w: real, free: real, wide: real)
    requires Lags(t, free, wide) && 0.0 <= w <= 17.16 && w <= wide
    ensures Lags(Roll(t, w), free + w, wide) && t.run <= Roll(t, w).run <= t.run + w
  {
    hide Times;
    RollOffset(t, w);
    TimesAdds(wide, t.walls as real, 1.0);
    TimesOf(wide, 0.0);
    assert (t.walls + 1) as real == t.walls as real + 1.0;
  }

  lemma TimesZero(a: real)
    ensures Times(a, 0.0) == 0.0
  {
  }

  lemma TimesOf(a: real, b: real)
    ensures Times(a, 1.0) == a && Times(a, 268.94) == 268.94 * a && Times(a, 672.0) == 672.0 * a
    ensures Times(a, 4.34 * b) == 4.34 * Times(a, b)
  {
  }

  /** So what is cut off is small against the distance run. */
  lemma LagShare(t: Track, free: real, wide: real)
    requires Lags(t, free, wide) && 0.0 <= wide
    ensures LANE * (free - t.run) <= Times(wide, t.run - BUBBLE_RADIUS)
  {
    hide Times;
    TimesGrows(wide, 528.0 * t.walls as real, t.run - BUBBLE_RADIUS);
    TimesBy528(wide, t.walls as real);
  }

  /** Folding two places of one line never takes them farther apart. */
  lemma FoldingContracts(right: bool, a: Track, b: Track)
    requires InLane(a) && InLane(b)
    ensures Abs(Folded(right, a) - Folded(right, b)) <= Abs(a.run - b.run)
    decreases a.walls > b.walls
  {
    if a.walls > b.walls {
      FoldingContracts(right, b, a);
    } else if b.walls >= a.walls + 2 {
      assert b.walls as real >= a.walls as real + 2.0;
    } else if b.walls == a.walls + 1 {
      assert b.walls as real == a.walls as real + 1.0;
      assert Rightward(right, b) == !Rightward(right, a);
    }
  }

  lemma QuadraticBound(c: real, s: real)
    requires 0.0 <= c && 0.0 <= s && c * c + s * s == 1.0
    ensures 273.28 * (c * s) + 672.0 * (c * c) <= 699.5
  {
    var e := s - 0.1954 * c;
    assert e * e == s * s - 0.3908 * (c * s) + 0.03818116 * (c * c) >= 0.0;
    NonNegativeProduct(c, s);
    NonNegativeProduct(c, c);
  }

  /** However steep the flight, what bounces cut off by the time of the hit
      shifts the line of flight sideways by less than 13.09. */
  lemma LagBound(c: real, s: real, lag: real, run: real, t: real)
    requires 0.0 <= c <= 1.0 && 0.0 <= s && c * c + s * s == 1.0
    requires 528.0 * lag <= 9.88 * Times(c, run - 16.0)
    requires run - 16.0 <= 268.94 + 520.0 * Times(c, t) && 520.0 * Times(s, t) <= 672.0 + 4.34 * s
    ensures Times(s, lag) <= ASIDE
  {
    var z, cs := run - 16.0, Times(c, s);
    QuadraticBound(c, s);
    NonNegativeProduct(c, s);
    NonNegativeProduct(c, c);
    Swap(c, s, t);
    Swap(c, s, z);
    hide Times;
    TimesGrows(s, 528.0 * lag, 9.88 * Times(c, z));
    TimesBy528(s, lag);
    TimesBySmooth(s, Times(c, z));
    TimesGrows(cs, z, 268.94 + 520.0 * Times(c, t));
    TimesAdds(cs, 268.94, 520.0 * Times(c, t));
    TimesBy520(cs, Times(c, t));
    TimesOf(cs, s);
    TimesGrows(Times(c, c), 520.0 * Times(s, t), 672.0 + 4.34 * s);
    TimesBy520(Times(c, c), Times(s, t));
    TimesOf(Times(c, c), s);
    TimesAdds(Times(c, c), 672.0, 4.34 * s);
    SmallCube(c, s);
  }

  lemma SmallCube(c: real, s: real)
    requires 0.0 <= c <= 1.0 && 0.0 <= s
    ensures Times(Times(c, c), s) <= Times(c, s)
  {
    NonNegativeProduct(c, s);
    NonNegativeProduct(1.0 - c, c * s);
    assert (1.0 - c) * (c * s) == c * s - c * c * s;
  }

  lemma Swap(c: real, s: real, x: real)
    ensures Times(s, Times(c, x)) == Times(Times(c, s), x)
    ensures Times(Times(c, s), Times(c, x)) == Times(Times(c, c), Times(s, x))
    ensures c * s == Times(c, s) && c * c == Times(c, c)
  {
  }

  // ------------------------------------------------- the hit

  /** When the simulated bubble halts. */
  function HitTime(n: nat): real { n as real * STEP }

  lemma HitTimeBound(board: Snapshot, h: Heading, n: nat)
    requires Upward(h) && FirstHalt(board, h, n)
    ensures 0.0 <= HitTime(n) <= 6.82 && 520.0 * Times(-h.sin, HitTime(n)) <= 672.0 - 4.34 * h.sin
  {
    hide Upward, Simulated, Hits, Abs;
    SineBound(h);
    if n == 1 {
      ClimbBound(h.sin, 0.0, SHOOTER_Y);
    } else {
      SimulationStaysOnCourse(h, n - 1);
      assert !Halts(board, Simulated(h, n - 1));
      ClimbBound(h.sin, HitTime(n - 1), Simulated(h, n - 1).y);
    }
    assert HitTime(n) == HitTime(n - 1) + STEP;
  }

  lemma ClimbBound(sin: real, t: real, y: real)
    requires -1.0 <= sin <= -0.19 && 0.0 <= t && y == 688.0 + sin * 520.0 * t && y > 16.0
    ensures t + STEP <= 6.82 && 520.0 * Times(-sin, t + STEP) <= 672.0 - 4.34 * sin
  {
    assert sin * 520.0 * t == -520.0 * (-sin * t);
    NonNegativeProduct(-sin - 0.19, t);
    assert (-sin - 0.19) * t == -sin * t - 0.19 * t;
    assert -sin * (t + STEP) == -sin * t + -sin * STEP;
  }

  // ------------------------------------------------- some frame is near the hit

  /** A flight: its direction without signs, and where and when its hit is. */
  datatype Flown = Flown(c: real, s: real, hitRun: real, hitTime: real)

  /** A place that steps of at most SMOOTH bring a bubble to by time t: behind
      the free flight by no more than its walls account for. */
  ghost predicate Behind(c: real, run: real, t: real) {
    && 0.0 <= t && 280.0 <= run <= 280.0 + 520.0 * Times(c, t)
    && 528.0 * (280.0 + 520.0 * Times(c, t) - run) <= 9.88 * Times(c, run - 16.0)
  }

  ghost predicate Proper(f: Flown) {
    && Unit(f.c, f.s)
    && Behind(f.c, f.hitRun, f.hitTime) && f.hitTime <= 6.82 && 520.0 * Times(f.s, f.hitTime) <= 672.0 + 4.34 * f.s
  }

  /** How far along the line of flight the animation is past the hit. */
  function Headway(f: Flown, run: real, t: real): real {
    Times(f.c, run - f.hitRun) + 520.0 * Times(f.s, Times(f.s, t - f.hitTime))
  }

  lemma FlownRanges(f: Flown)
    requires Proper(f)
    ensures 0.0 <= f.c <= 1.0 && 0.19 <= f.s <= 1.0
  {
  }

  lemma FlightSplits(f: Flown, x: real)
    requires Proper(f)
    ensures Times(f.c, Times(f.c, x)) + Times(f.s, Times(f.s, x)) == x
  {
    UnitSplits(f.c, f.s, x);
  }

  lemma FlightTurns(f: Flown, x: real, lag: real)
    requires Proper(f)
    ensures RealSquare(Times(f.c, x) - lag) + RealSquare(Times(f.s, x)) ==
            RealSquare(x - Times(f.c, lag)) + RealSquare(Times(f.s, lag))
  {
    UnitTurns(f.c, f.s, x, lag);
  }

  lemma ProgressMoves(f: Flown, run: real, t: real, more: real, dt: real)
    requires Proper(f) && 0.0 <= dt && 0.0 <= more <= 520.0 * Times(f.c, dt)
    ensures 0.0 <= Headway(f, run + more, t + dt) - Headway(f, run, t) <= 520.0 * dt
  {
    hide Times, Proper;
    FlownRanges(f);
    FlightSplits(f, dt);
    TimesAdds(f.c, run - f.hitRun, more);
    TimesAdds(f.s, t - f.hitTime, dt);
    TimesAdds(f.s, Times(f.s, t - f.hitTime), Times(f.s, dt));
    assert run + more - f.hitRun == run - f.hitRun + more && t + dt - f.hitTime == t - f.hitTime + dt;
    TimesShrinks(f.c, more);
    TimesShrinks(f.s, dt);
    TimesShrinks(f.s, Times(f.s, dt));
    TimesGrows(f.c, more, 520.0 * Times(f.c, dt));
    TimesBy520(f.c, Times(f.c, dt));
  }

  function HeadwayAfter(f: Flown, steps: seq<real>): real {
    Headway(f, Tracked(520.0 * f.c, steps).run, Time(steps))
  }

  lemma FrameMoves(f: Flown, steps: seq<real>)
    requires Proper(f) && steps != [] && StepsWithin(steps, SMOOTH)
    ensures 0.0 <= HeadwayAfter(f, steps) - HeadwayAfter(f, steps[..|steps| - 1]) <= 520.0 * SMOOTH
  {
    var n, speed := |steps| - 1, 520.0 * f.c;
    var t, dt := Tracked(speed, steps[..n]), steps[n];
    hide Headway, Tracked, Roll, Time, Lags, Free, Times, Behind;
    LastRoll(speed, steps);
    StaysInLane(speed, steps[..n]);
    SpanBound(speed, dt);
    RollRun(t, Times(speed, dt));
    TimesBy520(f.c, dt);
    ProgressMoves(f, t.run, Time(steps[..n]), Tracked(speed, steps).run - t.run, dt);
  }

  lemma StaysInLane(speed: real, steps: seq<real>)
    requires 0.0 <= speed <= SPEED && StepsWithin(steps, SMOOTH)
    ensures InLane(Tracked(speed, steps))
  {
    hide Tracked, Time, Times;
    OvershootBound(speed, SMOOTH, steps);
  }

  lemma RollRun(t: Track, w: real)
    requires InLane(t) && 0.0 <= w <= 17.16
    ensures 0.0 <= Roll(t, w).run - t.run <= w
  {
  }

  /** Frames advance by at most 520 * SMOOTH along the line of flight, so one of
      them is at most half of that away from the hit. */
  lemma {:induction false} SomeFrameIsClose(f: Flown, steps: seq<real>) returns (i: nat)
    requires Proper(f) && StepsWithin(steps, SMOOTH)
    requires HeadwayAfter(f, []) <= 0.0 <= HeadwayAfter(f, steps)
    ensures i <= |steps| && Abs(HeadwayAfter(f, steps[..i])) <= 260.0 * SMOOTH
  {
    hide Proper, HeadwayAfter;
    if steps == [] {
      i := 0;
      assert steps[..0] == [];
    } else {
      var n := |steps| - 1;
      FrameMoves(f, steps);
      if HeadwayAfter(f, steps[..n]) >= 0.0 {
        i := SomeFrameIsClose(f, steps[..n]);
        assert steps[..n][..i] == steps[..i];
      } else if HeadwayAfter(f, steps) <= 260.0 * SMOOTH {
        i := n + 1;
        assert steps[..n + 1] == steps;
      } else {
        i := n;
      }
    }
  }

  /** How much farther behind the animation is than the simulation was. */
  function Lag(f: Flown, run: real, t: real): real {
    (280.0 + 520.0 * Times(f.c, t) - run) - (280.0 + 520.0 * Times(f.c, f.hitTime) - f.hitRun)
  }

  lemma ProgressIsTimeLessLag(f: Flown, run: real, t: real)
    requires Proper(f)
    ensures var a, b, lag := run - f.hitRun, 520.0 * Times(f.s, t - f.hitTime), Lag(f, run, t);
            && Headway(f, run, t) == 520.0 * (t - f.hitTime) - Times(f.c, lag)
            && RealSquare(a) + RealSquare(b) == RealSquare(Headway(f, run, t)) + RealSquare(Times(f.s, lag))
            && a == Times(f.c, Headway(f, run, t)) - Times(f.s, Times(f.s, lag))
  {
    hide Times, RealSquare, Proper;
    TimesAdds(f.c, t, f.hitTime);
    AlongAndAcross(f, run - f.hitRun, t - f.hitTime, Lag(f, run, t));
  }

  lemma AlongAndAcross(f: Flown, gap: real, tau: real, lag: real)
    requires Proper(f) && gap == 520.0 * Times(f.c, tau) - lag
    ensures var p := Times(f.c, gap) + 520.0 * Times(f.s, Times(f.s, tau));
            && p == 520.0 * tau - Times(f.c, lag)
            && RealSquare(gap) + RealSquare(520.0 * Times(f.s, tau)) == RealSquare(p) + RealSquare(Times(f.s, lag))
            && gap == Times(f.c, p) - Times(f.s, Times(f.s, lag))
  {
    hide Times, RealSquare, Proper;
    var x, y := 520.0 * tau, Times(f.c, 520.0 * tau);
    FlightSplits(f, x);
    FlightSplits(f, lag);
    FlightTurns(f, x, lag);
    TimesBy520(f.c, tau);
    TimesBy520(f.s, tau);
    TimesBy520(f.s, Times(f.s, tau));
    assert gap == y - lag && 520.0 * Times(f.s, tau) == Times(f.s, x);
    TimesAdds(f.c, y, lag);
    TimesAdds(f.c, x, Times(f.c, lag));
  }

  lemma ProgressStarts(f: Flown)
    requires Proper(f)
    ensures HeadwayAfter(f, []) <= 0.0
  {
    hide Times;
    TimesZero(f.c);
    TimesZero(f.s);
    TimesGrows(f.c, 280.0 - f.hitRun, 0.0);
    TimesGrows(f.s, 0.0 - f.hitTime, 0.0);
    TimesGrows(f.s, Times(f.s, 0.0 - f.hitTime), 0.0);
  }

  lemma FramesPassTheHit(f: Flown, run: real, t: real)
    requires Proper(f) && Behind(f.c, run, t) && t >= 7.0
    ensures Headway(f, run, t) >= 0.0
  {
    var lag := Lag(f, run, t);
    ProgressIsTimeLessLag(f, run, t);
    hide Headway, Times;
    TimesShrinks(f.c, t);
    TimesShrinks(f.c, run - 16.0);
    TimesShrinks(f.c, if lag >= 0.0 then lag else 0.0);
    TimesGrows(f.c, lag, if lag >= 0.0 then lag else 0.0);
  }

  lemma LagIsSmall(f: Flown, run: real, t: real)
    requires Proper(f) && Behind(f.c, run, t) && Abs(Headway(f, run, t)) <= 260.0 * SMOOTH
    ensures -ASIDE <= Times(f.s, Lag(f, run, t)) <= ASIDE
  {
    ProgressIsTimeLessLag(f, run, t);
    if Lag(f, run, t) >= 0.0 {
      LagsMore(f, run, t, Headway(f, run, t), Lag(f, run, t));
    } else {
      LagsLess(f, run, t, Lag(f, run, t));
    }
  }

  /** The animation lags more than the simulation did: its own walls bound that. */
  lemma LagsMore(f: Flown, run: real, t: real, p: real, lag: real)
    requires Proper(f) && Behind(f.c, run, t) && Abs(p) <= 260.0 * SMOOTH && lag == Lag(f, run, t) >= 0.0
    requires run - f.hitRun == Times(f.c, p) - Times(f.s, Times(f.s, lag))
    ensures 0.0 <= Times(f.s, lag) <= ASIDE
  {
    hide Times;
    TimesShrinks(f.s, lag);
    TimesShrinks(f.s, Times(f.s, lag));
    TimesShrinks(f.c, 260.0 * SMOOTH);
    TimesGrows(f.c, p, 260.0 * SMOOTH);
    LagBound(f.c, f.s, lag, run, f.hitTime);
  }

  /** It lags less: then the walls of the simulation bound the difference. */
  lemma LagsLess(f: Flown, run: real, t: real, lag: real)
    requires Proper(f) && Behind(f.c, run, t) && lag == Lag(f, run, t) < 0.0
    ensures -ASIDE <= Times(f.s, lag) <= 0.0
  {
    var hitLag := 280.0 + 520.0 * Times(f.c, f.hitTime) - f.hitRun;
    hide Times;
    TimesGrows(f.s, -lag, hitLag);
    TimesNegates(f.s, lag);
    TimesShrinks(f.s, -lag);
    LagBound(f.c, f.s, hitLag, f.hitRun, f.hitTime);
  }

  lemma CloseFrameIsNear(f: Flown, run: real, t: real)
    requires Proper(f) && Behind(f.c, run, t) && Abs(Headway(f, run, t)) <= 260.0 * SMOOTH
    ensures RealSquare(run - f.hitRun) + RealSquare(520.0 * Times(f.s, t - f.hitTime)) <= NEAR * NEAR
  {
    ProgressIsTimeLessLag(f, run, t);
    LagIsSmall(f, run, t);
    hide Headway, Proper, Behind, Lag, Times, RealSquare;
    SquareWithin(Headway(f, run, t), 260.0 * SMOOTH);
    SquareWithin(Times(f.s, Lag(f, run, t)), ASIDE);
  }

  // ------------------------------------------------- every smooth animation lands

  lemma StepsAreBehind(c: real, steps: seq<real>)
    requires 0.0 <= c <= 1.0 && StepsWithin(steps, SMOOTH)
    ensures Behind(c, Tracked(520.0 * c, steps).run, Time(steps)) && InLane(Tracked(520.0 * c, steps))
  {
    var speed, t := 520.0 * c, Tracked(520.0 * c, steps);
    hide Times, Tracked, Time;
    TimeIsNatural(steps);
    OvershootBound(speed, SMOOTH, steps);
    SpanBound(speed, SMOOTH);
    LagShare(t, Free(speed, steps), Times(speed, SMOOTH));
    TimesBy520(c, Time(steps));
    TimesBySmooth(c, t.run - 16.0);
  }

  lemma {:induction false} TimeIsNatural(steps: seq<real>)
    requires StepsWithin(steps, SMOOTH)
    ensures 0.0 <= Time(steps)
  {
    if steps != [] {
      TimeIsNatural(steps[..|steps| - 1]);
    }
  }

  /** The flight of a shot whose simulation halts at step n. */
  ghost function FlightOf(h: Heading, n: nat): Flown {
    Flown(Abs(h.cos), -h.sin, Tracked(520.0 * Abs(h.cos), Even(STEP, n)).run, HitTime(n))
  }

  ghost predicate Unit(c: real, s: real) {
    0.0 <= c <= 1.0 && 0.19 <= s <= 1.0 && c * c + s * s == 1.0
  }

  lemma UnitRange(c: real, s: real)
    requires Unit(c, s)
    ensures 0.0 <= c <= 1.0 && 0.19 <= s <= 1.0
  {
  }

  lemma UnitHeading(h: Heading)
    requires Upward(h)
    ensures Unit(Abs(h.cos), -h.sin)
  {
    CosineBound(h);
    SineBound(h);
    assert -h.sin * -h.sin == h.sin * h.sin;
  }

  lemma FlightIsProper(board: Snapshot, h: Heading, n: nat)
    requires Upward(h) && FirstHalt(board, h, n)
    ensures Proper(FlightOf(h, n))
  {
    hide Times, Tracked, Time, FirstHalt, Behind, Even, Abs, Upward, HitTime, Proper, Unit;
    UnitHeading(h);
    HitTimeBound(board, h, n);
    EvenTime(STEP, n);
    HitTimeIs(n);
    UnitRange(Abs(h.cos), -h.sin);
    StepsAreBehind(Abs(h.cos), Even(STEP, n));
    ProperFlight(FlightOf(h, n));
  }

  lemma ProperFlight(f: Flown)
    requires Unit(f.c, f.s) && Behind(f.c, f.hitRun, f.hitTime)
    requires f.hitTime <= 6.82 && 520.0 * Times(f.s, f.hitTime) <= 672.0 + 4.34 * f.s
    ensures Proper(f)
  {
    hide Times, Behind;
  }

  lemma HitTimeIs(n: nat)
    ensures HitTime(n) == n as real * STEP
  {
  }

  lemma SidewaysDistance(h: Heading, steps: seq<real>, sim: seq<real>)
    requires Upward(h) && StepsWithin(steps, SMOOTH) && StepsWithin(sim, SMOOTH)
    ensures var speed := 520.0 * Abs(h.cos);
            RealSquare(Glide(h, steps).x - Glide(h, sim).x) <=
            RealSquare(Tracked(speed, steps).run - Tracked(speed, sim).run)
  {
    GlideOnTrack(h, steps);
    GlideOnTrack(h, sim);
    var speed := 520.0 * Abs(h.cos);
    hide Upward, Glide, Tracked, RealSquare, Folded, InLane, Flight.OnCourse;
    FoldingContracts(h.cos >= 0.0, Tracked(speed, steps), Tracked(speed, sim));
    SquareContracts(Glide(h, steps).x - Glide(h, sim).x, Tracked(speed, steps).run - Tracked(speed, sim).run);
  }

  lemma HeightDistance(h: Heading, steps: seq<real>, sim: seq<real>)
    requires Upward(h) && StepsWithin(steps, SMOOTH) && StepsWithin(sim, SMOOTH)
    ensures RealSquare(Glide(h, steps).y - Glide(h, sim).y) ==
            RealSquare(520.0 * Times(-h.sin, Time(steps) - Time(sim)))
  {
    GlideHeight(h, steps);
    GlideHeight(h, sim);
    hide Upward, Glide, RealSquare, Time, Times;
    TimesAdds(-h.sin, Time(steps), Time(sim));
    Flight.SquareOfOpposite(Glide(h, steps).y - Glide(h, sim).y, 520.0 * Times(-h.sin, Time(steps) - Time(sim)));
  }

  lemma GlideHeight(h: Heading, steps: seq<real>)
    requires Upward(h) && StepsWithin(steps, MAX_DT)
    ensures Glide(h, steps).y == SHOOTER_Y - 520.0 * Times(-h.sin, Time(steps))
  {
    GlideOnTrack(h, steps);
    hide Upward, Glide, Time, OnTrack, Tracked, Times, Flight.OnCourse;
    HeightOf(Glide(h, steps), h, Time(steps));
  }

  lemma HeightOf(m: Moving, h: Heading, t: real)
    requires Flight.OnCourse(m, h, t)
    ensures m.y == SHOOTER_Y - 520.0 * Times(-h.sin, t)
  {
    assert h.sin * SPEED * t == -(520.0 * (-h.sin * t));
  }

  /** Distances between the animated and the simulated bubble, from the tracks. */
  lemma FrameDistance(h: Heading, steps: seq<real>, n: nat)
    requires Upward(h) && StepsWithin(steps, SMOOTH)
    ensures var f, m, hit := FlightOf(h, n), Glide(h, steps), Simulated(h, n);
            && RealSquare(m.x - hit.x) <= RealSquare(Tracked(520.0 * f.c, steps).run - f.hitRun)
            && RealSquare(m.y - hit.y) == RealSquare(520.0 * Times(f.s, Time(steps) - f.hitTime))
  {
    SimulationIsGlide(h, n);
    EvenTime(STEP, n);
    hide Upward, Glide, Simulated, Tracked, Time, Times, RealSquare, Even;
    SidewaysDistance(h, steps, Even(STEP, n));
    HeightDistance(h, steps, Even(STEP, n));
  }

  lemma SquareContracts(a: real, b: real)
    requires Abs(a) <= Abs(b)
    ensures RealSquare(a) <= RealSquare(b)
  {
    Flight.SquareBound(a, b);
  }

  predicate NearAfter(h: Heading, x: real, y: real, steps: seq<real>) {
    Near(Glide(h, steps).x, Glide(h, steps).y, x, y)
  }

  /** The frame after these steps is within reach of the simulated hit. */
  predicate Arrived(h: Heading, n: nat, steps: seq<real>) {
    NearAfter(h, Simulated(h, n).x, Simulated(h, n).y, steps)
  }

  ghost predicate Lands(h: Heading, n: nat, frames: seq<real>) {
    exists i :: 1 <= i <= |frames| && Arrived(h, n, frames[..i])
  }

  lemma CloseFrameArrives(h: Heading, n: nat, steps: seq<real>)
    requires Upward(h) && Proper(FlightOf(h, n)) && StepsWithin(steps, SMOOTH)
    requires Abs(HeadwayAfter(FlightOf(h, n), steps)) <= 260.0 * SMOOTH
    ensures Arrived(h, n, steps)
  {
    var f := FlightOf(h, n);
    CosineBound(h);
    hide Upward, Glide, Simulated, Tracked, Time, RealSquare, Proper, Behind, Headway;
    StepsAreBehind(f.c, steps);
    CloseFrameIsNear(f, Tracked(520.0 * f.c, steps).run, Time(steps));
    FrameDistance(h, steps, n);
  }

  /** When even the start is near the hit, that hit is one of the first two
      simulated steps. */
  lemma EarlyHit(f: Flown)
    requires Proper(f) && HeadwayAfter(f, []) >= -260.0 * SMOOTH
    ensures f.hitTime <= 0.02
  {
    var hitLag := 280.0 + 520.0 * Times(f.c, f.hitTime) - f.hitRun;
    ProgressIsTimeLessLag(f, 280.0, 0.0);
    TimesZero(f.c);
    FlownRanges(f);
    hide Headway, Times;
    TimesNegates(f.c, hitLag);
    TimesShrinks(f.c, f.hitTime);
    TimesShrinks(f.c, f.hitRun - 16.0);
    TimesShrinks(f.c, hitLag);
  }

  lemma StraightStart(h: Heading, m: Moving, dt: real)
    requires Upward(h) && 0.0 <= dt <= SMOOTH && 272.0 <= m.x <= 288.0 && m.vx == h.cos * SPEED
    ensures Advance(m, dt) == m.(x := m.x + 520.0 * Times(h.cos, dt), y := m.y + m.vy * dt)
  {
    CosineBound(h);
    hide Upward;
    TimesShrinks(Abs(h.cos), dt);
    TimesNegates(dt, h.cos);
  }

  lemma StraightFrame(h: Heading, dt: real)
    requires Upward(h) && 0.0 <= dt <= SMOOTH
    ensures Glide(h, [dt]).x == 280.0 + Times(h.cos, 520.0 * dt)
    ensures Glide(h, [dt]).y == 688.0 + Times(h.sin, 520.0 * dt)
  {
    var m := Glide(h, []);
    assert [dt][..0] == [];
    assert Glide(h, [dt]) == Advance(m, dt);
    StraightStart(h, m, dt);
    hide Upward, Advance;
    TimesBy520(h.cos, dt);
    TimesBy520(h.sin, dt);
    assert h.sin * SPEED * dt == 520.0 * Times(h.sin, dt);
  }

  lemma StraightSimulation(h: Heading, n: nat)
    requires Upward(h) && 1 <= n <= 2
    ensures var t := 520.0 * (n as real * STEP);
            Simulated(h, n).x == 280.0 + Times(h.cos, t) && Simulated(h, n).y == 688.0 + Times(h.sin, t)
  {
    var m := Simulated(h, 0);
    StraightStart(h, m, STEP);
    assert Simulated(h, 1) == Advance(m, STEP);
    CosineBound(h);
    if n == 2 {
      StraightStart(h, Simulated(h, 1), STEP);
      assert Simulated(h, 2) == Advance(Simulated(h, 1), STEP);
    }
  }

  /** And then the first frame is near it too. */
  lemma FirstFrameArrives(h: Heading, n: nat, dt: real)
    requires Upward(h) && 1 <= n <= 2 && 0.0 <= dt <= SMOOTH
    ensures Arrived(h, n, [dt])
  {
    StraightFrame(h, dt);
    StraightSimulation(h, n);
    hide Simulated, Glide, Upward, Near, Times;
    ShiftIsNear(h, 520.0 * dt, 520.0 * (n as real * STEP));
  }

  lemma ShiftIsNear(h: Heading, t: real, u: real)
    requires Upward(h) && -9.88 <= t - u <= 9.88
    ensures Near(280.0 + Times(h.cos, t), 688.0 + Times(h.sin, t), 280.0 + Times(h.cos, u), 688.0 + Times(h.sin, u))
  {
    var c, s := h.cos, h.sin;
    SquareWithin(t - u, 9.88);
    UnitSquares(c, s, t - u);
    TimesAdds(c, t, u);
    TimesAdds(s, t, u);
    hide RealSquare, Times;
    assert 280.0 + Times(c, t) - (280.0 + Times(c, u)) == Times(c, t - u);
    assert 688.0 + Times(s, t) - (688.0 + Times(s, u)) == Times(s, t - u);
  }

  lemma UnitSquares(c: real, s: real, k: real)
    requires c * c + s * s == 1.0
    ensures RealSquare(Times(c, k)) + RealSquare(Times(s, k)) == RealSquare(k)
  {
    assert (c * k) * (c * k) + (s * k) * (s * k) == (c * c + s * s) * (k * k);
  }

  /** At 19 milliseconds a frame or less, whatever the frames and the board, some
      frame is within 14 of the hit no later than 7 seconds after the shot. */
  lemma SmoothAnimationLands(board: Snapshot, h: Heading, n: nat, frames: seq<real>) returns (i: nat)
    requires Upward(h) && FirstHalt(board, h, n)
    requires StepsWithin(frames, SMOOTH) && Time(frames) >= 7.0
    ensures 1 <= i <= |frames| && Arrived(h, n, frames[..i])
  {
    var f, c := FlightOf(h, n), Abs(h.cos);
    FlightIsProper(board, h, n);
    CosineBound(h);
    assert frames != [];
    assert n >= 1;
    hide Upward, FirstHalt, Tracked, Time, Proper, Behind, Headway, Arrived;
    ProgressStarts(f);
    StepsAreBehind(c, frames);
    FramesPassTheHit(f, Tracked(520.0 * c, frames).run, Time(frames));
    i := SomeFrameIsClose(f, frames);
    if i == 0 {
      assert frames[..0] == [];
      EarlyHit(f);
      HitTimeIs(n);
      i := 1;
      assert frames[..1] == [frames[0]];
      FirstFrameArrives(h, n, frames[0]);
    } else {
      CloseFrameArrives(h, n, frames[..i]);
    }
  }

  lemma SmoothLands(board: Snapshot, h: Heading, n: nat, frames: seq<real>)
    requires Upward(h) && FirstHalt(board, h, n)
    requires StepsWithin(frames, SMOOTH) && Time(frames) >= 7.0
    ensures Lands(h, n, frames)
  {
    hide Upward, FirstHalt, Time, Arrived;
    var i := SmoothAnimationLands(board, h, n, frames);
  }

  // ------------------------------------------------- the page's object, frame by frame

  /** The capped time steps that frames at these time stamps make. */
  function FrameSteps(last: real, stamps: seq<real>): (steps: seq<real>)
    ensures |steps| == |stamps| && StepsWithin(steps, MAX_DT)
    decreases |stamps|
  {
    if stamps == [] then [] else [FrameStep(last, stamps[0])] + FrameSteps(stamps[0], stamps[1..])
  }

  /** Frame i is the first within reach of the point. */
  ghost predicate FirstNear(h: Heading, x: real, y: real, steps: seq<real>, i: nat) {
    1 <= i <= |steps| && NearAfter(h, x, y, steps[..i]) && FarBefore(h, x, y, steps, i - 1)
  }

  ghost predicate FarBefore(h: Heading, x: real, y: real, steps: seq<real>, i: nat) {
    i <= |steps| && forall k :: 1 <= k <= i ==> !NearAfter(h, x, y, steps[..k])
  }

  lemma NextFrame(h: Heading, x: real, y: real, steps: seq<real>, i: nat)
    requires i < |steps|
    ensures Glide(h, steps[..i + 1]) == Advance(Glide(h, steps[..i]), steps[i])
    ensures FarBefore(h, x, y, steps, i) && NearAfter(h, x, y, steps[..i + 1]) ==> FirstNear(h, x, y, steps, i + 1)
    ensures FarBefore(h, x, y, steps, i) && !NearAfter(h, x, y, steps[..i + 1]) ==> FarBefore(h, x, y, steps, i + 1)
  {
    hide Advance, NearAfter;
    assert steps[..i + 1][..i] == steps[..i];
  }

  /** A shot through the frames that follow it: its landing is sent exactly when
      some frame is near the hit and the connection is up at the first of them. */
  method AnimateShot(shot: LocalShot, ghost h: Heading, stamps: seq<real>, up: seq<bool>)
    returns (sent: Option<Landing>, ghost first: nat)
    requires shot.Flying && shot.Value() == Glide(h, []) && |up| == |stamps|
    modifies shot
    ensures var steps := FrameSteps(old(shot.LastFrameTS), stamps);
            if shot.Flying then FarBefore(h, old(shot.HitX), old(shot.HitY), steps, |steps|) && sent == None
            else
              && FirstNear(h, old(shot.HitX), old(shot.HitY), steps, first)
              && sent == if up[first - 1] then Some(Landing(old(shot.Angle), old(shot.HitX), old(shot.HitY))) else None
  {
    hide Glide, FrameSteps, Near, Advance, FirstNear, FarBefore;
    ghost var steps := FrameSteps(shot.LastFrameTS, stamps);
    ghost var x, y := shot.HitX, shot.HitY;
    sent, first := None, 0;
    NoFrames(h, x, y, steps);
    for i := 0 to |stamps|
      invariant shot.HitX == x && shot.HitY == y && shot.Angle == old(shot.Angle)
      invariant shot.LastFrameTS == if i == 0 then old(shot.LastFrameTS) else stamps[i - 1]
      invariant shot.Flying ==> shot.Value() == Glide(h, steps[..i]) && sent == None && FarBefore(h, x, y, steps, i)
      invariant !shot.Flying ==> 1 <= first <= |up| && FirstNear(h, x, y, steps, first)
      invariant !shot.Flying ==> sent == if up[first - 1] then Some(Landing(shot.Angle, x, y)) else None
    {
      NextFrame(h, x, y, steps, i);
      StepAt(old(shot.LastFrameTS), stamps, i);
      var flying := shot.Flying;
      var land := shot.AdvanceLocalShot(stamps[i], up[i]);
      if flying {
        assert NearAfter(h, x, y, steps[..i + 1]) <==> Near(shot.X, shot.Y, x, y);
      }
      if flying && !shot.Flying {
        sent, first := land, i + 1;
      }
    }
  }

  lemma {:induction false} StepAt(last: real, stamps: seq<real>, i: nat)
    requires i < |stamps|
    ensures FrameSteps(last, stamps)[i] == FrameStep(if i == 0 then last else stamps[i - 1], stamps[i])
    decreases i
  {
    hide FrameStep;
    if i > 0 {
      StepAt(stamps[0], stamps[1..], i - 1);
    }
  }

  lemma NoFrames(h: Heading, x: real, y: real, steps: seq<real>)
    ensures steps[..0] == [] && FarBefore(h, x, y, steps, 0)
  {
  }

  /** So a shot aimed at its simulated hit is over within 7 seconds of smooth
      frames, and its landing is sent if the connection stays up. */
  method PlayShot(board: Snapshot, angle: real, h: Heading, start: real, stamps: seq<real>)
    returns (sent: Option<Landing>)
    requires Upward(h) && StepsWithin(FrameSteps(start, stamps), SMOOTH) && Time(FrameSteps(start, stamps)) >= 7.0
    ensures exists n: nat ::
              FirstHalt(board, h, n) && sent == Some(Landing(angle, Simulated(h, n).x, Simulated(h, n).y))
  {
    var hit;
    ghost var n;
    hit, n := SimulateLanding(board, h);
    var shot := new LocalShot.BeginLocalShot(angle, h, hit.value.0, hit.value.1, start);
    ghost var i := SmoothAnimationLands(board, h, n, FrameSteps(start, stamps));
    hide Upward, FirstHalt, Simulated, Glide, Time, Near;
    ghost var first;
    sent, first := AnimateShot(shot, h, stamps, seq(|stamps|, k => true));
  }
}
