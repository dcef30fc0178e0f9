/** Animations that miss their hit at low frame rates, on a board the server may
    deal, and the bound on the frames that follows. */
module FrameRates {
  import opened Boards
  import opened Placement
  import opened Rules
  import opened Client
  import opened Animation
  import Flight

  /** Steps inside one lane add up. */
  lemma {:induction false} LegAfter(speed: real, before: seq<real>, t: Track, step: real, w: real, j: nat)
    requires Tracked(speed, before) == t && Times(speed, step) == w && 0.0 <= w
    requires t.run + Times(w, j as real) < BUBBLE_RADIUS + LANE * (t.walls + 1) as real
    ensures Tracked(speed, before + Even(step, j)) == Track(t.walls, t.run + Times(w, j as real))
  {
    hide Tracked, Times;
    if j == 0 {
      TimesZero(w);
      assert before + Even(step, 0) == before;
    } else {
      assert j as real == (j - 1) as real + 1.0;
      TimesAdds(w, (j - 1) as real, 1.0);
      TimesOf(w, 0.0);
      LegAfter(speed, before, t, step, w, j - 1);
      EvenExtends(step, j);
      assert before + Even(step, j) == before + Even(step, j - 1) + [step];
      OneMore(speed, before + Even(step, j - 1), step);
    }
  }

  lemma OneMore(speed: real, before: seq<real>, step: real)
    ensures Tracked(speed, before + [step]) == Roll(Tracked(speed, before), Times(speed, step))
  {
    hide Roll, Times;
    assert (before + [step])[..|before|] == before;
  }

  /** And the step after them meets the wall. */
  lemma WallAfter(speed: real, before: seq<real>, t: Track, step: real, w: real, j: nat, last: real)
    requires Tracked(speed, before) == t && Times(speed, step) == w && 0.0 <= w
    requires var wall := BUBBLE_RADIUS + LANE * (t.walls + 1) as real;
             t.run + Times(w, j as real) < wall <= t.run + Times(w, j as real) + Times(speed, last)
    ensures Tracked(speed, before + Even(step, j) + [last]) ==
            Track(t.walls + 1, BUBBLE_RADIUS + LANE * (t.walls + 1) as real)
  {
    hide Tracked, Times;
    LegAfter(speed, before, t, step, w, j);
    OneMore(speed, before + Even(step, j), last);
  }

  lemma EvenWall(speed: real, step: real, n: nat, t: Track, w: real, j: nat)
    requires Tracked(speed, Even(step, n)) == t && Times(speed, step) == w && 0.0 <= w
    requires var wall := BUBBLE_RADIUS + LANE * (t.walls + 1) as real;
             t.run + Times(w, j as real) < wall <= t.run + Times(w, j as real) + w
    ensures Tracked(speed, Even(step, n + j + 1)) ==
            Track(t.walls + 1, BUBBLE_RADIUS + LANE * (t.walls + 1) as real)
  {
    hide Tracked, Times;
    WallAfter(speed, Even(step, n), t, step, w, j, step);
    assert Even(step, n) + Even(step, j) + [step] == Even(step, n + j + 1);
  }

  lemma EvenLeg(speed: real, step: real, n: nat, t: Track, w: real, j: nat)
    requires Tracked(speed, Even(step, n)) == t && Times(speed, step) == w && 0.0 <= w
    requires t.run + Times(w, j as real) < BUBBLE_RADIUS + LANE * (t.walls + 1) as real
    ensures Tracked(speed, Even(step, n + j)) == Track(t.walls, t.run + Times(w, j as real))
  {
    hide Tracked, Times;
    LegAfter(speed, Even(step, n), t, step, w, j);
    assert Even(step, n) + Even(step, j) == Even(step, n + j);
  }

  lemma NothingRun(speed: real, step: real)
    ensures Tracked(speed, Even(step, 0)) == Track(0, 280.0)
  {
  }

  /** A deal without a single bubble, which the draws allow. */
  ghost function BareDeal(): Deal {
    Deal(0, 0, p => EMPTY, 0)
  }

  lemma BareBoardHalts(m: Moving)
    ensures Halts(SnapshotOf(InitialGame(BareDeal()).board), m) <==> m.y <= BUBBLE_RADIUS
  {
    HaltsIsStops(InitialGame(BareDeal()).board, m);
    hide Halts;
  }

  lemma BareDealIsPlayed(angle: real, now: int)
    ensures BeginShot(InitialGame(BareDeal()), angle, now).Ok?
  {
  }

  /** On that board the simulation goes up to the ceiling. */
  lemma BareHit(h: Heading, n: nat)
    requires Upward(h) && n >= 1 && HeightAt(h, n) <= 16.0 < HeightAt(h, n - 1)
    ensures FirstHalt(SnapshotOf(InitialGame(BareDeal()).board), h, n)
  {
    hide Simulated, Halts, Upward, HeightAt;
    var board := SnapshotOf(InitialGame(BareDeal()).board);
    BareHeight(h, n);
    forall k: nat | k < n ensures !Halts(board, Simulated(h, k)) {
      BareHeight(h, k);
      HeightFalls(h, k, n - 1);
    }
  }

  function HeightAt(h: Heading, n: nat): real {
    688.0 + 520.0 * Times(h.sin, n as real * STEP)
  }

  lemma BareHeight(h: Heading, n: nat)
    ensures Simulated(h, n).y == HeightAt(h, n)
    ensures Halts(SnapshotOf(InitialGame(BareDeal()).board), Simulated(h, n)) <==> HeightAt(h, n) <= 16.0
  {
    SimulationStaysOnCourse(h, n);
    BareBoardHalts(Simulated(h, n));
    hide Simulated, Halts;
    assert h.sin * SPEED * (n as real * STEP) == 520.0 * Times(h.sin, n as real * STEP);
  }

  lemma HeightFalls(h: Heading, k: nat, n: nat)
    requires Upward(h) && k <= n
    ensures HeightAt(h, n) <= HeightAt(h, k)
  {
    SineBound(h);
    NonNegativeProduct(-h.sin, n as real * STEP - k as real * STEP);
    TimesAdds(h.sin, n as real * STEP, k as real * STEP);
  }

  lemma FarApart(x: real, y: real, hitX: real, hitY: real)
    requires Abs(x - hitX) > NEAR || Abs(y - hitY) > NEAR
    ensures !Near(x, y, hitX, hitY)
  {
    FarSquare(x - hitX);
    FarSquare(y - hitY);
  }

  lemma ArrivedIsNear(h: Heading, n: nat, steps: seq<real>)
    ensures Arrived(h, n, steps) <==>
            Near(Glide(h, steps).x, Glide(h, steps).y, Simulated(h, n).x, Simulated(h, n).y)
  {
    hide Glide, Simulated, Near;
  }

  lemma FarSquare(a: real)
    ensures RealSquare(a) >= 0.0 && (Abs(a) > NEAR ==> RealSquare(a) > NEAR * NEAR)
  {
    LargeSquares(a, NEAR);
    assert a * a >= 0.0;
  }

  // ------------------------------------------------- steady frames at the cap

  const SHALLOW := Heading(0.96, -0.28)
  const HIT_STEP := 554

  lemma ShallowSimulation()
    ensures Tracked(499.2, Even(STEP, HIT_STEP)) == Track(4, 2581.44)
  {
    assert Times(499.2, STEP) == 4.16;
    assert Times(4.16, 63.0) == 262.08 && Times(4.16, 126.0) == 524.16 && Times(4.16, 109.0) == 453.44;
    hide Tracked, Times, Roll, Even;
    NothingRun(499.2, STEP);
    EvenWall(499.2, STEP, 0, Track(0, 280.0), 4.16, 63);
    EvenWall(499.2, STEP, 64, Track(1, 544.0), 4.16, 126);
    EvenWall(499.2, STEP, 191, Track(2, 1072.0), 4.16, 126);
    EvenWall(499.2, STEP, 318, Track(3, 1600.0), 4.16, 126);
    EvenLeg(499.2, STEP, 445, Track(4, 2128.0), 4.16, 109);
  }

  lemma ShallowAnimation(n: nat)
    requires 116 <= n <= 148
    ensures Tracked(499.2, Even(MAX_DT, n)) == Track(4, 2128.0 + 16.4736 * (n - 116) as real)
  {
    assert Times(499.2, MAX_DT) == 16.4736;
    assert Times(16.4736, 16.0) == 263.5776 && Times(16.4736, 32.0) == 527.1552;
    assert Times(16.4736, (n - 116) as real) == 16.4736 * (n - 116) as real;
    hide Tracked, Times, Roll, Even;
    NothingRun(499.2, MAX_DT);
    EvenWall(499.2, MAX_DT, 0, Track(0, 280.0), 16.4736, 16);
    EvenWall(499.2, MAX_DT, 17, Track(1, 544.0), 16.4736, 32);
    EvenWall(499.2, MAX_DT, 50, Track(2, 1072.0), 16.4736, 32);
    EvenWall(499.2, MAX_DT, 83, Track(3, 1600.0), 16.4736, 32);
    EvenLeg(499.2, MAX_DT, 116, Track(4, 2128.0), 16.4736, n - 116);
  }

  lemma ShallowTrack(step: real, n: nat)
    requires 0.0 <= step <= MAX_DT
    ensures var m, t := Glide(SHALLOW, Even(step, n)), Tracked(499.2, Even(step, n));
            m.y == 688.0 - 145.6 * (n as real * step) && (t.walls % 2 == 0 ==> m.x == t.run - LANE * t.walls as real)
  {
    hide Glide, Tracked, Even, Time;
    GlideOnTrack(SHALLOW, Even(step, n));
    EvenTime(step, n);
  }

  lemma SimulatedHeight(n: nat)
    ensures Simulated(SHALLOW, n).y == 688.0 - 145.6 * n as real / 120.0
  {
    hide Glide, Simulated, Tracked, Even;
    SimulationIsGlide(SHALLOW, n);
    ShallowTrack(STEP, n);
  }

  lemma AnimatedHeight(n: nat)
    ensures Glide(SHALLOW, Even(MAX_DT, n)).y == 688.0 - 4.8048 * n as real
  {
    hide Glide, Tracked, Even;
    ShallowTrack(MAX_DT, n);
  }

  lemma ShallowHit(n: nat)
    requires n == HIT_STEP
    ensures var hit := Simulated(SHALLOW, n); hit.x == 469.44 && 15.8133 <= hit.y <= 15.8134
  {
    hide Glide, Simulated, Tracked, Even;
    SimulatedHeight(n);
    SimulationIsGlide(SHALLOW, n);
    ShallowTrack(STEP, n);
    ShallowSimulation();
    assert Even(STEP, n) == Even(STEP, HIT_STEP);
  }

  /** At a steady 33 milliseconds a frame or more every step is the capped one,
      and wherever the simulation hits at its step 554, as it does on a bare
      board, no frame is ever within 14 of the hit: the landing is never sent. */
  lemma SteadyAnimationMisses(hit: nat, n: nat)
    requires hit == HIT_STEP
    ensures Upward(SHALLOW) && FirstHalt(SnapshotOf(InitialGame(BareDeal()).board), SHALLOW, hit)
    ensures !Arrived(SHALLOW, hit, Even(MAX_DT, n))
  {
    hide Glide, Simulated, FirstHalt, Even, Tracked, Near, Upward, Arrived;
    ShallowHitsCeiling(hit);
    ShallowHit(hit);
    AnimatedHeight(n);
    ArrivedIsNear(SHALLOW, hit, Even(MAX_DT, n));
    var m, p := Glide(SHALLOW, Even(MAX_DT, n)), Simulated(SHALLOW, hit);
    if 137 <= n <= 142 {
      ShallowAnimation(n);
      ShallowTrack(MAX_DT, n);
    }
    FarApart(m.x, m.y, p.x, p.y);
  }

  lemma ShallowHitsCeiling(hit: nat)
    requires hit == HIT_STEP
    ensures Upward(SHALLOW) && FirstHalt(SnapshotOf(InitialGame(BareDeal()).board), SHALLOW, hit)
  {
    assert HeightAt(SHALLOW, hit) <= 16.0 < HeightAt(SHALLOW, hit - 1);
    assert Upward(SHALLOW);
    hide FirstHalt, Upward, HeightAt;
    BareHit(SHALLOW, hit);
  }

  // ------------------------------------------------- uneven frames at 20.4 milliseconds

  const LOW := Heading(3552.0 / 3673.0, -935.0 / 3673.0)
  const LOW_HIT := 610
  const LOW_SPEED := 1847040.0 / 3673.0

  const SLOW := 0.0204
  const FILL := 37293.8055 / 1847040.0
  const PAUSE := 0.0152

  /** Frames that end just short of each wall and then run into it with a full
      step, so that k walls cut off almost k steps. */
  function ToWall(k: nat): (steps: seq<real>) {
    if k == 0 then [] else ToWall(k - 1) + Even(FILL, if k == 1 then 26 else 52) + [SLOW]
  }

  lemma {:induction false} ToWallTrack(k: nat)
    ensures Tracked(LOW_SPEED, ToWall(k)) == Track(k, if k == 0 then 280.0 else 16.0 + LANE * k as real)
  {
    if k > 0 {
      ToWallTrack(k - 1);
      var j: nat := if k == 1 then 26 else 52;
      assert Times(LOW_SPEED, FILL) == 10.1535 && Times(10.1535, 26.0) == 263.991 && Times(10.1535, 52.0) == 527.982;
      assert 10.2 <= Times(LOW_SPEED, SLOW);
      hide Tracked, Times, Even;
      WallAfter(LOW_SPEED, ToWall(k - 1), Tracked(LOW_SPEED, ToWall(k - 1)), FILL, 10.1535, j, SLOW);
    }
  }

  lemma {:induction false} JoinedTime(a: seq<real>, b: seq<real>)
    ensures Time(a + b) == Time(a) + Time(b)
  {
    if b == [] {
      assert a + b == a;
    } else {
      JoinedTime(a, b[..|b| - 1]);
      assert (a + b)[..|a + b| - 1] == a + b[..|b| - 1];
    }
  }

  lemma {:induction false} ToWallTime(k: nat)
    requires k >= 1
    ensures Time(ToWall(k)) == (52 * k - 26) as real * FILL + k as real * SLOW
  {
    var j: nat := if k == 1 then 26 else 52;
    JoinedTime(ToWall(k - 1) + Even(FILL, j), [SLOW]);
    JoinedTime(ToWall(k - 1), Even(FILL, j));
    EvenTime(FILL, j);
    assert [SLOW][..0] == [];
    assert Time([SLOW]) == SLOW;
    if k > 1 {
      ToWallTime(k - 1);
    } else {
      assert ToWall(0) == [];
    }
  }

  lemma {:induction false} ToWallWithin(k: nat)
    ensures StepsWithin(ToWall(k), SLOW)
  {
    if k > 0 {
      ToWallWithin(k - 1);
    }
  }

  /** The frames up to the last lane. */
  function Approach(): seq<real> {
    ToWall(5)
  }

  lemma ApproachIs()
    ensures Tracked(LOW_SPEED, Approach()) == Track(5, 2656.0)
    ensures Time(Approach()) == 234.0 * FILL + 5.0 * SLOW
    ensures StepsWithin(Approach(), SLOW)
  {
    hide ToWall, Tracked, Time;
    ToWallTrack(5);
    ToWallTime(5);
    ToWallWithin(5);
  }

  function UnevenFrames(m: nat): seq<real> {
    Approach() + [PAUSE] + Even(SLOW, m)
  }

  lemma UnevenTime(m: nat)
    ensures Time(UnevenFrames(m)) == 234.0 * FILL + 5.0 * SLOW + PAUSE + m as real * SLOW
  {
    hide Even, Approach;
    JoinedTime(Approach() + [PAUSE], Even(SLOW, m));
    JoinedTime(Approach(), [PAUSE]);
    ApproachIs();
    EvenTime(SLOW, m);
    assert [PAUSE][..0] == [];
  }

  lemma UnevenWithin(m: nat)
    ensures StepsWithin(UnevenFrames(m), SLOW)
  {
    hide Approach;
    ApproachIs();
  }

  /** The last lane. */
  lemma UnevenTrack(j: nat)
    requires j <= 40
    ensures Tracked(LOW_SPEED, UnevenFrames(j)) ==
            Track(5, 2656.0 + LOW_SPEED * PAUSE + LOW_SPEED * SLOW * j as real)
  {
    var u, w := LOW_SPEED * PAUSE, LOW_SPEED * SLOW;
    assert Times(LOW_SPEED, PAUSE) == u && Times(LOW_SPEED, SLOW) == w;
    assert Times(u, 1.0) == u && Times(w, j as real) == w * j as real;
    ApproachIs();
    hide Tracked, Times, Approach;
    LegAfter(LOW_SPEED, Approach(), Track(5, 2656.0), PAUSE, u, 1);
    assert Even(PAUSE, 1) == [PAUSE];
    hide Even;
    LegAfter(LOW_SPEED, Approach() + [PAUSE], Track(5, 2656.0 + u), SLOW, w, j);
  }

  /** The simulation takes 63 steps to the first wall and 126 to each other. */
  lemma LowSimulation()
    ensures Tracked(LOW_SPEED, Even(STEP, LOW_HIT)) == Track(5, 2656.0 + 43.0 * 15392.0 / 3673.0)
  {
    var w := 15392.0 / 3673.0;
    assert Times(LOW_SPEED, STEP) == w;
    assert Times(w, 62.0) == 62.0 * w && Times(w, 125.0) == 125.0 * w && Times(w, 43.0) == 43.0 * w;
    hide Tracked, Times, Roll, Even;
    NothingRun(LOW_SPEED, STEP);
    EvenWall(LOW_SPEED, STEP, 0, Track(0, 280.0), w, 62);
    EvenWall(LOW_SPEED, STEP, 63, Track(1, 544.0), w, 125);
    EvenWall(LOW_SPEED, STEP, 189, Track(2, 1072.0), w, 125);
    EvenWall(LOW_SPEED, STEP, 315, Track(3, 1600.0), w, 125);
    EvenWall(LOW_SPEED, STEP, 441, Track(4, 2128.0), w, 125);
    EvenLeg(LOW_SPEED, STEP, 567, Track(5, 2656.0), w, 43);
  }

  lemma LowTrack(steps: seq<real>)
    requires StepsWithin(steps, MAX_DT)
    ensures var m, t := Glide(LOW, steps), Tracked(LOW_SPEED, steps);
            && m.y == 688.0 - 520.0 * 935.0 / 3673.0 * Time(steps)
            && m.x == Folded(true, t)
  {
    assert Upward(LOW) && 520.0 * Abs(LOW.cos) == LOW_SPEED;
    hide Glide, Tracked, Time, Folded, InLane, Upward;
    GlideOnTrack(LOW, steps);
    GlideHeight(LOW, steps);
  }

  lemma LowHitAt(hit: nat)
    requires hit == LOW_HIT
    ensures var p := Simulated(LOW, hit);
            && p.x == 3200.0 - 2656.0 - 43.0 * 15392.0 / 3673.0
            && p.y == 688.0 - 520.0 * 935.0 / 3673.0 * (610.0 * STEP)
  {
    hide Glide, Simulated, Tracked, Even, Time;
    SimulationIsGlide(LOW, hit);
    EvenTime(STEP, hit);
    LowSimulation();
    assert Even(STEP, hit) == Even(STEP, LOW_HIT);
    LowTrack(Even(STEP, hit));
  }

  /** Away from a point, on along a line that leads away from it. */
  lemma FartherAlong(a: real, b: real, da: real, db: real, k: real)
    requires RealSquare(a) + RealSquare(b) > NEAR * NEAR && k * (a * da + b * db) >= 0.0
    ensures RealSquare(a + k * da) + RealSquare(b + k * db) > NEAR * NEAR
  {
    assert (a + k * da) * (a + k * da) == a * a + 2.0 * (k * (a * da)) + (k * da) * (k * da);
    assert (b + k * db) * (b + k * db) == b * b + 2.0 * (k * (b * db)) + (k * db) * (k * db);
    assert (k * da) * (k * da) >= 0.0 && (k * db) * (k * db) >= 0.0;
  }

  /** Frames 16 and 17 pass the hit on either side, both 14.04 away. */
  lemma LowApproach(j: nat)
    ensures var a := LOW_SPEED * PAUSE - 43.0 * 15392.0 / 3673.0 + LOW_SPEED * SLOW * j as real;
            var b := 520.0 * 935.0 / 3673.0 * (610.0 * STEP - 234.0 * FILL - 5.0 * SLOW - PAUSE - j as real * SLOW);
            RealSquare(a) + RealSquare(b) > NEAR * NEAR
  {
    var da, db := LOW_SPEED * SLOW, -520.0 * 935.0 / 3673.0 * SLOW;
    var a0 := LOW_SPEED * PAUSE - 43.0 * 15392.0 / 3673.0;
    var b0 := 520.0 * 935.0 / 3673.0 * (610.0 * STEP - 234.0 * FILL - 5.0 * SLOW - PAUSE);
    var i := if j <= 16 then 16.0 else 17.0;
    var a, b, k := a0 + i * da, b0 + i * db, j as real - i;
    assert RealSquare(a) + RealSquare(b) > NEAR * NEAR;
    assert if j <= 16 then a * da + b * db <= 0.0 else a * da + b * db >= 0.0;
    if j <= 16 {
      NonNegativeProduct(-k, -(a * da + b * db));
    } else {
      NonNegativeProduct(k, a * da + b * db);
    }
    FartherAlong(a, b, da, db, k);
  }

  lemma {:induction false} TimeGrows(steps: seq<real>, i: nat)
    requires StepsWithin(steps, MAX_DT) && i <= |steps|
    ensures Time(steps[..i]) <= Time(steps)
    decreases |steps|
  {
    if i < |steps| {
      TimeGrows(steps[..|steps| - 1], i);
      assert steps[..|steps| - 1][..i] == steps[..i];
    } else {
      assert steps[..i] == steps;
    }
  }

  lemma LastLaneMisses(hit: nat, j: nat)
    requires hit == LOW_HIT && j <= 40
    ensures !Arrived(LOW, hit, UnevenFrames(j))
  {
    hide Glide, Simulated, Tracked, Time, UnevenFrames, RealSquare, Arrived;
    UnevenWithin(j);
    LowTrack(UnevenFrames(j));
    UnevenTrack(j);
    UnevenTime(j);
    LowHitAt(hit);
    LowApproach(j);
    ArrivedIsNear(LOW, hit, UnevenFrames(j));
    var m, p := Glide(LOW, UnevenFrames(j)), Simulated(LOW, hit);
    var a := LOW_SPEED * PAUSE - 43.0 * 15392.0 / 3673.0 + LOW_SPEED * SLOW * j as real;
    var b := 520.0 * 935.0 / 3673.0 * (610.0 * STEP - 234.0 * FILL - 5.0 * SLOW - PAUSE - j as real * SLOW);
    assert m.x - p.x == -a && m.y - p.y == b;
    Flight.SquareOfOpposite(a, -a);
  }

  /** More than 14 below the hit, or above it. */
  lemma HeightMisses(hit: nat, steps: seq<real>)
    requires hit == LOW_HIT && StepsWithin(steps, MAX_DT)
    requires Time(steps) <= Time(Approach()) || Time(UnevenFrames(40)) <= Time(steps)
    ensures !Arrived(LOW, hit, steps)
  {
    hide Glide, Simulated, Tracked, Time, UnevenFrames, Near, Approach, Folded, Arrived;
    LowTrack(steps);
    LowHitAt(hit);
    ApproachIs();
    UnevenTime(40);
    ArrivedIsNear(LOW, hit, steps);
    var m, p := Glide(LOW, steps), Simulated(LOW, hit);
    FarApart(m.x, m.y, p.x, p.y);
  }

  lemma MissesAt(hit: nat, m: nat, more: seq<real>, i: nat)
    requires hit == LOW_HIT && m >= 40 && StepsWithin(more, MAX_DT) && i <= |UnevenFrames(m)| + |more|
    ensures !Arrived(LOW, hit, (UnevenFrames(m) + more)[..i])
  {
    hide Arrived, Time, Approach, Tracked;
    UnevenWithin(m);
    ApproachIs();
    var frames, before := UnevenFrames(m) + more, Approach();
    var steps := frames[..i];
    if i <= |before| {
      assert steps == before[..i];
      TimeGrows(before, i);
      HeightMisses(hit, steps);
    } else if i <= |before| + 41 {
      assert steps == UnevenFrames(i - |before| - 1);
      LastLaneMisses(hit, i - |before| - 1);
    } else {
      assert steps[..|before| + 41] == UnevenFrames(40);
      TimeGrows(steps, |before| + 41);
      HeightMisses(hit, steps);
    }
  }

  /** Frames of at most 20.4 milliseconds that pass the hit by, on a bare board
      or any other where the simulation halts at its step 610. Whatever frames
      come after them, the landing is never sent. */
  lemma SlowAnimationMisses(hit: nat, m: nat, more: seq<real>)
    requires hit == LOW_HIT && m >= 40 && StepsWithin(more, MAX_DT)
    ensures Upward(LOW) && FirstHalt(SnapshotOf(InitialGame(BareDeal()).board), LOW, hit)
    ensures StepsWithin(UnevenFrames(m), SLOW) && Time(UnevenFrames(m)) >= m as real * SLOW
    ensures !Lands(LOW, hit, UnevenFrames(m) + more)
  {
    hide Upward, FirstHalt, UnevenFrames, Arrived, Time;
    LowHitsCeiling(hit);
    UnevenWithin(m);
    UnevenTime(m);
    var frames := UnevenFrames(m) + more;
    forall i | 1 <= i <= |frames| ensures !Arrived(LOW, hit, frames[..i]) {
      MissesAt(hit, m, more, i);
    }
  }

  lemma LowHitsCeiling(hit: nat)
    requires hit == LOW_HIT
    ensures Upward(LOW) && FirstHalt(SnapshotOf(InitialGame(BareDeal()).board), LOW, hit)
  {
    assert HeightAt(LOW, hit) <= 16.0 < HeightAt(LOW, hit - 1);
    assert Upward(LOW);
    hide FirstHalt, Upward, HeightAt;
    BareHit(LOW, hit);
  }

  // ------------------------------------------------- the frame bound

  /** Every shot of a game in play is landed, on the board it was made on, by
      any seven seconds of frames of at most d. */
  ghost predicate AlwaysLands(d: real) {
    forall g: Game, angle: real, now: int, h: Heading, n: nat, frames: seq<real> ::
      Shown(g, angle, now, h, n, frames, d) ==> Lands(h, n, frames)
  }

  ghost predicate Shown(g: Game, angle: real, now: int, h: Heading, n: nat, frames: seq<real>, d: real) {
    && BeginShot(g, angle, now).Ok? && Upward(h) && FirstHalt(SnapshotOf(g.board), h, n)
    && StepsWithin(frames, d) && Time(frames) >= 7.0
  }

  lemma LandsByFrameBound(d: real)
    ensures d <= SMOOTH ==> AlwaysLands(d)
    ensures d >= SLOW ==> !AlwaysLands(d)
  {
    hide Lands, Shown;
    if d <= SMOOTH {
      forall g: Game, angle: real, now: int, h: Heading, n: nat, frames: seq<real>
        | Shown(g, angle, now, h, n, frames, d)
        ensures Lands(h, n, frames)
      {
        ShownLands(g, angle, now, h, n, frames, d);
      }
    }
    if d >= SLOW {
      var hit: nat :| hit == LOW_HIT;
      ShownMisses(hit, d);
    }
  }

  lemma ShownLands(g: Game, angle: real, now: int, h: Heading, n: nat, frames: seq<real>, d: real)
    requires d <= SMOOTH && Shown(g, angle, now, h, n, frames, d)
    ensures Lands(h, n, frames)
  {
    hide Lands, Upward, FirstHalt, Time;
    SmoothLands(SnapshotOf(g.board), h, n, frames);
  }

  lemma ShownMisses(hit: nat, d: real)
    requires hit == LOW_HIT && d >= SLOW
    ensures Shown(InitialGame(BareDeal()), 0.0, 0, LOW, hit, UnevenFrames(400), d)
    ensures !Lands(LOW, hit, UnevenFrames(400))
  {
    hide FirstHalt, Upward, Lands, UnevenFrames, Time;
    BareDealIsPlayed(0.0, 0);
    SlowAnimationMisses(hit, 400, []);
    assert UnevenFrames(400) + [] == UnevenFrames(400);
  }
}
