/** One running match as a value: every player's game, the layer scheduler, and
    the accounts that a whole run must balance. */
module Matches {
  import opened Wrappers
  import opened Grid
  import opened Boards
  import opened Reachability
  import opened Placement
  import opened Reprojection
  import opened Rules

  type Pid = string

  /** A full row of random colours for the top of a board. */
  type Layer = row: Row | FullRow(row) witness seq(COLS, c => 0)

  const PERIOD := 10000

  const DEFAULT_TIMEOUT := 5000

  /** How many milliseconds a player may be silent. */
  function TimeoutOf(configured: int): (timeout: int)
    ensures timeout > 0 && (configured > 0 ==> timeout == configured) && (configured <= 0 ==> timeout == 5000)
  {
    if configured <= 0 then DEFAULT_TIMEOUT else configured
  }

  /** What has happened to one board since the match started. */
  datatype Account = Account(initial: nat, layers: nat, placed: nat, cleared: nat, dropped: nat, landings: nat)

  datatype Match = Match(
    games: map<Pid, Game>,
    accounts: map<Pid, Account>,
    nextAt: int,
    start: int,
    layers: nat,
    clock: int)

  datatype Event =
    | Aim(pid: Pid, angle: real)
    | Shot(pid: Pid, angle: real, now: int)
    | Land(pid: Pid, angle: real, x: real, y: real, draw: Colour)
    | Tick(now: int, draws: Pid -> Colour)
    | AddLayers(now: int, tops: (Pid, nat) -> Layer)

  // ------------------------------------------------- invariants

  /** A game in the message protocol never has a bubble in server-side flight. */
  ghost predicate Protocol(g: Game) {
    && Rules.Valid(g) && g.moving == None
    && (g.pending ==> g.shotColour == g.current && g.shotSeq > 0)
  }

  ghost predicate Balanced(g: Game, a: Account) {
    && Bubbles(g.board) == a.initial + COLS * a.layers + a.placed - a.cleared - a.dropped
    && g.score == 10 * a.cleared + 15 * a.dropped
    && a.landings == g.shotSeq - (if g.pending then 1 else 0)
    && a.placed <= a.landings
    && (a.placed > 0 ==> Anchored(g.board))
    && (g.pending ==> g.status == Playing)
  }

  ghost predicate Scheduled(m: Match) {
    && 0 <= m.start
    && m.nextAt == m.start + PERIOD * (m.layers + 1)
    && m.start + PERIOD * m.layers <= m.clock
  }

  ghost predicate Consistent(m: Match) {
    && m.games.Keys == m.accounts.Keys
    && (forall p :: p in m.games ==> Protocol(m.games[p]) && Balanced(m.games[p], m.accounts[p]))
    && (forall p :: p in m.accounts ==> m.accounts[p].layers == m.layers)
    && Scheduled(m)
  }

  /** A freshly dealt game: bubbles only in the first five rows, nothing fired. */
  ghost predicate Dealt(g: Game) {
    && IsColour(g.current) && IsColour(g.next)
    && (forall p :: Full(g.board, p) ==> p.r < 5)
    && g.moving == None && !g.pending && g.shotSeq == 0 && g.shotColour == 0
    && g.score == 0 && g.status == Playing
  }

  lemma InitialIsDealt(d: Deal)
    ensures Dealt(InitialGame(d))
  {
  }

  /** A dealt board need not be anchored: anchoring starts with a placed landing. */
  lemma DealtBoardMayFloat()
    ensures exists d: Deal :: !Anchored(InitialGame(d).board)
  {
    var d := Deal(0, 0, p => if p == Cell(1, 0) then 0 else EMPTY, 0);
    var b := InitialGame(d).board;
    assert Occupied(b) == {Cell(1, 0)};
    ReachIsLeast(Occupied(b), TopRow(), {});
    assert Full(b, Cell(1, 0));
  }

  /** A landing can be accepted and yet lost: on a deal with its five rows full,
      one reported in the middle of them finds no free cell. */
  lemma LandingMayBeLost(angle: real, now: int, draw: Colour)
    ensures exists d: Deal :: LosesLanding(InitialGame(d), angle, 272.0, 72.0, now, draw)
  {
    var d := Deal(0, 0, p => 0, 0);
    var g := InitialGame(d);
    InitialIsDealt(d);
    SnapInvertsCenter(Cell(2, 8), 272.0, 72.0);
    RefusedIffWindowFull(g.board, 272.0, 72.0);
    assert LosesLanding(g, angle, 272.0, 72.0, now, draw);
  }

  /** The game accepts a shot and then its landing, which places nothing. */
  ghost predicate LosesLanding(g: Game, angle: real, x: real, y: real, now: int, draw: Colour) {
    && Protocol(g) && BeginShot(g, angle, now).Ok?
    && var r := CommitLanding(BeginShot(g, angle, now).value, angle, x, y, draw);
       r.Ok? && !r.value.placed && r.value.game.board == g.board
  }

  ghost function Opened(games: map<Pid, Game>, now: int): Match {
    Match(games, map p | p in games :: Account(Bubbles(games[p].board), 0, 0, 0, 0, 0), now + PERIOD, now, 0, now)
  }

  lemma OpenedIsConsistent(games: map<Pid, Game>, now: nat)
    requires forall p :: p in games ==> Dealt(games[p])
    ensures Consistent(Opened(games, now))
  {
  }

  // ------------------------------------------------- the layer scheduler

  ghost predicate CanAddLayer(games: map<Pid, Game>) {
    games.Keys != {} &&
    forall p :: p in games ==> games[p].status == Playing && games[p].moving == None && !games[p].pending
  }

  /** One game after k layers drawn from `tops`. */
  ghost function Layered(g: Game, p: Pid, tops: (Pid, nat) -> Layer, k: nat): Game {
    if k == 0 then g else AddLayer(Layered(g, p, tops, k - 1), tops(p, k - 1))
  }

  ghost function AllLayered(games: map<Pid, Game>, tops: (Pid, nat) -> Layer, k: nat): map<Pid, Game> {
    map p | p in games :: Layered(games[p], p, tops, k)
  }

  /** Deadlines passed at time `now`, the first of them being nextAt. */
  function Due(nextAt: int, now: int): nat {
    if now < nextAt then 0 else (now - nextAt) / PERIOD + 1
  }

  /** The layers the catch-up loop adds when k are on already. */
  ghost function CatchUp(games: map<Pid, Game>, tops: (Pid, nat) -> Layer, due: nat, k: nat): (n: nat)
    requires k <= due
    ensures k <= n <= due
    decreases due - k
  {
    if k < due && CanAddLayer(AllLayered(games, tops, k)) then CatchUp(games, tops, due, k + 1) else k
  }

  /** The deepest row at or above r that holds a bubble, or -1. */
  ghost function DeepestFrom(b: Board, r: int): (d: int)
    requires -1 <= r < ROWS
    ensures -1 <= d <= r
    ensures d >= 0 ==> exists p :: Full(b, p) && p.r == d
    ensures forall p :: Full(b, p) && p.r <= r ==> p.r <= d
    decreases r
  {
    if r < 0 then -1 else if exists p :: Full(b, p) && p.r == r then r else DeepestFrom(b, r - 1)
  }

  ghost function Deepest(b: Board): (d: int)
    ensures -1 <= d < ROWS
  {
    DeepestFrom(b, ROWS - 1)
  }

  lemma DeepestIs(b: Board, p: Cell)
    requires Full(b, p) && forall q :: Full(b, q) ==> q.r <= p.r
    ensures Deepest(b) == p.r
  {
  }

  lemma StatusByDepth(b: Board)
    ensures StatusOf(b) == Lost <==> Deepest(b) == ROWS - 1
    ensures StatusOf(b) == Won <==> Deepest(b) == -1
  {
    StatusMeansRow(b);
    if Deepest(b) == -1 {
      assert forall p :: InBoard(p) ==> !Full(b, p);
    }
  }

  /** A layer lowers the deepest bubble by exactly one row. */
  lemma LayerDeepens(b: Board, top: Row)
    requires FullRow(top) && LastRowEmpty(b)
    ensures Deepest(Pushed(b, top)) == Deepest(b) + 1
  {
    var after := Pushed(b, top);
    forall q | Full(after, q) ensures q.r <= Deepest(b) + 1 {
      if q.r > 0 {
        TargetIsOnto(b, top, q);
      }
    }
    if Deepest(b) >= 0 {
      var p :| Full(b, p) && p.r == Deepest(b);
      TargetKeepsColour(b, top, p);
      DeepestIs(after, Target(b, p));
    } else {
      assert Full(after, Cell(0, 0));
      DeepestIs(after, Cell(0, 0));
    }
  }

  lemma LayerOnGame(g: Game, top: Layer)
    requires Rules.Valid(g) && g.status == Playing
    ensures var h := AddLayer(g, top);
      && Rules.Valid(h)
      && h == g.(board := h.board, status := h.status)
      && Deepest(h.board) == Deepest(g.board) + 1
      && Bubbles(h.board) == Bubbles(g.board) + COLS
      && (h.status == Playing <==> Deepest(h.board) < ROWS - 1)
      && (Anchored(g.board) ==> Anchored(h.board))
  {
    hide Pushed, Deepest, Bubbles, Anchored, StatusOf, LastRowEmpty, FullRow;
    LayerLedger(g, top);
    LayerDeepens(g.board, top);
    StatusByDepth(Pushed(g.board, top));
  }

  /** k layers on a running game: its depth grows by k, nothing is lost, and it
      runs on until the depth reaches the last row. */
  lemma {:induction false} LayersOnGame(g: Game, p: Pid, tops: (Pid, nat) -> Layer, k: nat)
    requires Rules.Valid(g) && g.status == Playing && Deepest(g.board) + k <= ROWS - 1
    ensures var h := Layered(g, p, tops, k);
      && Rules.Valid(h)
      && h == g.(board := h.board, status := h.status)
      && Deepest(h.board) == Deepest(g.board) + k
      && Bubbles(h.board) == Bubbles(g.board) + COLS * k
      && (h.status == Playing <==> k == 0 || Deepest(g.board) + k < ROWS - 1)
      && (Anchored(g.board) ==> Anchored(h.board))
  {
    hide AddLayer, Deepest, Bubbles, Anchored, LastRowEmpty;
    if k > 0 {
      LayersOnGame(g, p, tops, k - 1);
      LayerOnGame(Layered(g, p, tops, k - 1), tops(p, k - 1));
    }
  }

  lemma PlayingHasRoom(g: Game)
    requires Rules.Valid(g) && g.status == Playing
    ensures Deepest(g.board) < ROWS - 1
  {
  }

  /** No board has been pushed past its last row by k layers. */
  ghost predicate Fits(games: map<Pid, Game>, k: nat) {
    forall p :: p in games ==> Deepest(games[p].board) + k <= ROWS - 1
  }

  ghost predicate SomeAtBottom(games: map<Pid, Game>, k: nat) {
    exists p :: p in games && Deepest(games[p].board) + k == ROWS - 1
  }

  lemma CanAddAfter(games: map<Pid, Game>, tops: (Pid, nat) -> Layer, k: nat)
    requires CanAddLayer(games) && Fits(games, k)
    requires forall p :: p in games ==> Protocol(games[p])
    ensures CanAddLayer(AllLayered(games, tops, k)) <==> k == 0 || !SomeAtBottom(games, k)
  {
    hide Layered, Deepest, Bubbles, Anchored, LastRowEmpty;
    var after := AllLayered(games, tops, k);
    forall p | p in games
      ensures after[p].status == Playing <==> k == 0 || Deepest(games[p].board) + k < ROWS - 1
      ensures after[p].moving == None && !after[p].pending
    {
      LayersOnGame(games[p], p, tops, k);
    }
    assert after.Keys == games.Keys;
    if k == 0 {
      PlayingStart(games);
    }
  }

  lemma PlayingStart(games: map<Pid, Game>)
    requires forall p :: p in games ==> Protocol(games[p]) && games[p].status == Playing
    ensures !SomeAtBottom(games, 0) && Fits(games, 0)
  {
    forall p | p in games ensures Deepest(games[p].board) < ROWS - 1 {
      PlayingHasRoom(games[p]);
    }
  }

  /** Exactly how far one catch-up goes: all deadlines passed, unless a board
      reaches its last row first, and then precisely to that point. */
  lemma {:induction false} CatchUpIsExact(games: map<Pid, Game>, tops: (Pid, nat) -> Layer, due: nat, k: nat)
    requires CanAddLayer(games) && k <= due && Fits(games, k)
    requires forall p :: p in games ==> Protocol(games[p])
    ensures var n := CatchUp(games, tops, due, k);
            Fits(games, n) && (n == due || SomeAtBottom(games, n))
    decreases due - k
  {
    hide AllLayered, Deepest, Rules.Valid;
    CanAddAfter(games, tops, k);
    if k < due && CanAddLayer(AllLayered(games, tops, k)) {
      forall p | p in games ensures Deepest(games[p].board) + (k + 1) <= ROWS - 1 {
        if k == 0 { PlayingHasRoom(games[p]); }
      }
      CatchUpIsExact(games, tops, due, k + 1);
    }
  }

  lemma OccupiedHasDepth(b: Board)
    requires Bubbles(b) > 0
    ensures Deepest(b) >= 0
  {
    var c :| c in Occupied(b);
    assert Full(b, c);
  }

  /** However late the clock, one call adds at most 14 layers: a board that was
      empty can take 14, any other board fewer. */
  lemma CatchUpIsBounded(games: map<Pid, Game>, tops: (Pid, nat) -> Layer, due: nat)
    requires CanAddLayer(games) && forall p :: p in games ==> Protocol(games[p])
    ensures var n := CatchUp(games, tops, due, 0);
            && n <= ROWS
            && (forall p :: p in games && Bubbles(games[p].board) > 0 ==>
                  n <= ROWS - 1 - Deepest(games[p].board) < ROWS)
  {
    PlayingStart(games);
    CatchUpIsExact(games, tops, due, 0);
    var p :| p in games;
    assert Deepest(games[p].board) >= -1;
    forall q | q in games && Bubbles(games[q].board) > 0 ensures Deepest(games[q].board) >= 0 {
      OccupiedHasDepth(games[q].board);
    }
  }

  // ------------------------------------------------- one event

  ghost function TickGame(g: Game, now: int, draw: Colour): Game
    requires Protocol(g)
  {
    Rules.Tick(g, now, draw).game
  }

  ghost function Ticked(games: map<Pid, Game>, now: int, draws: Pid -> Colour): map<Pid, Game>
    requires AllProtocol(games)
  {
    map p | p in games :: TickGame(games[p], now, draws(p))
  }

  ghost function WithLayers(m: Match, tops: (Pid, nat) -> Layer, n: nat): Match {
    m.(games := AllLayered(m.games, tops, n),
       accounts := map p | p in m.accounts :: m.accounts[p].(layers := m.accounts[p].layers + n),
       nextAt := m.nextAt + PERIOD * n,
       layers := m.layers + n)
  }

  /** How many layers the scheduler adds when it is asked at time `now`. */
  ghost function LayersNow(games: map<Pid, Game>, nextAt: int, now: int, tops: (Pid, nat) -> Layer): nat {
    if nextAt <= 0 then 0 else CatchUp(games, tops, Due(nextAt, now), 0)
  }

  /** The deadline it leaves; an unset deadline is set, not acted on. */
  ghost function NextDeadline(games: map<Pid, Game>, nextAt: int, now: int, tops: (Pid, nat) -> Layer): int {
    if games.Keys == {} then nextAt
    else if nextAt <= 0 then now + PERIOD
    else nextAt + PERIOD * LayersNow(games, nextAt, now, tops)
  }

  ghost function AddDueLayers(m: Match, now: int, tops: (Pid, nat) -> Layer): (r: Match)
    ensures r.games.Keys == m.games.Keys
  {
    WithLayers(m, tops, LayersNow(m.games, m.nextAt, now, tops)).(nextAt := NextDeadline(m.games, m.nextAt, now, tops))
  }

  function Latest(a: int, b: int): int { if a < b then b else a }

  ghost predicate IsMessage(e: Event) {
    e.Aim? || e.Shot? || e.Land?
  }

  /** The members who have a game in the match and have not lost it. */
  ghost function Alive(members: set<Pid>, games: map<Pid, Game>): set<Pid> {
    set p | p in members && p in games && games[p].status != Lost
  }

  ghost predicate AllProtocol(games: map<Pid, Game>) {
    forall p :: p in games ==> Protocol(games[p])
  }

  /** What a message does to its sender's game; a refused one does nothing. */
  ghost function Heard(g: Game, e: Event): Game
    requires IsMessage(e) && Protocol(g)
  {
    match e
    case Aim(_, angle) => g.(aim := ClampAim(angle))
    case Shot(_, angle, now) => if BeginShot(g, angle, now).Ok? then BeginShot(g, angle, now).value else g
    case Land(_, angle, x, y, draw) =>
      if CommitLanding(g, angle, x, y, draw).Ok? then CommitLanding(g, angle, x, y, draw).value.game else g
  }

  ghost function Played(games: map<Pid, Game>, e: Event): (r: map<Pid, Game>)
    requires IsMessage(e) && AllProtocol(games)
    ensures r.Keys == games.Keys
  {
    if e.pid in games then games[e.pid := Heard(games[e.pid], e)] else games
  }

  /** The bookkeeping of one message: only an accepted landing is an entry. */
  ghost function Booked(m: Match, e: Event): map<Pid, Account>
    requires IsMessage(e) && AllProtocol(m.games) && m.games.Keys == m.accounts.Keys
  {
    if e.Land? && e.pid in m.games && CommitLanding(m.games[e.pid], e.angle, e.x, e.y, e.draw).Ok? then
      var r, a := CommitLanding(m.games[e.pid], e.angle, e.x, e.y, e.draw).value, m.accounts[e.pid];
      m.accounts[e.pid := Entered(a, r)]
    else m.accounts
  }

  ghost function Entered(a: Account, r: Resolution): Account {
    a.(placed := a.placed + (if r.placed then 1 else 0), cleared := a.cleared + r.cleared,
       dropped := a.dropped + r.dropped, landings := a.landings + 1)
  }

  ghost function At(m: Match, now: int): Match {
    m.(clock := Latest(m.clock, now))
  }

  ghost function Step(m: Match, e: Event): Match
    requires Consistent(m)
  {
    if e.Tick? then At(m, e.now).(games := Ticked(m.games, e.now, e.draws))
    else if e.AddLayers? then AddDueLayers(At(m, e.now), e.now, e.tops)
    else m.(games := Played(m.games, e), accounts := Booked(m, e))
  }

  lemma TickKeepsProtocol(g: Game, now: int, draw: Colour)
    requires Protocol(g)
    ensures TickGame(g, now, draw) == g.(lastTick := now)
  {
  }

  lemma TicksKeepConsistent(m: Match, now: int, draws: Pid -> Colour)
    requires Consistent(m)
    ensures Consistent(At(m, now).(games := Ticked(m.games, now, draws)))
    ensures forall p :: p in m.games ==> Ticked(m.games, now, draws)[p] == m.games[p].(lastTick := now)
  {
    hide Rules.Tick, Anchored, Bubbles, LastRowEmpty;
    forall p | p in m.games ensures Ticked(m.games, now, draws)[p] == m.games[p].(lastTick := now) {
      TickKeepsProtocol(m.games[p], now, draws(p));
    }
  }

  /** Time passing changes nothing in a game of the message protocol but its clock. */
  lemma TicksOnly(games: map<Pid, Game>, now: int, draws: Pid -> Colour)
    requires AllProtocol(games)
    ensures Ticked(games, now, draws).Keys == games.Keys
    ensures forall p :: p in games ==> Ticked(games, now, draws)[p] == games[p].(lastTick := now)
    ensures AllProtocol(Ticked(games, now, draws))
  {
    hide TickGame;
    forall p | p in games ensures Ticked(games, now, draws)[p] == games[p].(lastTick := now) {
      TickKeepsProtocol(games[p], now, draws(p));
    }
  }

  lemma DueIsPast(nextAt: int, now: int, n: nat)
    requires nextAt <= now && n <= Due(nextAt, now)
    ensures nextAt + PERIOD * n <= now + PERIOD
  {
  }

  lemma LayersKeepConsistent(m: Match, tops: (Pid, nat) -> Layer, n: nat)
    requires Consistent(m) && CanAddLayer(m.games) && Fits(m.games, n)
    requires n > 0 ==> m.nextAt + PERIOD * n <= m.clock + PERIOD
    ensures Consistent(WithLayers(m, tops, n))
  {
    hide Protocol, Balanced, Deepest, Layered;
    forall p | p in m.games
      ensures Protocol(Layered(m.games[p], p, tops, n))
      ensures Balanced(Layered(m.games[p], p, tops, n), m.accounts[p].(layers := m.accounts[p].layers + n))
    {
      LayersKeepBalance(m.games[p], m.accounts[p], p, tops, n);
    }
  }

  lemma LayersKeepBalance(g: Game, a: Account, p: Pid, tops: (Pid, nat) -> Layer, n: nat)
    requires Protocol(g) && Balanced(g, a) && g.status == Playing && !g.pending && Deepest(g.board) + n <= ROWS - 1
    ensures Protocol(Layered(g, p, tops, n))
    ensures Balanced(Layered(g, p, tops, n), a.(layers := a.layers + n))
  {
    hide Layered, Deepest, Bubbles, Anchored, LastRowEmpty;
    LayersOnGame(g, p, tops, n);
  }

  lemma ZeroLayers(games: map<Pid, Game>, tops: (Pid, nat) -> Layer)
    ensures AllLayered(games, tops, 0) == games
  {
  }

  lemma NoLayers(m: Match, tops: (Pid, nat) -> Layer)
    ensures WithLayers(m, tops, 0) == m
  {
    ZeroLayers(m.games, tops);
    assert (map p | p in m.accounts :: m.accounts[p].(layers := m.accounts[p].layers + 0)) == m.accounts;
  }

  /** The scheduler either does nothing or adds what fits of what is due. */
  lemma SchedulerCases(m: Match, now: int, tops: (Pid, nat) -> Layer)
    requires Consistent(m)
    ensures var n := LayersNow(m.games, m.nextAt, now, tops);
            && AddDueLayers(m, now, tops) == WithLayers(m, tops, n)
            && (n == 0 || (m.nextAt <= now && n <= Due(m.nextAt, now) && CanAddLayer(m.games) && Fits(m.games, n)))
  {
    hide Layered, Rules.Valid, Balanced, Deepest;
    ZeroLayers(m.games, tops);
    if CanAddLayer(m.games) && m.nextAt <= now {
      PlayingStart(m.games);
      CatchUpIsExact(m.games, tops, Due(m.nextAt, now), 0);
    }
  }

  /** The scheduler's turn, exactly. With a deadline passed and everybody playing
      and idle, every board gets the same number of layers, at least one, each
      moving the deadline by ten seconds, until it is ahead of the clock or some
      board has reached its last row; otherwise nothing happens. */
  lemma DueLayersGoOn(m: Match, now: int, tops: (Pid, nat) -> Layer)
    requires Consistent(m)
    ensures var k := AddDueLayers(m, now, tops);
            var idle := m.games.Keys != {} && forall p :: p in m.games ==>
                          m.games[p].status == Playing && m.games[p].moving == None && !m.games[p].pending;
            if m.nextAt <= now && idle then
              && k.layers > m.layers && k.nextAt == m.nextAt + 10000 * (k.layers - m.layers)
              && (now < k.nextAt || exists p :: p in k.games && k.games[p].status != Playing)
              && k.nextAt <= now + 10000
              && k.games.Keys == m.games.Keys
              && (forall p :: p in m.games ==>
                    Bubbles(k.games[p].board) == Bubbles(m.games[p].board) + 17 * (k.layers - m.layers))
            else k == m
  {
    hide Rules.Valid, Balanced, Deepest, Bubbles, AddDueLayers, CatchUp, Layered;
    SchedulerCases(m, now, tops);
    if m.nextAt <= now && CanAddLayer(m.games) {
      SomeLayerIsDue(m, now, tops);
    } else {
      ZeroLayers(m.games, tops);
      NoLayers(m, tops);
      NothingDue(m, now, tops);
    }
  }

  lemma NothingDue(m: Match, now: int, tops: (Pid, nat) -> Layer)
    requires now < m.nextAt || !CanAddLayer(m.games)
    ensures LayersNow(m.games, m.nextAt, now, tops) == 0
  {
    ZeroLayers(m.games, tops);
  }

  lemma SomeLayerIsDue(m: Match, now: int, tops: (Pid, nat) -> Layer)
    requires Consistent(m) && m.nextAt <= now && CanAddLayer(m.games)
    ensures var k := AddDueLayers(m, now, tops);
            && k.layers > m.layers && k.nextAt == m.nextAt + PERIOD * (k.layers - m.layers)
            && (now < k.nextAt || exists p :: p in k.games && k.games[p].status != Playing)
            && k.nextAt <= now + PERIOD
            && k.games.Keys == m.games.Keys
            && (forall p :: p in m.games ==>
                  Bubbles(k.games[p].board) == Bubbles(m.games[p].board) + COLS * (k.layers - m.layers))
  {
    hide Protocol, Balanced, Deepest, Bubbles, AddDueLayers, Layered, SomeAtBottom, CatchUp, Due, CanAddLayer, Fits;
    var n := LayersNow(m.games, m.nextAt, now, tops);
    SchedulerCases(m, now, tops);
    SomeLayerNow(m, now, tops);
    LayersCount(m.games, tops, n);
    DueIsPast(m.nextAt, now, n);
    if n < Due(m.nextAt, now) {
      StopsAtBottom(m.games, tops, n);
    } else {
      DueIsAll(m.nextAt, now);
    }
  }

  lemma SomeLayerNow(m: Match, now: int, tops: (Pid, nat) -> Layer)
    requires Consistent(m) && m.nextAt <= now && CanAddLayer(m.games)
    ensures var n, due := LayersNow(m.games, m.nextAt, now, tops), Due(m.nextAt, now);
            0 < n <= due && Fits(m.games, n) && (n == due || SomeAtBottom(m.games, n))
  {
    hide Protocol, Balanced, Deepest, Layered, SomeAtBottom;
    ZeroLayers(m.games, tops);
    PlayingStart(m.games);
    CatchUpIsExact(m.games, tops, Due(m.nextAt, now), 0);
  }

  lemma DueIsAll(nextAt: int, now: int)
    requires nextAt <= now
    ensures now < nextAt + PERIOD * Due(nextAt, now)
  {
  }

  lemma LayersCount(games: map<Pid, Game>, tops: (Pid, nat) -> Layer, n: nat)
    requires CanAddLayer(games) && Fits(games, n) && forall p :: p in games ==> Protocol(games[p])
    ensures forall p :: p in games ==>
              Bubbles(AllLayered(games, tops, n)[p].board) == Bubbles(games[p].board) + COLS * n
  {
    hide Rules.Valid, Deepest, Bubbles, Layered;
    forall p | p in games
      ensures Bubbles(AllLayered(games, tops, n)[p].board) == Bubbles(games[p].board) + COLS * n
    {
      LayersOnGame(games[p], p, tops, n);
    }
  }

  lemma StopsAtBottom(games: map<Pid, Game>, tops: (Pid, nat) -> Layer, n: nat)
    requires CanAddLayer(games) && Fits(games, n) && SomeAtBottom(games, n) && n > 0
    requires forall p :: p in games ==> Protocol(games[p])
    ensures exists p :: p in AllLayered(games, tops, n) && AllLayered(games, tops, n)[p].status != Playing
  {
    hide Rules.Valid, Deepest, Bubbles, Layered;
    var p :| p in games && Deepest(games[p].board) + n == ROWS - 1;
    LayersOnGame(games[p], p, tops, n);
    assert p in AllLayered(games, tops, n);
  }

  /** A message is heard by its sender's game alone, which does what the engine
      makes of it, or nothing when that is refused. */
  lemma MessageIsPrivate(m: Match, e: Event, p: Pid)
    requires Consistent(m) && IsMessage(e) && p in m.games
    ensures p in Step(m, e).games && (p != e.pid ==> Step(m, e).games[p] == m.games[p])
    ensures Step(m, e).nextAt == m.nextAt && Step(m, e).layers == m.layers
    ensures e.Aim? && p == e.pid ==> Step(m, e).games[p] == m.games[p].(aim := ClampAim(e.angle))
    ensures e.Shot? && p == e.pid ==>
              var shot := BeginShot(m.games[p], e.angle, e.now);
              Step(m, e).games[p] == if shot.Ok? then shot.value else m.games[p]
    ensures e.Land? && p == e.pid ==>
              && Protocol(m.games[p])
              && var landing := CommitLanding(m.games[p], e.angle, e.x, e.y, e.draw);
                 Step(m, e).games[p] == if landing.Ok? then landing.value.game else m.games[p]
  {
    hide Protocol, Balanced, Booked, CommitLanding, BeginShot;
  }

  lemma DueLayersKeepConsistent(m: Match, now: int, tops: (Pid, nat) -> Layer)
    requires Consistent(m) && now <= m.clock
    ensures Consistent(AddDueLayers(m, now, tops))
  {
    hide Consistent, Due, CanAddLayer, Fits, WithLayers, AddDueLayers, LayersNow;
    SchedulerCases(m, now, tops);
    var n := LayersNow(m.games, m.nextAt, now, tops);
    if n == 0 {
      NoLayers(m, tops);
    } else {
      DueIsPast(m.nextAt, now, n);
      LayersKeepConsistent(m, tops, n);
    }
  }

  lemma LandKeepsBalance(g: Game, a: Account, angle: real, x: real, y: real, draw: Colour)
    requires Protocol(g) && Balanced(g, a) && CommitLanding(g, angle, x, y, draw).Ok?
    ensures var r := CommitLanding(g, angle, x, y, draw).value;
            Protocol(r.game) && Balanced(r.game, Entered(a, r))
  {
    hide PlaceAndResolve, Anchored, Bubbles, StatusOf, LastRowEmpty;
    var m := Moving(x, y, 0.0, 0.0, g.shotColour);
    LandingLedger(g.(aim := ClampAim(angle), pending := false, moving := Some(m)), draw);
  }

  lemma ShotKeepsBalance(g: Game, a: Account, angle: real, now: int)
    requires Protocol(g) && Balanced(g, a) && BeginShot(g, angle, now).Ok?
    ensures Protocol(BeginShot(g, angle, now).value) && Balanced(BeginShot(g, angle, now).value, a)
  {
    hide Bubbles, Anchored, LastRowEmpty;
  }

  lemma AimKeepsBalance(g: Game, a: Account, angle: real)
    requires Protocol(g) && Balanced(g, a)
    ensures Protocol(g.(aim := angle)) && Balanced(g.(aim := angle), a)
  {
    hide Bubbles, Anchored, LastRowEmpty;
  }

  lemma HeardKeepsBalance(g: Game, a: Account, e: Event)
    requires IsMessage(e) && Protocol(g) && Balanced(g, a)
    ensures var landed := e.Land? && CommitLanding(g, e.angle, e.x, e.y, e.draw).Ok?;
            var b := if landed then Entered(a, CommitLanding(g, e.angle, e.x, e.y, e.draw).value) else a;
            Protocol(Heard(g, e)) && Balanced(Heard(g, e), b) && b.layers == a.layers
  {
    hide Rules.Valid, Balanced, CommitLanding, BeginShot;
    match e
    case Aim(p, angle) => AimKeepsBalance(g, a, ClampAim(angle));
    case Shot(p, angle, now) =>
      if BeginShot(g, angle, now).Ok? {
        ShotKeepsBalance(g, a, angle, now);
      }
    case Land(p, angle, x, y, draw) =>
      if CommitLanding(g, angle, x, y, draw).Ok? {
        LandKeepsBalance(g, a, angle, x, y, draw);
      }
  }

  lemma MessageKeepsConsistent(m: Match, e: Event)
    requires Consistent(m) && IsMessage(e)
    ensures Consistent(m.(games := Played(m.games, e), accounts := Booked(m, e)))
  {
    hide Protocol, Balanced, CommitLanding, Heard;
    if e.pid in m.games {
      HeardKeepsBalance(m.games[e.pid], m.accounts[e.pid], e);
    }
  }

  /** Every event keeps all accounts balanced, every board with a placed landing
      anchored, and the layer schedule exact. */
  lemma StepKeepsConsistent(m: Match, e: Event)
    requires Consistent(m)
    ensures Consistent(Step(m, e))
  {
    hide Protocol, Balanced, Played, Booked, Ticked, AddDueLayers;
    if e.Tick? {
      TicksKeepConsistent(m, e.now, e.draws);
    } else if e.AddLayers? {
      DueLayersKeepConsistent(At(m, e.now), e.now, e.tops);
    } else {
      MessageKeepsConsistent(m, e);
    }
  }

  // ------------------------------------------------- whole runs

  ghost function Run(m: Match, es: seq<Event>): (r: Match)
    requires Consistent(m)
    ensures Consistent(r)
  {
    if es == [] then m
    else
      var before := Run(m, es[..|es| - 1]);
      StepKeepsConsistent(before, es[|es| - 1]);
      Step(before, es[|es| - 1])
  }

  lemma RunExtends(m: Match, es: seq<Event>, e: Event)
    requires Consistent(m)
    ensures Run(m, es + [e]) == Step(Run(m, es), e)
  {
    assert (es + [e])[..|es|] == es;
  }

  ghost predicate Starts(m: Match) {
    exists games: map<Pid, Game>, now: nat ::
      (forall p :: p in games ==> Dealt(games[p])) && m == Opened(games, now)
  }

  lemma StartIsConsistent(m: Match)
    requires Starts(m)
    ensures Consistent(m)
  {
    var games: map<Pid, Game>, now: nat :| (forall p :: p in games ==> Dealt(games[p])) && m == Opened(games, now);
    OpenedIsConsistent(games, now);
  }

  ghost predicate RunOf(m: Match, s: Match, es: seq<Event>) {
    Starts(s) && Consistent(s) && m == Run(s, es)
  }

  /** A state some match reaches by some sequence of messages, ticks and layer turns. */
  ghost predicate Reachable(m: Match) {
    exists s, es :: RunOf(m, s, es)
  }

  lemma StartIsReachable(m: Match)
    requires Starts(m)
    ensures Reachable(m)
  {
    StartIsConsistent(m);
    assert RunOf(m, m, []);
  }

  lemma StepIsReachable(m: Match, e: Event)
    requires Reachable(m)
    ensures Consistent(m) && Reachable(Step(m, e))
  {
    var s, es :| RunOf(m, s, es);
    RunExtends(s, es, e);
    assert RunOf(Step(m, e), s, es + [e]);
  }

  /** In every reachable state of every match the books balance. */
  lemma ReachableIsConsistent(m: Match)
    requires Reachable(m)
    ensures Consistent(m)
  {
    var s, es :| RunOf(m, s, es);
  }

  /** A step, by the kind of its event. */
  lemma StepByKind(m: Match, e: Event)
    requires Consistent(m)
    ensures AllProtocol(m.games)
    ensures e.Tick? ==> Step(m, e) == At(m, e.now).(games := Ticked(m.games, e.now, e.draws))
    ensures e.AddLayers? ==> Step(m, e) == AddDueLayers(At(m, e.now), e.now, e.tops) && Consistent(At(m, e.now))
    ensures IsMessage(e) ==> Step(m, e).games == Played(m.games, e)
  {
    hide Protocol, Balanced, Ticked, AddDueLayers, Played, Booked;
  }

  /** No event ever leaves an anchored board unanchored. */
  lemma StepKeepsAnchored(m: Match, e: Event, p: Pid)
    requires Consistent(m) && p in m.games && Anchored(m.games[p].board)
    ensures p in Step(m, e).games && Anchored(Step(m, e).games[p].board)
  {
    hide Consistent, Step, Ticked, AddDueLayers, Heard, Anchored, Protocol;
    StepByKind(m, e);
    if e.Tick? {
      TicksKeepConsistent(m, e.now, e.draws);
      TickedKeys(m.games, e.now, e.draws);
    } else if e.AddLayers? {
      DueLayersKeepAnchored(At(m, e.now), e.now, e.tops, p);
    } else if e.pid == p {
      HeardKeepsAnchored(m.games[p], e);
    }
  }

  lemma TickedKeys(games: map<Pid, Game>, now: int, draws: Pid -> Colour)
    requires AllProtocol(games)
    ensures Ticked(games, now, draws).Keys == games.Keys
  {
    hide Protocol;
  }

  lemma HeardKeepsAnchored(g: Game, e: Event)
    requires IsMessage(e) && Protocol(g) && Anchored(g.board)
    ensures Anchored(Heard(g, e).board)
  {
    hide CommitLanding, Anchored;
    if e.Land? && CommitLanding(g, e.angle, e.x, e.y, e.draw).Ok? {
      CommitKeepsAnchored(g, e.angle, e.x, e.y, e.draw);
    }
  }

  lemma CommitKeepsAnchored(g: Game, angle: real, x: real, y: real, draw: Colour)
    requires Protocol(g) && CommitLanding(g, angle, x, y, draw).Ok? && Anchored(g.board)
    ensures Anchored(CommitLanding(g, angle, x, y, draw).value.game.board)
  {
    hide PlaceAndResolve, LastRowEmpty, Anchored;
    var m := Moving(x, y, 0.0, 0.0, g.shotColour);
    LandingLedger(g.(aim := ClampAim(angle), pending := false, moving := Some(m)), draw);
  }

  lemma DueLayersKeepAnchored(m: Match, now: int, tops: (Pid, nat) -> Layer, p: Pid)
    requires Consistent(m) && p in m.games && Anchored(m.games[p].board)
    ensures Anchored(AddDueLayers(m, now, tops).games[p].board)
  {
    hide Deepest, Rules.Valid, Balanced, Layered, Due, AddDueLayers, LayersNow, Anchored;
    SchedulerCases(m, now, tops);
    var n := LayersNow(m.games, m.nextAt, now, tops);
    if n == 0 {
      NoLayers(m, tops);
    } else {
      LayersOnGame(m.games[p], p, tops, n);
    }
  }

  lemma {:induction false} RunKeepsAnchored(m: Match, es: seq<Event>, p: Pid)
    requires Consistent(m) && p in m.games && Anchored(m.games[p].board)
    ensures p in Run(m, es).games && Anchored(Run(m, es).games[p].board)
  {
    hide Step, Consistent, Anchored;
    if es != [] {
      RunKeepsAnchored(m, es[..|es| - 1], p);
      StepKeepsAnchored(Run(m, es[..|es| - 1]), es[|es| - 1], p);
    }
  }

  /** The player's board is anchored after every possible run of the match. */
  ghost predicate AlwaysAnchored(m: Match, p: Pid)
    requires Consistent(m)
  {
    forall es :: p in Run(m, es).games && Anchored(Run(m, es).games[p].board)
  }

  /** When every board of every run is anchored: exactly when the dealt board is,
      that is, when a drop would take nothing from it. */
  lemma AlwaysAnchoredIffDealtSo(m: Match, p: Pid)
    requires Consistent(m) && p in m.games
    ensures AlwaysAnchored(m, p) <==> Anchored(m.games[p].board)
    ensures AlwaysAnchored(m, p) <==> |Floating(m.games[p].board)| == 0
    ensures Propped(m.games[p].board) ==> AlwaysAnchored(m, p)
  {
    hide Consistent, Anchored, Floating, Propped;
    var b := m.games[p].board;
    AnchoredMeansNothingDrops(b);
    if Propped(b) {
      ProppedIsAnchored(b);
    }
    if Anchored(b) {
      forall es ensures p in Run(m, es).games && Anchored(Run(m, es).games[p].board) {
        RunKeepsAnchored(m, es, p);
      }
    } else {
      assert Run(m, []) == m;
    }
  }

  /** If h comes later than g in one player's game: shots are numbered upwards,
      and a shot pending in h that g already numbered was pending in g, over the
      same board, with the same colour in the shooter, angle and time. */
  ghost predicate Follows(g: Game, h: Game) {
    && g.shotSeq <= h.shotSeq
    && (h.pending && h.shotSeq == g.shotSeq ==>
          && g.pending && h.board == g.board && h.shotColour == g.shotColour && h.current == g.current
          && h.shotAngle == g.shotAngle && h.shotAt == g.shotAt)
  }

  lemma CommitFollows(g: Game, angle: real, x: real, y: real, draw: Colour)
    requires Protocol(g) && CommitLanding(g, angle, x, y, draw).Ok?
    ensures var h := CommitLanding(g, angle, x, y, draw).value.game; h.shotSeq == g.shotSeq && !h.pending
  {
    hide PlaceAndResolve, LastRowEmpty;
    var m := Moving(x, y, 0.0, 0.0, g.shotColour);
    LandingLedger(g.(aim := ClampAim(angle), pending := false, moving := Some(m)), draw);
  }

  lemma LayeredFollows(g: Game, p: Pid, tops: (Pid, nat) -> Layer, k: nat)
    requires Protocol(g) && g.status == Playing && !g.pending && Deepest(g.board) + k <= ROWS - 1
    ensures Follows(g, Layered(g, p, tops, k))
  {
    hide Layered, Deepest, Bubbles, Anchored, LastRowEmpty;
    LayersOnGame(g, p, tops, k);
  }

  lemma LayersFollow(m: Match, now: int, tops: (Pid, nat) -> Layer, p: Pid)
    requires Consistent(m) && p in m.games
    ensures Follows(m.games[p], AddDueLayers(m, now, tops).games[p])
  {
    hide Deepest, Rules.Valid, Balanced, Layered, Follows, Due, AddDueLayers, LayersNow;
    SchedulerCases(m, now, tops);
    var n := LayersNow(m.games, m.nextAt, now, tops);
    if n == 0 {
      NoLayers(m, tops);
      SameFollows(m.games[p]);
    } else {
      LayeredFollows(m.games[p], p, tops, n);
    }
  }

  lemma SameFollows(g: Game)
    ensures Follows(g, g)
  {
  }

  lemma StepFollows(m: Match, e: Event, p: Pid)
    requires Consistent(m) && p in m.games
    ensures p in Step(m, e).games && Follows(m.games[p], Step(m, e).games[p])
  {
    hide Rules.Valid, Balanced, CommitLanding, TickGame, AddDueLayers, CanAddLayer;
    if e.Tick? {
      TicksKeepConsistent(m, e.now, e.draws);
    } else if e.AddLayers? {
      LayersFollow(At(m, e.now), e.now, e.tops, p);
    } else if e.Land? && e.pid == p && CommitLanding(m.games[p], e.angle, e.x, e.y, e.draw).Ok? {
      CommitFollows(m.games[p], e.angle, e.x, e.y, e.draw);
    }
  }

  /** Frozen board: between an accepted shot and its accepted landing, whatever
      messages, ticks and layer turns come in, the shooter's board and both colours stay. */
  lemma {:induction false} RunFollows(m: Match, es: seq<Event>, p: Pid)
    requires Consistent(m) && p in m.games
    ensures p in Run(m, es).games && Follows(m.games[p], Run(m, es).games[p])
  {
    hide Step, Consistent;
    if es != [] {
      RunFollows(m, es[..|es| - 1], p);
      StepFollows(Run(m, es[..|es| - 1]), es[|es| - 1], p);
    }
  }

  /** One step without a landing of the shooter: its shot stays pending and
      nobody gets a layer. */
  lemma StepWithoutLanding(m: Match, e: Event, p: Pid)
    requires Consistent(m) && p in m.games && m.games[p].pending && !(e.Land? && e.pid == p)
    ensures p in Step(m, e).games && Step(m, e).games[p].pending
    ensures Step(m, e).layers == m.layers && Step(m, e).nextAt == m.nextAt
  {
    hide Rules.Valid, Balanced, CommitLanding, TickGame, AddDueLayers;
    if e.Tick? {
      TicksKeepConsistent(m, e.now, e.draws);
    } else if e.AddLayers? {
      var n := At(m, e.now);
      hide Step, WithLayers, LayersNow, Due;
      SchedulerCases(n, e.now, e.tops);
      NoLayers(n, e.tops);
      StepAddsLayers(m, e);
    }
  }

  lemma StepAddsLayers(m: Match, e: Event)
    requires Consistent(m) && e.AddLayers?
    ensures Step(m, e) == AddDueLayers(At(m, e.now), e.now, e.tops)
  {
  }

  /** One landing that is never sent stops the layers of the whole match. */
  lemma {:induction false} UnsentLandingStopsLayers(m: Match, es: seq<Event>, p: Pid)
    requires Consistent(m) && p in m.games && m.games[p].pending
    requires forall i :: 0 <= i < |es| ==> !(es[i].Land? && es[i].pid == p)
    ensures p in Run(m, es).games && Run(m, es).games[p].pending
    ensures Run(m, es).layers == m.layers && Run(m, es).nextAt == m.nextAt
  {
    hide Step, Consistent;
    if es != [] {
      UnsentLandingStopsLayers(m, es[..|es| - 1], p);
      StepWithoutLanding(Run(m, es[..|es| - 1]), es[|es| - 1], p);
    }
  }
}
