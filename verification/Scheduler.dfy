/** The players' states of one running match as mutable objects, and the loops
    over them: ticking all, asking whether a layer may be added, and catching up. */
module Scheduler {
  import opened Boards
  import opened Grid
  import opened Resolve
  import opened Reprojection
  import opened Rules
  import opened Matches
  import opened Engine

  type States = map<Pid, PlayerState>

  ghost function Objects(states: States): set<object> {
    set p | p in states :: states[p]
  }

  ghost function BoardsOf(states: States): set<object>
    reads Objects(states)
  {
    set p | p in states :: states[p].Board
  }

  /** Distinct players own distinct objects, each well formed and with nothing
      in server-side flight. */
  ghost predicate Separate(states: States)
    reads Objects(states)
  {
    && (forall p :: p in states ==> states[p].Moving == null)
    && forall p, q :: p in states && q in states && p != q ==>
         states[p] != states[q] && states[p].Board != states[q].Board
  }

  ghost function GameOf(st: PlayerState): Game
    requires st.Moving == null && IsGrid(st.Board)
    reads st, st.Board
  {
    st.Value()
  }

  ghost predicate Gridded(states: States)
    reads Objects(states), BoardsOf(states)
  {
    Separate(states) && forall p :: p in states ==> IsGrid(states[p].Board)
  }

  ghost function Games(states: States): (g: map<Pid, Game>)
    requires Gridded(states)
    reads Objects(states), BoardsOf(states)
    ensures g.Keys == states.Keys
  {
    map p | p in states :: GameOf(states[p])
  }

  ghost predicate Sound(states: States)
    reads Objects(states), BoardsOf(states)
  {
    Gridded(states) && forall p :: p in states ==> Protocol(GameOf(states[p]))
  }

  twostate lemma GamesUnchanged(states: States)
    requires old(Gridded(states))
    requires forall p :: p in states ==> unchanged(states[p]) && unchanged(states[p].Board)
    ensures Gridded(states) && Games(states) == old(Games(states))
  {
    hide IsGrid, View;
    forall p | p in states ensures IsGrid(states[p].Board) && GameOf(states[p]) == old(GameOf(states[p])) {
    }
  }

  /** A loop over the players, partway: those in `todo` still play the game they
      had, the others already the one they are meant to have. */
  ghost function Partway(before: map<Pid, Game>, after: map<Pid, Game>, todo: set<Pid>): map<Pid, Game>
    requires before.Keys == after.Keys
  {
    map p | p in before :: if p in todo then before[p] else after[p]
  }

  lemma PartwayEnds(before: map<Pid, Game>, after: map<Pid, Game>)
    requires before.Keys == after.Keys
    ensures Partway(before, after, before.Keys) == before && Partway(before, after, {}) == after
  {
  }

  lemma PartwayTurn(before: map<Pid, Game>, after: map<Pid, Game>, todo: set<Pid>, p: Pid)
    requires before.Keys == after.Keys && p in todo && p in before
    ensures p in Partway(before, after, todo) && Partway(before, after, todo)[p] == before[p]
    ensures Partway(before, after, todo)[p := after[p]] == Partway(before, after, todo - {p})
  {
  }

  /** New states for all members of a room. */
  method DealAll(members: set<Pid>, rand: Pid -> Deal) returns (states: States)
    ensures Gridded(states) && states.Keys == members
    ensures forall p :: p in states ==> fresh(states[p]) && fresh(states[p].Board)
    ensures Games(states) == map p | p in members :: InitialGame(rand(p))
  {
    hide IsGrid, View, InitialGame;
    states := map[];
    var todo := members;
    while todo != {}
      invariant todo <= members && states.Keys == members - todo
      invariant Gridded(states)
      invariant forall p :: p in states ==> fresh(states[p]) && fresh(states[p].Board)
      invariant forall p :: p in states ==> GameOf(states[p]) == InitialGame(rand(p))
    {
      var p :| p in todo;
      var st := new PlayerState.NewInitialState(rand(p));
      states := states[p := st];
      todo := todo - {p};
    }
  }

  lemma StatusesShown(states: States, games: map<Pid, Game>)
    requires Gridded(states) && Games(states) == games
    ensures states.Keys == games.Keys
    ensures forall p :: p in states ==> games[p].status == states[p].Status
  {
    forall p | p in states ensures games[p].status == states[p].Status {
      assert games[p] == GameOf(states[p]);
    }
  }

  /** All players are in the game with nothing in flight or pending. */
  ghost predicate AllIdle(states: States)
    reads Objects(states)
  {
    states.Keys != {} &&
    forall p :: p in states ==> states[p].Status == Playing && states[p].Moving == null && !states[p].PendingShot
  }

  method MayAddLayer(states: States) returns (ok: bool)
    ensures ok <==> AllIdle(states)
  {
    if |states| == 0 {
      return false;
    }
    var todo := states.Keys;
    while todo != {}
      invariant todo <= states.Keys
      invariant forall p :: p in states && p !in todo ==>
                  states[p].Status == Playing && states[p].Moving == null && !states[p].PendingShot
    {
      var p :| p in todo;
      var st := states[p];
      if st.Status != Playing || st.Moving != null || st.PendingShot {
        return false;
      }
      todo := todo - {p};
    }
    return true;
  }

  lemma IdleMayAdd(states: States, games: map<Pid, Game>)
    requires Gridded(states) && Games(states) == games
    ensures AllIdle(states) <==> CanAddLayer(games)
  {
    StatusesShown(states, games);
    forall p | p in states
      ensures games[p].moving.None? && states[p].Moving == null && games[p].pending == states[p].PendingShot
    {
      assert games[p] == GameOf(states[p]);
    }
  }

  lemma StatesAreDistinct(states: States)
    requires Gridded(states)
    ensures forall p, q :: p in states && q in states && p != q ==> states[p] != states[q]
  {
  }

  method TickOne(st: PlayerState, now: int, draw: Colour)
    requires st.Moving == null && IsGrid(st.Board) && Protocol(GameOf(st))
    modifies st, st.Board
    ensures st.Moving == null && st.Board == old(st.Board) && IsGrid(st.Board)
    ensures GameOf(st) == TickGame(old(GameOf(st)), now, draw)
  {
    ghost var r := st.TickState(now, draw);
  }

  method TickNext(states: States, p: Pid, now: int, draw: Colour)
    requires Gridded(states) && p in states && Protocol(Games(states)[p])
    modifies states[p], states[p].Board
    ensures Gridded(states) && forall q :: q in states ==> states[q].Board == old(states[q].Board)
    ensures Games(states) == old(Games(states))[p := TickGame(old(Games(states))[p], now, draw)]
  {
    hide GameOf, TickGame, IsGrid, Protocol;
    TickOne(states[p], now, draw);
  }

  method TickAll(states: States, now: int, draws: Pid -> Colour)
    requires Sound(states)
    modifies Objects(states), BoardsOf(states)
    ensures Gridded(states) && forall p :: p in states ==> states[p].Board == old(states[p].Board)
    ensures old(Sound(states)) && Games(states) == Ticked(old(Games(states)), now, draws)
  {
    ghost var before := Games(states);
    SoundGames(states);
    ghost var after := Ticked(before, now, draws);
    PartwayEnds(before, after);
    hide GameOf, TickGame, IsGrid, Protocol, Partway, Gridded, Games, Ticked;
    var todo := states.Keys;
    while todo != {}
      invariant todo <= states.Keys && Gridded(states)
      invariant forall p :: p in states ==> states[p].Board == old(states[p].Board)
      invariant Games(states) == Partway(before, after, todo)
    {
      var p :| p in todo;
      PartwayTurn(before, after, todo, p);
      TickNext(states, p, now, draws(p));
      TickedAt(before, now, draws, p);
      todo := todo - {p};
    }
  }

  lemma TickedAt(games: map<Pid, Game>, now: int, draws: Pid -> Colour, p: Pid)
    requires AllProtocol(games) && p in games
    ensures p in Ticked(games, now, draws) && Ticked(games, now, draws)[p] == TickGame(games[p], now, draws(p))
  {
  }

  lemma SoundGames(states: States)
    requires Sound(states)
    ensures AllProtocol(Games(states))
  {
    hide Protocol;
    forall p | p in states ensures Protocol(Games(states)[p]) {
      assert Games(states)[p] == GameOf(states[p]);
    }
  }

  ghost function OneLayer(games: map<Pid, Game>, tops: (Pid, nat) -> Layer, k: nat): map<Pid, Game> {
    map p | p in games :: AddLayer(games[p], tops(p, k))
  }

  method AddLayerTo(st: PlayerState, top: Layer)
    requires st.Moving == null && IsGrid(st.Board) && Rules.Valid(GameOf(st))
    modifies st
    ensures st.Moving == null && fresh(st.Board) && IsGrid(st.Board)
    ensures GameOf(st) == AddLayer(old(GameOf(st)), top)
  {
    st.AddTopLayer(top);
  }

  /** Adds layer number k to every board. */
  method AddLayerToAll(states: States, tops: (Pid, nat) -> Layer, k: nat)
    requires Gridded(states) && forall p :: p in Games(states) ==> Rules.Valid(Games(states)[p])
    modifies Objects(states)
    ensures Gridded(states) && forall p :: p in states ==> fresh(states[p].Board)
    ensures Games(states) == OneLayer(old(Games(states)), tops, k)
  {
    hide GameOf, AddLayer, IsGrid, Rules.Valid, BoardsOf;
    ghost var before := Games(states);
    var todo := states.Keys;
    while todo != {}
      invariant todo <= states.Keys
      invariant Gridded(states)
      invariant forall p :: p in states ==>
                  if p in todo then states[p].Board == old(states[p].Board) && GameOf(states[p]) == before[p]
                  else fresh(states[p].Board) && GameOf(states[p]) == AddLayer(before[p], tops(p, k))
    {
      var p :| p in todo;
      AddLayerTo(states[p], tops(p, k));
      todo := todo - {p};
    }
  }

  lemma OneMoreLayer(games: map<Pid, Game>, tops: (Pid, nat) -> Layer, k: nat)
    ensures AllLayered(games, tops, k + 1) == OneLayer(AllLayered(games, tops, k), tops, k)
  {
    hide AddLayer;
  }

  /** What holds of the games when the catch-up loop has added k layers. */
  ghost predicate CaughtUp(base: map<Pid, Game>, tops: (Pid, nat) -> Layer, due: nat, k: nat) {
    && k <= due && Fits(base, k)
    && CatchUp(base, tops, due, k) == CatchUp(base, tops, due, 0)
  }

  lemma CaughtUpOneMore(base: map<Pid, Game>, tops: (Pid, nat) -> Layer, due: nat, k: nat)
    requires CanAddLayer(base) && forall p :: p in base ==> Protocol(base[p])
    requires CaughtUp(base, tops, due, k)
    ensures k < due && CanAddLayer(AllLayered(base, tops, k)) ==>
              CaughtUp(base, tops, due, k + 1) &&
              forall p :: p in AllLayered(base, tops, k) ==> Rules.Valid(AllLayered(base, tops, k)[p])
    ensures !(k < due && CanAddLayer(AllLayered(base, tops, k))) ==> k == CatchUp(base, tops, due, 0)
  {
    hide Deepest, AddLayer, LastRowEmpty;
    CanAddAfter(base, tops, k);
    if k < due && CanAddLayer(AllLayered(base, tops, k)) {
      forall p | p in base ensures Deepest(base[p].board) + (k + 1) <= ROWS - 1 {
        if k == 0 { PlayingHasRoom(base[p]); }
      }
      forall p | p in base ensures Rules.Valid(AllLayered(base, tops, k)[p]) {
        LayersOnGame(base[p], p, tops, k);
      }
    }
  }

  /** One turn of the catch-up loop: a layer for everyone, or nothing at all. */
  method TryLayer(states: States, tops: (Pid, nat) -> Layer, n: nat, ghost base: map<Pid, Game>, ghost due: nat)
    returns (ok: bool)
    requires Gridded(states) && Games(states) == AllLayered(base, tops, n)
    requires CanAddLayer(base) && (forall p :: p in base ==> Protocol(base[p]))
    requires n < due && CaughtUp(base, tops, due, n)
    modifies Objects(states)
    ensures Gridded(states)
    ensures ok ==> CaughtUp(base, tops, due, n + 1) && Games(states) == AllLayered(base, tops, n + 1)
    ensures ok ==> forall p :: p in states ==> fresh(states[p].Board)
    ensures !ok ==> n == CatchUp(base, tops, due, 0) && Games(states) == AllLayered(base, tops, n)
    ensures !ok ==> forall p :: p in states ==> states[p].Board == old(states[p].Board)
  {
    hide Protocol, AddLayer, GameOf, AllLayered, CanAddLayer, CaughtUp, CatchUp, Rules.Valid;
    CaughtUpOneMore(base, tops, due, n);
    IdleMayAdd(states, AllLayered(base, tops, n));
    ok := MayAddLayer(states);
    assert Games(states) == AllLayered(base, tops, n);
    if ok {
      OneMoreLayer(base, tops, n);
      AddLayerToAll(states, tops, n);
    }
  }

  /** The catch-up loop: one layer for every passed deadline, until a board
      reaches its last row. */
  method CatchUpLayers(states: States, deadline: int, now: int, tops: (Pid, nat) -> Layer)
    returns (nextAt: int, n: nat)
    requires Sound(states) && CanAddLayer(Games(states)) && deadline <= now
    modifies Objects(states)
    ensures Gridded(states)
    ensures forall p :: p in states ==> states[p].Board == old(states[p].Board) || fresh(states[p].Board)
    ensures n == CatchUp(old(Games(states)), tops, Due(deadline, now), 0)
    ensures Games(states) == AllLayered(old(Games(states)), tops, n)
    ensures nextAt == deadline + PERIOD * n
  {
    ghost var base := Games(states);
    ghost var due := Due(deadline, now);
    nextAt, n := deadline, 0;
    NothingAdded(base, tops, due);
    hide Protocol, GameOf, Gridded, Games, AllLayered, CanAddLayer, CaughtUp, CatchUp, Due;
    while now >= nextAt
      invariant Gridded(states)
      invariant forall p :: p in states ==> states[p].Board == old(states[p].Board) || fresh(states[p].Board)
      invariant nextAt == deadline + PERIOD * n
      invariant CaughtUp(base, tops, due, n)
      invariant Games(states) == AllLayered(base, tops, n)
      decreases now - nextAt
    {
      DueCounts(deadline, now, n);
      var ok := TryLayer(states, tops, n, base, due);
      if !ok {
        return;
      }
      nextAt := nextAt + PERIOD;
      n := n + 1;
    }
    DueCounts(deadline, now, n);
    CaughtUpOneMore(base, tops, due, n);
  }

  lemma DueCounts(deadline: int, now: int, n: nat)
    requires deadline <= now
    ensures deadline + PERIOD * n <= now <==> n < Due(deadline, now)
  {
  }

  lemma NothingAdded(base: map<Pid, Game>, tops: (Pid, nat) -> Layer, due: nat)
    requires CanAddLayer(base) && forall p :: p in base ==> Protocol(base[p])
    ensures CaughtUp(base, tops, due, 0) && AllLayered(base, tops, 0) == base
  {
    hide CatchUp, Deepest;
    PlayingStart(base);
  }

  /** The scheduler's turn for a room that is playing. */
  method MaybeAddTopLayer(states: States, deadline: int, now: int, tops: (Pid, nat) -> Layer) returns (nextAt: int)
    requires Sound(states) && states.Keys != {}
    modifies Objects(states)
    ensures Gridded(states)
    ensures forall p :: p in states ==> states[p].Board == old(states[p].Board) || fresh(states[p].Board)
    ensures Games(states) == AllLayered(old(Games(states)), tops, LayersNow(old(Games(states)), deadline, now, tops))
    ensures nextAt == NextDeadline(old(Games(states)), deadline, now, tops)
    ensures deadline <= 0 ==> nextAt == now + 10000 && Games(states) == old(Games(states))
  {
    hide Protocol, GameOf, IsGrid, CatchUp, Layered, AllLayered, CanAddLayer, Due;
    ghost var base := Games(states);
    ZeroLayers(base, tops);
    if deadline <= 0 {
      return now + PERIOD;
    }
    IdleMayAdd(states, base);
    var ok := MayAddLayer(states);
    assert Games(states) == base;
    if now < deadline || !ok {
      NoneDue(base, deadline, now, tops);
      return deadline;
    }
    var n;
    nextAt, n := CatchUpLayers(states, deadline, now, tops);
  }

  lemma NoneDue(games: map<Pid, Game>, deadline: int, now: int, tops: (Pid, nat) -> Layer)
    requires now < deadline || !CanAddLayer(games)
    ensures CatchUp(games, tops, Due(deadline, now), 0) == 0
  {
    ZeroLayers(games, tops);
  }

  method Hear(st: PlayerState, e: Event)
    requires IsMessage(e) && st.Moving == null && IsGrid(st.Board) && Protocol(GameOf(st))
    modifies st, st.Board
    ensures st.Moving == null && st.Board == old(st.Board) && IsGrid(st.Board)
    ensures GameOf(st) == Heard(old(GameOf(st)), e)
  {
    match e
    case Aim(_, angle) =>
      st.AimAngle := ClampAim(angle);
    case Shot(_, angle, now) =>
      ghost var r;
      var ok;
      r, ok := st.BeginClientShot(angle, now);
    case Land(_, angle, x, y, draw) =>
      ghost var r;
      var ok;
      r, ok := st.CommitLanding(angle, x, y, draw);
  }

  /** One message from a player who has a game. */
  method Receive(states: States, e: Event)
    requires Sound(states) && IsMessage(e) && e.pid in states
    modifies states[e.pid], states[e.pid].Board
    ensures Gridded(states) && forall p :: p in states ==> states[p].Board == old(states[p].Board)
    ensures Games(states) == Played(old(Games(states)), e)
  {
    hide GameOf, Protocol, IsGrid, Heard;
    Hear(states[e.pid], e);
  }
}
