/** The distributed game server's sessions as objects: players' states, the
    winner, heartbeats, and the room manager that hears of the outcome. */
module Sessions {
  import opened Wrappers
  import opened Boards
  import opened Resolve
  import opened Rules
  import opened Matches
  import opened Scheduler
  import opened RoomManager
  import opened SessionRules

  class GameSession {
    const Players: set<Pid>
    const Tickets: map<Pid, string>
    var States: States
    var WinnerID: Option<Pid>
    var LastHeartbeat: map<Pid, int>
    var Finalized: bool

    ghost function Value(): Session
      requires Gridded(States)
      reads this, Objects(States), BoardsOf(States)
    {
      Session(Games(States), WinnerID, LastHeartbeat, Finalized)
    }

    ghost predicate Valid()
      reads this, Objects(States), BoardsOf(States)
    {
      Gridded(States) && Fair(Value()) && Players == States.Keys == Tickets.Keys
    }

    constructor (players: set<Pid>, now: int, rand: Pid -> Deal, randomTicket: Pid -> string)
      ensures Players == players && Tickets == map p | p in players :: randomTicket(p)
      ensures Gridded(States) && fresh(Objects(States)) && fresh(BoardsOf(States))
      ensures Value() == Created(players, p => InitialGame(rand(p)), now) && Valid()
      ensures States.Keys == players && WinnerID == None && !Finalized
      ensures LastHeartbeat == map p | p in players :: now
    {
      AllDealtFairly(players, now, rand);
      hide Gridded, Games, InitialGame, Fair;
      var states := DealAll(players, rand);
      label dealt:
      Players, Tickets := players, map p | p in players :: randomTicket(p);
      States := states;
      WinnerID, Finalized := None, false;
      LastHeartbeat := map p | p in players :: now;
      new;
      GamesUnchanged@dealt(states);
    }
  }

  lemma AllDealtFairly(players: set<Pid>, now: int, rand: Pid -> Deal)
    ensures Fair(Created(players, p => InitialGame(rand(p)), now))
  {
    hide InitialGame, Dealt, Fair, Created;
    forall p ensures Dealt(InitialGame(rand(p))) {
      InitialIsDealt(rand(p));
    }
    CreatedIsFair(players, p => InitialGame(rand(p)), now);
  }

  /** A session and the manager it shares with the rest of the server. */
  ghost function SystemOf(sess: GameSession, mgr: Manager): System
    requires Gridded(sess.States)
    reads sess, Objects(sess.States), BoardsOf(sess.States), mgr
  {
    System(sess.Value(), mgr.Value())
  }

  /** All of `done` but the winner have been sent out of their rooms. */
  ghost predicate SentOut(l: Lobbies.Lobby, k: Lobbies.Lobby, ds: seq<Departure>, done: set<Pid>, winner: Pid, now: int,
                          tick: int)
    requires tick > 0
  {
    k == Dismiss(l, ds, now, tick) && Enumerates(ds, done - {winner})
  }

  lemma NoneSentOut(l: Lobbies.Lobby, winner: Pid, now: int, tick: int)
    requires tick > 0
    ensures SentOut(l, l, [], {}, winner, now, tick)
  {
    assert Leavers([]) == {};
  }

  lemma OneSentOut(l: Lobbies.Lobby, k: Lobbies.Lobby, ds: seq<Departure>, done: set<Pid>, winner: Pid, d: Departure,
                   now: int, tick: int)
    requires tick > 0 && SentOut(l, k, ds, done, winner, now, tick) && d.pid !in done && d.pid != winner
    ensures SentOut(l, Lobbies.Serve(k, Lobbies.Leave(d.pid, d.heir), now, tick), ds + [d], done + {d.pid}, winner,
                    now, tick)
  {
    hide Lobbies.Serve;
    assert (ds + [d])[..|ds|] == ds;
    assert Leavers(ds + [d]) == Leavers(ds) + {d.pid};
    assert (done + {d.pid}) - {winner} == (done - {winner}) + {d.pid};
  }

  lemma WinnerSkipped(l: Lobbies.Lobby, k: Lobbies.Lobby, ds: seq<Departure>, done: set<Pid>, winner: Pid, now: int,
                      tick: int)
    requires tick > 0 && SentOut(l, k, ds, done, winner, now, tick)
    ensures SentOut(l, k, ds, done + {winner}, winner, now, tick)
  {
    assert (done + {winner}) - {winner} == done - {winner};
  }

  /** Sends everyone but the winner out of their rooms, in any order. */
  method FinalizeRoomAfterWin(sess: GameSession, mgr: Manager, winner: Pid, now: int) returns (ghost ds: seq<Departure>)
    requires mgr.Valid() && mgr.clock <= now && winner in sess.States
    modifies sess`Finalized, mgr
    ensures mgr.Valid() && mgr.clock <= now && sess.Finalized
    ensures old(sess.Finalized) ==> mgr.Value() == old(mgr.Value())
    ensures !old(sess.Finalized) ==>
              SentOut(old(mgr.Value()), mgr.Value(), ds, sess.States.Keys, winner, now, mgr.frameTick)
  {
    hide Lobbies.Coherent, Lobbies.Serve, SentOut;
    ds := [];
    if sess.Finalized {
      return;
    }
    ghost var l := mgr.Value();
    var todo := sess.States.Keys;
    ghost var done: set<Pid> := {};
    NoneSentOut(l, winner, now, mgr.frameTick);
    while todo != {}
      invariant done + todo == sess.States.Keys && done !! todo
      invariant mgr.Valid() && mgr.clock <= now
      invariant SentOut(l, mgr.Value(), ds, done, winner, now, mgr.frameTick)
    {
      var pid :| pid in todo;
      if pid == winner {
        WinnerSkipped(l, mgr.Value(), ds, done, winner, now, mgr.frameTick);
      } else {
        ghost var k := mgr.Value();
        var error;
        ghost var heir;
        error, heir := LeaveQuietly(mgr, pid, now);
        OneSentOut(l, k, ds, done, winner, Departure(pid, heir), now, mgr.frameTick);
        ds := ds + [Departure(pid, heir)];
      }
      todo, done := todo - {pid}, done + {pid};
    }
    assert done == sess.States.Keys;
    sess.Finalized := true;
  }

  method LeaveQuietly(mgr: Manager, pid: Pid, now: int) returns (error: Option<Lobbies.RoomError>, ghost heir: Pid)
    requires mgr.Valid() && mgr.clock <= now
    modifies mgr
    ensures mgr.Valid() && mgr.clock == now
    ensures mgr.Value() == Lobbies.Serve(old(mgr.Value()), Lobbies.Leave(pid, heir), now, mgr.frameTick)
  {
    var room;
    room, error, heir := mgr.LeaveRoom(pid, now);
  }

  /** The list names, once each, those of `done` who have not lost. */
  ghost predicate Collected(alive: seq<Pid>, done: set<Pid>, games: map<Pid, Game>) {
    |alive| == |Alive(done, games)| && forall p :: p in alive ==> p in Alive(done, games)
  }

  lemma NoneCollected(games: map<Pid, Game>)
    ensures Collected([], {}, games)
  {
    assert Alive({}, games) == {};
  }

  lemma OneCollected(alive: seq<Pid>, done: set<Pid>, games: map<Pid, Game>, p: Pid)
    requires p !in done && p in games && Collected(alive, done, games)
    ensures Collected(if games[p].status != Lost then alive + [p] else alive, done + {p}, games)
  {
    if games[p].status != Lost {
      assert Alive(done + {p}, games) == Alive(done, games) + {p};
    } else {
      assert Alive(done + {p}, games) == Alive(done, games);
    }
  }

  lemma AllCollected(alive: seq<Pid>, games: map<Pid, Game>)
    requires Collected(alive, games.Keys, games)
    ensures |alive| == |AliveIn(games)| && forall p :: p in alive ==> p in AliveIn(games)
  {
    assert Alive(games.Keys, games) == AliveIn(games);
  }

  /** Who of a session's players has not lost, in any order. */
  method CollectAlive(states: States, ghost games: map<Pid, Game>) returns (alive: seq<Pid>)
    requires Gridded(states) && Games(states) == games
    ensures |alive| == |AliveIn(games)| && forall p :: p in alive ==> p in AliveIn(games)
  {
    hide Collected, AliveIn, Gridded, Games;
    StatusesShown(states, games);
    NoneCollected(games);
    alive := [];
    var todo := states.Keys;
    ghost var done: set<Pid> := {};
    while todo != {}
      invariant done + todo == states.Keys && done !! todo
      invariant Collected(alive, done, games)
    {
      var p :| p in todo;
      OneCollected(alive, done, games, p);
      todo, done := todo - {p}, done + {p};
      if states[p].Status != Lost {
        alive := alive + [p];
      }
    }
    assert done == games.Keys;
    AllCollected(alive, games);
  }

  /** Names the winner when exactly one of two or more is left. */
  method ResolveSession(sess: GameSession, mgr: Manager, now: int) returns (ghost ds: seq<Departure>)
    requires Gridded(sess.States) && mgr.Valid() && mgr.clock <= now
    modifies sess`WinnerID, sess`Finalized, mgr
    ensures Gridded(sess.States) && mgr.Valid() && mgr.clock <= now
    ensures SystemOf(sess, mgr) == ResolveOutcome(old(SystemOf(sess, mgr)), ds, now, mgr.frameTick)
    ensures Called(ds, old(SystemOf(sess, mgr)).session)
    ensures sess.States == old(sess.States)
  {
    hide Gridded, Games, Lobbies.Coherent, Dismiss, AliveIn, Enumerates;
    ds := [];
    ghost var games := Games(sess.States);
    GamesKeys(sess.States);
    var alive := CollectAlive(sess.States, games);
    if |sess.States| >= 2 && |alive| == 1 {
      assert alive[0] in AliveIn(games);
      SurvivorIs(games, sess.States.Keys, alive[0]);
      sess.WinnerID := Some(alive[0]);
      ds := FinalizeRoomAfterWin(sess, mgr, alive[0], now);
    } else {
      NotOneLeft(games, sess.States.Keys);
    }
    GamesUnchanged(sess.States);
  }

  lemma GamesKeys(states: States)
    requires Gridded(states)
    ensures Games(states).Keys == states.Keys
  {
  }

  lemma NotOneLeft(games: map<Pid, Game>, keys: set<Pid>)
    requires games.Keys == keys && !(|keys| >= 2 && |AliveIn(games)| == 1)
    ensures !OneLeft(games)
  {
    assert |games| == |games.Keys|;
  }

  lemma SurvivorIs(games: map<Pid, Game>, keys: set<Pid>, w: Pid)
    requires games.Keys == keys && |keys| >= 2 && |AliveIn(games)| == 1 && w in AliveIn(games)
    ensures OneLeft(games) && Survivor(games) == w && w in games
  {
    assert |games| == |games.Keys|;
  }

  method Strike(states: States, p: Pid)
    requires Gridded(states) && p in states
    modifies states[p]
    ensures forall q :: q in states ==> states[q].Board == old(states[q].Board)
    ensures Gridded(states) && Games(states) == old(Games(states))[p := old(Games(states))[p].(status := Lost)]
  {
    hide IsGrid, View;
    states[p].Status := Lost;
  }

  /** Declares lost whoever was silent for too long, in any order. */
  method StrikeSilent(states: States, lastHeartbeat: map<Pid, int>, now: int, timeout: int, ghost s: Session)
    requires Gridded(states) && Games(states) == s.states && lastHeartbeat == s.lastHeartbeat
    modifies Objects(states)
    ensures Gridded(states) && Games(states) == TimedOut(s, now, timeout).states
    ensures forall p :: p in states ==> states[p].Board == old(states[p].Board)
  {
    ghost var after := TimedOut(s, now, timeout).states;
    NoneStruck(s, now, timeout);
    hide Gridded, Games, Partway, TimedOut;
    var todo := lastHeartbeat.Keys;
    while todo != {}
      invariant todo <= lastHeartbeat.Keys && Gridded(states)
      invariant forall p :: p in states ==> states[p].Board == old(states[p].Board)
      invariant Games(states) == Partway(s.states, after, todo)
    {
      var p :| p in todo;
      StatusesShown(states, Partway(s.states, after, todo));
      StrikeTurn(s, now, timeout, todo, p);
      todo := todo - {p};
      if lastHeartbeat[p] <= 0 {
        continue;
      }
      if now - lastHeartbeat[p] <= timeout {
        continue;
      }
      if p in states && states[p].Status != Lost {
        Strike(states, p);
      }
    }
    PartwayEnds(s.states, after);
  }

  lemma NoneStruck(s: Session, now: int, timeout: int)
    ensures TimedOut(s, now, timeout).states.Keys == s.states.Keys
    ensures Partway(s.states, TimedOut(s, now, timeout).states, s.lastHeartbeat.Keys) == s.states
  {
  }

  lemma StrikeTurn(s: Session, now: int, timeout: int, todo: set<Pid>, p: Pid)
    requires p in todo
    ensures var after := TimedOut(s, now, timeout).states;
            && after.Keys == s.states.Keys
            && var x, y := Partway(s.states, after, todo), Partway(s.states, after, todo - {p});
               if p in s.states && Silent(s, p, now, timeout) && s.states[p].status != Lost then
                 p in x && x[p] == s.states[p] && y == x[p := s.states[p].(status := Lost)]
               else y == x && (p in s.states ==> x[p] == s.states[p])
  {
  }

  lemma TimedOutStates(s: Session, now: int, timeout: int)
    ensures TimedOut(s, now, timeout) == s.(states := TimedOut(s, now, timeout).states)
  {
  }

  /** Unless a winner stands already, players not heard from for too long lose,
      and the outcome is settled. */
  method ApplyHeartbeatTimeouts(sess: GameSession, mgr: Manager, at: int, now: int, configured: int)
    returns (ghost ds: seq<Departure>)
    requires Gridded(sess.States) && mgr.Valid() && mgr.clock <= now
    modifies sess`WinnerID, sess`Finalized, Objects(sess.States), mgr
    ensures Gridded(sess.States) && mgr.Valid() && mgr.clock <= now && sess.States == old(sess.States)
    ensures forall p :: p in sess.States ==> sess.States[p].Board == old(sess.States[p].Board)
    ensures SystemOf(sess, mgr) ==
            CheckHeartbeats(old(SystemOf(sess, mgr)), at, ds, now, TimeoutOf(configured), mgr.frameTick)
    ensures var s := old(SystemOf(sess, mgr)).session;
            s.winner == None && s.lastHeartbeat != map[] ==> Called(ds, TimedOut(s, at, TimeoutOf(configured)))
  {
    hide Gridded, Games, Lobbies.Coherent, ResolveOutcome, TimedOut, Called;
    ds := [];
    if sess.WinnerID.Some? {
      return;
    }
    if |sess.LastHeartbeat| == 0 {
      return;
    }
    var timeoutMs := configured;
    if timeoutMs <= 0 {
      timeoutMs := DEFAULT_TIMEOUT;
    }
    TimedOutStates(sess.Value(), at, timeoutMs);
    StrikeSilent(sess.States, sess.LastHeartbeat, at, timeoutMs, sess.Value());
    ds := ResolveSession(sess, mgr, now);
  }

  lemma SoundFromGames(states: States)
    requires Gridded(states) && AllProtocol(Games(states))
    ensures Sound(states)
  {
    hide Protocol;
    forall p | p in states ensures Protocol(GameOf(states[p])) {
      assert Games(states)[p] == GameOf(states[p]);
    }
  }

  method TickSession(sess: GameSession, now: int, draws: Pid -> Colour)
    requires sess.Valid()
    modifies Objects(sess.States), BoardsOf(sess.States)
    ensures Gridded(sess.States) && AllProtocol(old(sess.Value()).states)
    ensures sess.Value() == old(sess.Value()).(states := Ticked(old(sess.Value()).states, now, draws))
  {
    FairIsProtocol(sess.Value());
    SoundFromGames(sess.States);
    hide Gridded, Games, AllProtocol, Ticked, Fair, Sound;
    TickAll(sess.States, now, draws);
  }

  /** A poll: silent players are struck, then time passes for every game. Only
      then the poller's own game is copied: without one the handler panics, and
      its connection is gone, but what it did stays. */
  method BuildState(sess: GameSession, mgr: Manager, pid: Pid, at: int, now: int, configured: int,
                    draws: Pid -> Colour) returns (panics: bool, ghost ds: seq<Departure>)
    requires sess.Valid() && mgr.Valid() && mgr.clock <= now
    modifies sess`WinnerID, sess`Finalized, Objects(sess.States), BoardsOf(sess.States), mgr
    ensures panics <==> pid !in sess.Players
    ensures sess.Valid() && mgr.Valid() && mgr.clock <= now && AllProtocol(old(sess.Value()).states)
    ensures SystemOf(sess, mgr) ==
            Act(old(SystemOf(sess, mgr)), Build(at, draws, ds), now, TimeoutOf(configured), mgr.frameTick)
    ensures var s := old(SystemOf(sess, mgr)).session;
            s.winner == None && s.lastHeartbeat != map[] ==> Called(ds, TimedOut(s, at, TimeoutOf(configured)))
  {
    hide Gridded, Games, Lobbies.Coherent, CheckHeartbeats, TimedOut, Called, Fair, AllProtocol, Sound, Ticked, Later;
    ghost var s := SystemOf(sess, mgr);
    FairIsProtocol(s.session);
    GamesKeys(sess.States);
    ds := ApplyHeartbeatTimeouts(sess, mgr, at, now, configured);
    CheckIsFair(s, at, ds, now, TimeoutOf(configured), mgr.frameTick);
    ActIsFair(s, Build(at, draws, ds), now, TimeoutOf(configured), mgr.frameTick);
    TickSession(sess, at, draws);
    panics := pid !in sess.States;
  }

  lemma FairIsProtocol(s: Session)
    requires Fair(s)
    ensures AllProtocol(s.states)
  {
  }

  method HandleHeartbeat(sess: GameSession, pid: Pid, at: int)
    requires sess.Valid()
    modifies sess`LastHeartbeat
    ensures sess.Valid() && AllProtocol(old(sess.Value()).states)
    ensures sess.Value() == old(sess.Value()).(lastHeartbeat := old(sess.LastHeartbeat)[pid := at])
    ensures sess.LastHeartbeat == old(sess.LastHeartbeat)[pid := at]
  {
    hide Gridded, Games, AllProtocol;
    sess.LastHeartbeat := sess.LastHeartbeat[pid := at];
    GamesUnchanged(sess.States);
  }

  /** A connection to the session, for who shows the ticket it was dealt. */
  method HandleConnect(sess: GameSession, pid: Pid, ticket: string, at: int) returns (ok: bool)
    requires sess.Valid()
    modifies sess`LastHeartbeat
    ensures ok <==> ticket != "" && pid in sess.Tickets && sess.Tickets[pid] == ticket
    ensures sess.Valid()
    ensures sess.Value() ==
            if ok then old(sess.Value()).(lastHeartbeat := old(sess.LastHeartbeat)[pid := at]) else old(sess.Value())
  {
    hide Gridded, Games, Fair;
    var held := if pid in sess.Tickets then sess.Tickets[pid] else "";
    if ticket == "" || held != ticket {
      return false;
    }
    HandleHeartbeat(sess, pid, at);
    return true;
  }

  method PlayMessage(sess: GameSession, e: Event)
    requires sess.Valid() && IsMessage(e) && e.pid in sess.States
    modifies sess.States[e.pid], sess.States[e.pid].Board
    ensures Gridded(sess.States) && AllProtocol(old(sess.Value()).states)
    ensures sess.Value() == old(sess.Value()).(states := Played(old(sess.Value()).states, e))
    ensures forall p :: p in sess.States ==> sess.States[p].Board == old(sess.States[p].Board)
  {
    FairIsProtocol(sess.Value());
    SoundFromGames(sess.States);
    hide Gridded, Games, AllProtocol, Played, Fair, Sound;
    Scheduler.Receive(sess.States, e);
  }

  method TakeMessage(sess: GameSession, ghost mgr: Manager, e: Event, at: int)
    requires sess.Valid() && mgr.Valid() && IsMessage(e) && e.pid in sess.States
    modifies sess`LastHeartbeat, sess.States[e.pid], sess.States[e.pid].Board
    ensures Gridded(sess.States) && AllProtocol(old(sess.Value()).states)
    ensures forall p :: p in sess.States ==> sess.States[p].Board == old(sess.States[p].Board)
    ensures SystemOf(sess, mgr) == Taken(old(SystemOf(sess, mgr)), e, at)
    ensures sess.LastHeartbeat == old(sess.LastHeartbeat)[e.pid := at]
  {
    hide Gridded, Games, Lobbies.Coherent, Fair, Played, AllProtocol;
    HandleHeartbeat(sess, e.pid, at);
    PlayMessage(sess, e);
  }

  lemma StrangerIsNotPlayed(s: Session, e: Event)
    requires Fair(s) && IsMessage(e) && e.pid !in s.states
    ensures AllProtocol(s.states) && Played(s.states, e) == s.states
  {
  }

  method TakeFromStranger(sess: GameSession, ghost mgr: Manager, e: Event, at: int)
    requires sess.Valid() && mgr.Valid() && IsMessage(e) && e.pid !in sess.States
    modifies sess`LastHeartbeat
    ensures Gridded(sess.States) && AllProtocol(old(sess.Value()).states)
    ensures SystemOf(sess, mgr) == Taken(old(SystemOf(sess, mgr)), e, at)
    ensures sess.LastHeartbeat == old(sess.LastHeartbeat)[e.pid := at]
  {
    StrangerIsNotPlayed(sess.Value(), e);
    hide Gridded, Games, Lobbies.Coherent, Fair, Played, AllProtocol;
    HandleHeartbeat(sess, e.pid, at);
  }

  /** A message counts as a sign of life, its sender's game hears it, and a
      landing may decide the match. Who has no game in the session can still
      send, over a connection from before the session was replaced: its aim
      brings the server down, its other messages reach no game. */
  method HandleMessage(sess: GameSession, mgr: Manager, e: Event, at: int, now: int)
    returns (panics: bool, ghost ds: seq<Departure>)
    requires sess.Valid() && mgr.Valid() && mgr.clock <= now && IsMessage(e)
    modifies sess, Objects(sess.States), BoardsOf(sess.States), mgr
    ensures panics <==> e.Aim? && e.pid !in old(sess.States)
    ensures sess.LastHeartbeat == old(sess.LastHeartbeat)[e.pid := at]
    ensures AllProtocol(old(sess.Value()).states)
    ensures !panics ==>
              && sess.Valid() && mgr.Valid() && mgr.clock <= now
              && SystemOf(sess, mgr) == AfterMessage(old(SystemOf(sess, mgr)), e, at, ds, now, mgr.frameTick)
              && (e.Land? ==> Called(ds, Taken(old(SystemOf(sess, mgr)), e, at).session))
  {
    hide Gridded, Games, Lobbies.Coherent, ResolveOutcome, Called, Fair, Taken, AllProtocol;
    ghost var s := SystemOf(sess, mgr);
    FairIsProtocol(s.session);
    ds, panics := [], false;
    if e.pid in sess.States {
      TakeMessage(sess, mgr, e, at);
    } else {
      TakeFromStranger(sess, mgr, e, at);
      if e.Aim? {
        return true, ds;
      }
    }
    if e.Land? {
      ds := ResolveSession(sess, mgr, now);
    }
    AfterMessageIsFair(s, e, at, ds, now, mgr.frameTick);
  }
}
