/** A game session of the distributed server as a value, together with the room
    manager it reports to: messages, polls with heartbeat losses, the choice of a
    winner, and the finalisation that sends all others out of their rooms. */
module SessionRules {
  import opened Wrappers
  import opened Boards
  import opened Rules
  import opened Matches
  import Lobbies = RoomRules

  datatype Session = Session(states: map<Pid, Game>, winner: Option<Pid>, lastHeartbeat: map<Pid, int>, finalized: bool)

  /** One loser on the way out, and who would inherit the room from it. */
  datatype Departure = Departure(pid: Pid, heir: Pid)

  datatype System = System(session: Session, lobby: Lobbies.Lobby)

  /** `at` is the clock the handler read before it took its turn; the room
      manager reads its own when it is reached. */
  datatype Action =
    | Hear(event: Event, at: int, departures: seq<Departure>)
    | Heartbeat(pid: Pid, at: int)
    | Build(at: int, draws: Pid -> Colour, departures: seq<Departure>)
    | RoomRequest(request: Lobbies.Operation)

  // ------------------------------------------------- leaving, one after the other

  function PlayersIn(l: Lobbies.Lobby, r: Lobbies.Rid): set<Pid> {
    if r in l.rooms then l.rooms[r].players.Keys else {}
  }

  ghost function Dismiss(l: Lobbies.Lobby, ds: seq<Departure>, now: int, tick: int): Lobbies.Lobby
    requires tick > 0
  {
    if ds == [] then l
    else
      var n := |ds| - 1;
      Lobbies.Serve(Dismiss(l, ds[..n], now, tick), Lobbies.Leave(ds[n].pid, ds[n].heir), now, tick)
  }

  function Leavers(ds: seq<Departure>): set<Pid> {
    set d | d in ds :: d.pid
  }

  /** A leave, accepted or not, takes exactly that player out of every room. */
  lemma LeaveEffect(l: Lobbies.Lobby, p: Pid, heir: Pid, now: int, tick: int)
    requires tick > 0 && Lobbies.Coherent(l, tick) && l.clock <= now
    ensures var k := Lobbies.Serve(l, Lobbies.Leave(p, heir), now, tick);
            && Lobbies.Coherent(k, tick) && k.clock == now
            && k.playerRoom == l.playerRoom - {p}
            && forall r :: PlayersIn(k, r) == PlayersIn(l, r) - {p}
  {
    Lobbies.ServeKeepsCoherent(l, Lobbies.Leave(p, heir), now, tick);
    if p in l.playerRoom {
      PresentLeaves(l, p, heir, now, tick);
    } else {
      AbsentLeaves(l, p, heir, now, tick);
    }
  }

  lemma PresentLeaves(l: Lobbies.Lobby, p: Pid, heir: Pid, now: int, tick: int)
    requires tick > 0 && Lobbies.Coherent(l, tick) && p in l.playerRoom
    ensures var k := Lobbies.Serve(l, Lobbies.Leave(p, heir), now, tick);
            && k.clock == now && k.playerRoom == l.playerRoom - {p}
            && forall r :: PlayersIn(k, r) == PlayersIn(l, r) - {p}
  {
    hide Lobbies.RoomOk, Lobbies.JournalsOk, Lobbies.JournalOk, Lobbies.Serve, Lobbies.Refusal, PlayersIn;
    var rid, k := l.playerRoom[p], Lobbies.Serve(l, Lobbies.Leave(p, heir), now, tick);
    Lobbies.LeaveServes(l, p, heir, now, tick);
    forall r ensures PlayersIn(k, r) == PlayersIn(l, r) - {p} {
      LeftMembers(l, p, rid, heir, now, r);
      SameMembers(Lobbies.Left(l, p, rid, heir, now), k, r);
    }
  }

  lemma SameMembers(l: Lobbies.Lobby, k: Lobbies.Lobby, r: Lobbies.Rid)
    requires l.rooms == k.rooms
    ensures PlayersIn(l, r) == PlayersIn(k, r)
  {
  }

  lemma AbsentLeaves(l: Lobbies.Lobby, p: Pid, heir: Pid, now: int, tick: int)
    requires tick > 0 && Lobbies.Coherent(l, tick) && p !in l.playerRoom
    ensures var k := Lobbies.Serve(l, Lobbies.Leave(p, heir), now, tick);
            && k.clock == now && k.playerRoom == l.playerRoom - {p}
            && forall r :: PlayersIn(k, r) == PlayersIn(l, r) - {p}
  {
    hide Lobbies.RoomOk, Lobbies.JournalsOk, Lobbies.JournalOk, Lobbies.Serve, Lobbies.Refusal;
    Lobbies.LookupRefuses(l, Lobbies.Leave(p, heir), now, tick);
    assert l.playerRoom - {p} == l.playerRoom;
    forall r ensures PlayersIn(l, r) - {p} == PlayersIn(l, r) {
      assert p !in PlayersIn(l, r);
    }
  }

  lemma LeftMembers(l: Lobbies.Lobby, p: Pid, rid: Lobbies.Rid, heir: Pid, now: int, r: Lobbies.Rid)
    requires rid in l.rooms
    requires r in l.rooms && r != rid ==> p !in l.rooms[r].players
    ensures PlayersIn(Lobbies.Left(l, p, rid, heir, now), r) == PlayersIn(l, r) - {p}
  {
    hide Lobbies.Heir;
    var players := l.rooms[rid].players - {p};
    assert players.Keys == l.rooms[rid].players.Keys - {p};
  }

  /** Finalisation does not depend on the order of the departures or on who
      inherits what in between: each room keeps exactly its other members. */
  lemma {:induction false} DismissEffect(l: Lobbies.Lobby, ds: seq<Departure>, now: int, tick: int)
    requires tick > 0 && Lobbies.Coherent(l, tick) && l.clock <= now
    ensures var k := Dismiss(l, ds, now, tick);
            && Lobbies.Coherent(k, tick) && k.clock <= now
            && k.playerRoom == l.playerRoom - Leavers(ds)
            && forall r :: PlayersIn(k, r) == PlayersIn(l, r) - Leavers(ds)
  {
    hide Lobbies.Coherent, Lobbies.Serve, PlayersIn;
    if ds == [] {
      assert Leavers(ds) == {};
      assert l.playerRoom - {} == l.playerRoom;
    } else {
      var n := |ds| - 1;
      DismissEffect(l, ds[..n], now, tick);
      LeaveEffect(Dismiss(l, ds[..n], now, tick), ds[n].pid, ds[n].heir, now, tick);
      assert ds == ds[..n] + [ds[n]];
      assert Leavers(ds) == Leavers(ds[..n]) + {ds[n].pid};
    }
  }

  /** The winner ends up alone in its room, as its owner, with the room idle,
      exactly when everyone else in that room was sent away. */
  lemma WinnerKeepsRoom(l: Lobbies.Lobby, ds: seq<Departure>, w: Pid, now: int, tick: int)
    requires tick > 0 && Lobbies.Coherent(l, tick) && l.clock <= now
    requires w in l.playerRoom && w !in Leavers(ds)
    ensures var k, rid := Dismiss(l, ds, now, tick), l.playerRoom[w];
            && w in k.playerRoom && k.playerRoom[w] == rid
            && rid in k.rooms && w in k.rooms[rid].players
            && (k.rooms[rid].players.Keys == {w} <==> PlayersIn(l, rid) - {w} <= Leavers(ds))
            && (k.rooms[rid].players.Keys == {w} ==> k.rooms[rid].owner == w && k.rooms[rid].state == Lobbies.Idle)
            && forall d :: d in ds ==> d.pid !in k.playerRoom
  {
    hide Lobbies.RoomOk, Lobbies.JournalOk, Lobbies.JournalsOk, Dismiss, Leavers;
    var k, rid := Dismiss(l, ds, now, tick), l.playerRoom[w];
    DismissEffect(l, ds, now, tick);
    Lobbies.HomeRoom(k, w, tick);
    assert PlayersIn(k, rid) == PlayersIn(l, rid) - Leavers(ds);
    assert w in PlayersIn(l, rid);
    if k.rooms[rid].players.Keys == {w} {
      AloneInRoom(k.rooms[rid], w);
    }
    forall d | d in ds ensures d.pid !in k.playerRoom {
      LeaverIn(d, ds);
    }
  }

  lemma AloneInRoom(r: Lobbies.Room, w: Pid)
    requires Lobbies.RoomOk(r) && r.players.Keys == {w}
    ensures r.owner == w && r.state == Lobbies.Idle
  {
    assert |r.players| == |r.players.Keys| == 1;
    assert r.owner in r.players.Keys;
  }

  lemma LeaverIn(d: Departure, ds: seq<Departure>)
    requires d in ds
    ensures d.pid in Leavers(ds)
  {
  }

  // ------------------------------------------------- the session

  ghost function AliveIn(states: map<Pid, Game>): set<Pid> {
    set p | p in states && states[p].status != Lost
  }

  ghost predicate OneLeft(states: map<Pid, Game>) {
    |states| >= 2 && |AliveIn(states)| == 1
  }

  ghost function Survivor(states: map<Pid, Game>): (w: Pid)
    requires OneLeft(states)
    ensures w in AliveIn(states) && AliveIn(states) == {w}
  {
    var w :| w in AliveIn(states);
    assert |AliveIn(states) - {w}| == 0;
    w
  }

  /** The departures name every other player of the session, in any order. */
  ghost predicate Enumerates(ds: seq<Departure>, others: set<Pid>) {
    Leavers(ds) == others && |ds| == |others|
  }

  /** If a decision is due, the departures are the ones it calls for. */
  ghost predicate Called(ds: seq<Departure>, s: Session) {
    OneLeft(s.states) && !s.finalized ==> Enumerates(ds, s.states.Keys - {Survivor(s.states)})
  }

  ghost function Finalize(s: System, ds: seq<Departure>, now: int, tick: int): System
    requires tick > 0
  {
    if s.session.finalized then s
    else s.(session := s.session.(finalized := true), lobby := Dismiss(s.lobby, ds, now, tick))
  }

  ghost function ResolveOutcome(s: System, ds: seq<Departure>, now: int, tick: int): System
    requires tick > 0
  {
    if OneLeft(s.session.states) then
      var w := Survivor(s.session.states);
      Finalize(s.(session := s.session.(winner := Some(w))), ds, now, tick)
    else s
  }

  /** Players silent for longer than the timeout lose, unless a winner stands. */
  ghost predicate Silent(s: Session, p: Pid, now: int, timeout: int) {
    p in s.lastHeartbeat && s.lastHeartbeat[p] > 0 && now - s.lastHeartbeat[p] > timeout
  }

  ghost function AfterSilence(s: Session, p: Pid, now: int, timeout: int): Game
    requires p in s.states
  {
    if Silent(s, p, now, timeout) && s.states[p].status != Lost then s.states[p].(status := Lost) else s.states[p]
  }

  ghost function TimedOut(s: Session, now: int, timeout: int): Session {
    s.(states := map p | p in s.states :: AfterSilence(s, p, now, timeout))
  }

  ghost function CheckHeartbeats(s: System, at: int, ds: seq<Departure>, now: int, timeout: int, tick: int): System
    requires tick > 0
  {
    if s.session.winner.Some? || s.session.lastHeartbeat == map[] then s
    else ResolveOutcome(s.(session := TimedOut(s.session, at, timeout)), ds, now, tick)
  }

  ghost function Touched(s: System, p: Pid, now: int): System {
    s.(session := s.session.(lastHeartbeat := s.session.lastHeartbeat[p := now]))
  }

  ghost function Taken(s: System, e: Event, now: int): System
    requires IsMessage(e) && AllProtocol(s.session.states)
  {
    s.(session := Touched(s, e.pid, now).session.(states := Played(s.session.states, e)))
  }

  ghost function AfterMessage(s: System, e: Event, at: int, ds: seq<Departure>, now: int, tick: int): System
    requires tick > 0 && IsMessage(e) && AllProtocol(s.session.states)
  {
    var t := Taken(s, e, at);
    if e.Land? then ResolveOutcome(t, ds, now, tick) else t
  }

  ghost function Act(s: System, a: Action, now: int, timeout: int, tick: int): System
    requires tick > 0 && AllProtocol(s.session.states)
  {
    match a
    case Hear(e, at, ds) =>
      if IsMessage(e) then AfterMessage(s, e, at, ds, now, tick) else s
    case Heartbeat(p, at) => Touched(s, p, at)
    case Build(at, draws, ds) =>
      var t := CheckHeartbeats(s, at, ds, now, timeout, tick);
      TimedOutProtocol(s.session, at, timeout);
      t.(session := t.session.(states := Ticked(t.session.states, at, draws)))
    case RoomRequest(q) => s.(lobby := Lobbies.Serve(s.lobby, q, now, tick))
  }

  lemma TimedOutProtocol(s: Session, now: int, timeout: int)
    requires AllProtocol(s.states)
    ensures AllProtocol(TimedOut(s, now, timeout).states)
  {
  }

  // ------------------------------------------------- what every action keeps

  /** A winner, once named, is the only one who can still be alive, and naming
      one and finalising the room are the same event. */
  ghost predicate Fair(s: Session) {
    && AllProtocol(s.states)
    && (s.finalized <==> s.winner.Some?)
    && (s.winner.Some? ==> s.winner.value in s.states && AliveIn(s.states) <= {s.winner.value})
  }

  /** t may come later than s: same players, nobody comes back to life, and a
      winner stays the winner. */
  ghost predicate Later(s: Session, t: Session) {
    && t.states.Keys == s.states.Keys
    && AliveIn(t.states) <= AliveIn(s.states)
    && (s.winner.Some? ==> t.winner == s.winner)
  }

  lemma LaterIsTransitive(s: Session, t: Session, u: Session)
    requires Later(s, t) && Later(t, u)
    ensures Later(s, u)
  {
  }

  /** A message never revives its sender: a lost game refuses shots and landings. */
  lemma HeardKeepsLost(g: Game, e: Event)
    requires IsMessage(e) && Protocol(g)
    ensures Protocol(Heard(g, e)) && (g.status == Lost ==> Heard(g, e).status == Lost)
  {
    hide PlaceAndResolve;
    if e.Land? && CommitLanding(g, e.angle, e.x, e.y, e.draw).Ok? {
      LandingLedger(g.(aim := ClampAim(e.angle), pending := false,
                       moving := Some(Moving(e.x, e.y, 0.0, 0.0, g.shotColour))), e.draw);
    }
  }

  lemma ResolveIsFair(s: System, ds: seq<Departure>, now: int, tick: int)
    requires tick > 0 && Fair(s.session)
    ensures var r := ResolveOutcome(s, ds, now, tick);
            Fair(r.session) && Later(s.session, r.session) && r.session.states == s.session.states
  {
    hide AllProtocol;
  }

  lemma TimedOutIsFair(s: Session, now: int, timeout: int)
    requires Fair(s)
    ensures Fair(TimedOut(s, now, timeout)) && Later(s, TimedOut(s, now, timeout))
  {
    TimedOutProtocol(s, now, timeout);
    hide AllProtocol, Silent;
  }

  lemma PlayedIsFair(s: Session, e: Event)
    requires Fair(s) && IsMessage(e)
    ensures var t := s.(states := Played(s.states, e)); Fair(t) && Later(s, t)
  {
    hide Heard, Protocol;
    if e.pid in s.states {
      HeardKeepsLost(s.states[e.pid], e);
    }
  }

  lemma TickedIsFair(s: Session, now: int, draws: Pid -> Colour)
    requires Fair(s)
    ensures var t := s.(states := Ticked(s.states, now, draws)); Fair(t) && Later(s, t)
  {
    hide TickGame;
    forall p | p in s.states
      ensures Ticked(s.states, now, draws)[p] == s.states[p].(lastTick := now)
    {
      TickKeepsProtocol(s.states[p], now, draws(p));
    }
  }

  lemma AfterMessageIsFair(s: System, e: Event, at: int, ds: seq<Departure>, now: int, tick: int)
    requires tick > 0 && IsMessage(e) && Fair(s.session)
    ensures var t := AfterMessage(s, e, at, ds, now, tick); Fair(t.session) && Later(s.session, t.session)
  {
    hide Played, ResolveOutcome, AllProtocol;
    PlayedIsFair(Touched(s, e.pid, at).session, e);
    ResolveIsFair(Taken(s, e, at), ds, now, tick);
  }

  lemma CheckIsFair(s: System, at: int, ds: seq<Departure>, now: int, timeout: int, tick: int)
    requires tick > 0 && Fair(s.session)
    ensures var t := CheckHeartbeats(s, at, ds, now, timeout, tick); Fair(t.session) && Later(s.session, t.session)
  {
    hide ResolveOutcome, TimedOut, AllProtocol;
    TimedOutIsFair(s.session, at, timeout);
    ResolveIsFair(s.(session := TimedOut(s.session, at, timeout)), ds, now, tick);
  }

  /** No action, in any order, revives a lost player or replaces a winner, even
      when the winner goes on to lose its own board. */
  lemma ActIsFair(s: System, a: Action, now: int, timeout: int, tick: int)
    requires tick > 0 && Fair(s.session)
    ensures var t := Act(s, a, now, timeout, tick); Fair(t.session) && Later(s.session, t.session)
  {
    hide Played, Ticked, ResolveOutcome, TimedOut, AllProtocol, Lobbies.Serve;
    match a
    case Hear(e, at, ds) =>
      if IsMessage(e) {
        AfterMessageIsFair(s, e, at, ds, now, tick);
      }
    case Heartbeat(p, at) =>
    case Build(at, draws, ds) =>
      CheckIsFair(s, at, ds, now, timeout, tick);
      TickedIsFair(CheckHeartbeats(s, at, ds, now, timeout, tick).session, at, draws);
    case RoomRequest(q) =>
  }

  // ------------------------------------------------- whole runs

  datatype Timed = Timed(action: Action, time: int)

  ghost function RunFrom(s: System, es: seq<Timed>, timeout: int, tick: int): (r: System)
    requires tick > 0 && Fair(s.session)
    ensures Fair(r.session)
  {
    if es == [] then s
    else
      var n := |es| - 1;
      var before := RunFrom(s, es[..n], timeout, tick);
      ActIsFair(before, es[n].action, es[n].time, timeout, tick);
      Act(before, es[n].action, es[n].time, timeout, tick)
  }

  lemma {:induction false} RunIsSafe(s: System, es: seq<Timed>, timeout: int, tick: int)
    requires tick > 0 && Fair(s.session)
    ensures Later(s.session, RunFrom(s, es, timeout, tick).session)
  {
    hide Act, Fair, Later;
    if es == [] {
      assert Later(s.session, s.session) by { SameIsLater(s.session); }
    } else {
      var n := |es| - 1;
      var before := RunFrom(s, es[..n], timeout, tick);
      RunIsSafe(s, es[..n], timeout, tick);
      ActIsFair(before, es[n].action, es[n].time, timeout, tick);
      LaterIsTransitive(s.session, before.session, RunFrom(s, es, timeout, tick).session);
    }
  }

  lemma SameIsLater(s: Session)
    ensures Later(s, s)
  {
  }

  /** A new session: dealt games, everyone heard from, no winner yet. */
  ghost function Created(players: set<Pid>, deal: Pid -> Game, now: int): Session {
    Session(map p | p in players :: deal(p), None, map p | p in players :: now, false)
  }

  lemma CreatedIsFair(players: set<Pid>, deal: Pid -> Game, now: int)
    requires forall p :: Dealt(deal(p))
    ensures Fair(Created(players, deal, now))
  {
  }

  /** Winner safety over whole runs: take any session, any interleaving of
      messages, polls, heartbeats and room requests, and any two points of it.
      Those alive later were alive before, and a winner named before is the
      winner later. */
  lemma WinnerIsFinal(players: set<Pid>, deal: Pid -> Game, start: int, l: Lobbies.Lobby,
                      es: seq<Timed>, more: seq<Timed>, timeout: int, tick: int)
    requires tick > 0 && forall p :: Dealt(deal(p))
    ensures Fair(Created(players, deal, start))
    ensures var s := System(Created(players, deal, start), l);
            var x, y := RunFrom(s, es, timeout, tick).session, RunFrom(s, es + more, timeout, tick).session;
            && Later(x, y) && (x.finalized <==> x.winner.Some?) && (y.finalized <==> y.winner.Some?)
  {
    CreatedIsFair(players, deal, start);
    hide Fair, Later, Created, Dealt;
    var s := System(Created(players, deal, start), l);
    RunSplits(s, es, more, timeout, tick);
    RunIsSafe(RunFrom(s, es, timeout, tick), more, timeout, tick);
    FairAgrees(RunFrom(s, es, timeout, tick).session);
    FairAgrees(RunFrom(s, es + more, timeout, tick).session);
  }

  lemma FairAgrees(s: Session)
    requires Fair(s)
    ensures s.finalized <==> s.winner.Some?
  {
  }

  lemma {:induction false} RunSplits(s: System, es: seq<Timed>, more: seq<Timed>, timeout: int, tick: int)
    requires tick > 0 && Fair(s.session)
    ensures RunFrom(s, es + more, timeout, tick) == RunFrom(RunFrom(s, es, timeout, tick), more, timeout, tick)
  {
    hide Act, Fair;
    if more == [] {
      assert es + more == es;
    } else {
      var n := |more| - 1;
      assert (es + more)[..|es + more| - 1] == es + more[..n];
      RunSplits(s, es, more[..n], timeout, tick);
    }
  }

  /** Finalisation, whatever the order: when a decision falls and the session's
      players are exactly the members of the winner's room, the winner is left
      as the only member and owner of an idle room and no loser is indexed. */
  lemma DecisionEmptiesTheRoom(s: System, ds: seq<Departure>, now: int, tick: int)
    requires tick > 0 && Fair(s.session) && !s.session.finalized && OneLeft(s.session.states)
    requires Lobbies.Coherent(s.lobby, tick) && s.lobby.clock <= now
    requires Enumerates(ds, s.session.states.Keys - {Survivor(s.session.states)})
    requires var w := Survivor(s.session.states);
             w in s.lobby.playerRoom && PlayersIn(s.lobby, s.lobby.playerRoom[w]) == s.session.states.Keys
    ensures var w := Survivor(s.session.states);
            var k, rid := ResolveOutcome(s, ds, now, tick).lobby, s.lobby.playerRoom[w];
            && rid in k.rooms && k.rooms[rid].players.Keys == {w}
            && k.rooms[rid].owner == w && k.rooms[rid].state == Lobbies.Idle
            && forall p :: p in s.session.states && p != w ==> p !in k.playerRoom
  {
    hide Lobbies.Coherent, Dismiss, AllProtocol;
    var w := Survivor(s.session.states);
    WinnerKeepsRoom(s.lobby, ds, w, now, tick);
    forall p | p in s.session.states && p != w ensures p !in ResolveOutcome(s, ds, now, tick).lobby.playerRoom {
      assert p in Leavers(ds);
      LeaverFound(p, ds);
    }
  }

  // ------------------------------------------------- the lobby over whole runs

  /** What the environment guarantees of one action: clocks do not run back, and
      room ids are never reused. */
  ghost predicate InOrder(l: Lobbies.Lobby, e: Timed) {
    && l.clock <= e.time
    && (e.action.RoomRequest? && e.action.request.Create? ==> e.action.request.rid !in l.rooms)
  }

  ghost predicate Orderly(s: System, es: seq<Timed>, timeout: int, tick: int)
    requires tick > 0 && Fair(s.session)
  {
    forall i :: 0 <= i < |es| ==> InOrder(RunFrom(s, es[..i], timeout, tick).lobby, es[i])
  }

  lemma ResolveKeepsLobby(s: System, ds: seq<Departure>, now: int, tick: int)
    requires tick > 0 && Lobbies.Coherent(s.lobby, tick) && s.lobby.clock <= now
    ensures var t := ResolveOutcome(s, ds, now, tick);
            Lobbies.Coherent(t.lobby, tick) && t.lobby.clock <= now
  {
    hide Lobbies.Coherent, Dismiss, PlayersIn;
    DismissEffect(s.lobby, ds, now, tick);
  }

  lemma ActKeepsLobby(s: System, e: Timed, timeout: int, tick: int)
    requires tick > 0 && Fair(s.session) && Lobbies.Coherent(s.lobby, tick) && InOrder(s.lobby, e)
    ensures var t := Act(s, e.action, e.time, timeout, tick);
            Lobbies.Coherent(t.lobby, tick) && t.lobby.clock <= e.time
  {
    hide Lobbies.Coherent, Lobbies.Serve, ResolveOutcome, Played, Ticked, TimedOut, AllProtocol;
    match e.action
    case Hear(m, at, ds) =>
      if m.Land? {
        ResolveKeepsLobby(Taken(s, m, at), ds, e.time, tick);
      }
    case Heartbeat(p, at) =>
    case Build(at, draws, ds) =>
      ResolveKeepsLobby(s.(session := TimedOut(s.session, at, timeout)), ds, e.time, tick);
    case RoomRequest(q) =>
      Lobbies.ServeKeepsCoherent(s.lobby, q, e.time, tick);
      Lobbies.ServeSetsClock(s.lobby, q, e.time, tick);
  }

  /** In every state of every run of a session beside its room manager, the
      manager's invariant holds. */
  lemma {:induction false} RunKeepsLobby(s: System, es: seq<Timed>, timeout: int, tick: int)
    requires tick > 0 && Fair(s.session) && Lobbies.Coherent(s.lobby, tick) && Orderly(s, es, timeout, tick)
    ensures Lobbies.Coherent(RunFrom(s, es, timeout, tick).lobby, tick)
  {
    hide Lobbies.Coherent, Act, Fair, InOrder;
    if es != [] {
      var n := |es| - 1;
      OrderlyBefore(s, es, timeout, tick);
      RunKeepsLobby(s, es[..n], timeout, tick);
      ActKeepsLobby(RunFrom(s, es[..n], timeout, tick), es[n], timeout, tick);
    }
  }

  lemma OrderlyBefore(s: System, es: seq<Timed>, timeout: int, tick: int)
    requires tick > 0 && Fair(s.session) && Orderly(s, es, timeout, tick) && es != []
    ensures Orderly(s, es[..|es| - 1], timeout, tick)
    ensures InOrder(RunFrom(s, es[..|es| - 1], timeout, tick).lobby, es[|es| - 1])
  {
    hide InOrder, Fair, RunFrom;
    forall i | 0 <= i < |es| - 1 ensures es[..|es| - 1][..i] == es[..i] {
    }
  }

  function DeparturesOf(a: Action): seq<Departure> {
    if a.Hear? || a.Build? then a.departures else []
  }

  /** What a decision leaves of the winner's room. */
  ghost predicate RoomEmptied(k: Lobbies.Lobby, rid: Lobbies.Rid, w: Pid, players: set<Pid>) {
    && rid in k.rooms && k.rooms[rid].players.Keys == {w}
    && k.rooms[rid].owner == w && k.rooms[rid].state == Lobbies.Idle
    && forall p :: p in players && p != w ==> p !in k.playerRoom
  }

  /** Finalisation over whole runs: whenever an action of a run names the winner,
      sending out the others of the session, and the session's players are the
      members of the winner's room at that moment, the winner is left as the only
      member and owner of an idle room, and nobody else is indexed. */
  lemma FinalisationEmptiesTheRoom(s: System, es: seq<Timed>, e: Timed, timeout: int, tick: int)
    requires tick > 0 && Fair(s.session) && Lobbies.Coherent(s.lobby, tick)
    requires Orderly(s, es + [e], timeout, tick)
    requires var x, y := RunFrom(s, es, timeout, tick), RunFrom(s, es + [e], timeout, tick);
             && !x.session.finalized && y.session.winner.Some?
             && var w := y.session.winner.value;
                && Enumerates(DeparturesOf(e.action), x.session.states.Keys - {w})
                && w in x.lobby.playerRoom && PlayersIn(x.lobby, x.lobby.playerRoom[w]) == x.session.states.Keys
    ensures var x, y := RunFrom(s, es, timeout, tick), RunFrom(s, es + [e], timeout, tick);
            var w := y.session.winner.value;
            RoomEmptied(y.lobby, x.lobby.playerRoom[w], w, x.session.states.Keys)
  {
    hide Lobbies.Coherent, Act, Fair, InOrder, Enumerates, PlayersIn, RoomEmptied;
    assert (es + [e])[..|es + [e]| - 1] == es;
    OrderlyBefore(s, es + [e], timeout, tick);
    RunKeepsLobby(s, es, timeout, tick);
    ActEmptiesTheRoom(RunFrom(s, es, timeout, tick), e, timeout, tick);
  }

  lemma ActEmptiesTheRoom(s: System, e: Timed, timeout: int, tick: int)
    requires tick > 0 && Fair(s.session) && Lobbies.Coherent(s.lobby, tick) && InOrder(s.lobby, e)
    requires var y := Act(s, e.action, e.time, timeout, tick);
             && !s.session.finalized && y.session.winner.Some?
             && var w := y.session.winner.value;
                && Enumerates(DeparturesOf(e.action), s.session.states.Keys - {w})
                && w in s.lobby.playerRoom && PlayersIn(s.lobby, s.lobby.playerRoom[w]) == s.session.states.Keys
    ensures var y := Act(s, e.action, e.time, timeout, tick);
            var w := y.session.winner.value;
            RoomEmptied(y.lobby, s.lobby.playerRoom[w], w, s.session.states.Keys)
  {
    hide Lobbies.Coherent, Lobbies.Serve, ResolveOutcome, Played, Ticked, AfterSilence, AllProtocol, Enumerates,
      PlayersIn, RoomEmptied, AliveIn;
    FairAgrees(s.session);
    match e.action
    case Hear(m, at, ds) =>
      PlayedIsFair(Touched(s, m.pid, at).session, m);
      ResolutionEmptiesTheRoom(Taken(s, m, at), ds, e.time, tick);
    case Build(at, draws, ds) =>
      TimedOutIsFair(s.session, at, timeout);
      ResolutionEmptiesTheRoom(s.(session := TimedOut(s.session, at, timeout)), ds, e.time, tick);
    case _ =>
  }

  lemma ResolutionEmptiesTheRoom(s: System, ds: seq<Departure>, now: int, tick: int)
    requires tick > 0 && Fair(s.session) && Lobbies.Coherent(s.lobby, tick) && s.lobby.clock <= now
    requires var y := ResolveOutcome(s, ds, now, tick);
             && !s.session.finalized && y.session.winner.Some?
             && var w := y.session.winner.value;
                && Enumerates(ds, s.session.states.Keys - {w})
                && w in s.lobby.playerRoom && PlayersIn(s.lobby, s.lobby.playerRoom[w]) == s.session.states.Keys
    ensures var y := ResolveOutcome(s, ds, now, tick);
            var w := y.session.winner.value;
            RoomEmptied(y.lobby, s.lobby.playerRoom[w], w, s.session.states.Keys)
  {
    hide Lobbies.Coherent, Dismiss, AllProtocol, Enumerates, PlayersIn, AliveIn;
    FairAgrees(s.session);
    DecisionEmptiesTheRoom(s, ds, now, tick);
  }

  lemma LeaverFound(p: Pid, ds: seq<Departure>)
    requires p in Leavers(ds)
    ensures exists d :: d in ds && d.pid == p
  {
  }
}
