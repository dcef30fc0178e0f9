/** The single-process server's tables as a value: rooms, who is at home where,
    the running games, the tickets and the layer deadlines; and what every
    request, message, poll and heartbeat removal does to them. Arbitrary choices
    (whom a map iteration meets first) are inputs. */
module MonoRules {
  import opened Wrappers
  import opened Boards
  import opened Rules
  import opened Matches

  type Rid = string

  datatype Room = Room(name: string, owner: Pid, playing: bool, winner: Option<Pid>, max: int, members: set<Pid>)

  datatype Tables = Tables(
    rooms: map<Rid, Room>,
    playerRoom: map<Pid, Rid>,
    games: map<Rid, map<Pid, Game>>,
    tickets: map<Rid, map<Pid, string>>,
    nextAdd: map<Rid, int>,
    lastHeard: map<Pid, int>)

  datatype Request =
    | Create(pid: Pid, name: string, max: int, rid: Rid, heir: Pid)
    | Join(pid: Pid, rid: Rid)
    | Leave(pid: Pid, heir: Pid)
    | Begin(pid: Pid, rid: Rid, time: nat, deal: Pid -> Game, ticket: Pid -> string)
    | Connect(pid: Pid, rid: Rid, shown: string, at: int)
    | Beat(pid: Pid, at: int)
    | Deliver(rid: Rid, event: Event, at: int)
    | PollRoom(rid: Rid, now: int, draws: Pid -> Colour, tops: (Pid, nat) -> Layer)
    | Sweep(now: int, timeout: int, exits: seq<Exit>)

  /** One player on the way out, and who would inherit the room from it. */
  datatype Exit = Exit(pid: Pid, heir: Pid)

  function Clamped(max: int): int {
    if max < 2 then 2 else if max > 8 then 8 else max
  }

  /** The owner after `pid` left: any remaining member if it was the owner. */
  ghost function Successor(owner: Pid, pid: Pid, members: set<Pid>, heir: Pid): (o: Pid)
    requires members != {}
    ensures owner in members + {pid} ==> o in members
  {
    if owner != pid then owner
    else if heir in members then heir
    else var m :| m in members; m
  }

  ghost function EndMatch(t: Tables, rid: Rid, winner: Option<Pid>): (e: Tables)
    requires rid in t.rooms
    ensures e.playerRoom == t.playerRoom && e.rooms.Keys == t.rooms.Keys
  {
    t.(rooms := t.rooms[rid := t.rooms[rid].(playing := false, winner := winner)],
       games := t.games - {rid}, tickets := t.tickets - {rid}, nextAdd := t.nextAdd - {rid})
  }

  ghost function Losers(members: set<Pid>, games: map<Pid, Game>): set<Pid> {
    set p | p in members && p in games && games[p].status == Lost
  }

  ghost function AnyOf(s: set<Pid>): (o: Option<Pid>)
    ensures o.None? <==> s == {}
    ensures o.Some? ==> o.value in s
  {
    if p :| p in s then Some(p) else None
  }

  ghost function GamesIn(t: Tables, rid: Rid): map<Pid, Game> {
    if rid in t.games then t.games[rid] else map[]
  }

  ghost function Remove(t: Tables, pid: Pid, rid: Rid, heir: Pid): Tables {
    if rid !in t.rooms then t.(playerRoom := t.playerRoom - {pid})
    else
      var room := t.rooms[rid];
      var members := room.members - {pid};
      if members == {} then
        t.(rooms := t.rooms - {rid}, playerRoom := t.playerRoom - {pid}, games := t.games - {rid},
           tickets := t.tickets - {rid}, nextAdd := t.nextAdd - {rid})
      else
        var left := room.(members := members, owner := Successor(room.owner, pid, members, heir));
        var u := t.(rooms := t.rooms[rid := left], playerRoom := t.playerRoom - {pid});
        if room.playing && |members| <= 1 then EndMatch(u, rid, AnyOf(Alive(members, GamesIn(t, rid)))) else u
  }

  /** The tables after a removal that leaves members behind. */
  lemma RemoveLeavesSome(t: Tables, pid: Pid, rid: Rid, heir: Pid, left: Room)
    requires rid in t.rooms && t.rooms[rid].members - {pid} != {}
    requires var room, members := t.rooms[rid], t.rooms[rid].members - {pid};
             var ended := room.playing && |members| <= 1;
             left == Room(room.name, Successor(room.owner, pid, members, heir), room.playing && !ended,
                          if ended then AnyOf(Alive(members, GamesIn(t, rid))) else room.winner, room.max, members)
    ensures var u := t.(rooms := t.rooms[rid := left], playerRoom := t.playerRoom - {pid});
            Remove(t, pid, rid, heir) ==
              if t.rooms[rid].playing && |left.members| <= 1
              then u.(games := t.games - {rid}, tickets := t.tickets - {rid}, nextAdd := t.nextAdd - {rid})
              else u
  {
  }

  ghost function AfterLeaving(t: Tables, pid: Pid, heir: Pid): Tables {
    if pid in t.playerRoom then Remove(t, pid, t.playerRoom[pid], heir) else t
  }

  function NameOf(name: string): string {
    if name == "" then "Room" else name
  }

  ghost function CreateRoom(t: Tables, pid: Pid, name: string, max: int, rid: Rid, heir: Pid): Tables {
    var u := AfterLeaving(t, pid, heir);
    u.(rooms := u.rooms[rid := Room(NameOf(name), pid, false, None, Clamped(max), {pid})],
       playerRoom := u.playerRoom[pid := rid])
  }

  /** A room that pid may newly enter; note that its state does not matter. */
  ghost predicate MayJoin(t: Tables, pid: Pid, rid: Rid) {
    rid in t.rooms && pid !in t.rooms[rid].members && |t.rooms[rid].members| < t.rooms[rid].max
  }

  ghost function JoinRoom(t: Tables, pid: Pid, rid: Rid): Tables {
    if MayJoin(t, pid, rid)
    then t.(rooms := t.rooms[rid := t.rooms[rid].(members := t.rooms[rid].members + {pid})],
            playerRoom := t.playerRoom[pid := rid])
    else t
  }

  ghost predicate MayBegin(t: Tables, pid: Pid, rid: Rid) {
    rid in t.rooms && t.rooms[rid].owner == pid && |t.rooms[rid].members| >= 2
  }

  ghost function Hands(members: set<Pid>, deal: Pid -> Game): map<Pid, Game> {
    map p | p in members :: deal(p)
  }

  ghost function BeginMatch(t: Tables, pid: Pid, rid: Rid, now: nat, deal: Pid -> Game, ticket: Pid -> string): Tables {
    if MayBegin(t, pid, rid) then
      var members := t.rooms[rid].members;
      t.(rooms := t.rooms[rid := t.rooms[rid].(playing := true, winner := None)],
         games := t.games[rid := Hands(members, deal)],
         tickets := t.tickets[rid := map p | p in members :: ticket(p)],
         nextAdd := t.nextAdd[rid := now + PERIOD])
    else t
  }

  /** The match is decided: someone has lost and exactly one has not. */
  ghost predicate Decided(room: Room, games: map<Pid, Game>) {
    && room.playing && |room.members| >= 2
    && Losers(room.members, games) != {} && |Alive(room.members, games)| == 1
  }

  ghost function Outcome(t: Tables, rid: Rid): Tables {
    if rid in t.rooms && rid in t.games && Decided(t.rooms[rid], t.games[rid])
    then EndMatch(t, rid, AnyOf(Alive(t.rooms[rid].members, t.games[rid])))
    else t
  }

  ghost predicate InProtocol(t: Tables) {
    forall r :: r in t.games ==> AllProtocol(t.games[r])
  }

  ghost function Receive(t: Tables, rid: Rid, e: Event): Tables
    requires InProtocol(t)
  {
    if IsMessage(e) && rid in t.games && e.pid in t.games[rid] then
      var u := t.(games := t.games[rid := Played(t.games[rid], e)]);
      if e.Land? then Outcome(u, rid) else u
    else t
  }

  /** A message is a sign of life of its sender, whether or not it plays. */
  ghost function Incoming(t: Tables, rid: Rid, e: Event, at: int): Tables
    requires InProtocol(t)
  {
    if IsMessage(e) then Receive(t.(lastHeard := t.lastHeard[e.pid := at]), rid, e) else t
  }

  ghost function Schedule(t: Tables, rid: Rid, now: int, tops: (Pid, nat) -> Layer): Tables {
    if rid !in t.rooms || !t.rooms[rid].playing then t.(nextAdd := t.nextAdd - {rid})
    else if rid !in t.games || t.games[rid].Keys == {} then t
    else
      var nextAt := if rid in t.nextAdd then t.nextAdd[rid] else 0;
      t.(games := t.games[rid := AllLayered(t.games[rid], tops, LayersNow(t.games[rid], nextAt, now, tops))],
         nextAdd := t.nextAdd[rid := NextDeadline(t.games[rid], nextAt, now, tops)])
  }

  ghost function Poll(t: Tables, rid: Rid, now: int, draws: Pid -> Colour, tops: (Pid, nat) -> Layer): Tables
    requires InProtocol(t)
  {
    if rid in t.rooms && rid in t.games then
      Schedule(Outcome(t.(games := t.games[rid := Ticked(t.games[rid], now, draws)]), rid), rid, now, tops)
    else t
  }

  // ------------------------------------------------- connections and signs of life

  ghost function Noted(t: Tables, pid: Pid, at: int): Tables {
    t.(lastHeard := t.lastHeard[pid := at])
  }

  /** Who may open a connection to a room: only those at home there, and while
      it plays only with the ticket of the match. */
  ghost predicate Admitted(t: Tables, pid: Pid, rid: Rid, ticket: string) {
    && pid in t.playerRoom && t.playerRoom[pid] == rid
    && (IsPlaying(t, rid) && rid in t.tickets ==>
          pid in t.tickets[rid] && t.tickets[rid][pid] != "" && t.tickets[rid][pid] == ticket)
  }

  ghost function Connected(t: Tables, pid: Pid, rid: Rid, ticket: string, at: int): Tables {
    if Admitted(t, pid, rid, ticket) then Noted(t, pid, at) else t
  }

  ghost function SilentSince(t: Tables, now: int, timeout: int): set<Pid> {
    set p | p in t.lastHeard && now - t.lastHeard[p] > timeout
  }

  ghost function Swept(t: Tables, exits: seq<Exit>): Tables {
    if exits == [] then t
    else
      var n := |exits| - 1;
      var u := Swept(t, exits[..n]);
      AfterLeaving(u, exits[n].pid, exits[n].heir).(lastHeard := u.lastHeard - {exits[n].pid})
  }

  ghost function Exiting(exits: seq<Exit>): set<Pid> {
    set x | x in exits :: x.pid
  }

  // ------------------------------------------------- coherence of the tables

  ghost predicate RoomOk(room: Room) {
    && room.owner in room.members
    && 2 <= room.max <= 8 && |room.members| <= room.max
    && (room.playing ==> |room.members| >= 2)
  }

  ghost predicate IsPlaying(t: Tables, r: Rid) {
    r in t.rooms && t.rooms[r].playing
  }

  /** The games and deadline of a room are those of some match run. */
  ghost predicate Running(games: map<Pid, Game>, nextAt: int, m: Match) {
    Reachable(m) && m.games == games && m.nextAt == nextAt
  }

  ghost predicate Backed(games: map<Pid, Game>, nextAt: int) {
    exists m :: Running(games, nextAt, m)
  }

  ghost predicate RoomsOk(t: Tables) {
    forall r :: r in t.rooms ==> RoomOk(t.rooms[r])
  }

  /** Whoever is at home in a room is one of its members; the converse fails,
      because joining a second room does not leave the first. */
  ghost predicate HomesOk(t: Tables) {
    forall p :: p in t.playerRoom ==> t.playerRoom[p] in t.rooms && p in t.rooms[t.playerRoom[p]].members
  }

  ghost predicate TablesAgree(t: Tables) {
    && (forall r :: r in t.games <==> IsPlaying(t, r))
    && (forall r :: r in t.tickets <==> IsPlaying(t, r))
    && (forall r :: r in t.nextAdd <==> IsPlaying(t, r))
  }

  ghost predicate MatchesOk(t: Tables) {
    forall r :: r in t.games ==> r in t.nextAdd && Backed(t.games[r], t.nextAdd[r])
  }

  ghost predicate Coherent(t: Tables) {
    RoomsOk(t) && HomesOk(t) && TablesAgree(t) && MatchesOk(t)
  }

  lemma CoherentIsInProtocol(t: Tables)
    requires Coherent(t)
    ensures InProtocol(t)
  {
    hide RoomOk, Reachable;
    forall r | r in t.games ensures AllProtocol(t.games[r]) {
      var m :| Running(t.games[r], t.nextAdd[r], m);
      ReachableIsConsistent(m);
    }
  }

  /** A member moves out of its home room, which stays otherwise as it was. */
  ghost function MoveOut(t: Tables, pid: Pid, rid: Rid, left: Room): Tables {
    t.(rooms := t.rooms[rid := left], playerRoom := t.playerRoom - {pid})
  }

  lemma MoveOutAgrees(t: Tables, pid: Pid, rid: Rid, left: Room)
    requires Coherent(t) && rid in t.rooms
    requires left.members == t.rooms[rid].members - {pid} && left.playing == t.rooms[rid].playing
    ensures var u := MoveOut(t, pid, rid, left); HomesOk(u) && TablesAgree(u) && MatchesOk(u)
  {
    hide Backed, RoomOk;
  }

  lemma LastOneOut(t: Tables, pid: Pid, rid: Rid)
    requires Coherent(t) && rid in t.rooms && t.rooms[rid].members <= {pid}
    ensures Coherent(t.(rooms := t.rooms - {rid}, playerRoom := t.playerRoom - {pid}, games := t.games - {rid},
                        tickets := t.tickets - {rid}, nextAdd := t.nextAdd - {rid}))
  {
    hide Backed, RoomOk;
  }

  lemma RemoveKeepsCoherent(t: Tables, pid: Pid, rid: Rid, heir: Pid)
    requires Coherent(t) && pid in t.playerRoom && t.playerRoom[pid] == rid
    ensures Coherent(Remove(t, pid, rid, heir))
    ensures pid !in Remove(t, pid, rid, heir).playerRoom
    ensures Remove(t, pid, rid, heir).rooms.Keys <= t.rooms.Keys
  {
    hide HomesOk, TablesAgree, MatchesOk, RoomOk, EndMatch, Successor;
    assert rid in t.rooms && pid in t.rooms[rid].members && RoomOk(t.rooms[rid]) by { HomeIsOk(t, pid); }
    var room := t.rooms[rid];
    var members := room.members - {pid};
    if members == {} {
      LastOneOut(t, pid, rid);
    } else {
      var left := room.(members := members, owner := Successor(room.owner, pid, members, heir));
      ShrunkRoomOk(room, pid, heir);
      MoveOutAgrees(t, pid, rid, left);
      if room.playing && |members| <= 1 {
        EndMatchShrunk(MoveOut(t, pid, rid, left), rid, AnyOf(Alive(members, GamesIn(t, rid))));
      }
    }
  }

  lemma HomeIsOk(t: Tables, pid: Pid)
    requires Coherent(t) && pid in t.playerRoom
    ensures var r := t.playerRoom[pid]; r in t.rooms && pid in t.rooms[r].members && RoomOk(t.rooms[r])
  {
    hide RoomOk, TablesAgree, MatchesOk;
  }

  lemma ShrunkRoomOk(room: Room, pid: Pid, heir: Pid)
    requires RoomOk(room) && pid in room.members && room.members != {pid}
    ensures var members := room.members - {pid};
            && members != {}
            && var left := room.(members := members, owner := Successor(room.owner, pid, members, heir));
               && RoomOk(left.(playing := false))
               && ((room.playing && |members| <= 1) || RoomOk(left))
  {
  }

  lemma AfterLeavingKeepsCoherent(t: Tables, pid: Pid, heir: Pid)
    requires Coherent(t)
    ensures Coherent(AfterLeaving(t, pid, heir)) && pid !in AfterLeaving(t, pid, heir).playerRoom
    ensures AfterLeaving(t, pid, heir).rooms.Keys <= t.rooms.Keys
  {
    hide Coherent, Remove;
    if pid in t.playerRoom {
      RemoveKeepsCoherent(t, pid, t.playerRoom[pid], heir);
    }
  }

  /** Room ids are fresh: no two rooms are created in the same nanosecond. */
  lemma CreateKeepsCoherent(t: Tables, pid: Pid, name: string, max: int, rid: Rid, heir: Pid)
    requires Coherent(t) && rid !in t.rooms
    ensures Coherent(CreateRoom(t, pid, name, max, rid, heir))
  {
    hide AfterLeaving, Coherent, RoomOk;
    var u := AfterLeaving(t, pid, heir);
    AfterLeavingKeepsCoherent(t, pid, heir);
    NewRoomOk(pid, NameOf(name), max);
    FreshRoomKeepsCoherent(u, pid, rid, Room(NameOf(name), pid, false, None, Clamped(max), {pid}));
  }

  lemma NewRoomOk(pid: Pid, name: string, max: int)
    ensures RoomOk(Room(name, pid, false, None, Clamped(max), {pid}))
  {
  }

  lemma FreshRoomKeepsCoherent(u: Tables, pid: Pid, rid: Rid, room: Room)
    requires Coherent(u) && rid !in u.rooms && pid !in u.playerRoom
    requires RoomOk(room) && !room.playing && pid in room.members
    ensures Coherent(u.(rooms := u.rooms[rid := room], playerRoom := u.playerRoom[pid := rid]))
  {
    hide Backed, RoomOk;
  }

  lemma JoinKeepsCoherent(t: Tables, pid: Pid, rid: Rid)
    requires Coherent(t)
    ensures Coherent(JoinRoom(t, pid, rid))
  {
    hide Backed, RoomOk;
    if MayJoin(t, pid, rid) {
      GrownRoomOk(t.rooms[rid], pid);
    }
  }

  lemma GrownRoomOk(room: Room, pid: Pid)
    requires RoomOk(room) && pid !in room.members && |room.members| < room.max
    ensures RoomOk(room.(members := room.members + {pid}))
  {
  }

  lemma BeginKeepsCoherent(t: Tables, pid: Pid, rid: Rid, now: nat, deal: Pid -> Game, ticket: Pid -> string)
    requires Coherent(t) && forall p :: Dealt(deal(p))
    ensures Coherent(BeginMatch(t, pid, rid, now, deal, ticket))
  {
    if MayBegin(t, pid, rid) {
      var members := t.rooms[rid].members;
      BeginRoomOk(t, pid, rid);
      HandsAreBacked(members, deal, now);
      OpeningKeepsCoherent(t, rid, Hands(members, deal), map p | p in members :: ticket(p), now + PERIOD);
    }
  }

  lemma OpeningKeepsCoherent(t: Tables, rid: Rid, games: map<Pid, Game>, tickets: map<Pid, string>, nextAt: int)
    requires Coherent(t) && rid in t.rooms && RoomOk(t.rooms[rid].(playing := true, winner := None))
    requires Backed(games, nextAt)
    ensures Coherent(t.(rooms := t.rooms[rid := t.rooms[rid].(playing := true, winner := None)],
                        games := t.games[rid := games], tickets := t.tickets[rid := tickets],
                        nextAdd := t.nextAdd[rid := nextAt]))
  {
    hide RoomOk, Backed;
  }

  lemma HandsAreBacked(members: set<Pid>, deal: Pid -> Game, now: nat)
    requires forall p :: Dealt(deal(p))
    ensures Backed(Hands(members, deal), now + PERIOD)
  {
    hide Dealt, Reachable;
    var m := Opened(Hands(members, deal), now);
    assert Starts(m);
    StartIsReachable(m);
    assert Running(Hands(members, deal), now + PERIOD, m);
  }

  lemma BeginRoomOk(t: Tables, pid: Pid, rid: Rid)
    requires Coherent(t) && MayBegin(t, pid, rid)
    ensures RoomOk(t.rooms[rid].(playing := true, winner := None))
  {
  }

  /** Ending a match needs the room to be in order only as a waiting room. */
  lemma EndMatchShrunk(t: Tables, rid: Rid, winner: Option<Pid>)
    requires rid in t.rooms && RoomOk(t.rooms[rid].(playing := false))
    requires HomesOk(t) && TablesAgree(t) && MatchesOk(t)
    requires forall r :: r in t.rooms && r != rid ==> RoomOk(t.rooms[r])
    ensures Coherent(EndMatch(t, rid, winner))
  {
    hide RoomsOk, HomesOk, TablesAgree, MatchesOk, EndMatch, RoomOk;
    EndedRooms(t, rid, winner);
    EndedHomes(t, rid, winner);
    EndedTables(t, rid, winner);
  }

  lemma EndedRooms(t: Tables, rid: Rid, winner: Option<Pid>)
    requires rid in t.rooms && RoomOk(t.rooms[rid].(playing := false))
    requires forall r :: r in t.rooms && r != rid ==> RoomOk(t.rooms[r])
    ensures RoomsOk(EndMatch(t, rid, winner))
  {
    hide RoomOk;
    WinnerIsFree(t.rooms[rid], winner);
  }

  lemma EndedHomes(t: Tables, rid: Rid, winner: Option<Pid>)
    requires rid in t.rooms && HomesOk(t)
    ensures HomesOk(EndMatch(t, rid, winner))
  {
  }

  lemma EndedTables(t: Tables, rid: Rid, winner: Option<Pid>)
    requires rid in t.rooms && TablesAgree(t) && MatchesOk(t)
    ensures TablesAgree(EndMatch(t, rid, winner)) && MatchesOk(EndMatch(t, rid, winner))
  {
    hide Backed;
  }

  lemma WinnerIsFree(room: Room, winner: Option<Pid>)
    requires RoomOk(room.(playing := false))
    ensures RoomOk(room.(playing := false, winner := winner))
  {
  }

  lemma WaitingIsOk(room: Room)
    requires RoomOk(room)
    ensures RoomOk(room.(playing := false))
  {
  }

  lemma OutcomeKeepsCoherent(t: Tables, rid: Rid)
    requires Coherent(t)
    ensures Coherent(Outcome(t, rid))
  {
    hide EndMatch, RoomOk, Backed;
    if rid in t.rooms && rid in t.games && Decided(t.rooms[rid], t.games[rid]) {
      WaitingIsOk(t.rooms[rid]);
      EndMatchShrunk(t, rid, AnyOf(Alive(t.rooms[rid].members, t.games[rid])));
    }
  }

  /** Replacing one room's games by a later state of the same match. */
  lemma PlayOnKeepsCoherent(t: Tables, rid: Rid, games: map<Pid, Game>, nextAt: int)
    requires Coherent(t) && rid in t.games && Backed(games, nextAt)
    ensures Coherent(t.(games := t.games[rid := games], nextAdd := t.nextAdd[rid := nextAt]))
  {
    hide Backed, RoomOk;
  }

  lemma BackedByStep(games: map<Pid, Game>, nextAt: int, e: Event) returns (m: Match)
    requires Backed(games, nextAt)
    ensures Running(games, nextAt, m) && Consistent(m) && Backed(Step(m, e).games, Step(m, e).nextAt)
  {
    hide Step, Reachable;
    m :| Running(games, nextAt, m);
    StepIsReachable(m, e);
    assert Running(Step(m, e).games, Step(m, e).nextAt, Step(m, e));
  }

  lemma BackedGamesProtocol(games: map<Pid, Game>, nextAt: int)
    requires Backed(games, nextAt)
    ensures AllProtocol(games)
  {
    hide Reachable;
    var m :| Running(games, nextAt, m);
    ReachableIsConsistent(m);
  }

  lemma MessageIsBacked(games: map<Pid, Game>, nextAt: int, e: Event)
    requires Backed(games, nextAt) && IsMessage(e)
    ensures AllProtocol(games) && Backed(Played(games, e), nextAt)
  {
    hide Backed, Reachable, Played, Booked;
    BackedGamesProtocol(games, nextAt);
    var m := BackedByStep(games, nextAt, e);
  }

  lemma TickIsBacked(games: map<Pid, Game>, nextAt: int, now: int, draws: Pid -> Colour)
    requires Backed(games, nextAt)
    ensures AllProtocol(games) && Backed(Ticked(games, now, draws), nextAt)
  {
    hide Backed, Reachable, Ticked;
    BackedGamesProtocol(games, nextAt);
    var m := BackedByStep(games, nextAt, Event.Tick(now, draws));
  }

  lemma ScheduleIsBacked(games: map<Pid, Game>, nextAt: int, now: int, tops: (Pid, nat) -> Layer)
    requires Backed(games, nextAt)
    ensures Backed(AllLayered(games, tops, LayersNow(games, nextAt, now, tops)), NextDeadline(games, nextAt, now, tops))
  {
    hide Backed, Reachable, AllLayered, LayersNow, NextDeadline;
    var m := BackedByStep(games, nextAt, AddLayers(now, tops));
  }

  lemma ReplaceGamesKeepsCoherent(t: Tables, rid: Rid, games: map<Pid, Game>)
    requires Coherent(t) && rid in t.games && rid in t.nextAdd && Backed(games, t.nextAdd[rid])
    ensures Coherent(t.(games := t.games[rid := games]))
  {
    hide Coherent, Backed;
    assert t.nextAdd[rid := t.nextAdd[rid]] == t.nextAdd;
    PlayOnKeepsCoherent(t, rid, games, t.nextAdd[rid]);
  }

  lemma RunningRoom(t: Tables, rid: Rid)
    requires Coherent(t) && rid in t.games
    ensures rid in t.nextAdd && Backed(t.games[rid], t.nextAdd[rid])
  {
    hide Backed;
  }

  lemma ReceiveKeepsCoherent(t: Tables, rid: Rid, e: Event)
    requires Coherent(t)
    ensures InProtocol(t) && Coherent(Receive(t, rid, e))
  {
    hide Coherent, Outcome, Played, InProtocol, AllProtocol, Receive;
    CoherentIsInProtocol(t);
    ReceivedIs(t, rid, e);
    if IsMessage(e) && rid in t.games && e.pid in t.games[rid] {
      PlayedKeepsCoherent(t, rid, e);
      OutcomeKeepsCoherent(t.(games := t.games[rid := Played(t.games[rid], e)]), rid);
    }
  }

  lemma ReceivedIs(t: Tables, rid: Rid, e: Event)
    requires InProtocol(t)
    ensures if IsMessage(e) && rid in t.games && e.pid in t.games[rid] then
              && AllProtocol(t.games[rid])
              && var u := t.(games := t.games[rid := Played(t.games[rid], e)]);
                 Receive(t, rid, e) == if e.Land? then Outcome(u, rid) else u
            else Receive(t, rid, e) == t
  {
    hide Outcome, Played, AllProtocol;
  }

  lemma PlayedKeepsCoherent(t: Tables, rid: Rid, e: Event)
    requires Coherent(t) && rid in t.games && IsMessage(e)
    ensures AllProtocol(t.games[rid]) && Coherent(t.(games := t.games[rid := Played(t.games[rid], e)]))
  {
    hide Coherent, Backed, Played, AllProtocol;
    RunningRoom(t, rid);
    MessageIsBacked(t.games[rid], t.nextAdd[rid], e);
    ReplaceGamesKeepsCoherent(t, rid, Played(t.games[rid], e));
  }

  lemma ScheduleKeepsCoherent(t: Tables, rid: Rid, now: int, tops: (Pid, nat) -> Layer)
    requires Coherent(t)
    ensures Coherent(Schedule(t, rid, now, tops))
  {
    hide Backed, HomesOk, RoomsOk, AllLayered, LayersNow, NextDeadline;
    if !IsPlaying(t, rid) {
      assert t.nextAdd - {rid} == t.nextAdd;
    } else if t.games[rid].Keys != {} {
      ScheduleIsBacked(t.games[rid], t.nextAdd[rid], now, tops);
      PlayOnKeepsCoherent(t, rid, AllLayered(t.games[rid], tops, LayersNow(t.games[rid], t.nextAdd[rid], now, tops)),
                          NextDeadline(t.games[rid], t.nextAdd[rid], now, tops));
    }
  }

  lemma PollKeepsCoherent(t: Tables, rid: Rid, now: int, draws: Pid -> Colour, tops: (Pid, nat) -> Layer)
    requires Coherent(t)
    ensures InProtocol(t) && Coherent(Poll(t, rid, now, draws, tops))
    ensures rid in t.games ==>
              var u := t.(games := t.games[rid := Ticked(t.games[rid], now, draws)]);
              Coherent(u) && Coherent(Outcome(u, rid))
  {
    CoherentIsInProtocol(t);
    hide Coherent, Backed, Outcome, Schedule, Ticked, InProtocol;
    if rid in t.games {
      RunningRoom(t, rid);
      TickIsBacked(t.games[rid], t.nextAdd[rid], now, draws);
      ReplaceGamesKeepsCoherent(t, rid, Ticked(t.games[rid], now, draws));
      var u := t.(games := t.games[rid := Ticked(t.games[rid], now, draws)]);
      OutcomeKeepsCoherent(u, rid);
      ScheduleKeepsCoherent(Outcome(u, rid), rid, now, tops);
    }
  }

  lemma NotingKeepsCoherent(t: Tables, pid: Pid, at: int)
    requires Coherent(t)
    ensures Coherent(Noted(t, pid, at))
  {
    hide Backed, RoomOk;
  }

  lemma ConnectingKeepsCoherent(t: Tables, pid: Pid, rid: Rid, shown: string, at: int)
    requires Coherent(t)
    ensures Coherent(Connected(t, pid, rid, shown, at))
  {
    hide Coherent, Admitted;
    NotingKeepsCoherent(t, pid, at);
  }

  lemma IncomingKeepsCoherent(t: Tables, rid: Rid, e: Event, at: int)
    requires Coherent(t)
    ensures InProtocol(t) && Coherent(Incoming(t, rid, e, at))
  {
    CoherentIsInProtocol(t);
    hide Coherent, InProtocol, Receive;
    if IsMessage(e) {
      NotingKeepsCoherent(t, e.pid, at);
      ReceiveKeepsCoherent(Noted(t, e.pid, at), rid, e);
    }
  }

  lemma NotingKeepsProtocol(t: Tables, pid: Pid, at: int)
    requires InProtocol(t)
    ensures InProtocol(Noted(t, pid, at))
  {
  }

  lemma ForgettingKeepsCoherent(t: Tables, lastHeard: map<Pid, int>)
    requires Coherent(t)
    ensures Coherent(t.(lastHeard := lastHeard))
  {
    hide Backed, RoomOk;
  }

  lemma {:induction false} SweepKeepsCoherent(t: Tables, exits: seq<Exit>)
    requires Coherent(t)
    ensures Coherent(Swept(t, exits))
  {
    hide Coherent, AfterLeaving;
    if exits != [] {
      var n := |exits| - 1;
      var u := Swept(t, exits[..n]);
      SweepKeepsCoherent(t, exits[..n]);
      AfterLeavingKeepsCoherent(u, exits[n].pid, exits[n].heir);
      ForgettingKeepsCoherent(AfterLeaving(u, exits[n].pid, exits[n].heir), u.lastHeard - {exits[n].pid});
    }
  }

  function Members(t: Tables, r: Rid): set<Pid> {
    if r in t.rooms then t.rooms[r].members else {}
  }

  /** Those of a set of players who are at home in a room. */
  ghost function AtHome(t: Tables, ps: set<Pid>, r: Rid): set<Pid> {
    set p | p in ps && p in t.playerRoom && t.playerRoom[p] == r
  }

  lemma LeavingMembers(t: Tables, pid: Pid, heir: Pid, r: Rid)
    requires Coherent(t)
    ensures var u := AfterLeaving(t, pid, heir);
            && u.playerRoom == t.playerRoom - {pid} && u.lastHeard == t.lastHeard
            && Members(u, r) == Members(t, r) - AtHome(t, {pid}, r)
  {
    hide Coherent, Remove, Members;
    if pid in t.playerRoom {
      HomeIsOk(t, pid);
      RemoveMembers(t, pid, t.playerRoom[pid], heir, r);
      assert AtHome(t, {pid}, r) == if t.playerRoom[pid] == r then {pid} else {};
    } else {
      assert t.playerRoom - {pid} == t.playerRoom;
      assert AtHome(t, {pid}, r) == {};
    }
  }

  lemma RemoveMembers(t: Tables, pid: Pid, rid: Rid, heir: Pid, r: Rid)
    requires rid in t.rooms
    ensures var u := Remove(t, pid, rid, heir);
            && u.playerRoom == t.playerRoom - {pid} && u.lastHeard == t.lastHeard
            && Members(u, r) == Members(t, r) - (if r == rid then {pid} else {})
  {
    hide Alive, AnyOf, GamesIn, Successor;
  }

  /** What a sweep does, whatever its order and whoever inherits rooms in between:
      each room loses exactly the silent players who are at home in it. */
  lemma {:induction false} SweepEffect(t: Tables, exits: seq<Exit>, r: Rid)
    requires Coherent(t)
    ensures var u := Swept(t, exits);
            && Coherent(u) && u.playerRoom == t.playerRoom - Exiting(exits)
            && u.lastHeard == t.lastHeard - Exiting(exits)
            && Members(u, r) == Members(t, r) - AtHome(t, Exiting(exits), r)
  {
    hide Coherent, AfterLeaving;
    if exits == [] {
      NobodyExits(t, r);
    } else {
      var n := |exits| - 1;
      SweepKeepsCoherent(t, exits);
      SweepKeepsCoherent(t, exits[..n]);
      SweepEffect(t, exits[..n], r);
      LeavingMembers(Swept(t, exits[..n]), exits[n].pid, exits[n].heir, r);
      assert exits == exits[..n] + [exits[n]];
      assert Exiting(exits) == Exiting(exits[..n]) + {exits[n].pid};
      HomesLeft(t, Swept(t, exits[..n]), Exiting(exits[..n]), exits[n].pid, r);
    }
  }

  lemma HomesLeft(t: Tables, u: Tables, gone: set<Pid>, p: Pid, r: Rid)
    requires u.playerRoom == t.playerRoom - gone && u.lastHeard == t.lastHeard - gone
    ensures AtHome(t, gone + {p}, r) == AtHome(t, gone, r) + AtHome(u, {p}, r)
    ensures u.playerRoom - {p} == t.playerRoom - (gone + {p}) && u.lastHeard - {p} == t.lastHeard - (gone + {p})
  {
  }

  lemma NobodyExits(t: Tables, r: Rid)
    ensures Exiting([]) == {} && AtHome(t, {}, r) == {}
    ensures t.playerRoom - {} == t.playerRoom && t.lastHeard - {} == t.lastHeard
  {
  }

  // ------------------------------------------------- all requests, all runs

  /** What the environment guarantees: room ids are never reused, dealt games are
      initial games, and a sweep goes through exactly the silent players. */
  ghost predicate Admissible(t: Tables, q: Request) {
    && (q.Create? ==> q.rid !in t.rooms)
    && (q.Begin? ==> forall p :: Dealt(q.deal(p)))
    && (q.Sweep? ==> Exiting(q.exits) == SilentSince(t, q.now, q.timeout))
  }

  ghost function Serve(t: Tables, q: Request): Tables
    requires InProtocol(t)
  {
    match q
    case Create(pid, name, max, rid, heir) => CreateRoom(t, pid, name, max, rid, heir)
    case Join(pid, rid) => JoinRoom(t, pid, rid)
    case Leave(pid, heir) => AfterLeaving(t, pid, heir)
    case Begin(pid, rid, time, deal, ticket) => BeginMatch(t, pid, rid, time, deal, ticket)
    case Connect(pid, rid, ticket, at) => Connected(t, pid, rid, ticket, at)
    case Beat(pid, at) => Noted(t, pid, at)
    case Deliver(rid, e, at) => Incoming(t, rid, e, at)
    case PollRoom(rid, now, draws, tops) => Poll(t, rid, now, draws, tops)
    case Sweep(now, timeout, exits) => Swept(t, exits)
  }

  lemma ServeKeepsCoherent(t: Tables, q: Request)
    requires Coherent(t) && Admissible(t, q)
    ensures InProtocol(t) && Coherent(Serve(t, q))
  {
    CoherentIsInProtocol(t);
    hide Coherent, InProtocol, CreateRoom, JoinRoom, AfterLeaving, BeginMatch, Incoming, Poll, Dealt, Swept, Exiting,
      SilentSince, Connected;
    match q
    case Create(pid, name, max, rid, heir) => CreateKeepsCoherent(t, pid, name, max, rid, heir);
    case Join(pid, rid) => JoinKeepsCoherent(t, pid, rid);
    case Leave(pid, heir) => AfterLeavingKeepsCoherent(t, pid, heir);
    case Begin(pid, rid, time, deal, ticket) => BeginKeepsCoherent(t, pid, rid, time, deal, ticket);
    case Connect(pid, rid, shown, at) => ConnectingKeepsCoherent(t, pid, rid, shown, at);
    case Beat(pid, at) => NotingKeepsCoherent(t, pid, at);
    case Deliver(rid, e, at) => IncomingKeepsCoherent(t, rid, e, at);
    case PollRoom(rid, now, draws, tops) => PollKeepsCoherent(t, rid, now, draws, tops);
    case Sweep(now, timeout, exits) => SweepKeepsCoherent(t, exits);
  }

  const EMPTY_TABLES := Tables(map[], map[], map[], map[], map[], map[])

  /** u is what t becomes by serving the requests in order. */
  ghost predicate ServedFrom(t: Tables, qs: seq<Request>, u: Tables)
    decreases |qs|
  {
    if qs == [] then u == t
    else
      var n := |qs| - 1;
      exists s :: ServedFrom(t, qs[..n], s) && InProtocol(s) && Admissible(s, qs[n]) && u == Serve(s, qs[n])
  }

  lemma {:induction false} ServedFromIsCoherent(t: Tables, qs: seq<Request>, u: Tables)
    requires Coherent(t) && ServedFrom(t, qs, u)
    ensures Coherent(u)
    decreases |qs|
  {
    hide Coherent, Serve, Admissible, InProtocol;
    if qs != [] {
      var n := |qs| - 1;
      var s :| ServedFrom(t, qs[..n], s) && InProtocol(s) && Admissible(s, qs[n]) && u == Serve(s, qs[n]);
      ServedFromIsCoherent(t, qs[..n], s);
      ServeKeepsCoherent(s, qs[n]);
    }
  }

  /** Every request that the environment may send next is served. */
  lemma ServedGoesOn(t: Tables, qs: seq<Request>, s: Tables, q: Request)
    requires Coherent(t) && ServedFrom(t, qs, s) && Admissible(s, q)
    ensures InProtocol(s) && ServedFrom(t, qs + [q], Serve(s, q))
  {
    hide Coherent, Serve, Admissible, InProtocol;
    ServedFromIsCoherent(t, qs, s);
    ServeKeepsCoherent(s, q);
    assert (qs + [q])[..|qs|] == qs;
  }

  /** t is what the empty server becomes by serving the requests in order. */
  ghost predicate Served(qs: seq<Request>, t: Tables) {
    ServedFrom(EMPTY_TABLES, qs, t)
  }

  /** In every state the server can reach its tables agree, and every running
      match is a run of the match machine, with all that follows from that. */
  lemma ServedIsCoherent(qs: seq<Request>, t: Tables)
    requires Served(qs, t)
    ensures Coherent(t)
    ensures forall r :: r in t.games ==> Backed(t.games[r], t.nextAdd[r])
  {
    hide ServedFrom, Backed, RoomOk;
    ServedFromIsCoherent(EMPTY_TABLES, qs, t);
  }

  /** A decided match names the one member who had not lost, every other member
      with a game having lost, and takes the room back to waiting. */
  lemma OutcomeNamesTheSurvivor(t: Tables, rid: Rid)
    requires rid in t.rooms && rid in t.games && t.rooms[rid].playing
    ensures var room, games, after := t.rooms[rid], t.games[rid], Outcome(t, rid).rooms[rid];
      if Decided(room, games) then
        && !after.playing && after.winner.Some? && rid !in Outcome(t, rid).games
        && var w := after.winner.value;
           && w in room.members && w in games && games[w].status != Lost
           && forall p :: p in room.members && p in games && p != w ==> games[p].status == Lost
      else Outcome(t, rid) == t
  {
    var room, games := t.rooms[rid], t.games[rid];
    if Decided(room, games) {
      var alive := Alive(room.members, games);
      var w := AnyOf(alive).value;
      assert |alive - {w}| == 0;
      assert alive == {w};
      forall p | p in room.members && p in games && p != w ensures games[p].status == Lost {
        assert p !in alive;
      }
    }
  }

  // ------------------------------------------------- when members are at home

  /** The converse of HomesOk: every member of a room is at home there. */
  ghost predicate Mirrored(t: Tables) {
    forall r, p :: r in t.rooms && p in t.rooms[r].members ==> p in t.playerRoom && t.playerRoom[p] == r
  }

  /** Someone who is at home in one room enters another. */
  ghost predicate JoinsTwice(t: Tables, q: Request) {
    q.Join? && q.pid in t.playerRoom && MayJoin(t, q.pid, q.rid)
  }

  ghost predicate SameRosters(t: Tables, u: Tables) {
    && u.playerRoom == t.playerRoom && u.rooms.Keys == t.rooms.Keys
    && forall r :: r in t.rooms ==> u.rooms[r].members == t.rooms[r].members
  }

  lemma OutcomeKeepsRosters(t: Tables, rid: Rid)
    ensures SameRosters(t, Outcome(t, rid))
  {
    hide Decided, Alive, AnyOf;
  }

  lemma ReceivingKeepsRosters(t: Tables, rid: Rid, e: Event)
    requires InProtocol(t)
    ensures SameRosters(t, Receive(t, rid, e))
  {
    hide Played, AllProtocol, Outcome;
    if IsMessage(e) && rid in t.games && e.pid in t.games[rid] {
      OutcomeKeepsRosters(t.(games := t.games[rid := Played(t.games[rid], e)]), rid);
    }
  }

  lemma PollingKeepsRosters(t: Tables, rid: Rid, now: int, draws: Pid -> Colour, tops: (Pid, nat) -> Layer)
    requires InProtocol(t)
    ensures SameRosters(t, Poll(t, rid, now, draws, tops))
  {
    hide Ticked, AllProtocol, Outcome, AllLayered, LayersNow, NextDeadline;
    if rid in t.rooms && rid in t.games {
      OutcomeKeepsRosters(t.(games := t.games[rid := Ticked(t.games[rid], now, draws)]), rid);
    }
  }

  lemma MatchesKeepRosters(t: Tables, q: Request)
    requires InProtocol(t) && (q.Begin? || q.Deliver? || q.PollRoom? || q.Connect? || q.Beat?)
    ensures SameRosters(t, Serve(t, q))
  {
    hide Receive, Poll, InProtocol, Admitted;
    match q
    case Begin(pid, rid, time, deal, ticket) =>
    case Connect(pid, rid, shown, at) =>
    case Beat(pid, at) =>
    case Deliver(rid, e, at) =>
      if IsMessage(e) {
        NotingKeepsProtocol(t, e.pid, at);
        ReceivingKeepsRosters(Noted(t, e.pid, at), rid, e);
      }
    case PollRoom(rid, now, draws, tops) => PollingKeepsRosters(t, rid, now, draws, tops);
    case _ =>
  }

  lemma LeavingKeepsMirrored(t: Tables, pid: Pid, heir: Pid)
    requires Coherent(t) && Mirrored(t)
    ensures Mirrored(AfterLeaving(t, pid, heir))
  {
    hide RoomsOk, TablesAgree, MatchesOk, Alive, AnyOf, GamesIn, Successor;
  }

  lemma CreatingKeepsMirrored(t: Tables, q: Request)
    requires q.Create? && Coherent(t) && Mirrored(t) && q.rid !in t.rooms
    ensures Mirrored(CreateRoom(t, q.pid, q.name, q.max, q.rid, q.heir))
  {
    hide AfterLeaving, Coherent;
    LeavingKeepsMirrored(t, q.pid, q.heir);
    AfterLeavingKeepsCoherent(t, q.pid, q.heir);
  }

  lemma JoiningMirrors(t: Tables, pid: Pid, rid: Rid)
    requires Coherent(t) && Mirrored(t)
    ensures Mirrored(JoinRoom(t, pid, rid)) <==> !(pid in t.playerRoom && MayJoin(t, pid, rid))
  {
    if pid in t.playerRoom && MayJoin(t, pid, rid) {
      SecondJoinSplits(t, pid, rid);
    }
    hide Coherent;
  }

  lemma {:induction false} SweepKeepsMirrored(t: Tables, exits: seq<Exit>)
    requires Coherent(t) && Mirrored(t)
    ensures Mirrored(Swept(t, exits))
  {
    hide Coherent, AfterLeaving, Mirrored;
    if exits != [] {
      var n := |exits| - 1;
      var u := Swept(t, exits[..n]);
      SweepKeepsCoherent(t, exits[..n]);
      SweepKeepsMirrored(t, exits[..n]);
      LeavingKeepsMirrored(u, exits[n].pid, exits[n].heir);
      RostersMirror(AfterLeaving(u, exits[n].pid, exits[n].heir), Swept(t, exits));
    }
  }

  lemma RostersMirror(t: Tables, u: Tables)
    requires Mirrored(t) && SameRosters(t, u)
    ensures Mirrored(u)
  {
  }

  /** Rooms and homes mirror each other for exactly as long as nobody enters a
      room while being at home in another one: every other request keeps the
      mirror, and that one always breaks it. */
  lemma MirrorBreaksOnSecondJoin(t: Tables, q: Request)
    requires Coherent(t) && InProtocol(t) && Admissible(t, q) && Mirrored(t)
    ensures Mirrored(Serve(t, q)) <==> !JoinsTwice(t, q)
  {
    hide Coherent, InProtocol, Mirrored, SameRosters, CreateRoom, JoinRoom, AfterLeaving, BeginMatch, Receive, Poll,
      MayJoin, Incoming, Connected, Swept;
    if q.Begin? || q.Deliver? || q.PollRoom? || q.Connect? || q.Beat? {
      MatchesKeepRosters(t, q);
      RostersMirror(t, Serve(t, q));
    } else if q.Create? {
      CreatingKeepsMirrored(t, q);
    } else if q.Leave? {
      LeavingKeepsMirrored(t, q.pid, q.heir);
    } else if q.Sweep? {
      SweepKeepsMirrored(t, q.exits);
    } else {
      JoiningMirrors(t, q.pid, q.rid);
    }
  }

  ghost predicate Answers(t: Tables, q: Request, u: Tables) {
    InProtocol(t) && Admissible(t, q) && u == Serve(t, q)
  }

  /** The states a run goes through, from the empty server on. */
  ghost predicate Trace(ts: seq<Tables>, qs: seq<Request>) {
    && |ts| == |qs| + 1 && ts[0] == EMPTY_TABLES
    && forall i, j :: 0 <= i < |qs| && j == i + 1 ==> Answers(ts[i], qs[i], ts[j])
  }

  lemma {:induction false} TraceIsCoherent(ts: seq<Tables>, qs: seq<Request>, i: nat)
    requires Trace(ts, qs) && i < |ts|
    ensures Coherent(ts[i])
  {
    hide Coherent, Serve, Admissible, InProtocol;
    if i == 0 {
      EmptyIsCoherent();
    } else {
      TraceIsCoherent(ts, qs, i - 1);
      assert Answers(ts[i - 1], qs[i - 1], ts[i]);
      ServeKeepsCoherent(ts[i - 1], qs[i - 1]);
    }
  }

  lemma EmptyIsCoherent()
    ensures Coherent(EMPTY_TABLES) && Mirrored(EMPTY_TABLES)
  {
  }

  lemma {:induction false} MirroredSoFar(ts: seq<Tables>, qs: seq<Request>, i: nat)
    requires Trace(ts, qs) && i < |ts| && forall k :: 0 <= k < i ==> !JoinsTwice(ts[k], qs[k])
    ensures Mirrored(ts[i])
  {
    hide Coherent, Serve, Admissible, InProtocol, Mirrored, JoinsTwice;
    if i == 0 {
      EmptyIsCoherent();
    } else {
      MirroredSoFar(ts, qs, i - 1);
      TraceIsCoherent(ts, qs, i - 1);
      assert Answers(ts[i - 1], qs[i - 1], ts[i]);
      MirrorBreaksOnSecondJoin(ts[i - 1], qs[i - 1]);
    }
  }

  /** Over whole runs of the server: rooms and homes mirror each other in every
      state exactly when no request of the run was a second join. */
  lemma MirroredRunsNeverJoinTwice(ts: seq<Tables>, qs: seq<Request>)
    requires Trace(ts, qs)
    ensures (forall i :: 0 <= i < |ts| ==> Mirrored(ts[i])) <==>
            (forall i :: 0 <= i < |qs| ==> !JoinsTwice(ts[i], qs[i]))
  {
    hide Coherent, Serve, Admissible, InProtocol, Mirrored, JoinsTwice;
    if forall i :: 0 <= i < |ts| ==> Mirrored(ts[i]) {
      forall i | 0 <= i < |qs| ensures !JoinsTwice(ts[i], qs[i]) {
        var j := i + 1;
        TraceIsCoherent(ts, qs, i);
        assert Answers(ts[i], qs[i], ts[j]);
        MirrorBreaksOnSecondJoin(ts[i], qs[i]);
      }
    }
    if forall i :: 0 <= i < |qs| ==> !JoinsTwice(ts[i], qs[i]) {
      forall i | 0 <= i < |ts| ensures Mirrored(ts[i]) {
        MirroredSoFar(ts, qs, i);
      }
    }
  }

  lemma SecondJoinSplits(t: Tables, pid: Pid, rid: Rid)
    requires Coherent(t) && pid in t.playerRoom && MayJoin(t, pid, rid)
    ensures !Mirrored(JoinRoom(t, pid, rid))
  {
    HomeIsOk(t, pid);
    var u, home := JoinRoom(t, pid, rid), t.playerRoom[pid];
    assert home in u.rooms && pid in u.rooms[home].members && u.playerRoom[pid] == rid;
  }

  /** Two players, each in a room of its own. */
  ghost function TwoRooms(a: Pid, b: Pid, r: Rid, s: Rid): Tables {
    Tables(map[r := Room("Room", a, false, None, 2, {a}), s := Room("Room", b, false, None, 2, {b})],
           map[a := r, b := s], map[], map[], map[], map[])
  }

  /** And it does happen: two players open a room each, and one enters the
      other's room too. */
  lemma SecondJoinHappens(a: Pid, b: Pid, r: Rid, s: Rid)
    requires a != b && r != s
    ensures exists t :: Served([Create(a, "", 2, r, a), Create(b, "", 2, s, b), Join(a, s)], t) && !Mirrored(t)
  {
    var t := TwoRooms(a, b, r, s);
    TwoRoomsOpen(a, b, r, s);
    TwoRoomsSplit(a, b, r, s, t);
    assert InProtocol(t);
    hide ServedFrom, JoinRoom, Mirrored, InProtocol, TwoRooms;
    ServedMore(EMPTY_TABLES, [Create(a, "", 2, r, a), Create(b, "", 2, s, b)], t, Join(a, s));
    assert [Create(a, "", 2, r, a), Create(b, "", 2, s, b)] + [Join(a, s)] ==
           [Create(a, "", 2, r, a), Create(b, "", 2, s, b), Join(a, s)];
  }

  lemma TwoRoomsOpen(a: Pid, b: Pid, r: Rid, s: Rid)
    requires a != b && r != s
    ensures ServedFrom(EMPTY_TABLES, [Create(a, "", 2, r, a), Create(b, "", 2, s, b)], TwoRooms(a, b, r, s))
  {
    var first, second := Create(a, "", 2, r, a), Create(b, "", 2, s, b);
    var t := EMPTY_TABLES.(rooms := map[r := Room("Room", a, false, None, 2, {a})], playerRoom := map[a := r]);
    CreatesRoom(EMPTY_TABLES, a, r);
    CreatesRoom(t, b, s);
    hide CreateRoom, ServedFrom;
    NothingServed(EMPTY_TABLES);
    ServedMore(EMPTY_TABLES, [], EMPTY_TABLES, first);
    assert [] + [first] == [first];
    ServedMore(EMPTY_TABLES, [first], t, second);
    assert [first] + [second] == [first, second];
  }

  lemma NothingServed(t: Tables)
    ensures ServedFrom(t, [], t)
  {
  }

  lemma CreatesRoom(t: Tables, pid: Pid, rid: Rid)
    requires pid !in t.playerRoom
    ensures CreateRoom(t, pid, "", 2, rid, pid) ==
            t.(rooms := t.rooms[rid := Room("Room", pid, false, None, 2, {pid})],
               playerRoom := t.playerRoom[pid := rid])
  {
    hide Remove;
  }

  lemma TwoRoomsSplit(a: Pid, b: Pid, r: Rid, s: Rid, t: Tables)
    requires a != b && r != s && t.playerRoom == map[a := r, b := s]
    requires t.rooms == map[r := Room("Room", a, false, None, 2, {a}), s := Room("Room", b, false, None, 2, {b})]
    ensures !Mirrored(JoinRoom(t, a, s))
  {
    var u := JoinRoom(t, a, s);
    assert r in u.rooms && a in u.rooms[r].members && u.playerRoom[a] == s;
  }

  lemma ServedMore(t: Tables, qs: seq<Request>, s: Tables, q: Request)
    requires ServedFrom(t, qs, s) && InProtocol(s) && Admissible(s, q)
    ensures ServedFrom(t, qs + [q], Serve(s, q))
  {
    hide Serve, InProtocol, Admissible;
    assert (qs + [q])[..|qs|] == qs;
  }

  // ------------------------------------------------- the frozen board, on the server

  lemma MessageFollows(games: map<Pid, Game>, nextAt: int, e: Event, p: Pid)
    requires Backed(games, nextAt) && IsMessage(e) && p in games
    ensures AllProtocol(games) && Follows(games[p], Played(games, e)[p])
  {
    hide Backed, Reachable, Played, Booked, Follows;
    BackedGamesProtocol(games, nextAt);
    var m := BackedByStep(games, nextAt, e);
    StepFollows(m, e, p);
  }

  lemma TickFollows(games: map<Pid, Game>, nextAt: int, now: int, draws: Pid -> Colour, p: Pid)
    requires Backed(games, nextAt) && p in games
    ensures AllProtocol(games) && p in Ticked(games, now, draws) && Follows(games[p], Ticked(games, now, draws)[p])
  {
    hide Backed, Reachable, Follows;
    BackedGamesProtocol(games, nextAt);
    var m := BackedByStep(games, nextAt, Event.Tick(now, draws));
    StepFollows(m, Event.Tick(now, draws), p);
  }

  lemma ScheduleFollows(games: map<Pid, Game>, nextAt: int, now: int, tops: (Pid, nat) -> Layer, p: Pid)
    requires Backed(games, nextAt) && p in games
    ensures var after := AllLayered(games, tops, LayersNow(games, nextAt, now, tops));
            p in after && Follows(games[p], after[p])
  {
    hide Backed, Reachable, LayersNow, NextDeadline, Follows;
    var m := BackedByStep(games, nextAt, AddLayers(now, tops));
    StepFollows(m, AddLayers(now, tops), p);
  }

  lemma FollowsIsTransitive(g: Game, h: Game, k: Game)
    requires Follows(g, h) && Follows(h, k)
    ensures Follows(g, k)
  {
  }

  /** The match of room r goes on in u exactly as it stood in t. */
  ghost predicate SameMatch(t: Tables, u: Tables, r: Rid) {
    && r in t.games && r in u.games && u.games[r] == t.games[r]
    && (r in t.nextAdd ==> r in u.nextAdd && u.nextAdd[r] == t.nextAdd[r])
  }

  lemma OutcomeFollows(t: Tables, rid: Rid, r: Rid)
    requires r in Outcome(t, rid).games
    ensures SameMatch(t, Outcome(t, rid), r)
  {
    hide Decided, Alive;
  }

  lemma ScheduledFollows(t: Tables, rid: Rid, now: int, tops: (Pid, nat) -> Layer, p: Pid)
    requires Coherent(t) && rid in t.games && p in t.games[rid]
    ensures var u := Schedule(t, rid, now, tops);
            rid in u.games && p in u.games[rid] && Follows(t.games[rid][p], u.games[rid][p])
  {
    RunningRoom(t, rid);
    SameFollows(t.games[rid][p]);
    ScheduleFollows(t.games[rid], t.nextAdd[rid], now, tops, p);
    hide Coherent, Backed, Follows, LayersNow, NextDeadline, AllLayered;
  }

  lemma PollFollows(t: Tables, rid: Rid, now: int, draws: Pid -> Colour, tops: (Pid, nat) -> Layer, p: Pid)
    requires Coherent(t) && rid in t.rooms && rid in t.games && p in t.games[rid]
    ensures InProtocol(t)
    ensures var u := Poll(t, rid, now, draws, tops);
            rid in u.games ==> p in u.games[rid] && Follows(t.games[rid][p], u.games[rid][p])
  {
    hide Coherent, Backed, Outcome, Ticked, InProtocol, Follows, AllProtocol, Schedule;
    PollKeepsCoherent(t, rid, now, draws, tops);
    RunningRoom(t, rid);
    TickFollows(t.games[rid], t.nextAdd[rid], now, draws, p);
    var u := t.(games := t.games[rid := Ticked(t.games[rid], now, draws)]);
    var v := Outcome(u, rid);
    if rid in Schedule(v, rid, now, tops).games {
      ScheduleAddsNoGame(v, rid, now, tops, rid);
      OutcomeFollows(u, rid, rid);
      ScheduledFollows(v, rid, now, tops, p);
      FollowsIsTransitive(t.games[rid][p], v.games[rid][p], Schedule(v, rid, now, tops).games[rid][p]);
    }
  }

  lemma ScheduleAddsNoGame(t: Tables, rid: Rid, now: int, tops: (Pid, nat) -> Layer, r: Rid)
    requires r in Schedule(t, rid, now, tops).games
    ensures r in t.games && (r != rid ==> SameMatch(t, Schedule(t, rid, now, tops), r))
  {
    hide LayersNow, NextDeadline, AllLayered;
  }

  lemma DeliverFollows(t: Tables, rid: Rid, e: Event, p: Pid)
    requires Coherent(t) && rid in t.games && p in t.games[rid]
    ensures InProtocol(t)
    ensures var u := Receive(t, rid, e);
            rid in u.games ==> p in u.games[rid] && Follows(t.games[rid][p], u.games[rid][p])
  {
    hide Coherent, Backed, Outcome, Played, InProtocol, Follows, AllProtocol;
    ReceiveKeepsCoherent(t, rid, e);
    SameFollows(t.games[rid][p]);
    if IsMessage(e) && e.pid in t.games[rid] {
      RunningRoom(t, rid);
      MessageFollows(t.games[rid], t.nextAdd[rid], e, p);
      var u := t.(games := t.games[rid := Played(t.games[rid], e)]);
      if rid in Outcome(u, rid).games {
        OutcomeFollows(u, rid, rid);
      }
    }
  }

  /** The request deals this room a new match: a start that is not refused. */
  ghost predicate Deals(t: Tables, q: Request, rid: Rid) {
    q.Begin? && q.rid == rid && MayBegin(t, q.pid, rid)
  }

  lemma LeavingScope(t: Tables, pid: Pid, heir: Pid, r: Rid)
    requires r in AfterLeaving(t, pid, heir).games
    ensures SameMatch(t, AfterLeaving(t, pid, heir), r)
  {
    hide Remove, SameMatch;
    if pid in t.playerRoom {
      RemoveScope(t, pid, t.playerRoom[pid], heir, r);
    } else {
      StaysSame(t, r);
    }
  }

  lemma StaysSame(t: Tables, r: Rid)
    requires r in t.games
    ensures SameMatch(t, t, r)
  {
  }

  lemma RemoveScope(t: Tables, pid: Pid, rid: Rid, heir: Pid, r: Rid)
    requires r in Remove(t, pid, rid, heir).games
    ensures SameMatch(t, Remove(t, pid, rid, heir), r)
  {
    hide Alive, AnyOf, Successor, GamesIn, EndMatch;
    if rid in t.rooms && t.rooms[rid].members - {pid} != {} && t.rooms[rid].playing
      && |t.rooms[rid].members - {pid}| <= 1 {
      var members := t.rooms[rid].members - {pid};
      var left := t.rooms[rid].(members := members, owner := Successor(t.rooms[rid].owner, pid, members, heir));
      EndScope(t.(rooms := t.rooms[rid := left], playerRoom := t.playerRoom - {pid}), rid,
               AnyOf(Alive(members, GamesIn(t, rid))), r);
    }
  }

  lemma EndScope(t: Tables, rid: Rid, winner: Option<Pid>, r: Rid)
    requires rid in t.rooms && r in EndMatch(t, rid, winner).games
    ensures SameMatch(t, EndMatch(t, rid, winner), r)
  {
  }

  lemma PollScope(t: Tables, rid: Rid, now: int, draws: Pid -> Colour, tops: (Pid, nat) -> Layer, r: Rid)
    requires InProtocol(t) && r in Poll(t, rid, now, draws, tops).games
    ensures r in t.games && (r != rid ==> SameMatch(t, Poll(t, rid, now, draws, tops), r))
  {
    hide Ticked, AllProtocol, Outcome, Schedule;
    if rid in t.rooms && rid in t.games {
      var u := t.(games := t.games[rid := Ticked(t.games[rid], now, draws)]);
      ScheduleAddsNoGame(Outcome(u, rid), rid, now, tops, r);
      OutcomeFollows(u, rid, r);
    }
  }

  lemma DeliverScope(t: Tables, rid: Rid, e: Event, r: Rid)
    requires InProtocol(t) && r in Receive(t, rid, e).games
    ensures r in t.games && (r != rid ==> SameMatch(t, Receive(t, rid, e), r))
  {
    hide Played, AllProtocol, Outcome;
    if IsMessage(e) && rid in t.games && e.pid in t.games[rid] && e.Land? {
      OutcomeFollows(t.(games := t.games[rid := Played(t.games[rid], e)]), rid, r);
    }
  }

  lemma {:induction false} SweepScope(t: Tables, exits: seq<Exit>, r: Rid)
    requires r in Swept(t, exits).games
    ensures SameMatch(t, Swept(t, exits), r)
  {
    hide AfterLeaving;
    if exits != [] {
      var n := |exits| - 1;
      LeavingScope(Swept(t, exits[..n]), exits[n].pid, exits[n].heir, r);
      SweepScope(t, exits[..n], r);
    }
  }

  /** Requests touch the games of the room they are about, and others' only by
      dropping them. */
  lemma ServeScope(t: Tables, q: Request, rid: Rid)
    requires InProtocol(t) && !Deals(t, q, rid) && rid in Serve(t, q).games
    ensures rid in t.games
    ensures !((q.Deliver? || q.PollRoom?) && q.rid == rid) ==> SameMatch(t, Serve(t, q), rid)
  {
    hide InProtocol, Receive, Poll, AfterLeaving, Swept, Admitted;
    match q
    case Create(pid, name, max, r, heir) => LeavingScope(t, pid, heir, rid);
    case Join(pid, r) =>
    case Leave(pid, heir) => LeavingScope(t, pid, heir, rid);
    case Begin(pid, r, time, deal, ticket) =>
    case Connect(pid, r, ticket, at) =>
    case Beat(pid, at) =>
    case Deliver(r, e, at) =>
      if IsMessage(e) {
        NotingKeepsProtocol(t, e.pid, at);
        DeliverScope(Noted(t, e.pid, at), r, e, rid);
      }
    case PollRoom(r, now, draws, tops) => PollScope(t, r, now, draws, tops, rid);
    case Sweep(now, timeout, exits) => SweepScope(t, exits, rid);
  }

  lemma ServedByKind(t: Tables, q: Request)
    requires InProtocol(t)
    ensures q.Deliver? ==> Serve(t, q) == Incoming(t, q.rid, q.event, q.at)
    ensures q.Deliver? && IsMessage(q.event) ==> Serve(t, q) == Receive(Noted(t, q.event.pid, q.at), q.rid, q.event)
    ensures q.PollRoom? ==> Serve(t, q) == Poll(t, q.rid, q.now, q.draws, q.tops)
  {
    hide Receive, Poll;
  }

  /** A player's game goes on in u from where it was in t. */
  ghost predicate GoesOn(t: Tables, u: Tables, rid: Rid, p: Pid) {
    rid in t.games && (p in t.games[rid] && rid in u.games ==>
                         p in u.games[rid] && Follows(t.games[rid][p], u.games[rid][p]))
  }

  lemma SameMatchGoesOn(t: Tables, u: Tables, rid: Rid, p: Pid)
    requires SameMatch(t, u, rid)
    ensures GoesOn(t, u, rid, p)
  {
    if p in t.games[rid] {
      SameFollows(t.games[rid][p]);
    }
  }

  lemma DeliveryGoesOn(t: Tables, rid: Rid, e: Event, at: int, p: Pid)
    requires Coherent(t) && InProtocol(t) && rid in t.games
    ensures GoesOn(t, Incoming(t, rid, e, at), rid, p)
  {
    hide Coherent, Receive, Follows;
    if p in t.games[rid] {
      SameFollows(t.games[rid][p]);
      if IsMessage(e) {
        NotingKeepsCoherent(t, e.pid, at);
        DeliverFollows(Noted(t, e.pid, at), rid, e, p);
      }
    }
  }

  lemma PollGoesOn(t: Tables, rid: Rid, now: int, draws: Pid -> Colour, tops: (Pid, nat) -> Layer, p: Pid)
    requires Coherent(t) && InProtocol(t) && rid in t.games
    ensures GoesOn(t, Poll(t, rid, now, draws, tops), rid, p)
  {
    RunningIsARoom(t);
    hide Coherent, InProtocol, Poll, Follows;
    if p in t.games[rid] {
      PollFollows(t, rid, now, draws, tops, p);
    }
  }

  lemma ServeFollows(t: Tables, q: Request, rid: Rid, p: Pid)
    requires Coherent(t) && InProtocol(t) && !Deals(t, q, rid) && rid in Serve(t, q).games
    ensures GoesOn(t, Serve(t, q), rid, p)
  {
    hide Coherent, InProtocol, Incoming, Poll, GoesOn, Serve, SameMatch, Deals;
    ServedByKind(t, q);
    ServeScope(t, q, rid);
    if q.Deliver? && q.rid == rid {
      DeliveryGoesOn(t, rid, q.event, q.at, p);
    } else if q.PollRoom? && q.rid == rid {
      PollGoesOn(t, rid, q.now, q.draws, q.tops, p);
    } else {
      SameMatchGoesOn(t, Serve(t, q), rid, p);
    }
  }

  lemma RunningIsARoom(t: Tables)
    requires Coherent(t)
    ensures t.games.Keys <= t.rooms.Keys
  {
    hide RoomsOk, HomesOk, MatchesOk;
  }

  /** Frozen board on the server: as long as a match is neither over nor dealt
      again, a shot that is still pending found its board, and both its colours,
      as they are now when it was accepted, whatever anybody did in between. */
  lemma {:induction false} PendingShotFreezes(t: Tables, qs: seq<Request>, u: Tables, rid: Rid, p: Pid)
    requires Coherent(t) && ServedFrom(t, qs, u) && rid in u.games
    requires forall i, s :: 0 <= i < |qs| && ServedFrom(t, qs[..i], s) ==> !Deals(s, qs[i], rid)
    ensures Coherent(u) && rid in t.games
    ensures p in t.games[rid] ==> p in u.games[rid] && Follows(t.games[rid][p], u.games[rid][p])
    decreases |qs|
  {
    hide Coherent, Serve, Admissible, Follows, InProtocol, Deals;
    if qs == [] {
      if p in t.games[rid] {
        SameFollows(t.games[rid][p]);
      }
    } else {
      var n := |qs| - 1;
      var s :| ServedFrom(t, qs[..n], s) && InProtocol(s) && Admissible(s, qs[n]) && u == Serve(s, qs[n]);
      ServedFromIsCoherent(t, qs[..n], s);
      ServeKeepsCoherent(s, qs[n]);
      ServeFollows(s, qs[n], rid, p);
      assert forall i :: 0 <= i < n ==> qs[..n][..i] == qs[..i];
      PendingShotFreezes(t, qs[..n], s, rid, p);
      if p in t.games[rid] {
        FollowsIsTransitive(t.games[rid][p], s.games[rid][p], u.games[rid][p]);
      }
    }
  }
}
