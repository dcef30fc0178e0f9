/** The single-process server itself: its tables, with the running games as
    mutable player states, and its handlers, each proved to change the tables
    exactly as the rules say. */
module Mono {
  import opened Wrappers
  import opened Boards
  import opened Rules
  import opened Matches
  import opened MonoRules
  import opened Scheduler

  type GameTable = map<Rid, States>

  ghost function AllObjects(table: GameTable): set<object> {
    set r, p | r in table && p in table[r] :: table[r][p]
  }

  ghost function AllBoards(table: GameTable): set<object>
    reads AllObjects(table)
  {
    set r, p | r in table && p in table[r] :: table[r][p].Board
  }

  /** No two players, of one room or of different rooms, share anything. */
  ghost predicate Apart(table: GameTable)
    reads AllObjects(table)
  {
    forall r, s, p, q :: r in table && s in table && r != s && p in table[r] && q in table[s] ==>
      table[r][p] != table[s][q] && table[r][p].Board != table[s][q].Board
  }

  ghost predicate TableGridded(table: GameTable)
    reads AllObjects(table), AllBoards(table)
  {
    Apart(table) && forall r :: r in table ==> Gridded(table[r])
  }

  ghost function GamesOf(table: GameTable): (g: map<Rid, map<Pid, Game>>)
    requires TableGridded(table)
    reads AllObjects(table), AllBoards(table)
    ensures g.Keys == table.Keys
  {
    map r | r in table :: Games(table[r])
  }

  twostate lemma TableUnchanged(table: GameTable)
    requires old(TableGridded(table))
    requires forall r, p :: r in table && p in table[r] ==> unchanged(table[r][p]) && unchanged(table[r][p].Board)
    ensures TableGridded(table) && GamesOf(table) == old(GamesOf(table))
  {
    hide Gridded, Games;
    forall r | r in table ensures Gridded(table[r]) && Games(table[r]) == old(Games(table[r])) {
      GamesUnchanged(table[r]);
    }
  }

  lemma DropGames(table: GameTable, rid: Rid)
    requires TableGridded(table)
    ensures TableGridded(table - {rid}) && GamesOf(table - {rid}) == GamesOf(table) - {rid}
  {
    hide Games;
  }

  lemma InsertGames(table: GameTable, rid: Rid, states: States)
    requires TableGridded(table) && Gridded(states)
    requires forall r, p, q :: r in table && p in table[r] && q in states ==>
               table[r][p] != states[q] && table[r][p].Board != states[q].Board
    ensures TableGridded(table[rid := states]) && GamesOf(table[rid := states]) == GamesOf(table)[rid := Games(states)]
  {
    hide Games, Gridded, Apart;
    InsertApart(table, rid, states);
  }

  lemma InsertApart(table: GameTable, rid: Rid, states: States)
    requires Apart(table) && Gridded(states)
    requires forall r, p, q :: r in table && p in table[r] && q in states ==>
               table[r][p] != states[q] && table[r][p].Board != states[q].Board
    ensures Apart(table[rid := states])
  {
  }

  /** Sorts the members with a game into those still in and a count of losers. */
  method CountOutcome(members: set<Pid>, states: States, ghost games: map<Pid, Game>)
    returns (alive: seq<Pid>, losers: nat)
    requires Gridded(states) && Games(states) == games
    ensures |alive| == |Alive(members, games)| && forall p :: p in alive ==> p in Alive(members, games)
    ensures losers == |Losers(members, games)|
  {
    hide Alive, Losers, Gridded, Games;
    StatusesShown(states, games);
    NoneCounted(games);
    alive, losers := [], 0;
    var todo := members;
    ghost var done: set<Pid> := {};
    while todo != {}
      invariant done + todo == members && done !! todo
      invariant |alive| == |Alive(done, games)| && forall p :: p in alive ==> p in Alive(done, games)
      invariant losers == |Losers(done, games)|
    {
      var p :| p in todo;
      OneCounted(done, games, p);
      todo, done := todo - {p}, done + {p};
      if p in states {
        if states[p].Status == Lost {
          losers := losers + 1;
        } else {
          alive := alive + [p];
        }
      }
    }
    assert done == members;
  }

  /** The states of one room's match. */
  ghost function StatesOf(table: GameTable, rid: Rid): set<object> {
    if rid in table then Objects(table[rid]) else {}
  }

  lemma StatesInAll(table: GameTable, rid: Rid)
    ensures StatesOf(table, rid) <= AllObjects(table)
  {
  }

  lemma SilentListed(t: Tables, silent: seq<Pid>, now: int, timeout: int)
    requires forall p :: p in silent <==> p in t.lastHeard && now - t.lastHeard[p] > timeout
    ensures PidsOf(silent) == SilentSince(t, now, timeout)
  {
  }

  lemma SubTable(part: GameTable, table: GameTable)
    requires forall r :: r in part ==> r in table && part[r] == table[r]
    ensures AllObjects(part) <= AllObjects(table)
  {
  }

  /** The state of a player shows it as the winner. */
  ghost predicate Crowned(states: States, p: Pid)
    reads if p in states then {states[p]} else {}
  {
    p in states && states[p].Status == Won
  }

  ghost function PidsOf(s: seq<Pid>): set<Pid> {
    set p | p in s
  }

  lemma NoExits(t: Tables)
    ensures Swept(t, []) == t && Exiting([]) == {}
  {
  }

  lemma OneMoreExit(t: Tables, exits: seq<Exit>, pid: Pid, heir: Pid)
    ensures var u := Swept(t, exits);
            Swept(t, exits + [Exit(pid, heir)]) == AfterLeaving(u, pid, heir).(lastHeard := u.lastHeard - {pid})
    ensures Exiting(exits + [Exit(pid, heir)]) == Exiting(exits) + {pid}
  {
    hide AfterLeaving;
    assert (exits + [Exit(pid, heir)])[..|exits|] == exits;
  }

  lemma OwnerIsMember(t: Tables)
    requires Coherent(t)
    ensures forall r :: r in t.rooms ==> t.rooms[r].owner in t.rooms[r].members
  {
    hide HomesOk, TablesAgree, MatchesOk;
  }

  datatype Reply = Done | NotFound | Forbidden | Conflict

  class Server {
    var rooms: map<Rid, Room>
    var playerRoom: map<Pid, Rid>
    var gameStates: GameTable
    var roomTickets: map<Rid, map<Pid, string>>
    var roomNextAdd: map<Rid, int>
    var lastHB: map<Pid, int>

    constructor ()
      ensures gameStates == map[] && Value() == EMPTY_TABLES && Valid()
    {
      rooms, playerRoom, gameStates, roomTickets, roomNextAdd, lastHB := map[], map[], map[], map[], map[], map[];
    }

    ghost predicate Valid()
      reads this, AllObjects(gameStates), AllBoards(gameStates)
    {
      TableGridded(gameStates) && Coherent(Value())
    }

    ghost function Value(): Tables
      requires TableGridded(gameStates)
      reads this, AllObjects(gameStates), AllBoards(gameStates)
    {
      Tables(rooms, playerRoom, GamesOf(gameStates), roomTickets, roomNextAdd, lastHB)
    }

    /** Takes the games, tickets and deadline of a room out of the tables. */
    method DropMatch(rid: Rid)
      requires TableGridded(gameStates)
      modifies this`gameStates, this`roomTickets, this`roomNextAdd
      ensures TableGridded(gameStates) && gameStates == old(gameStates) - {rid}
      ensures var t := old(Value());
              Value() == t.(games := t.games - {rid}, tickets := t.tickets - {rid}, nextAdd := t.nextAdd - {rid})
    {
      DropGames(gameStates, rid);
      hide TableGridded, GamesOf, AllObjects, AllBoards;
      gameStates := gameStates - {rid};
      roomTickets := roomTickets - {rid};
      roomNextAdd := roomNextAdd - {rid};
      TableUnchanged(gameStates);
    }

    /** Writes the room and player tables only. */
    method SetRooms(newRooms: map<Rid, Room>, newHomes: map<Pid, Rid>)
      requires TableGridded(gameStates)
      modifies this`rooms, this`playerRoom
      ensures TableGridded(gameStates)
      ensures Value() == old(Value()).(rooms := newRooms, playerRoom := newHomes)
    {
      hide TableGridded, GamesOf, AllObjects, AllBoards;
      rooms, playerRoom := newRooms, newHomes;
      TableUnchanged(gameStates);
    }

    /** The winner, if any, when a running match is left with one member. */
    method LastStanding(members: set<Pid>, rid: Rid) returns (winner: Option<Pid>)
      requires TableGridded(gameStates) && |members| <= 1
      ensures winner == AnyOf(Alive(members, GamesIn(Value(), rid)))
      ensures winner.Some? ==> rid in gameStates && winner.value in gameStates[rid]
    {
      winner := None;
      if members != {} && rid in gameStates {
        var remain :| remain in members;
        OnlyOne(members, remain);
        if remain in gameStates[rid] && gameStates[rid][remain].Status != Lost {
          winner := Some(remain);
          assert remain in Alive(members, GamesIn(Value(), rid));
        }
      }
    }

    /** Takes a player out of a room, and ends what cannot go on without it. The
        new owner is whichever member the iteration meets first. */
    method RemovePlayer(pid: Pid, rid: Rid) returns (ghost heir: Pid)
      requires TableGridded(gameStates)
      modifies this, StatesOf(gameStates, rid)
      ensures TableGridded(gameStates) && Value() == Remove(old(Value()), pid, rid, heir)
      ensures forall r :: r in gameStates ==> r in old(gameStates) && gameStates[r] == old(gameStates[r])
      ensures lastHB == old(lastHB)
      ensures rid in old(gameStates) && rid !in gameStates && rid in rooms && rooms[rid].winner.Some? ==>
                Crowned(old(gameStates)[rid], rooms[rid].winner.value)
    {
      hide TableGridded, GamesOf, AllObjects, AllBoards, GamesIn, Alive, Crowned;
      heir := pid;
      if rid !in rooms {
        SetRooms(rooms, playerRoom - {pid});
        return;
      }
      var room := rooms[rid];
      var members := room.members - {pid};
      if |members| == 0 {
        SetRooms(rooms - {rid}, playerRoom - {pid});
        DropMatch(rid);
        return;
      }
      heir := RemoveKeepingRoom(pid, rid, room, members);
    }

    method RemoveKeepingRoom(pid: Pid, rid: Rid, room: Room, members: set<Pid>) returns (ghost heir: Pid)
      requires TableGridded(gameStates)
      requires rid in rooms && room == rooms[rid] && members == room.members - {pid} && members != {}
      modifies this, StatesOf(gameStates, rid)
      ensures TableGridded(gameStates) && Value() == Remove(old(Value()), pid, rid, heir)
      ensures forall r :: r in gameStates ==> r in old(gameStates) && gameStates[r] == old(gameStates[r])
      ensures lastHB == old(lastHB) && rid in rooms
      ensures rid in old(gameStates) && rid !in gameStates && rooms[rid].winner.Some? ==>
                Crowned(old(gameStates)[rid], rooms[rid].winner.value)
    {
      hide TableGridded, GamesOf, AllObjects, AllBoards, GamesIn, Alive, Remove, Crowned;
      ghost var t := Value();
      heir := pid;
      var winner := room.winner;
      var ended := room.playing && |members| <= 1;
      if ended {
        winner := LastStanding(members, rid);
        TableUnchanged(gameStates);
      }
      var owner := room.owner;
      if room.owner == pid {
        var np :| np in members;
        owner, heir := np, np;
      }
      var left := Room(room.name, owner, room.playing && !ended, winner, room.max, members);
      RemoveLeavesSome(t, pid, rid, heir, left);
      SetRooms(rooms[rid := left], playerRoom - {pid});
      if ended {
        Abandon(rid, winner);
      }
    }

    /** Ends a match that its players have left; whoever is the last and has not
        lost is shown as its winner. */
    method Abandon(rid: Rid, winner: Option<Pid>)
      requires TableGridded(gameStates)
      requires winner.Some? ==> rid in gameStates && winner.value in gameStates[rid]
      modifies this`gameStates, this`roomTickets, this`roomNextAdd, StatesOf(gameStates, rid)
      ensures TableGridded(gameStates) && gameStates == old(gameStates) - {rid}
      ensures winner.Some? ==> Crowned(old(gameStates)[rid], winner.value)
      ensures var t := old(Value());
              Value() == t.(games := t.games - {rid}, tickets := t.tickets - {rid}, nextAdd := t.nextAdd - {rid})
    {
      if winner.None? {
        DropMatch(rid);
        return;
      }
      var st := gameStates[rid][winner.value];
      ghost var others := gameStates - {rid};
      SplitRoom(gameStates, rid);
      hide TableGridded, GamesOf, AllObjects, AllBoards, Gridded, Games;
      DropMatch(rid);
      label dropped:
      st.Status := Won;
      TableUnchanged@dropped(others);
    }

    method CreateRoom(pid: Pid, name: string, maxPlayers: int, rid: Rid) returns (ghost heir: Pid)
      requires Valid() && rid !in rooms
      modifies this, AllObjects(gameStates)
      ensures Valid() && Value() == MonoRules.CreateRoom(old(Value()), pid, name, maxPlayers, rid, heir)
      ensures pid in playerRoom && playerRoom[pid] == rid && rid in rooms
      ensures rooms[rid] == Room(if name == "" then "Room" else name, pid, false, None,
                                 if maxPlayers < 2 then 2 else if maxPlayers > 8 then 8 else maxPlayers, {pid})
    {
      hide TableGridded, GamesOf, Coherent, Remove, AllObjects, AllBoards;
      ghost var t := Value();
      var max := maxPlayers;
      if max < 2 {
        max := 2;
      }
      if max > 8 {
        max := 8;
      }
      heir := pid;
      if pid in playerRoom {
        StatesInAll(gameStates, playerRoom[pid]);
        heir := RemovePlayer(pid, playerRoom[pid]);
      }
      SetRooms(rooms[rid := Room(NameOf(name), pid, false, None, max, {pid})], playerRoom[pid := rid]);
      CreateKeepsCoherent(t, pid, name, maxPlayers, rid, heir);
    }

    method HandleJoin(pid: Pid, rid: Rid) returns (reply: Reply)
      requires Valid()
      modifies this
      ensures Valid() && Value() == JoinRoom(old(Value()), pid, rid)
      ensures reply == NotFound <==> rid !in old(rooms)
      ensures reply == Conflict <==>
              rid in old(rooms) && pid !in old(rooms)[rid].members && |old(rooms)[rid].members| >= old(rooms)[rid].max
      ensures reply in {Done, NotFound, Conflict}
      ensures if reply == Done && pid !in old(rooms)[rid].members then
                && playerRoom == old(playerRoom)[pid := rid]
                && rooms == old(rooms)[rid := old(rooms)[rid].(members := old(rooms)[rid].members + {pid})]
              else rooms == old(rooms) && playerRoom == old(playerRoom)
    {
      JoinKeepsCoherent(Value(), pid, rid);
      hide TableGridded, GamesOf, Coherent, AllObjects, AllBoards;
      if rid !in rooms {
        return NotFound;
      }
      var room := rooms[rid];
      if pid in room.members {
        return Done;
      }
      if |room.members| >= room.max {
        return Conflict;
      }
      SetRooms(rooms[rid := room.(members := room.members + {pid})], playerRoom[pid := rid]);
      return Done;
    }

    method HandleLeave(pid: Pid) returns (ghost heir: Pid)
      requires Valid()
      modifies this, AllObjects(gameStates)
      ensures Valid() && Value() == AfterLeaving(old(Value()), pid, heir) && lastHB == old(lastHB)
      ensures forall r :: r in gameStates ==> r in old(gameStates) && gameStates[r] == old(gameStates[r])
    {
      hide TableGridded, GamesOf, Coherent, Remove, AllObjects, AllBoards;
      ghost var t := Value();
      heir := pid;
      if pid in playerRoom {
        StatesInAll(gameStates, playerRoom[pid]);
        heir := RemovePlayer(pid, playerRoom[pid]);
      }
      AfterLeavingKeepsCoherent(t, pid, heir);
    }

    /** Writes the table of last signs of life only. */
    method SetHeard(heard: map<Pid, int>)
      requires TableGridded(gameStates)
      modifies this`lastHB
      ensures TableGridded(gameStates) && Value() == old(Value()).(lastHeard := heard)
    {
      hide TableGridded, GamesOf, AllObjects, AllBoards;
      lastHB := heard;
      TableUnchanged(gameStates);
    }

    /** A connection to a room: only for a player at home there, and while the
        room plays only with the ticket of the match. */
    method HandleConnect(pid: Pid, rid: Rid, ticket: string, at: int) returns (ok: bool)
      requires Valid()
      modifies this`lastHB
      ensures Valid() && Value() == Connected(old(Value()), pid, rid, ticket, at)
      ensures ok <==>
              && pid in playerRoom && playerRoom[pid] == rid
              && (rid in rooms && rooms[rid].playing && rid in roomTickets ==>
                    pid in roomTickets[rid] && roomTickets[rid][pid] == ticket && ticket != "")
      ensures lastHB == if ok then old(lastHB)[pid := at] else old(lastHB)
    {
      ConnectingKeepsCoherent(Value(), pid, rid, ticket, at);
      hide TableGridded, GamesOf, Coherent, AllObjects, AllBoards;
      if pid !in playerRoom || playerRoom[pid] != rid {
        return false;
      }
      if rid in rooms && rooms[rid].playing && rid in roomTickets {
        var held := if pid in roomTickets[rid] then roomTickets[rid][pid] else "";
        if held == "" || held != ticket {
          return false;
        }
      }
      SetHeard(lastHB[pid := at]);
      return true;
    }

    /** Any message that is not about the game, a heartbeat for one. */
    method HandleBeat(pid: Pid, at: int)
      requires Valid()
      modifies this`lastHB
      ensures Valid() && Value() == Noted(old(Value()), pid, at) && lastHB == old(lastHB)[pid := at]
    {
      NotingKeepsCoherent(Value(), pid, at);
      hide TableGridded, GamesOf, Coherent, AllObjects, AllBoards;
      SetHeard(lastHB[pid := at]);
    }

    /** Collects the players not heard from for too long, in any order. */
    method CollectSilent(now: int, timeout: int) returns (silent: seq<Pid>)
      ensures forall p :: p in silent <==> p in lastHB && now - lastHB[p] > timeout
    {
      silent := [];
      var todo := lastHB.Keys;
      while todo != {}
        invariant todo <= lastHB.Keys
        invariant forall p :: p in silent <==> p in lastHB && p !in todo && now - lastHB[p] > timeout
      {
        var p :| p in todo;
        todo := todo - {p};
        if now - lastHB[p] > timeout {
          silent := silent + [p];
        }
      }
    }

    /** What a sweep has made of the tables t after the given exits. */
    ghost predicate SweptSo(t: Tables, exits: seq<Exit>)
      reads this, AllObjects(gameStates), AllBoards(gameStates)
    {
      Valid() && Value() == Swept(t, exits)
    }

    method SweepOne(pid: Pid, ghost t: Tables, ghost exits: seq<Exit>) returns (ghost more: seq<Exit>)
      requires SweptSo(t, exits)
      modifies this, AllObjects(gameStates)
      ensures SweptSo(t, more) && Exiting(more) == Exiting(exits) + {pid}
      ensures AllObjects(gameStates) <= old(AllObjects(gameStates))
    {
      ghost var table := gameStates;
      hide TableGridded, GamesOf, Coherent, AllObjects, AllBoards, AfterLeaving, Exiting, Swept;
      ghost var heir := HandleLeave(pid);
      SubTable(gameStates, table);
      more := exits + [Exit(pid, heir)];
      OneMoreExit(t, exits, pid, heir);
      ForgettingKeepsCoherent(Value(), lastHB - {pid});
      SetHeard(lastHB - {pid});
    }

    /** Removes every player not heard from for too long from its room, and
        forgets it. */
    method HeartbeatSweep(now: int, configured: int) returns (ghost exits: seq<Exit>)
      requires Valid()
      modifies this, AllObjects(gameStates)
      ensures Valid() && Value() == Swept(old(Value()), exits)
      ensures Exiting(exits) == SilentSince(old(Value()), now, TimeoutOf(configured))
      ensures forall p :: p in Exiting(exits) <==>
                p in old(lastHB) && now - old(lastHB)[p] > if configured <= 0 then 5000 else configured
    {
      ghost var t := Value();
      hide Coherent, Swept, Exiting, AllObjects, AllBoards, TableGridded, GamesOf, SilentSince;
      var toLeave := FindSilent(now, TimeoutOf(configured));
      exits := SweepEach(toLeave, t);
    }

    method FindSilent(now: int, timeout: int) returns (silent: seq<Pid>)
      requires Valid()
      ensures SweptSo(old(Value()), []) && PidsOf(silent) == SilentSince(old(Value()), now, timeout)
    {
      hide TableGridded, GamesOf, Coherent, Swept, AllObjects, AllBoards;
      silent := CollectSilent(now, timeout);
      TableUnchanged(gameStates);
      NoExits(Value());
      SilentListed(Value(), silent, now, timeout);
    }

    method SweepEach(toLeave: seq<Pid>, ghost t: Tables) returns (ghost exits: seq<Exit>)
      requires SweptSo(t, [])
      modifies this, AllObjects(gameStates)
      ensures SweptSo(t, exits) && Exiting(exits) == PidsOf(toLeave)
    {
      hide SweptSo, Exiting, AllObjects, AllBoards;
      exits := [];
      NoExits(t);
      for i := 0 to |toLeave|
        invariant SweptSo(t, exits) && Exiting(exits) == PidsOf(toLeave[..i])
        invariant AllObjects(gameStates) <= old(AllObjects(gameStates))
      {
        exits := SweepOne(toLeave[i], t, exits);
        assert PidsOf(toLeave[..i + 1]) == PidsOf(toLeave[..i]) + {toLeave[i]};
      }
      assert toLeave[..|toLeave|] == toLeave;
    }

    method HandleStart(pid: Pid, rid: Rid, now: nat, rand: Pid -> Deal, randHex: Pid -> string)
      returns (reply: Reply, ticket: string)
      requires Valid()
      modifies this
      ensures Valid() && Value() == BeginMatch(old(Value()), pid, rid, now, p => InitialGame(rand(p)), randHex)
      ensures reply == NotFound <==> rid !in old(rooms)
      ensures reply == Forbidden <==> rid in old(rooms) && old(rooms)[rid].owner != pid
      ensures reply == Done <==>
              rid in old(rooms) && old(rooms)[rid].owner == pid && |old(rooms)[rid].members| >= 2
      ensures reply == Done ==>
                && ticket == randHex(pid) && rid in rooms && rooms[rid].playing && rooms[rid].winner == None
                && rid in gameStates && gameStates[rid].Keys == old(rooms)[rid].members
                && rid in roomTickets && roomTickets[rid] == (map p | p in old(rooms)[rid].members :: randHex(p))
                && rid in roomNextAdd && roomNextAdd[rid] == now + 10000
      ensures reply != Done ==> rooms == old(rooms) && gameStates == old(gameStates) && roomNextAdd == old(roomNextAdd)
    {
      hide TableGridded, GamesOf, Dealt, Coherent, InitialGame, Hands, AllObjects, AllBoards, Gridded, Games,
        BeginMatch;
      ticket := "";
      OwnerIsMember(Value());
      BeginAllowed(Value(), pid, rid, now, rand, randHex);
      Begins(Value(), pid, rid, now, p => InitialGame(rand(p)), randHex);
      if rid !in rooms {
        return NotFound, ticket;
      }
      var room := rooms[rid];
      if room.owner != pid {
        return Forbidden, ticket;
      }
      if |room.members| < 2 {
        return Conflict, ticket;
      }
      var states := DealAll(room.members, rand);
      TableUnchanged(gameStates);
      HandsAreDealt(room.members, rand);
      var tickets := map p | p in room.members :: randHex(p);
      OpenMatch(rid, room, states, tickets, now);
      return Done, tickets[pid];
    }

    method OpenMatch(rid: Rid, room: Room, states: States, tickets: map<Pid, string>, now: int)
      requires TableGridded(gameStates) && Gridded(states) && states.Keys == room.members
      requires forall r, p, q :: r in gameStates && p in gameStates[r] && q in states ==>
                 gameStates[r][p] != states[q] && gameStates[r][p].Board != states[q].Board
      modifies this
      ensures TableGridded(gameStates)
      ensures var t := old(Value());
              Value() == t.(rooms := t.rooms[rid := room.(playing := true, winner := None)],
                            games := t.games[rid := old(Games(states))],
                            tickets := t.tickets[rid := tickets],
                            nextAdd := t.nextAdd[rid := now + PERIOD])
      ensures rooms == old(rooms)[rid := room.(playing := true, winner := None)]
      ensures gameStates == old(gameStates)[rid := states] && roomTickets == old(roomTickets)[rid := tickets]
      ensures roomNextAdd == old(roomNextAdd)[rid := now + PERIOD]
    {
      InsertGames(gameStates, rid, states);
      hide TableGridded, GamesOf, AllObjects, AllBoards, Gridded, Games;
      rooms := rooms[rid := room.(playing := true, winner := None)];
      gameStates := gameStates[rid := states];
      roomTickets := roomTickets[rid := tickets];
      roomNextAdd := roomNextAdd[rid := now + PERIOD];
      TableUnchanged(gameStates);
    }

    /** Writes the final verdicts into the states of a match that has ended. */
    method MarkOutcome(states: States, winner: Pid)
      requires forall p, q :: p in states && q in states && p != q ==> states[p] != states[q]
      modifies Objects(states)
      ensures forall p :: p in states ==> !states[p].PendingShot && states[p].Moving == null
      ensures forall p :: p in states && p != winner ==> states[p].Status == Lost
      ensures winner in states && old(states[winner].Status) != Lost ==> states[winner].Status == Won
    {
      var todo := states.Keys;
      while todo != {}
        invariant todo <= states.Keys
        invariant forall p :: p in todo ==> states[p].Status == old(states[p].Status)
        invariant forall p :: p in states && p !in todo ==>
                    && !states[p].PendingShot && states[p].Moving == null
                    && states[p].Status ==
                       if p != winner then Lost else if old(states[p].Status) != Lost then Won else Lost
      {
        var p :| p in todo;
        var st := states[p];
        todo := todo - {p};
        st.Moving := null;
        st.PendingShot := false;
        if p == winner {
          if st.Status != Lost {
            st.Status := Won;
          }
          continue;
        }
        st.Status := Lost;
      }
    }

    /** Ends the match of a room once exactly one member is left in it: the
        tables forget the match, and its last states show the verdict. */
    method ResolveRoomOutcome(rid: Rid)
      requires TableGridded(gameStates)
      modifies this, StatesOf(gameStates, rid)
      ensures TableGridded(gameStates) && Value() == Outcome(old(Value()), rid) && lastHB == old(lastHB)
      ensures rid !in gameStates || gameStates == old(gameStates)
      ensures rid in old(gameStates) && rid !in gameStates ==>
                forall p :: p in old(gameStates)[rid] ==>
                  old(gameStates)[rid][p].Status == if rooms[rid].winner == Some(p) then Won else Lost
    {
      hide TableGridded, GamesOf, AllObjects, AllBoards, Alive, Losers, Gridded, Games;
      if rid !in rooms || !rooms[rid].playing || rid !in gameStates || |rooms[rid].members| < 2 {
        return;
      }
      var room, states := rooms[rid], gameStates[rid];
      ghost var games := GamesOf(gameStates)[rid];
      SplitRoom(gameStates, rid);
      StatusesShown(states, games);
      var alive, losers := CountOutcome(room.members, states, games);
      TableUnchanged(gameStates);
      SizeZero(Losers(room.members, games));
      if losers == 0 || |alive| != 1 {
        return;
      }
      SoleSurvivor(room.members, games, alive[0]);
      CloseMatch(rid, states, alive[0]);
    }

    method RecordWinner(rid: Rid, winner: Pid)
      requires TableGridded(gameStates) && rid in rooms
      modifies this
      ensures TableGridded(gameStates) && gameStates == old(gameStates) - {rid} && lastHB == old(lastHB)
      ensures Value() == EndMatch(old(Value()), rid, Some(winner)) && rid in rooms && rooms[rid].winner == Some(winner)
    {
      hide TableGridded, GamesOf, AllObjects, AllBoards;
      SetRooms(rooms[rid := rooms[rid].(playing := false, winner := Some(winner))], playerRoom);
      DropMatch(rid);
    }

    method CloseMatch(rid: Rid, states: States, winner: Pid)
      requires TableGridded(gameStates) && rid in rooms && rid in gameStates && states == gameStates[rid]
      requires winner in states && states[winner].Status != Lost
      modifies this, Objects(states)
      ensures TableGridded(gameStates) && rid !in gameStates && lastHB == old(lastHB)
      ensures Value() == EndMatch(old(Value()), rid, Some(winner)) && rid in rooms && rooms[rid].winner == Some(winner)
      ensures forall p :: p in states ==> states[p].Status == if p == winner then Won else Lost
    {
      hide TableGridded, GamesOf, AllObjects, AllBoards, Gridded, Games, EndMatch;
      SplitRoom(gameStates, rid);
      StatesAreDistinct(states);
      ghost var others := gameStates - {rid};
      RecordWinner(rid, winner);
      label closed:
      GamesUnchanged(states);
      MarkOutcome(states, winner);
      TableUnchanged@closed(others);
    }

    /** What a valid server's running rooms look like from inside. */
    lemma SoundRoom(rid: Rid)
      requires Valid()
      ensures InProtocol(Value())
      ensures rid in gameStates ==>
                && Sound(gameStates[rid]) && Games(gameStates[rid]) == Value().games[rid]
                && Objects(gameStates[rid]) <= AllObjects(gameStates)
                && BoardsOf(gameStates[rid]) <= AllBoards(gameStates)
    {
      CoherentIsInProtocol(Value());
      hide Coherent, Protocol;
      if rid in gameStates {
        SplitRoom(gameStates, rid);
        assert AllProtocol(Value().games[rid]);
        forall p | p in gameStates[rid] ensures Protocol(GameOf(gameStates[rid][p])) {
          assert Games(gameStates[rid])[p] == GameOf(gameStates[rid][p]);
        }
      }
    }

    /** Lets one player's state of a running room take a message. */
    method PlayRoom(rid: Rid, e: Event)
      requires TableGridded(gameStates) && rid in gameStates && Sound(gameStates[rid])
      requires IsMessage(e) && e.pid in gameStates[rid]
      modifies Objects(gameStates[rid]), BoardsOf(gameStates[rid])
      ensures TableGridded(gameStates) && gameStates == old(gameStates)
      ensures var t := old(Value());
              AllProtocol(t.games[rid]) && Value() == t.(games := t.games[rid := Played(t.games[rid], e)])
    {
      ghost var t := Value();
      ghost var others, states := gameStates - {rid}, gameStates[rid];
      SoundGames(states);
      SplitRoom(gameStates, rid);
      hide TableGridded, GamesOf, Gridded, Games;
      Scheduler.Receive(gameStates[rid], e);
      TableUnchanged(others);
      InsertGames(others, rid, states);
      DropThenPut(gameStates, rid, states);
      DropThenPut(t.games, rid, Played(t.games[rid], e));
    }

    method TickRoom(rid: Rid, now: int, draws: Pid -> Colour)
      requires TableGridded(gameStates) && rid in gameStates && Sound(gameStates[rid])
      modifies Objects(gameStates[rid]), BoardsOf(gameStates[rid])
      ensures TableGridded(gameStates) && gameStates == old(gameStates)
      ensures var t := old(Value());
              AllProtocol(t.games[rid]) && Value() == t.(games := t.games[rid := Ticked(t.games[rid], now, draws)])
    {
      ghost var t := Value();
      ghost var others, states := gameStates - {rid}, gameStates[rid];
      SoundGames(states);
      SplitRoom(gameStates, rid);
      hide TableGridded, GamesOf, Gridded, Games;
      Scheduler.TickAll(gameStates[rid], now, draws);
      TableUnchanged(others);
      InsertGames(others, rid, states);
      DropThenPut(gameStates, rid, states);
      DropThenPut(t.games, rid, Ticked(t.games[rid], now, draws));
    }

    method LayerGames(rid: Rid, deadline: int, now: int, tops: (Pid, nat) -> Layer) returns (next: int)
      requires TableGridded(gameStates) && rid in gameStates && Sound(gameStates[rid]) && gameStates[rid].Keys != {}
      modifies Objects(gameStates[rid])
      ensures TableGridded(gameStates)
      ensures var games := old(Value()).games;
              && Value() == old(Value()).(
                   games := games[rid := AllLayered(games[rid], tops, LayersNow(games[rid], deadline, now, tops))])
              && next == NextDeadline(games[rid], deadline, now, tops)
    {
      ghost var t := Value();
      ghost var others, states := gameStates - {rid}, gameStates[rid];
      SplitRoom(gameStates, rid);
      hide TableGridded, GamesOf, Gridded, Games, LayersNow, AllLayered, NextDeadline;
      next := Scheduler.MaybeAddTopLayer(gameStates[rid], deadline, now, tops);
      TableUnchanged(others);
      InsertGames(others, rid, states);
      DropThenPut(gameStates, rid, states);
      DropThenPut(t.games, rid, Games(states));
    }

    method SetDeadlines(deadlines: map<Rid, int>)
      requires TableGridded(gameStates)
      modifies this`roomNextAdd
      ensures TableGridded(gameStates) && Value() == old(Value()).(nextAdd := deadlines)
    {
      hide TableGridded, GamesOf, AllObjects, AllBoards;
      roomNextAdd := deadlines;
      TableUnchanged(gameStates);
    }

    /** One message of a player about its game: a sign of life, and ignored
        otherwise without a running game of its own. */
    method HandleMessage(rid: Rid, e: Event, at: int)
      requires Valid() && IsMessage(e)
      modifies this, AllObjects(gameStates), AllBoards(gameStates)
      ensures Valid() && InProtocol(old(Value())) && Value() == Incoming(old(Value()), rid, e, at)
      ensures lastHB == old(lastHB)[e.pid := at]
    {
      CoherentIsInProtocol(Value());
      hide TableGridded, GamesOf, Coherent, InProtocol, MonoRules.Receive, AllObjects, AllBoards;
      NotingKeepsProtocol(Value(), e.pid, at);
      HandleBeat(e.pid, at);
      PlayMessage(rid, e);
    }

    method PlayMessage(rid: Rid, e: Event)
      requires Valid() && IsMessage(e)
      modifies this, AllObjects(gameStates), AllBoards(gameStates)
      ensures Valid() && InProtocol(old(Value())) && Value() == MonoRules.Receive(old(Value()), rid, e)
      ensures lastHB == old(lastHB)
    {
      hide TableGridded, GamesOf, Coherent, InProtocol, Outcome, AllObjects, AllBoards, Objects, BoardsOf, Sound, Games;
      ghost var t := Value();
      ReceiveKeepsCoherent(t, rid, e);
      SoundRoom(rid);
      if rid !in gameStates || e.pid !in gameStates[rid] {
        return;
      }
      PlayRoom(rid, e);
      if e.Land? {
        ResolveRoomOutcome(rid);
      }
    }

    method MaybeAddTopLayerTo(rid: Rid, now: int, tops: (Pid, nat) -> Layer)
      requires Valid()
      modifies this`roomNextAdd, StatesOf(gameStates, rid)
      ensures TableGridded(gameStates) && Value() == Schedule(old(Value()), rid, now, tops)
    {
      hide TableGridded, GamesOf, Coherent, InProtocol, LayersNow, AllLayered, NextDeadline, AllObjects, AllBoards,
        Objects, BoardsOf, Sound, Games;
      SoundRoom(rid);
      if rid !in rooms || !rooms[rid].playing {
        SetDeadlines(roomNextAdd - {rid});
        return;
      }
      if rid !in gameStates || |gameStates[rid]| == 0 {
        return;
      }
      var nextAt := if rid in roomNextAdd then roomNextAdd[rid] else 0;
      var next := LayerGames(rid, nextAt, now, tops);
      SetDeadlines(roomNextAdd[rid := next]);
    }

    /** The poll of one player's connection: time passes for the room's games,
        the outcome is settled and due layers are added. Only then the poller's
        own game is copied: without one the handler panics, and its connection is
        gone, but what it did stays. */
    method BuildState(rid: Rid, pid: Pid, now: int, draws: Pid -> Colour, tops: (Pid, nat) -> Layer)
      returns (ok: bool, panics: bool)
      requires Valid()
      modifies this, AllObjects(gameStates), AllBoards(gameStates)
      ensures Valid() && InProtocol(old(Value())) && Value() == Poll(old(Value()), rid, now, draws, tops)
      ensures panics <==> rid in old(rooms) && rid in old(gameStates) && pid !in old(gameStates)[rid]
      ensures ok <==> rid in old(rooms) && !panics
    {
      hide TableGridded, GamesOf, Coherent, InProtocol, Outcome, Schedule, AllObjects, AllBoards, Objects, BoardsOf,
        Sound, Games;
      ghost var t := Value();
      PollKeepsCoherent(t, rid, now, draws, tops);
      SoundRoom(rid);
      if rid !in rooms {
        return false, false;
      }
      if rid !in gameStates {
        return true, false;
      }
      var states := gameStates[rid];
      TickRoom(rid, now, draws);
      ResolveRoomOutcome(rid);
      MaybeAddTopLayerTo(rid, now, tops);
      panics := pid !in states;
      ok := !panics;
    }
  }

  lemma SplitRoom(table: GameTable, rid: Rid)
    requires TableGridded(table) && rid in table
    ensures Gridded(table[rid]) && Games(table[rid]) == GamesOf(table)[rid]
    ensures TableGridded(table - {rid}) && GamesOf(table - {rid}) == GamesOf(table) - {rid}
    ensures forall r, p, q :: r in table && r != rid && p in table[r] && q in table[rid] ==>
              table[r][p] != table[rid][q] && table[r][p].Board != table[rid][q].Board
    ensures var others := table - {rid};
            forall r, p :: r in others && p in others[r] ==>
              others[r][p] !in Objects(table[rid]) && others[r][p].Board !in BoardsOf(table[rid])
  {
    hide Games;
  }

  lemma DropThenPut<V>(m: map<Rid, V>, rid: Rid, v: V)
    ensures (m - {rid})[rid := v] == m[rid := v]
    ensures rid in m ==> m[rid := m[rid]] == m
  {
  }

  lemma NoneCounted(games: map<Pid, Game>)
    ensures Alive({}, games) == {} && Losers({}, games) == {}
  {
  }

  lemma OneCounted(done: set<Pid>, games: map<Pid, Game>, p: Pid)
    requires p !in done
    ensures var stays, lost := p in games && games[p].status != Lost, p in games && games[p].status == Lost;
            && |Alive(done + {p}, games)| == |Alive(done, games)| + (if stays then 1 else 0)
            && |Losers(done + {p}, games)| == |Losers(done, games)| + (if lost then 1 else 0)
            && (stays ==> p in Alive(done + {p}, games))
    ensures Alive(done, games) <= Alive(done + {p}, games)
  {
    if p in games && games[p].status == Lost {
      assert Losers(done + {p}, games) == Losers(done, games) + {p};
      assert Alive(done + {p}, games) == Alive(done, games);
    } else if p in games {
      assert Alive(done + {p}, games) == Alive(done, games) + {p};
      assert Losers(done + {p}, games) == Losers(done, games);
    } else {
      assert Alive(done + {p}, games) == Alive(done, games);
      assert Losers(done + {p}, games) == Losers(done, games);
    }
  }

  lemma SizeZero(s: set<Pid>)
    ensures |s| == 0 <==> s == {}
  {
  }

  lemma SoleSurvivor(members: set<Pid>, games: map<Pid, Game>, w: Pid)
    requires |Alive(members, games)| == 1 && w in Alive(members, games)
    ensures AnyOf(Alive(members, games)) == Some(w)
    ensures w in games && games[w].status != Lost
  {
    OnlyOne(Alive(members, games), w);
  }

  lemma Begins(t: Tables, pid: Pid, rid: Rid, now: nat, deal: Pid -> Game, ticket: Pid -> string)
    ensures if rid in t.rooms && t.rooms[rid].owner == pid && |t.rooms[rid].members| >= 2 then
              var members := t.rooms[rid].members;
              BeginMatch(t, pid, rid, now, deal, ticket) ==
              t.(rooms := t.rooms[rid := t.rooms[rid].(playing := true, winner := None)],
                 games := t.games[rid := Hands(members, deal)],
                 tickets := t.tickets[rid := map p | p in members :: ticket(p)],
                 nextAdd := t.nextAdd[rid := now + PERIOD])
            else BeginMatch(t, pid, rid, now, deal, ticket) == t
  {
    hide Hands;
  }

  lemma HandsAreDealt(members: set<Pid>, rand: Pid -> Deal)
    ensures Hands(members, p => InitialGame(rand(p))) == map p | p in members :: InitialGame(rand(p))
  {
    hide InitialGame;
  }

  lemma OnlyOne(members: set<Pid>, remain: Pid)
    requires |members| <= 1 && remain in members
    ensures members == {remain}
  {
    assert |members - {remain}| == 0;
  }

  lemma BeginAllowed(t: Tables, pid: Pid, rid: Rid, now: nat, rand: Pid -> Deal, ticket: Pid -> string)
    requires Coherent(t)
    ensures Coherent(BeginMatch(t, pid, rid, now, p => InitialGame(rand(p)), ticket))
  {
    hide Coherent, InitialGame, Dealt, BeginMatch;
    forall p ensures Dealt(InitialGame(rand(p))) {
      InitialIsDealt(rand(p));
    }
    BeginKeepsCoherent(t, pid, rid, now, p => InitialGame(rand(p)), ticket);
  }
}
