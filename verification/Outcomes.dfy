/** When matches of the single-process server end, when its boards get layers and
    what a removal leaves, each stated of the tables alone. */
module Outcomes {
  import opened Wrappers
  import opened Boards
  import opened Rules
  import opened Matches
  import opened MonoRules

  /** Some member has lost, w has not, and nobody else with a game is still in. */
  ghost predicate Survives(members: set<Pid>, games: map<Pid, Game>, w: Pid) {
    && w in members && w in games && games[w].status != Lost
    && (exists l :: l in members && l in games && games[l].status == Lost)
    && forall p :: p in members && p in games && p != w ==> games[p].status == Lost
  }

  /** In this playing room w is the one survivor. */
  ghost predicate OneSurvivor(t: Tables, rid: Rid, w: Pid) {
    rid in t.rooms && t.rooms[rid].playing && rid in t.games && Survives(t.rooms[rid].members, t.games[rid], w)
  }

  /** The match of this room is decided, but goes on. */
  ghost predicate Overdue(t: Tables, rid: Rid) {
    exists w :: OneSurvivor(t, rid, w)
  }

  ghost function Ended(t: Tables, rid: Rid, w: Pid): Tables
    requires rid in t.rooms
  {
    t.(rooms := t.rooms[rid := t.rooms[rid].(playing := false, winner := Some(w))],
       games := t.games - {rid}, tickets := t.tickets - {rid}, nextAdd := t.nextAdd - {rid})
  }

  /** Settling the outcome ends exactly the matches with one survivor, whom it
      names, and touches no other. */
  lemma OutcomeIsExact(t: Tables, rid: Rid)
    ensures forall w :: OneSurvivor(t, rid, w) ==> Outcome(t, rid) == Ended(t, rid, w)
    ensures !Overdue(t, rid) ==> Outcome(t, rid) == t
  {
    forall w | OneSurvivor(t, rid, w) ensures Outcome(t, rid) == Ended(t, rid, w) {
      SurvivorDecides(t, rid, w);
    }
    if rid in t.rooms && rid in t.games && Decided(t.rooms[rid], t.games[rid]) {
      DecidedSurvives(t, rid);
    }
  }

  lemma SurvivorDecides(t: Tables, rid: Rid, w: Pid)
    requires OneSurvivor(t, rid, w)
    ensures Decided(t.rooms[rid], t.games[rid])
    ensures AnyOf(Alive(t.rooms[rid].members, t.games[rid])) == Some(w)
  {
    var members, games := t.rooms[rid].members, t.games[rid];
    var l :| l in members && l in games && games[l].status == Lost;
    assert l in Losers(members, games);
    assert Alive(members, games) == {w};
    assert {l, w} <= members && |{l, w}| == 2;
    SubsetSize({l, w}, members);
  }

  lemma SubsetSize<T>(s: set<T>, t: set<T>)
    requires s <= t
    ensures |s| <= |t|
  {
    assert t == s + (t - s);
  }

  lemma DecidedSurvives(t: Tables, rid: Rid)
    requires rid in t.rooms && rid in t.games && Decided(t.rooms[rid], t.games[rid])
    ensures Overdue(t, rid)
  {
    var members, games := t.rooms[rid].members, t.games[rid];
    var l :| l in Losers(members, games);
    var w :| w in Alive(members, games);
    assert |Alive(members, games) - {w}| == 0;
    forall p | p in members && p in games && p != w ensures games[p].status == Lost {
      assert p !in Alive(members, games) - {w};
    }
    assert OneSurvivor(t, rid, w);
  }

  lemma OutcomeSettles(t: Tables, rid: Rid)
    ensures !Overdue(Outcome(t, rid), rid)
  {
    OutcomeIsExact(t, rid);
    hide Outcome;
    if w :| OneSurvivor(t, rid, w) {
      assert Outcome(t, rid) == Ended(t, rid, w);
    }
  }

  /** After a landing of somebody in a match, no survivor is left waiting. */
  lemma LandingSettles(t: Tables, rid: Rid, e: Event)
    requires InProtocol(t) && e.Land? && rid in t.games && e.pid in t.games[rid]
    ensures !Overdue(Receive(t, rid, e), rid)
  {
    hide InProtocol, Outcome, Overdue, Played;
    ReceivedIs(t, rid, e);
    assert AllProtocol(t.games[rid]);
    OutcomeSettles(t.(games := t.games[rid := Played(t.games[rid], e)]), rid);
  }

  /** A poll of a running room, step by step. */
  lemma PollIs(t: Tables, rid: Rid, now: int, draws: Pid -> Colour, tops: (Pid, nat) -> Layer)
    requires InProtocol(t) && rid in t.rooms && rid in t.games
    ensures AllProtocol(t.games[rid])
    ensures var u := t.(games := t.games[rid := Ticked(t.games[rid], now, draws)]);
            Poll(t, rid, now, draws, tops) == Schedule(Outcome(u, rid), rid, now, tops)
  {
    hide Outcome, Schedule, Ticked, AllProtocol;
  }

  lemma ScheduleIs(t: Tables, rid: Rid, now: int, tops: (Pid, nat) -> Layer)
    requires IsPlaying(t, rid) && rid in t.games && t.games[rid].Keys != {} && rid in t.nextAdd
    ensures var u, games, nextAt := Schedule(t, rid, now, tops), t.games[rid], t.nextAdd[rid];
            && u.rooms == t.rooms && rid in u.games && rid in u.nextAdd
            && u.games[rid] == AllLayered(games, tops, LayersNow(games, nextAt, now, tops))
            && u.nextAdd[rid] == NextDeadline(games, nextAt, now, tops)
  {
    hide AllLayered, LayersNow, NextDeadline;
  }

  /** After a poll a survivor is left waiting only if this very poll added layers:
      it settles the outcome first. */
  lemma PollSettles(t: Tables, rid: Rid, now: int, draws: Pid -> Colour, tops: (Pid, nat) -> Layer)
    requires InProtocol(t) && Overdue(Poll(t, rid, now, draws, tops), rid) && rid in t.games && rid in t.nextAdd
    ensures var u := Poll(t, rid, now, draws, tops);
            rid in u.nextAdd && u.nextAdd[rid] > t.nextAdd[rid]
  {
    assert rid in t.rooms by { PollNeedsRoom(t, rid, now, draws, tops); }
    hide InProtocol, Outcome, Overdue, Ticked, AllProtocol, Poll, Schedule;
    PollIs(t, rid, now, draws, tops);
    var u := t.(games := t.games[rid := Ticked(t.games[rid], now, draws)]);
    var v := Outcome(u, rid);
    OutcomeSettles(u, rid);
    OutcomeKeepsDeadline(u, rid);
    ScheduleUnsettles(v, rid, now, tops);
  }

  lemma PollNeedsRoom(t: Tables, rid: Rid, now: int, draws: Pid -> Colour, tops: (Pid, nat) -> Layer)
    requires InProtocol(t) && Overdue(Poll(t, rid, now, draws, tops), rid)
    ensures rid in t.rooms
  {
    hide Ticked, Schedule, Outcome, AllProtocol;
  }

  lemma OutcomeKeepsDeadline(t: Tables, rid: Rid)
    ensures rid in Outcome(t, rid).nextAdd ==> rid in t.nextAdd && Outcome(t, rid).nextAdd[rid] == t.nextAdd[rid]
  {
    hide Decided, Alive;
  }

  lemma ScheduleUnsettles(t: Tables, rid: Rid, now: int, tops: (Pid, nat) -> Layer)
    requires !Overdue(t, rid) && Overdue(Schedule(t, rid, now, tops), rid)
    ensures var u := Schedule(t, rid, now, tops);
            rid in t.nextAdd && rid in u.nextAdd && u.nextAdd[rid] > t.nextAdd[rid]
  {
    hide CatchUp;
    var u := Schedule(t, rid, now, tops);
    var nextAt := if rid in t.nextAdd then t.nextAdd[rid] else 0;
    if rid in t.games && LayersNow(t.games[rid], nextAt, now, tops) == 0 {
      ZeroLayers(t.games[rid], tops);
      SameSurvivors(t, u, rid);
    }
    if rid !in t.games || !IsPlaying(t, rid) {
      SameSurvivors(t, u, rid);
    }
  }

  lemma SameSurvivors(t: Tables, u: Tables, rid: Rid)
    requires u.rooms == t.rooms && u.games.Keys == t.games.Keys && (rid in t.games ==> u.games[rid] == t.games[rid])
    ensures Overdue(u, rid) <==> Overdue(t, rid)
  {
    if w :| OneSurvivor(u, rid, w) {
      assert OneSurvivor(t, rid, w);
    }
    if w :| OneSurvivor(t, rid, w) {
      assert OneSurvivor(u, rid, w);
    }
  }

  /** And the next poll ends such a match, with that survivor as the winner. */
  lemma PollEndsOverdue(t: Tables, rid: Rid, w: Pid, now: int, draws: Pid -> Colour, tops: (Pid, nat) -> Layer)
    requires InProtocol(t) && OneSurvivor(t, rid, w)
    ensures var u := Poll(t, rid, now, draws, tops);
            && rid in u.rooms && !u.rooms[rid].playing && u.rooms[rid].winner == Some(w)
            && rid !in u.games && rid !in u.tickets && rid !in u.nextAdd
  {
    hide InProtocol, Outcome, Ticked, AllProtocol, Poll, LayersNow, NextDeadline;
    PollIs(t, rid, now, draws, tops);
    TicksOnly(t.games[rid], now, draws);
    var u := t.(games := t.games[rid := Ticked(t.games[rid], now, draws)]);
    var l :| l in t.rooms[rid].members && l in t.games[rid] && t.games[rid][l].status == Lost;
    assert u.games[rid][l].status == Lost;
    assert OneSurvivor(u, rid, w);
    OutcomeIsExact(u, rid);
  }

  /** This request settles the outcome of the room's match. */
  ghost predicate Settling(t: Tables, q: Request, rid: Rid) {
    rid in t.games &&
    ((q.PollRoom? && q.rid == rid) || (q.Deliver? && q.rid == rid && q.event.Land? && q.event.pid in t.games[rid]))
  }

  /** Over runs of the server: after a poll of a room or a landing in it, its match
      is not left running with one survivor, unless that poll has just added
      layers; and a match left so is over after the next poll, with that survivor
      as the winner. */
  lemma DecidedMatchesEnd(qs: seq<Request>, t: Tables, q: Request, rid: Rid)
    requires Served(qs, t) && Admissible(t, q) && Settling(t, q, rid)
    ensures InProtocol(t) && Served(qs + [q], Serve(t, q)) && rid in t.nextAdd
    ensures var u := Serve(t, q);
            Overdue(u, rid) ==> q.PollRoom? && rid in u.nextAdd && u.nextAdd[rid] > t.nextAdd[rid]
    ensures q.PollRoom? ==> forall w :: OneSurvivor(t, rid, w) ==>
              var u := Serve(t, q);
              rid in u.rooms && !u.rooms[rid].playing && u.rooms[rid].winner == Some(w) && rid !in u.games
  {
    hide Coherent, InProtocol, Admissible, Overdue, OneSurvivor, Poll, Receive, Serve, ServedFrom;
    EmptyServes(qs, t, q);
    ServedFromIsCoherent(EMPTY_TABLES, qs, t);
    ServedGoesOn(EMPTY_TABLES, qs, t, q);
    RunningRoom(t, rid);
    ServedByKind(t, q);
    if q.PollRoom? {
      if Overdue(Serve(t, q), rid) {
        PollSettles(t, rid, q.now, q.draws, q.tops);
      }
      forall w | OneSurvivor(t, rid, w)
        ensures var u := Serve(t, q);
                rid in u.rooms && !u.rooms[rid].playing && u.rooms[rid].winner == Some(w) && rid !in u.games
      {
        PollEndsOverdue(t, rid, w, q.now, q.draws, q.tops);
      }
    } else {
      NotingKeepsProtocol(t, q.event.pid, q.at);
      LandingSettles(Noted(t, q.event.pid, q.at), rid, q.event);
    }
  }

  lemma EmptyServes(qs: seq<Request>, t: Tables, q: Request)
    requires Served(qs, t)
    ensures ServedFrom(EMPTY_TABLES, qs, t) && Coherent(EMPTY_TABLES)
  {
    EmptyIsCoherent();
    hide ServedFrom, Coherent;
  }

  // ------------------------------------------------- what a removal leaves

  /** Nothing but room rid, its match and the home of pid differ. */
  ghost predicate OnlyRoom(t: Tables, u: Tables, pid: Pid, rid: Rid) {
    && u.playerRoom == t.playerRoom - {pid} && u.lastHeard == t.lastHeard
    && u.rooms - {rid} == t.rooms - {rid} && u.games - {rid} == t.games - {rid}
    && u.tickets - {rid} == t.tickets - {rid} && u.nextAdd - {rid} == t.nextAdd - {rid}
  }

  ghost predicate NoMatch(u: Tables, rid: Rid) {
    rid !in u.games && rid !in u.tickets && rid !in u.nextAdd
  }

  /** A member taken out of its home room: only that room and its match change.
      The last one out closes it; otherwise the owner stays unless it is the one
      to go, and a match that is left with one member ends, won by it if it has a
      game and has not lost. */
  lemma RemovalIsExact(t: Tables, pid: Pid, rid: Rid, heir: Pid)
    requires Coherent(t) && pid in t.playerRoom && t.playerRoom[pid] == rid
    ensures rid in t.rooms && OnlyRoom(t, Remove(t, pid, rid, heir), pid, rid)
    ensures var u, room := Remove(t, pid, rid, heir), t.rooms[rid];
            var rest := room.members - {pid};
            if rest == {} then rid !in u.rooms && NoMatch(u, rid)
            else
              && rid in u.rooms && u.rooms[rid].members == rest && u.rooms[rid].owner in rest
              && (pid != room.owner ==> u.rooms[rid].owner == room.owner)
              && u.rooms[rid].name == room.name && u.rooms[rid].max == room.max
              && if room.playing && |rest| == 1 then
                   && !u.rooms[rid].playing && NoMatch(u, rid)
                   && forall w :: w in rest ==>
                        u.rooms[rid].winner ==
                        if rid in t.games && w in t.games[rid] && t.games[rid][w].status != Lost then Some(w) else None
                 else
                   && u.rooms[rid].playing == room.playing && u.rooms[rid].winner == room.winner
                   && u.games == t.games && u.tickets == t.tickets && u.nextAdd == t.nextAdd
  {
    hide Coherent, OnlyRoom, NoMatch, Remove, RoomOk, Alive, AnyOf, GamesIn;
    HomeIsOk(t, pid);
    RemovalTouchesOne(t, pid, rid, heir);
    var rest := t.rooms[rid].members - {pid};
    if rest == {} {
      RemovalCloses(t, pid, rid, heir);
    } else {
      OwnerIsIn(t.rooms[rid]);
      RemovalKeepsRoom(t, pid, rid, heir);
      if t.rooms[rid].playing && |rest| == 1 {
        forall w | w in rest
          ensures Remove(t, pid, rid, heir).rooms[rid].winner ==
                  if rid in t.games && w in t.games[rid] && t.games[rid][w].status != Lost then Some(w) else None
        {
          RemovalWinner(t, pid, rid, heir, w);
        }
      }
    }
  }

  lemma OwnerIsIn(room: Room)
    requires RoomOk(room)
    ensures room.owner in room.members
  {
  }

  lemma RemovalTouchesOne(t: Tables, pid: Pid, rid: Rid, heir: Pid)
    requires rid in t.rooms
    ensures OnlyRoom(t, Remove(t, pid, rid, heir), pid, rid)
  {
    hide Alive, AnyOf, GamesIn, Successor;
  }

  lemma RemovalCloses(t: Tables, pid: Pid, rid: Rid, heir: Pid)
    requires rid in t.rooms && t.rooms[rid].members - {pid} == {}
    ensures rid !in Remove(t, pid, rid, heir).rooms && NoMatch(Remove(t, pid, rid, heir), rid)
  {
  }

  lemma RemovalKeepsRoom(t: Tables, pid: Pid, rid: Rid, heir: Pid)
    requires rid in t.rooms && t.rooms[rid].members - {pid} != {} && t.rooms[rid].owner in t.rooms[rid].members
    ensures var u, room := Remove(t, pid, rid, heir), t.rooms[rid];
            var rest := room.members - {pid};
            && rid in u.rooms && u.rooms[rid].members == rest && u.rooms[rid].owner in rest
            && (pid != room.owner ==> u.rooms[rid].owner == room.owner)
            && u.rooms[rid].name == room.name && u.rooms[rid].max == room.max
            && if room.playing && |rest| == 1 then !u.rooms[rid].playing && NoMatch(u, rid)
               else
                 && u.rooms[rid].playing == room.playing && u.rooms[rid].winner == room.winner
                 && u.games == t.games && u.tickets == t.tickets && u.nextAdd == t.nextAdd
  {
    hide Alive, AnyOf, GamesIn;
    assert |t.rooms[rid].members - {pid}| >= 1;
  }

  lemma RemovalWinner(t: Tables, pid: Pid, rid: Rid, heir: Pid, w: Pid)
    requires rid in t.rooms && t.rooms[rid].playing && w in t.rooms[rid].members - {pid}
    requires |t.rooms[rid].members - {pid}| == 1
    ensures rid in Remove(t, pid, rid, heir).rooms
    ensures Remove(t, pid, rid, heir).rooms[rid].winner ==
            if rid in t.games && w in t.games[rid] && t.games[rid][w].status != Lost then Some(w) else None
  {
    hide Alive, AnyOf;
    LastOne(t.rooms[rid].members - {pid}, w, GamesIn(t, rid));
  }

  lemma LastOne(members: set<Pid>, w: Pid, games: map<Pid, Game>)
    requires |members| == 1 && w in members
    ensures AnyOf(Alive(members, games)) == if w in games && games[w].status != Lost then Some(w) else None
  {
    assert |members - {w}| == 0;
    assert members == {w};
  }

  // ------------------------------------------------- when boards get layers

  /** Nothing but time has passed for these games, if n is 0, and otherwise every
      board has got n layers and nothing else. */
  ghost predicate Layered17(games: map<Pid, Game>, after: map<Pid, Game>, n: nat, now: int) {
    && after.Keys == games.Keys
    && (n == 0 ==> forall p :: p in games ==> after[p] == games[p].(lastTick := now))
    && forall p :: p in games ==> Bubbles(after[p].board) == Bubbles(games[p].board) + 17 * n
  }

  ghost predicate AllPlayIdly(games: map<Pid, Game>) {
    games.Keys != {} &&
    forall p :: p in games ==> games[p].status == Playing && games[p].moving == None && !games[p].pending
  }

  ghost predicate SomebodyStopped(games: map<Pid, Game>) {
    exists p :: p in games && games[p].status != Playing
  }

  /** The poll that finds the deadline passed and everybody playing and idle adds
      the same number of layers to every board, at least one, each moving the
      deadline by ten seconds, until it is ahead of the clock or some board has
      reached its last row; before the deadline no poll adds any. */
  lemma PollAddsDueLayers(t: Tables, rid: Rid, now: int, draws: Pid -> Colour, tops: (Pid, nat) -> Layer)
    returns (n: nat)
    requires Coherent(t) && rid in t.games && AllPlayIdly(t.games[rid])
    ensures InProtocol(t) && rid in t.nextAdd
    ensures var u := Poll(t, rid, now, draws, tops);
            && rid in u.games && rid in u.nextAdd && Layered17(t.games[rid], u.games[rid], n, now)
            && u.nextAdd[rid] == t.nextAdd[rid] + 10000 * n
            && (n > 0 <==> t.nextAdd[rid] <= now)
            && (n > 0 ==> now < u.nextAdd[rid] || SomebodyStopped(u.games[rid]))
  {
    hide Coherent, InProtocol, Outcome, Schedule, Poll, Ticked, AllProtocol, AllLayered, LayersNow, NextDeadline,
      Backed, AllPlayIdly, SomebodyStopped, Layered17;
    CoherentIsInProtocol(t);
    RunningRoom(t, rid);
    RunningIsARoom(t);
    PlaysOn(t, rid);
    PollIs(t, rid, now, draws, tops);
    var u := t.(games := t.games[rid := Ticked(t.games[rid], now, draws)]);
    NobodyLost(t, u, rid, now, draws);
    ScheduleIs(u, rid, now, tops);
    TickIsBacked(t.games[rid], t.nextAdd[rid], now, draws);
    AllTicked(t.games[rid], now, draws);
    n := BackedLayers(u.games[rid], t.nextAdd[rid], now, tops);
    TickedGames(t.games[rid], Poll(t, rid, now, draws, tops).games[rid], n, now, draws);
  }

  lemma PlaysOn(t: Tables, rid: Rid)
    requires Coherent(t) && rid in t.games
    ensures IsPlaying(t, rid)
  {
    hide RoomsOk, HomesOk, MatchesOk;
  }

  /** With everybody playing a tick decides nothing. */
  lemma NobodyLost(t: Tables, u: Tables, rid: Rid, now: int, draws: Pid -> Colour)
    requires rid in t.games && AllProtocol(t.games[rid]) && AllPlayIdly(t.games[rid])
    requires u == t.(games := t.games[rid := Ticked(t.games[rid], now, draws)])
    ensures Outcome(u, rid) == u && AllPlayIdly(u.games[rid]) && u.games[rid].Keys != {}
  {
    hide Ticked, AllProtocol, Outcome;
    TicksOnly(t.games[rid], now, draws);
    OutcomeIsExact(u, rid);
    assert !Overdue(u, rid);
  }

  lemma AllTicked(games: map<Pid, Game>, now: int, draws: Pid -> Colour)
    requires AllProtocol(games)
    ensures forall p :: p in Ticked(games, now, draws) ==> Ticked(games, now, draws)[p].lastTick == now
  {
    hide Ticked, AllProtocol;
    TicksOnly(games, now, draws);
  }

  lemma TickedGames(games: map<Pid, Game>, after: map<Pid, Game>, n: nat, now: int, draws: Pid -> Colour)
    requires AllProtocol(games)
    requires Layered17(Ticked(games, now, draws), after, n, now)
    ensures Layered17(games, after, n, now)
  {
    hide Ticked, AllProtocol, Bubbles;
    TicksOnly(games, now, draws);
  }

  /** The layers and the deadline of a running match, from its match machine. */
  lemma BackedLayers(games: map<Pid, Game>, nextAt: int, now: int, tops: (Pid, nat) -> Layer) returns (n: nat)
    requires Backed(games, nextAt) && AllPlayIdly(games)
    requires forall p :: p in games ==> games[p].lastTick == now
    ensures var after := AllLayered(games, tops, LayersNow(games, nextAt, now, tops));
            var next := NextDeadline(games, nextAt, now, tops);
            && Layered17(games, after, n, now) && next == nextAt + 10000 * n && (n > 0 <==> nextAt <= now)
            && (n > 0 ==> now < next || SomebodyStopped(after))
  {
    hide Consistent, Reachable, AllPlayIdly, SomebodyStopped, Layered17;
    var m :| Running(games, nextAt, m);
    ReachableIsConsistent(m);
    n := MatchLayers(m, now, tops);
    DueLayersAre(m, now, tops);
  }

  lemma DueLayersAre(m: Match, now: int, tops: (Pid, nat) -> Layer)
    ensures var k := AddDueLayers(m, now, tops);
            && k.games == AllLayered(m.games, tops, LayersNow(m.games, m.nextAt, now, tops))
            && k.nextAt == NextDeadline(m.games, m.nextAt, now, tops)
  {
    hide AllLayered, LayersNow, NextDeadline;
  }

  lemma MatchLayers(m: Match, now: int, tops: (Pid, nat) -> Layer) returns (n: nat)
    requires Consistent(m) && AllPlayIdly(m.games) && forall p :: p in m.games ==> m.games[p].lastTick == now
    ensures var k := AddDueLayers(m, now, tops);
            && Layered17(m.games, k.games, n, now) && k.nextAt == m.nextAt + 10000 * n
            && (n > 0 <==> m.nextAt <= now)
            && (n > 0 ==> now < k.nextAt || SomebodyStopped(k.games))
  {
    hide Consistent, Bubbles, AddDueLayers;
    DueLayersGoOn(m, now, tops);
    n := AddDueLayers(m, now, tops).layers - m.layers;
  }

  /** Among the members with a game exactly w is not pushed to the last row by n
      layers, and there is another. */
  ghost predicate AloneAfter(members: set<Pid>, games: map<Pid, Game>, w: Pid, n: nat) {
    && w in members && w in games && Deepest(games[w].board) + n < 13
    && (exists l :: l in members && l in games && l != w)
    && forall p :: p in members && p in games && p != w ==> Deepest(games[p].board) + n == 13
  }

  /** How many layers a poll adds: none unless everybody is playing and idle, and
      otherwise one for every passed deadline, or as many as the deepest board takes
      to reach its last row, whichever is less. */
  ghost predicate LayersDue(games: map<Pid, Game>, nextAt: int, now: int, n: nat) {
    if !AllPlayIdly(games) || now < nextAt then n == 0
    else
      var due := (now - nextAt) / 10000 + 1;
      && 0 < n <= due && (forall p :: p in games ==> Deepest(games[p].board) + n <= 13)
      && (n == due || exists p :: p in games && Deepest(games[p].board) + n == 13)
  }

  /** A poll leaves a survivor waiting exactly if the layers it adds push every
      other board to its last row. */
  lemma PollLeavesOverdueIff(t: Tables, rid: Rid, now: int, draws: Pid -> Colour, tops: (Pid, nat) -> Layer)
    returns (n: nat)
    requires Coherent(t) && rid in t.games
    ensures InProtocol(t) && rid in t.nextAdd && rid in t.rooms && LayersDue(t.games[rid], t.nextAdd[rid], now, n)
    ensures Overdue(Poll(t, rid, now, draws, tops), rid) <==>
            n > 0 && exists w :: AloneAfter(t.rooms[rid].members, t.games[rid], w, n)
  {
    hide Coherent, InProtocol, Poll, Backed, Overdue, AloneAfter, AllPlayIdly;
    CoherentIsInProtocol(t);
    RunningRoom(t, rid);
    RunningIsARoom(t);
    PlaysOn(t, rid);
    if AllPlayIdly(t.games[rid]) && t.nextAdd[rid] <= now {
      n := PollLayers(t, rid, now, draws, tops);
      var u := Poll(t, rid, now, draws, tops);
      OverdueIsLeft(u, rid);
      AloneIffLeft(t.rooms[rid].members, t.games[rid], u.games[rid], n);
    } else {
      n := 0;
      DeadlineIsSet(t, rid);
      IdlePollSettles(t, rid, now, draws, tops);
    }
  }

  lemma OverdueIsLeft(u: Tables, rid: Rid)
    requires rid in u.rooms && u.rooms[rid].playing && rid in u.games
    ensures Overdue(u, rid) <==> exists w :: Survives(u.rooms[rid].members, u.games[rid], w)
  {
    hide Survives;
    if w :| Survives(u.rooms[rid].members, u.games[rid], w) {
      assert OneSurvivor(u, rid, w);
    }
  }

  /** What n layers make of the verdicts. */
  ghost predicate PushedBy(games: map<Pid, Game>, after: map<Pid, Game>, n: nat) {
    && after.Keys == games.Keys
    && forall p :: p in games ==> after[p].status == if Deepest(games[p].board) + n == 13 then Lost else Playing
  }

  lemma AloneSurvives(members: set<Pid>, games: map<Pid, Game>, after: map<Pid, Game>, w: Pid, n: nat)
    requires PushedBy(games, after, n) && AloneAfter(members, games, w, n)
    ensures Survives(members, after, w)
  {
    hide Deepest, Survives;
    var l :| l in members && l in games && l != w;
    SurvivesBy(members, after, w, l);
  }

  lemma SurvivesBy(members: set<Pid>, games: map<Pid, Game>, w: Pid, l: Pid)
    requires w in members && w in games && games[w].status != Lost && l in members && l in games && l != w
    requires forall p :: p in members && p in games && p != w ==> games[p].status == Lost
    ensures Survives(members, games, w)
  {
  }

  lemma SurvivorIsAlone(members: set<Pid>, games: map<Pid, Game>, after: map<Pid, Game>, w: Pid, n: nat)
    requires PushedBy(games, after, n) && forall p :: p in games ==> Deepest(games[p].board) + n <= 13
    requires Survives(members, after, w)
    ensures AloneAfter(members, games, w, n)
  {
    hide Deepest, AloneAfter;
    var l :| l in members && l in after && after[l].status == Lost;
    AloneBy(members, games, w, l, n);
  }

  lemma AloneBy(members: set<Pid>, games: map<Pid, Game>, w: Pid, l: Pid, n: nat)
    requires w in members && w in games && Deepest(games[w].board) + n < 13 && l in members && l in games && l != w
    requires forall p :: p in members && p in games && p != w ==> Deepest(games[p].board) + n == 13
    ensures AloneAfter(members, games, w, n)
  {
    hide Deepest;
  }

  lemma AloneIffLeft(members: set<Pid>, games: map<Pid, Game>, after: map<Pid, Game>, n: nat)
    requires PushedBy(games, after, n) && forall p :: p in games ==> Deepest(games[p].board) + n <= 13
    ensures (exists w :: AloneAfter(members, games, w, n)) <==> exists w :: Survives(members, after, w)
  {
    hide PushedBy, AloneAfter, Survives, Deepest;
    if w :| AloneAfter(members, games, w, n) {
      AloneSurvives(members, games, after, w, n);
    }
    if w :| Survives(members, after, w) {
      SurvivorIsAlone(members, games, after, w, n);
    }
  }

  lemma PollLayers(t: Tables, rid: Rid, now: int, draws: Pid -> Colour, tops: (Pid, nat) -> Layer) returns (n: nat)
    requires Coherent(t) && rid in t.games && rid in t.rooms && rid in t.nextAdd && InProtocol(t)
    requires AllPlayIdly(t.games[rid]) && t.nextAdd[rid] <= now
    ensures LayersDue(t.games[rid], t.nextAdd[rid], now, n) && n > 0
    ensures var u := Poll(t, rid, now, draws, tops);
            u.rooms == t.rooms && rid in u.games && PushedBy(t.games[rid], u.games[rid], n)
  {
    hide Coherent, InProtocol, Outcome, Schedule, Poll, Ticked, AllProtocol, AllLayered, NextDeadline, Backed,
      AllPlayIdly, Deepest, LayersNow, LayersDue, PushedBy;
    PlaysOn(t, rid);
    RunningRoom(t, rid);
    PollIs(t, rid, now, draws, tops);
    var u := t.(games := t.games[rid := Ticked(t.games[rid], now, draws)]);
    NobodyLost(t, u, rid, now, draws);
    ScheduleIs(u, rid, now, tops);
    TicksOnly(t.games[rid], now, draws);
    TickIsBacked(t.games[rid], t.nextAdd[rid], now, draws);
    n := LayersNow(u.games[rid], t.nextAdd[rid], now, tops);
    LayersPush(u.games[rid], t.nextAdd[rid], now, tops);
    SameDepths(t.games[rid], u.games[rid], t.nextAdd[rid], now, n);
    PushedAlike(t.games[rid], u.games[rid], Poll(t, rid, now, draws, tops).games[rid], n);
  }

  lemma SameDepths(games: map<Pid, Game>, ticked: map<Pid, Game>, nextAt: int, now: int, n: nat)
    requires ticked.Keys == games.Keys && forall p :: p in games ==> ticked[p] == games[p].(lastTick := now)
    requires LayersDue(ticked, nextAt, now, n)
    ensures LayersDue(games, nextAt, now, n)
  {
    hide Deepest;
    assert AllPlayIdly(ticked) <==> AllPlayIdly(games);
    forall p | p in games ensures ticked[p].board == games[p].board {
    }
  }

  lemma PushedAlike(games: map<Pid, Game>, ticked: map<Pid, Game>, after: map<Pid, Game>, n: nat)
    requires ticked.Keys == games.Keys && forall p :: p in games ==> ticked[p].board == games[p].board
    requires PushedBy(ticked, after, n)
    ensures PushedBy(games, after, n)
  {
    hide Deepest;
  }

  lemma LayersPush(games: map<Pid, Game>, nextAt: int, now: int, tops: (Pid, nat) -> Layer)
    requires Backed(games, nextAt) && AllPlayIdly(games) && nextAt <= now
    ensures var n := LayersNow(games, nextAt, now, tops);
            var after := AllLayered(games, tops, n);
            n > 0 && LayersDue(games, nextAt, now, n) && PushedBy(games, after, n)
  {
    hide Consistent, Reachable, Deepest, Layered, CatchUp, Rules.Valid;
    BackedGamesProtocol(games, nextAt);
    var m :| Running(games, nextAt, m);
    ReachableIsConsistent(m);
    ConsistentIsScheduled(m);
    var n := LayersNow(games, nextAt, now, tops);
    ZeroLayers(games, tops);
    PlayingStart(games);
    SomeLayerNow(m, now, tops);
    forall p | p in games
      ensures AllLayered(games, tops, n)[p].status == if Deepest(games[p].board) + n == 13 then Lost else Playing
    {
      DepthMeansStatus(games[p], p, tops, n);
    }
  }

  lemma DeadlineIsSet(t: Tables, rid: Rid)
    requires Coherent(t) && rid in t.games && rid in t.nextAdd
    ensures t.nextAdd[rid] > 0
  {
    hide Coherent, Consistent, Reachable;
    RunningRoom(t, rid);
    var m :| Running(t.games[rid], t.nextAdd[rid], m);
    ReachableIsConsistent(m);
    ConsistentIsScheduled(m);
  }

  lemma ConsistentIsScheduled(m: Match)
    requires Consistent(m)
    ensures m.nextAt > 0
  {
    hide Protocol, Balanced;
  }

  /** A poll that adds no layers leaves nobody waiting. */
  lemma IdlePollSettles(t: Tables, rid: Rid, now: int, draws: Pid -> Colour, tops: (Pid, nat) -> Layer)
    requires InProtocol(t) && rid in t.games && rid in t.rooms && rid in t.nextAdd
    requires now < t.nextAdd[rid] || !AllPlayIdly(t.games[rid])
    requires t.rooms[rid].playing && t.nextAdd[rid] > 0
    ensures !Overdue(Poll(t, rid, now, draws, tops), rid)
  {
    hide InProtocol, Outcome, Ticked, AllProtocol, Poll, Overdue, Schedule, LayersNow, AllPlayIdly;
    PollIs(t, rid, now, draws, tops);
    var u := t.(games := t.games[rid := Ticked(t.games[rid], now, draws)]);
    StillIdle(t.games[rid], now, draws);
    NoLayerNow(u.games[rid], t.nextAdd[rid], now, tops);
    OutcomeOrNot(u, rid);
    OutcomeKeepsDeadline(u, rid);
    ScheduleKeepsDeadline(Outcome(u, rid), rid, now, tops);
    if Overdue(Poll(t, rid, now, draws, tops), rid) {
      PollSettles(t, rid, now, draws, tops);
    }
  }

  lemma StillIdle(games: map<Pid, Game>, now: int, draws: Pid -> Colour)
    requires AllProtocol(games)
    ensures AllPlayIdly(Ticked(games, now, draws)) <==> AllPlayIdly(games)
  {
    hide Ticked, AllProtocol;
    TicksOnly(games, now, draws);
  }

  lemma ScheduleKeepsDeadline(t: Tables, rid: Rid, now: int, tops: (Pid, nat) -> Layer)
    requires rid in t.games ==>
               rid in t.nextAdd && t.nextAdd[rid] > 0 && LayersNow(t.games[rid], t.nextAdd[rid], now, tops) == 0
    ensures rid in Schedule(t, rid, now, tops).nextAdd ==>
              rid in t.nextAdd && Schedule(t, rid, now, tops).nextAdd[rid] == t.nextAdd[rid]
  {
    hide LayersNow, AllLayered;
  }

  lemma NoLayerNow(games: map<Pid, Game>, nextAt: int, now: int, tops: (Pid, nat) -> Layer)
    requires now < nextAt || !AllPlayIdly(games)
    ensures LayersNow(games, nextAt, now, tops) == 0
  {
    ZeroLayers(games, tops);
  }

  lemma OutcomeOrNot(u: Tables, rid: Rid)
    ensures rid in Outcome(u, rid).games ==> Outcome(u, rid) == u
  {
    hide Decided, Alive;
  }

  // ------------------------------------------------- a poll may leave one waiting

  /** Player a is dealt one bubble in the fifth row, everybody else nothing. */
  ghost function OneBubble(a: Pid): Pid -> Game {
    p => InitialGame(Deal(0, 0, q => if p == a && q == Grid.Cell(4, 0) then 0 else EMPTY, 0))
  }

  ghost function NoTickets(): Pid -> string {
    p => "t"
  }

  /** The requests that open a room for two and start its match at time 0. */
  ghost function Opening(a: Pid, b: Pid, r: Rid): seq<Request> {
    [Create(a, "", 2, r, a), Join(b, r), Begin(a, r, 0, OneBubble(a), NoTickets())]
  }

  ghost function OpenedRoom(a: Pid, b: Pid, r: Rid): Tables {
    Tables(map[r := Room("Room", a, true, None, 2, {a, b})], map[a := r, b := r],
           map[r := Hands({a, b}, OneBubble(a))], map[r := map p | p in {a, b} :: NoTickets()(p)],
           map[r := 10000], map[])
  }

  lemma OneBubbleIsDealt(a: Pid)
    ensures forall p :: Dealt(OneBubble(a)(p))
  {
    hide Dealt, InitialGame;
    forall p ensures Dealt(OneBubble(a)(p)) {
      InitialIsDealt(Deal(0, 0, q => if p == a && q == Grid.Cell(4, 0) then 0 else EMPTY, 0));
    }
  }

  lemma OneBubbleDepth(a: Pid, p: Pid)
    ensures Deepest(OneBubble(a)(p).board) == if p == a then 4 else -1
  {
    var b := OneBubble(a)(p).board;
    if p == a {
      assert Full(b, Grid.Cell(4, 0));
      DeepestIs(b, Grid.Cell(4, 0));
    } else {
      assert forall q :: !Full(b, q);
    }
  }

  lemma OpeningIsServed(a: Pid, b: Pid, r: Rid)
    requires a != b
    ensures Served(Opening(a, b, r), OpenedRoom(a, b, r))
  {
    hide CreateRoom, JoinRoom, BeginMatch, ServedFrom, Dealt, OneBubble, NoTickets, OpenedRoom, InProtocol, AllProtocol;
    NothingPlayed(a, b, r);
    var first, second, third := Create(a, "", 2, r, a), Join(b, r), Begin(a, r, 0, OneBubble(a), NoTickets());
    var t := EMPTY_TABLES.(rooms := map[r := Room("Room", a, false, None, 2, {a})], playerRoom := map[a := r]);
    var u := t.(rooms := map[r := Room("Room", a, false, None, 2, {a, b})], playerRoom := map[a := r, b := r]);
    CreatesRoom(EMPTY_TABLES, a, r);
    Entering(t, u, a, b, r);
    Starting(u, a, b, r);
    OneBubbleIsDealt(a);
    NothingServed(EMPTY_TABLES);
    ServedMore(EMPTY_TABLES, [], EMPTY_TABLES, first);
    assert [] + [first] == [first];
    ServedMore(EMPTY_TABLES, [first], t, second);
    assert [first] + [second] == [first, second];
    ServedMore(EMPTY_TABLES, [first, second], u, third);
    assert [first, second] + [third] == [first, second, third];
  }

  lemma NothingPlayed(a: Pid, b: Pid, r: Rid)
    ensures forall t: Tables :: t.games == map[] ==> InProtocol(t)
  {
  }

  lemma Entering(t: Tables, u: Tables, a: Pid, b: Pid, r: Rid)
    requires a != b && t.rooms == map[r := Room("Room", a, false, None, 2, {a})] && t.playerRoom == map[a := r]
    requires u == t.(rooms := map[r := Room("Room", a, false, None, 2, {a, b})], playerRoom := map[a := r, b := r])
    ensures JoinRoom(t, b, r) == u
  {
    assert {a} + {b} == {a, b};
  }

  lemma Starting(u: Tables, a: Pid, b: Pid, r: Rid)
    requires a != b
    requires u == Tables(map[r := Room("Room", a, false, None, 2, {a, b})], map[a := r, b := r], map[], map[], map[],
                         map[])
    ensures BeginMatch(u, a, r, 0, OneBubble(a), NoTickets()) == OpenedRoom(a, b, r)
  {
    hide OneBubble, NoTickets, Hands;
    assert |{a, b}| == 2;
    assert MayBegin(u, a, r);
    var v, w := BeginMatch(u, a, r, 0, OneBubble(a), NoTickets()), OpenedRoom(a, b, r);
    assert v.rooms == w.rooms;
    assert v.games == w.games;
    assert v.tickets[r] == w.tickets[r];
    assert v.tickets == w.tickets;
    assert v.nextAdd == w.nextAdd;
  }

  /** Nine layers at once: a has lost, b has not. */
  lemma NineLayers(a: Pid, b: Pid, games: map<Pid, Game>, tops: (Pid, nat) -> Layer)
    requires a != b && AllProtocol(games) && games.Keys == {a, b}
    requires AllPlayIdly(games)
    requires Deepest(games[a].board) == 4 && Deepest(games[b].board) == -1
    ensures LayersNow(games, 10000, 90000, tops) == 9
    ensures var after := AllLayered(games, tops, 9);
            after.Keys == {a, b} && after[a].status == Lost && after[b].status == Playing
  {
    hide Deepest, Layered, Rules.Valid, CatchUp;
    PlayingStart(games);
    assert Due(10000, 90000) == 9;
    CatchUpIsExact(games, tops, 9, 0);
    DepthMeansStatus(games[a], a, tops, 9);
    DepthMeansStatus(games[b], b, tops, 9);
  }

  lemma DepthMeansStatus(g: Game, p: Pid, tops: (Pid, nat) -> Layer, k: nat)
    requires Protocol(g) && g.status == Playing && Deepest(g.board) + k <= 13 && k > 0
    ensures Layered(g, p, tops, k).status == if Deepest(g.board) + k == 13 then Lost else Playing
  {
    hide Deepest, StatusOf, Layered;
    LayersOnGame(g, p, tops, k);
    LastLayerStatus(g, p, tops, k);
    StatusByDepth(Layered(g, p, tops, k).board);
  }

  lemma LastLayerStatus(g: Game, p: Pid, tops: (Pid, nat) -> Layer, k: nat)
    requires k > 0
    ensures Layered(g, p, tops, k).status == StatusOf(Layered(g, p, tops, k).board)
  {
    hide StatusOf;
  }

  /** That a poll can leave a survivor waiting does happen: a match is not polled
      for ninety seconds, and then nine layers come at once. */
  lemma PollMayLeaveOverdue(a: Pid, b: Pid, r: Rid, draws: Pid -> Colour, tops: (Pid, nat) -> Layer)
    requires a != b
    ensures exists t :: Served(Opening(a, b, r) + [PollRoom(r, 90000, draws, tops)], t) && Overdue(t, r)
  {
    var t := OpenedRoom(a, b, r);
    var q := PollRoom(r, 90000, draws, tops);
    OpeningIsServed(a, b, r);
    ServedIsCoherent(Opening(a, b, r), t);
    EmptyServes(Opening(a, b, r), t, q);
    ServedGoesOn(EMPTY_TABLES, Opening(a, b, r), t, q);
    ServedByKind(t, q);
    OneBubbleDepth(a, a);
    OneBubbleDepth(a, b);
    hide Coherent, InProtocol, Served, ServedFrom, Poll, Serve, Overdue, Opening;
    LeftWaiting(a, b, r, draws, tops);
  }

  lemma LeftWaiting(a: Pid, b: Pid, r: Rid, draws: Pid -> Colour, tops: (Pid, nat) -> Layer)
    requires a != b && InProtocol(OpenedRoom(a, b, r))
    ensures Overdue(Poll(OpenedRoom(a, b, r), r, 90000, draws, tops), r)
  {
    hide InProtocol, Outcome, Ticked, AllProtocol, Poll, LayersNow, AllLayered, NextDeadline, Schedule, OneBubble,
      NoTickets, AllPlayIdly, Deepest;
    var t := OpenedRoom(a, b, r);
    PollIs(t, r, 90000, draws, tops);
    OneBubblePlays(a, b);
    var u := t.(games := t.games[r := Ticked(t.games[r], 90000, draws)]);
    NobodyLost(t, u, r, 90000, draws);
    TickedDepths(a, b, draws);
    ScheduleIs(u, r, 90000, tops);
    NineLayers(a, b, u.games[r], tops);
    WaitingAtLast(Schedule(u, r, 90000, tops), a, b, r);
  }

  lemma WaitingAtLast(v: Tables, a: Pid, b: Pid, r: Rid)
    requires a != b && r in v.rooms && v.rooms[r] == Room("Room", a, true, None, 2, {a, b})
    requires r in v.games && v.games[r].Keys == {a, b}
    requires v.games[r][a].status == Lost && v.games[r][b].status == Playing
    ensures Overdue(v, r)
  {
    assert OneSurvivor(v, r, b);
  }

  lemma TickedDepths(a: Pid, b: Pid, draws: Pid -> Colour)
    requires a != b && AllProtocol(Hands({a, b}, OneBubble(a)))
    ensures var games := Ticked(Hands({a, b}, OneBubble(a)), 90000, draws);
            && AllProtocol(games) && games.Keys == {a, b} && AllPlayIdly(games)
            && Deepest(games[a].board) == 4 && Deepest(games[b].board) == -1
  {
    hide Ticked, AllProtocol, OneBubble, Deepest;
    OneBubbleDepth(a, a);
    OneBubbleDepth(a, b);
    OneBubblePlays(a, b);
    TicksOnly(Hands({a, b}, OneBubble(a)), 90000, draws);
  }

  lemma OneBubblePlays(a: Pid, b: Pid)
    ensures AllPlayIdly(Hands({a, b}, OneBubble(a)))
  {
    assert a in Hands({a, b}, OneBubble(a));
  }
}
