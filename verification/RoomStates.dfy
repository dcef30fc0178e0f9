/** When the rooms of the manager are idle, ready or playing, what a departure
    leaves and which frame an input belongs to, each stated of the tables alone. */
module RoomStates {
  import opened Wrappers
  import opened RoomRules

  /** The recomputed state: closed without players, idle with one; otherwise ready
      as long as anybody is not, and playing once everybody is, from now on if it
      never played before. Nothing else changes. */
  lemma UpdatedExactly(r: Room, now: int)
    ensures |r.players| == 0 ==> Updated(r, now) == r.(state := Closed)
    ensures |r.players| == 1 ==> Updated(r, now) == r.(state := Idle)
    ensures |r.players| >= 2 && (exists p :: p in r.players && !r.players[p]) ==>
              Updated(r, now) == r.(state := Ready)
    ensures |r.players| >= 2 && (forall p :: p in r.players ==> r.players[p]) ==>
              Updated(r, now) ==
              if r.state in {Idle, Ready, Loading} then
                r.(state := Playing, playingSince := if r.playingSince.Some? then r.playingSince else Some(now))
              else r
  {
  }

  lemma Quotient(x: int, t: int)
    requires t > 0
    ensures x / t * t <= x < (x / t + 1) * t
  {
    assert x == x / t * t + x % t;
  }

  lemma FrameIsExact(r: Room, now: int, tick: int)
    requires tick > 0
    ensures var f := FrameAt(r, now, tick);
            if r.state == Playing && r.playingSince.Some? && r.playingSince.value <= now then
              f * tick <= now - r.playingSince.value < (f + 1) * tick
            else f == 0
  {
    if r.playingSince.Some? {
      Quotient(now - r.playingSince.value, tick);
    }
  }

  /** An accepted join leaves the room ready: the newcomer is not. */
  lemma JoinLeavesReady(l: Lobby, pid: Pid, rid: Rid, now: int, tick: int)
    requires tick > 0 && Coherent(l, tick) && Refusal(l, Join(pid, rid)) == None
    ensures var k := Serve(l, Join(pid, rid), now, tick);
            && rid in l.rooms && rid in k.rooms
            && k.rooms[rid] == l.rooms[rid].(players := l.rooms[rid].players[pid := false], state := Ready)
            && k.playerRoom == l.playerRoom[pid := rid]
  {
    hide RoomOk, JournalsOk, Serve, Updated, Refusal;
    JoinServes(l, pid, rid, now, tick);
    var r := l.rooms[rid];
    var joined := r.(players := r.players[pid := false]);
    NobodyTwice(l, pid, rid, tick);
    assert joined.players.Keys == r.players.Keys + {pid};
    UpdatedExactly(joined, now);
    assert pid in joined.players && !joined.players[pid];
  }

  lemma NobodyTwice(l: Lobby, pid: Pid, rid: Rid, tick: int)
    requires tick > 0 && Coherent(l, tick) && pid !in l.playerRoom && rid in l.rooms
    ensures pid !in l.rooms[rid].players && |l.rooms[rid].players.Keys| >= 1
  {
    hide JournalsOk;
    assert l.rooms[rid].owner in l.rooms[rid].players.Keys;
  }

  /** A departure: the last one out closes the room. Otherwise the owner stays
      unless it is the one to go, the others keep their readiness, and the room is
      in the state they call for. */
  lemma LeaveIsExact(l: Lobby, pid: Pid, heir: Pid, now: int, tick: int)
    requires tick > 0 && Coherent(l, tick) && pid in l.playerRoom
    ensures var k, rid := Serve(l, Leave(pid, heir), now, tick), l.playerRoom[pid];
            && rid in l.rooms && k.playerRoom == l.playerRoom - {pid} && k.rooms - {rid} == l.rooms - {rid}
            && var r, players := l.rooms[rid], l.rooms[rid].players - {pid};
               if players.Keys == {} then rid !in k.rooms
               else
                 && rid in k.rooms
                 && var s := k.rooms[rid];
                    && s.players == players && s.owner in players && (pid != r.owner ==> s.owner == r.owner)
                    && s.name == r.name && s.max == r.max && s.cmdSeq == r.cmdSeq && s.commands == r.commands
                    && s == Updated(r.(players := players, owner := s.owner), now)
  {
    hide RoomOk, JournalOk, Serve, Updated, Refusal;
    HomeRoom(l, pid, tick);
    LeaveServes(l, pid, heir, now, tick);
    var rid := l.playerRoom[pid];
    var r, players := l.rooms[rid], l.rooms[rid].players - {pid};
    if players.Keys != {} {
      OwnerIsIn(r);
      var owner := Heir(r.owner, pid, players, heir);
      UpdatedExactly(r.(players := players, owner := owner), now);
    }
  }

  lemma OwnerIsIn(r: Room)
    requires RoomOk(r)
    ensures r.owner in r.players
  {
  }

  // ------------------------------------------------- over whole runs

  /** The manager after these arrivals. */
  ghost function LobbyAfter(arrivals: seq<Arrival>, tick: int): Lobby
    requires tick > 0
  {
    if arrivals == [] then EMPTY_LOBBY
    else
      var n := |arrivals| - 1;
      Serve(LobbyAfter(arrivals[..n], tick), arrivals[n].request, arrivals[n].time, tick)
  }

  /** The operation is accepted and changes who is in the room, or who is ready. */
  ghost predicate Changes(l: Lobby, q: Operation, rid: Rid) {
    Refusal(l, q) == None &&
    match q
    case Create(_, _, _, r) => r == rid
    case Join(_, r) => r == rid
    case SetReady(pid, _) => pid in l.playerRoom && l.playerRoom[pid] == rid
    case Leave(pid, _) => pid in l.playerRoom && l.playerRoom[pid] == rid
    case _ => false
  }

  /** The operation is an accepted start of the room. */
  ghost predicate Starts(l: Lobby, q: Operation, rid: Rid) {
    q.Start? && Refusal(l, q) == None && q.pid in l.playerRoom && l.playerRoom[q.pid] == rid
  }

  /** Since its last change the room was started. */
  ghost predicate StartedSince(arrivals: seq<Arrival>, rid: Rid, tick: int)
    requires tick > 0
  {
    arrivals != [] &&
    var n := |arrivals| - 1;
    var l, q := LobbyAfter(arrivals[..n], tick), arrivals[n].request;
    Starts(l, q, rid) || (!Changes(l, q, rid) && StartedSince(arrivals[..n], rid, tick))
  }

  lemma {:induction false} ServedIsAfter(arrivals: seq<Arrival>, l: Lobby, tick: int)
    requires tick > 0 && Served(arrivals, l, tick)
    ensures l == LobbyAfter(arrivals, tick)
    decreases |arrivals|
  {
    hide Serve;
    if arrivals != [] {
      var n := |arrivals| - 1;
      var Arrival(q, now) := arrivals[n];
      var k :| Served(arrivals[..n], k, tick) && k.clock <= now && (q.Create? ==> q.rid !in k.rooms)
               && l == Serve(k, q, now, tick);
      ServedIsAfter(arrivals[..n], k, tick);
    }
  }

  /** What one operation makes of the members and the state of a room. */
  lemma OneOperation(l: Lobby, q: Operation, now: int, tick: int, rid: Rid)
    requires tick > 0 && Coherent(l, tick) && l.clock <= now && (q.Create? ==> q.rid !in l.rooms)
    requires rid in Serve(l, q, now, tick).rooms && |Serve(l, q, now, tick).rooms[rid].players| >= 2
    ensures var s := Serve(l, q, now, tick).rooms[rid];
            if Starts(l, q, rid) then s.state == Playing
            else if Changes(l, q, rid) then s.state == Playing <==> AllReady(s.players)
            else rid in l.rooms && s.state == l.rooms[rid].state && s.players == l.rooms[rid].players
  {
    hide RoomOk, JournalOk, Refusal, Coherent, Serve, Applied, Updated, Left, AllReady;
    if Refusal(l, q) != None {
      RefusedServes(l, q, now, tick);
    } else {
      match q
      case Create(pid, name, capacity, r) =>
        CreatedRoom(l, q, now, tick);
        assert rid == r || rid in Serve(l, q, now, tick).rooms - {r};
      case Join(pid, r) =>
        JoinedRoom(l, pid, r, now, tick);
        assert rid == r || rid in Serve(l, q, now, tick).rooms - {r};
      case SetReady(pid, ready) =>
        HomeOf(l, q, tick);
        ReadyServes(l, pid, ready, now, tick);
        KnownState(l, l.playerRoom[pid], tick);
        RecomputedState(l.rooms[l.playerRoom[pid]].(players := l.rooms[l.playerRoom[pid]].players[pid := ready]), now);
      case Start(pid) =>
        HomeOf(l, q, tick);
        StartServes(l, pid, now, tick);
      case Leave(pid, heir) =>
        HomeOf(l, q, tick);
        LeftRoom(l, pid, heir, now, tick, rid);
      case Submit(pid, cmd, payload) =>
        HomeOf(l, q, tick);
        SubmitServes(l, pid, cmd, payload, now, tick);
    }
  }

  lemma RefusedServes(l: Lobby, q: Operation, now: int, tick: int)
    requires tick > 0 && Refusal(l, q) != None
    ensures Serve(l, q, now, tick) == l.(clock := now)
  {
    hide Refusal, Applied;
  }

  lemma CreatedRoom(l: Lobby, q: Operation, now: int, tick: int)
    requires tick > 0 && q.Create? && Refusal(l, q) == None
    ensures var k := Serve(l, q, now, tick);
            && k.rooms - {q.rid} == l.rooms - {q.rid} && q.rid in k.rooms
            && k.rooms[q.rid].players == map[q.pid := false] && |k.rooms[q.rid].players| == 1
  {
    hide Refusal;
    assert |map[q.pid := false]| == 1;
  }

  lemma HomeOf(l: Lobby, q: Operation, tick: int)
    requires tick > 0 && Coherent(l, tick) && Refusal(l, q) == None && !q.Create? && !q.Join?
    ensures q.pid in l.playerRoom && l.playerRoom[q.pid] in l.rooms && l.playerRoom[q.pid] in l.history
  {
    hide RoomOk, JournalOk;
  }

  lemma KnownState(l: Lobby, rid: Rid, tick: int)
    requires tick > 0 && Coherent(l, tick) && rid in l.rooms
    ensures l.rooms[rid].state in {Idle, Ready, Playing}
  {
    hide JournalOk;
    assert |l.rooms[rid].players| == |l.rooms[rid].players.Keys|;
    assert l.rooms[rid].owner in l.rooms[rid].players.Keys;
  }

  /** Recomputed with two players or more, a room plays exactly if all are ready. */
  lemma RecomputedState(r: Room, now: int)
    requires r.state in {Idle, Ready, Playing}
    ensures Updated(r, now).players == r.players
    ensures |r.players| >= 2 ==> (Updated(r, now).state == Playing <==> AllReady(r.players))
  {
    hide Updated;
    UpdatedExactly(r, now);
  }

  lemma JoinedRoom(l: Lobby, pid: Pid, r: Rid, now: int, tick: int)
    requires tick > 0 && Coherent(l, tick) && Refusal(l, Join(pid, r)) == None
    ensures var k := Serve(l, Join(pid, r), now, tick);
            && k.rooms - {r} == l.rooms - {r} && r in k.rooms
            && k.rooms[r].state == Ready && !AllReady(k.rooms[r].players)
  {
    JoinLeavesReady(l, pid, r, now, tick);
    JoinServes(l, pid, r, now, tick);
    hide RoomOk, JournalsOk, Serve, Updated, Refusal, Coherent;
    assert pid in Serve(l, Join(pid, r), now, tick).rooms[r].players;
  }

  lemma LeftRoom(l: Lobby, pid: Pid, heir: Pid, now: int, tick: int, rid: Rid)
    requires tick > 0 && Coherent(l, tick) && pid in l.playerRoom && rid in Serve(l, Leave(pid, heir), now, tick).rooms
    ensures var s := Serve(l, Leave(pid, heir), now, tick).rooms[rid];
            if l.playerRoom[pid] == rid then
              |s.players| >= 2 ==> (s.state == Playing <==> AllReady(s.players))
            else rid in l.rooms && s == l.rooms[rid]
  {
    hide Coherent, Serve, Updated, AllReady;
    LeaveIsExact(l, pid, heir, now, tick);
    if l.playerRoom[pid] == rid {
      var s := Serve(l, Leave(pid, heir), now, tick).rooms[rid];
      KnownState(l, rid, tick);
      RecomputedState(l.rooms[rid].(players := s.players, owner := s.owner), now);
    } else {
      assert rid in Serve(l, Leave(pid, heir), now, tick).rooms - {l.playerRoom[pid]};
    }
  }

  /** Play starts once: the time a room first played never changes, and it is set
      by the operation that makes the room play. */
  lemma PlayStartsOnce(l: Lobby, q: Operation, now: int, tick: int, rid: Rid)
    requires tick > 0 && Coherent(l, tick) && (q.Create? ==> q.rid !in l.rooms)
    requires rid in l.rooms && rid in Serve(l, q, now, tick).rooms
    ensures var r, s := l.rooms[rid], Serve(l, q, now, tick).rooms[rid];
            if r.playingSince.Some? then s.playingSince == r.playingSince
            else s.playingSince == if s.state == Playing then Some(now) else None
  {
    hide RoomOk, JournalOk, Refusal, Coherent, Serve, Applied, Updated, Left, AllReady;
    KnownRoom(l, rid, tick);
    PlayingHasStarted(l.rooms[rid]);
    if Refusal(l, q) != None {
      RefusedServes(l, q, now, tick);
    } else {
      match q
      case Create(pid, name, capacity, r) =>
        CreatedRoom(l, q, now, tick);
        assert rid in Serve(l, q, now, tick).rooms - {r};
      case Join(pid, r) =>
        JoinLeavesReady(l, pid, r, now, tick);
        JoinServes(l, pid, r, now, tick);
      case SetReady(pid, ready) =>
        HomeOf(l, q, tick);
        ReadyServes(l, pid, ready, now, tick);
        if rid == l.playerRoom[pid] {
          RecomputedStart(l.rooms[rid].(players := l.rooms[rid].players[pid := ready]), now);
        }
      case Start(pid) =>
        HomeOf(l, q, tick);
        StartServes(l, pid, now, tick);
      case Leave(pid, heir) =>
        HomeOf(l, q, tick);
        LeaveIsExact(l, pid, heir, now, tick);
        var s := Serve(l, q, now, tick).rooms[rid];
        if rid == l.playerRoom[pid] {
          RecomputedStart(l.rooms[rid].(players := s.players, owner := s.owner), now);
        } else {
          assert rid in Serve(l, q, now, tick).rooms - {l.playerRoom[pid]};
        }
      case Submit(pid, cmd, payload) =>
        HomeOf(l, q, tick);
        SubmitServes(l, pid, cmd, payload, now, tick);
    }
  }

  lemma PlayingHasStarted(r: Room)
    requires RoomOk(r)
    ensures r.state == Playing ==> r.playingSince.Some?
  {
  }

  lemma RecomputedStart(r: Room, now: int)
    requires r.state == Playing ==> r.playingSince.Some?
    ensures var u := Updated(r, now);
            if r.playingSince.Some? then u.playingSince == r.playingSince
            else u.playingSince == if u.state == Playing then Some(now) else None
  {
    hide AllReady;
  }

  /** Over whole runs: a room of two players or more plays exactly if everybody in
      it is ready, or its owner has started it since anybody last came, went or
      changed readiness. */
  lemma {:induction false} PlaysIfReadyOrStarted(arrivals: seq<Arrival>, l: Lobby, tick: int, rid: Rid)
    requires tick > 0 && Served(arrivals, l, tick) && rid in l.rooms && |l.rooms[rid].players| >= 2
    ensures l.rooms[rid].state == Playing <==>
            AllReady(l.rooms[rid].players) || StartedSince(arrivals, rid, tick)
    decreases |arrivals|
  {
    hide Serve, Coherent, Starts, Changes, AllReady;
    if arrivals != [] {
      var n := |arrivals| - 1;
      var Arrival(q, now) := arrivals[n];
      var k :| Served(arrivals[..n], k, tick) && k.clock <= now && (q.Create? ==> q.rid !in k.rooms)
               && l == Serve(k, q, now, tick);
      ServedIsAfter(arrivals[..n], k, tick);
      ServedIsCoherent(arrivals[..n], k, tick);
      OneOperation(k, q, now, tick, rid);
      if !Starts(k, q, rid) && !Changes(k, q, rid) {
        PlaysIfReadyOrStarted(arrivals[..n], k, tick, rid);
      }
      ServedIsCoherent(arrivals, l, tick);
      ReadyPlays(l, rid, tick);
    }
  }

  lemma ReadyPlays(l: Lobby, rid: Rid, tick: int)
    requires tick > 0 && Coherent(l, tick) && rid in l.rooms && |l.rooms[rid].players| >= 2
    ensures AllReady(l.rooms[rid].players) ==> l.rooms[rid].state == Playing
  {
    hide JournalOk, AllReady;
  }
}
