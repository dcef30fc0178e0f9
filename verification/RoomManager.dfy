/** The room manager: two maps kept in step, a state per room and a bounded
    command log, each method proved to serve its request as the rules say. */
module RoomManager {
  import opened Wrappers
  import opened CommandLog
  import opened RoomRules

  const DEFAULT_FRAME_TICK := 50000000

  class Manager {
    var rooms: map<Rid, Room>
    var playerRoom: map<Pid, Rid>
    const frameTick: int
    ghost var history: map<Rid, History>
    ghost var clock: int

    constructor (tick: int)
      ensures Valid() && Value() == EMPTY_LOBBY
      ensures frameTick == if tick <= 0 then 50000000 else tick
    {
      rooms, playerRoom, history, clock := map[], map[], map[], 0;
      frameTick := if tick <= 0 then DEFAULT_FRAME_TICK else tick;
    }

    ghost function Value(): Lobby
      reads this
    {
      Lobby(rooms, playerRoom, history, clock)
    }

    ghost predicate Valid()
      reads this
    {
      frameTick > 0 && Coherent(Value(), frameTick)
    }

    method UpdateRoomState(r: Room, now: int) returns (s: Room)
      ensures s == Updated(r, now)
    {
      if |r.players| == 0 {
        return r.(state := Closed);
      }
      if |r.players| == 1 {
        return r.(state := Idle);
      }
      var todo := r.players.Keys;
      while todo != {}
        invariant todo <= r.players.Keys
        invariant forall p :: p in r.players && p !in todo ==> r.players[p]
      {
        var p :| p in todo;
        if !r.players[p] {
          return r.(state := Ready);
        }
        todo := todo - {p};
      }
      s := r;
      if r.state == Idle || r.state == Ready || r.state == Loading {
        s := s.(state := Loading);
        s := s.(state := Playing);
        if s.playingSince == None {
          s := s.(playingSince := Some(now));
        }
      }
    }

    method CreateRoom(pid: Pid, name: string, capacity: int, rid: Rid, now: int)
      returns (room: Option<Room>, error: Option<RoomError>)
      requires Valid() && clock <= now && rid !in rooms
      modifies this
      ensures Valid() && Value() == Serve(old(Value()), Create(pid, name, capacity, rid), now, frameTick)
      ensures error == Refusal(old(Value()), Create(pid, name, capacity, rid))
      ensures room == if error == None then Some(rooms[rid]) else None
      ensures error == if pid in old(playerRoom) then Some(AlreadyInRoom) else None
      ensures error == None ==>
                && playerRoom == old(playerRoom)[pid := rid] && rid in rooms
                && var max := if capacity <= 1 then 2 else capacity;
                   rooms[rid] == Room(name, pid, Idle, max, map[pid := false], 0, [], None)
    {
      ServeKeepsCoherent(Value(), Create(pid, name, capacity, rid), now, frameTick);
      hide Coherent;
      clock := now;
      if pid in playerRoom {
        return None, Some(AlreadyInRoom);
      }
      var cap := capacity;
      if cap <= 1 {
        cap := 2;
      }
      var r := Room(name, pid, Idle, cap, map[pid := false], 0, [], None);
      rooms := rooms[rid := r];
      playerRoom := playerRoom[pid := rid];
      history := history[rid := []];
      return Some(r), None;
    }

    method JoinRoom(pid: Pid, rid: Rid, now: int) returns (room: Option<Room>, error: Option<RoomError>)
      requires Valid() && clock <= now
      modifies this
      ensures Valid() && Value() == Serve(old(Value()), Join(pid, rid), now, frameTick)
      ensures error == Refusal(old(Value()), Join(pid, rid))
      ensures error == None ==> rid in rooms && room == Some(rooms[rid])
    {
      hide Coherent, Updated, Serve, Refusal;
      ServeKeepsCoherent(Value(), Join(pid, rid), now, frameTick);
      JoinServes(Value(), pid, rid, now, frameTick);
      clock := now;
      if pid in playerRoom {
        return None, Some(AlreadyInRoom);
      }
      if rid !in rooms {
        return None, Some(RoomNotFound);
      }
      var r := rooms[rid];
      if r.state == Closed || r.state == Settlement || r.state == Playing {
        return None, Some(StateForbids);
      }
      if |r.players| >= r.max {
        return None, Some(RoomFull);
      }
      r := UpdateRoomState(r.(players := r.players[pid := false]), now);
      rooms := rooms[rid := r];
      playerRoom := playerRoom[pid := rid];
      return Some(r), None;
    }

    /** The room a player is in, as every other operation looks it up. */
    method PlayerRoom(pid: Pid) returns (rid: Rid, error: Option<RoomError>)
      ensures error ==
              if pid !in playerRoom then Some(NotInRoom)
              else if playerRoom[pid] !in rooms then Some(RoomNotFound)
              else None
      ensures error == None ==> rid == playerRoom[pid]
    {
      if pid !in playerRoom {
        return "", Some(NotInRoom);
      }
      rid := playerRoom[pid];
      if rid !in rooms {
        return "", Some(RoomNotFound);
      }
      return rid, None;
    }

    method SetReady(pid: Pid, ready: bool, now: int) returns (room: Option<Room>, error: Option<RoomError>)
      requires Valid() && clock <= now
      modifies this
      ensures Valid() && Value() == Serve(old(Value()), RoomRules.SetReady(pid, ready), now, frameTick)
      ensures error == Refusal(old(Value()), RoomRules.SetReady(pid, ready))
      ensures error == None ==> pid in playerRoom && playerRoom[pid] in rooms && room == Some(rooms[playerRoom[pid]])
    {
      hide Coherent, Updated, Serve, Refusal;
      ServeKeepsCoherent(Value(), RoomRules.SetReady(pid, ready), now, frameTick);
      LookupRefuses(Value(), RoomRules.SetReady(pid, ready), now, frameTick);
      if pid in playerRoom && playerRoom[pid] in rooms {
        ReadyServes(Value(), pid, ready, now, frameTick);
      }
      clock := now;
      var rid;
      rid, error := PlayerRoom(pid);
      if error != None {
        return None, error;
      }
      var r := UpdateRoomState(rooms[rid].(players := rooms[rid].players[pid := ready]), now);
      rooms := rooms[rid := r];
      return Some(r), None;
    }

    method StartGame(pid: Pid, now: int) returns (room: Option<Room>, error: Option<RoomError>)
      requires Valid() && clock <= now
      modifies this
      ensures Valid() && Value() == Serve(old(Value()), Start(pid), now, frameTick)
      ensures error == Refusal(old(Value()), Start(pid))
      ensures error == None ==> pid in playerRoom && playerRoom[pid] in rooms && room == Some(rooms[playerRoom[pid]])
    {
      hide Coherent, Serve, Refusal;
      ServeKeepsCoherent(Value(), Start(pid), now, frameTick);
      LookupRefuses(Value(), Start(pid), now, frameTick);
      if pid in playerRoom && playerRoom[pid] in rooms {
        StartServes(Value(), pid, now, frameTick);
      }
      clock := now;
      var rid;
      rid, error := PlayerRoom(pid);
      if error != None {
        return None, error;
      }
      var r := rooms[rid];
      if r.owner != pid {
        return None, Some(OnlyOwnerStarts);
      }
      if |r.players| < 2 {
        return None, Some(NeedTwoPlayers);
      }
      r := r.(state := Playing);
      if r.playingSince == None {
        r := r.(playingSince := Some(now));
      }
      rooms := rooms[rid := r];
      return Some(r), None;
    }

    /** What a player who leaves is shown: the room as it goes on, or closed. */
    ghost function Parting(l: Lobby, k: Lobby, pid: Pid): Option<Room> {
      if pid !in l.playerRoom || l.playerRoom[pid] !in l.rooms then None
      else
        var rid := l.playerRoom[pid];
        var players := l.rooms[rid].players - {pid};
        if players.Keys == {} then Some(l.rooms[rid].(players := players, state := Closed))
        else if rid in k.rooms then Some(k.rooms[rid])
        else None
    }

    /** The new owner is whichever remaining player the iteration meets first. */
    method LeaveRoom(pid: Pid, now: int) returns (room: Option<Room>, error: Option<RoomError>, ghost heir: Pid)
      requires Valid() && clock <= now
      modifies this
      ensures Valid() && Value() == Serve(old(Value()), Leave(pid, heir), now, frameTick)
      ensures error == Refusal(old(Value()), Leave(pid, heir))
      ensures room == if error == None then Parting(old(Value()), Value(), pid) else None
    {
      hide Coherent, Updated, Serve, Refusal;
      ghost var l := Value();
      heir, room := pid, None;
      clock := now;
      var rid;
      rid, error := PlayerRoom(pid);
      if error != None {
        LookupRefuses(l, Leave(pid, heir), now, frameTick);
      } else {
        room, heir := TakeOut(pid, rid, now);
        LeaveServes(l, pid, heir, now, frameTick);
      }
      ServeKeepsCoherent(l, Leave(pid, heir), now, frameTick);
    }

    method TakeOut(pid: Pid, rid: Rid, now: int) returns (room: Option<Room>, ghost heir: Pid)
      requires pid in playerRoom && playerRoom[pid] == rid && rid in rooms
      modifies this
      ensures Value() == Left(old(Value()), pid, rid, heir, now)
      ensures room.Some? && room == Parting(old(Value()), Value(), pid)
    {
      hide Updated;
      heir := pid;
      var r := rooms[rid];
      var players := r.players - {pid};
      playerRoom := playerRoom - {pid};
      if |players| == 0 {
        rooms := rooms - {rid};
        history := history - {rid};
        return Some(r.(players := players, state := Closed)), heir;
      }
      var owner := r.owner;
      if r.owner == pid {
        var p :| p in players.Keys;
        owner, heir := p, p;
      }
      r := UpdateRoomState(r.(players := players, owner := owner), now);
      rooms := rooms[rid := r];
      return Some(r), heir;
    }

    method SubmitInput(pid: Pid, cmd: string, payload: string, now: int)
      returns (event: Option<Command>, error: Option<RoomError>)
      requires Valid() && clock <= now
      modifies this
      ensures Valid() && Value() == Serve(old(Value()), Submit(pid, cmd, payload), now, frameTick)
      ensures error == Refusal(old(Value()), Submit(pid, cmd, payload))
      ensures error == None ==>
                && event.Some? && pid in playerRoom && playerRoom[pid] in old(history)
                && history[playerRoom[pid]] == old(history)[playerRoom[pid]] + [event.value]
                && playerRoom[pid] in old(rooms)
                && var r, c := old(rooms)[playerRoom[pid]], event.value;
                   && r.state == Playing && cmd != ""
                   && c.number == r.cmdSeq + 1 && c.frame == FrameAt(r, now, frameTick)
                   && c.player == pid && c.cmd == cmd && c.payload == payload && c.ts == now
    {
      hide Coherent, Serve, Refusal;
      ServeKeepsCoherent(Value(), Submit(pid, cmd, payload), now, frameTick);
      LookupRefuses(Value(), Submit(pid, cmd, payload), now, frameTick);
      if pid in playerRoom {
        HomeRoom(Value(), pid, frameTick);
        SubmitServes(Value(), pid, cmd, payload, now, frameTick);
      }
      clock := now;
      var rid;
      rid, error := PlayerRoom(pid);
      if error != None {
        return None, error;
      }
      var r := rooms[rid];
      if r.state != Playing {
        return None, Some(NotPlaying);
      }
      if cmd == "" {
        return None, Some(EmptyCommand);
      }
      var ev := Command(r.cmdSeq + 1, FrameAt(r, now, frameTick), pid, cmd, payload, now);
      var commands := r.commands + [ev];
      if |commands| > LOG_LIMIT {
        commands := commands[|commands| - LOG_LIMIT..];
      }
      rooms := rooms[rid := r.(cmdSeq := r.cmdSeq + 1, commands := commands)];
      history := history[rid := history[rid] + [ev]];
      return Some(ev), None;
    }

    /** A pull returns everything the room accepted after `last`, as long as the
        reader is at most 2048 inputs behind, and otherwise the last 2048. */
    method PullInputs(pid: Pid, last: nat, now: int)
      returns (events: seq<Command>, frame: nat, room: Option<Room>, error: Option<RoomError>)
      requires Valid() && clock <= now
      ensures error == if pid in playerRoom then None else Some(NotInRoom)
      ensures error == None ==>
                var rid := playerRoom[pid];
                rid in rooms && rid in history &&
                var h := history[rid];
                && frame == FrameAt(rooms[rid], now, frameTick) && room == Some(rooms[rid])
                && (last > |h| ==> events == [])
                && (last <= |h| ==> events == h[if |h| - last <= LOG_LIMIT then last else |h| - LOG_LIMIT..])
    {
      var rid;
      rid, error := PlayerRoom(pid);
      if pid in playerRoom {
        HomeRoom(Value(), pid, frameTick);
      }
      if error != None {
        return [], 0, None, error;
      }
      events := Select(rooms[rid].commands, last);
      frame, room := FrameAt(rooms[rid], now, frameTick), Some(rooms[rid]);
      if last <= |history[rid]| {
        PullIsExact(history[rid], last);
      } else {
        PullBeyond(history[rid], last);
      }
    }
  }
}
