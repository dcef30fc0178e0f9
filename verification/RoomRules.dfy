/** The room manager's tables as a value, and what every operation makes of them.
    Fresh room ids, the clock and the member a map iteration meets first are
    inputs; the history records every accepted input and is never read. */
module RoomRules {
  import opened Wrappers
  import opened CommandLog

  type Pid = string
  type Rid = string

  datatype RoomState = Idle | Ready | Loading | Playing | Settlement | Closed

  datatype Room = Room(
    name: string,
    owner: Pid,
    state: RoomState,
    max: int,
    players: map<Pid, bool>,
    cmdSeq: nat,
    commands: seq<Command>,
    playingSince: Option<int>)

  datatype Lobby = Lobby(rooms: map<Rid, Room>, playerRoom: map<Pid, Rid>, history: map<Rid, History>, clock: int)

  datatype RoomError =
    | AlreadyInRoom | RoomNotFound | StateForbids | RoomFull | NotInRoom | OnlyOwnerStarts | NeedTwoPlayers
    | NotPlaying | EmptyCommand

  datatype Operation =
    | Create(pid: Pid, name: string, capacity: int, rid: Rid)
    | Join(pid: Pid, rid: Rid)
    | SetReady(pid: Pid, ready: bool)
    | Start(pid: Pid)
    | Leave(pid: Pid, heir: Pid)
    | Submit(pid: Pid, cmd: string, payload: string)

  // ------------------------------------------------- one room

  predicate AllReady(players: map<Pid, bool>) {
    forall p :: p in players ==> players[p]
  }

  function Since(r: Room, now: int): Option<int> {
    if r.playingSince == None then Some(now) else r.playingSince
  }

  /** The state a room falls into after its members or their readiness changed. */
  function Updated(r: Room, now: int): Room {
    if |r.players| == 0 then r.(state := Closed)
    else if |r.players| == 1 then r.(state := Idle)
    else if !AllReady(r.players) then r.(state := Ready)
    else if r.state in {Idle, Ready, Loading} then r.(state := Playing, playingSince := Since(r, now))
    else r
  }

  /** Frames since the room first played; a monotone clock never runs behind. */
  function FrameAt(r: Room, now: int, tick: int): nat
    requires tick > 0
  {
    if r.state != Playing || r.playingSince == None || now < r.playingSince.value then 0
    else (now - r.playingSince.value) / tick
  }

  function NewCommand(r: Room, pid: Pid, cmd: string, payload: string, now: int, tick: int): Command
    requires tick > 0
  {
    Command(r.cmdSeq + 1, FrameAt(r, now, tick), pid, cmd, payload, now)
  }

  // ------------------------------------------------- operations

  function Refusal(l: Lobby, q: Operation): Option<RoomError> {
    match q
    case Create(pid, _, _, _) => if pid in l.playerRoom then Some(AlreadyInRoom) else None
    case Join(pid, rid) =>
      if pid in l.playerRoom then Some(AlreadyInRoom)
      else if rid !in l.rooms then Some(RoomNotFound)
      else if l.rooms[rid].state in {Closed, Settlement, Playing} then Some(StateForbids)
      else if |l.rooms[rid].players| >= l.rooms[rid].max then Some(RoomFull)
      else None
    case _ =>
      if q.pid !in l.playerRoom then Some(NotInRoom)
      else if l.playerRoom[q.pid] !in l.rooms then Some(RoomNotFound)
      else
        var r := l.rooms[l.playerRoom[q.pid]];
        match q
        case Start(pid) =>
          if r.owner != pid then Some(OnlyOwnerStarts) else if |r.players| < 2 then Some(NeedTwoPlayers) else None
        case Submit(pid, cmd, _) =>
          if r.state != Playing then Some(NotPlaying) else if cmd == "" then Some(EmptyCommand) else None
        case _ => None
  }

  ghost function Heir(owner: Pid, pid: Pid, players: map<Pid, bool>, heir: Pid): (o: Pid)
    requires players.Keys != {}
    ensures owner in players.Keys + {pid} ==> o in players
  {
    if owner != pid then owner
    else if heir in players then heir
    else var p :| p in players.Keys; p
  }

  ghost function WithRoom(l: Lobby, rid: Rid, r: Room): Lobby {
    l.(rooms := l.rooms[rid := r])
  }

  ghost function Left(l: Lobby, pid: Pid, rid: Rid, heir: Pid, now: int): Lobby
    requires rid in l.rooms
  {
    var r := l.rooms[rid];
    var players := r.players - {pid};
    if players.Keys == {} then
      Lobby(l.rooms - {rid}, l.playerRoom - {pid}, l.history - {rid}, l.clock)
    else
      var stays := r.(players := players, owner := Heir(r.owner, pid, players, heir));
      l.(rooms := l.rooms[rid := Updated(stays, now)], playerRoom := l.playerRoom - {pid})
  }

  function CapacityOf(capacity: int): int {
    if capacity <= 1 then 2 else capacity
  }

  ghost function Applied(l: Lobby, q: Operation, now: int, tick: int): Lobby
    requires tick > 0 && Refusal(l, q) == None
  {
    if q.Create? then
      l.(rooms := l.rooms[q.rid := Room(q.name, q.pid, Idle, CapacityOf(q.capacity), map[q.pid := false], 0, [], None)],
         playerRoom := l.playerRoom[q.pid := q.rid],
         history := l.history[q.rid := []])
    else if q.Join? then
      var r := l.rooms[q.rid];
      WithRoom(l, q.rid, Updated(r.(players := r.players[q.pid := false]), now)).(
        playerRoom := l.playerRoom[q.pid := q.rid])
    else
      var rid := l.playerRoom[q.pid];
      var r := l.rooms[rid];
      match q
      case SetReady(pid, ready) => WithRoom(l, rid, Updated(r.(players := r.players[pid := ready]), now))
      case Start(pid) => WithRoom(l, rid, r.(state := Playing, playingSince := Since(r, now)))
      case Leave(pid, heir) => Left(l, pid, rid, heir, now)
      case Submit(pid, cmd, payload) =>
        var c := NewCommand(r, pid, cmd, payload, now, tick);
        WithRoom(l, rid, r.(cmdSeq := r.cmdSeq + 1, commands := Tail(r.commands + [c])))
          .(history := if rid in l.history then l.history[rid := l.history[rid] + [c]] else l.history)
      case _ => l
  }

  ghost function Serve(l: Lobby, q: Operation, now: int, tick: int): Lobby
    requires tick > 0
  {
    (if Refusal(l, q) == None then Applied(l, q, now, tick) else l).(clock := now)
  }

  // ------------------------------------------------- invariant

  ghost predicate RoomOk(r: Room) {
    && r.owner in r.players && |r.players| <= r.max
    && (r.state == Idle <==> |r.players| == 1)
    && (|r.players| >= 2 ==> r.state in {Ready, Playing})
    && (|r.players| >= 2 && AllReady(r.players) ==> r.state == Playing)
    && (r.state == Playing ==> r.playingSince.Some?)
  }

  /** The log is the bounded tail of a history numbered from 1 with frames that
      never decrease and never run ahead of the clock. */
  ghost predicate JournalOk(r: Room, h: History, clock: int, tick: int)
    requires tick > 0
  {
    && Numbered(h) && FramesOrdered(h)
    && |h| == r.cmdSeq && r.commands == Tail(h)
    && (r.playingSince.Some? ==> r.playingSince.value <= clock)
    && (h != [] ==> r.playingSince.Some? && h[|h| - 1].frame <= (clock - r.playingSince.value) / tick)
  }

  /** The two maps mirror each other. */
  ghost predicate Mirrored(l: Lobby) {
    && (forall p :: p in l.playerRoom ==> l.playerRoom[p] in l.rooms && p in l.rooms[l.playerRoom[p]].players)
    && (forall r, p :: r in l.rooms && p in l.rooms[r].players ==> p in l.playerRoom && l.playerRoom[p] == r)
  }

  ghost predicate RoomsOk(l: Lobby) {
    forall r :: r in l.rooms ==> RoomOk(l.rooms[r])
  }

  ghost predicate JournalsOk(l: Lobby, tick: int)
    requires tick > 0
  {
    l.history.Keys == l.rooms.Keys &&
    forall r :: r in l.rooms ==> JournalOk(l.rooms[r], l.history[r], l.clock, tick)
  }

  ghost predicate Coherent(l: Lobby, tick: int)
    requires tick > 0
  {
    Mirrored(l) && RoomsOk(l) && JournalsOk(l, tick)
  }

  // ------------------------------------------------- steps keep it

  lemma UpdatedRoomOk(r: Room, now: int)
    requires r.players.Keys != {} && r.owner in r.players && |r.players| <= r.max
    requires r.state in {Idle, Ready, Playing} && (r.state == Playing ==> r.playingSince.Some?)
    ensures RoomOk(Updated(r, now))
    ensures Updated(r, now) == r.(state := Updated(r, now).state, playingSince := Updated(r, now).playingSince)
    ensures Updated(r, now).playingSince == r.playingSince || Updated(r, now).playingSince == Since(r, now)
  {
    assert |r.players| == |r.players.Keys| > 0;
  }

  /** Time may pass, and play may begin, without touching the journal. */
  lemma JournalAges(r: Room, s: Room, h: History, clock: int, now: int, tick: int)
    requires tick > 0 && clock <= now && JournalOk(r, h, clock, tick)
    requires s.cmdSeq == r.cmdSeq && s.commands == r.commands
    requires s.playingSince == r.playingSince || s.playingSince == Since(r, now)
    ensures JournalOk(s, h, now, tick)
  {
    if h != [] {
      var t := r.playingSince.value;
      DivMonotone(clock - t, now - t, tick);
    }
  }

  lemma DivMonotone(a: int, b: int, t: int)
    requires t > 0 && a <= b
    ensures a / t <= b / t
  {
    if b / t < a / t {
      Multiply(b / t + 1, a / t, t);
    }
  }

  lemma Multiply(x: int, y: int, t: int)
    requires x <= y && 0 < t
    ensures x * t <= y * t
  {
  }

  lemma SubmitExtendsJournal(r: Room, h: History, c: Command, clock: int, now: int, tick: int)
    requires tick > 0 && clock <= now && JournalOk(r, h, clock, tick)
    requires r.state == Playing && r.playingSince.Some?
    requires c.number == r.cmdSeq + 1 && c.frame == FrameAt(r, now, tick)
    ensures JournalOk(r.(cmdSeq := r.cmdSeq + 1, commands := Tail(r.commands + [c])), h + [c], now, tick)
  {
    AppendKeepsTail(h, c);
    var t := r.playingSince.value;
    DivMonotone(clock - t, now - t, tick);
    assert 0 <= (now - t) / tick;
    forall i, j | 0 <= i <= j < |h + [c]| ensures (h + [c])[i].frame <= (h + [c])[j].frame {
      if i < |h| {
        assert h[i].frame <= h[|h| - 1].frame;
      }
    }
  }

  /** Replacing one room by an updated version with the same members. */
  lemma RoomChanges(l: Lobby, rid: Rid, s: Room, h: History, now: int, tick: int)
    requires tick > 0 && Coherent(l, tick) && l.clock <= now && rid in l.rooms
    requires s.players.Keys == l.rooms[rid].players.Keys && RoomOk(s) && JournalOk(s, h, now, tick)
    ensures Coherent(Lobby(l.rooms[rid := s], l.playerRoom, l.history[rid := h], now), tick)
  {
    hide RoomOk, JournalOk;
    OthersAge(l, rid, now, tick);
  }

  lemma OthersAge(l: Lobby, rid: Rid, now: int, tick: int)
    requires tick > 0 && JournalsOk(l, tick) && l.clock <= now
    ensures forall r :: r in l.rooms ==> JournalOk(l.rooms[r], l.history[r], now, tick)
  {
    hide JournalOk;
    forall r | r in l.rooms ensures JournalOk(l.rooms[r], l.history[r], now, tick) {
      JournalAges(l.rooms[r], l.rooms[r], l.history[r], l.clock, now, tick);
    }
  }

  lemma HomeRoom(l: Lobby, pid: Pid, tick: int)
    requires tick > 0 && Coherent(l, tick) && pid in l.playerRoom
    ensures var rid := l.playerRoom[pid];
            && rid in l.rooms && rid in l.history && pid in l.rooms[rid].players
            && RoomOk(l.rooms[rid]) && JournalOk(l.rooms[rid], l.history[rid], l.clock, tick)
  {
    hide RoomOk, JournalOk;
  }

  lemma RoomOpens(l: Lobby, pid: Pid, rid: Rid, r: Room, now: int, tick: int)
    requires tick > 0 && Coherent(l, tick) && l.clock <= now && rid !in l.rooms && pid !in l.playerRoom
    requires r.players.Keys == {pid} && RoomOk(r) && JournalOk(r, [], now, tick)
    ensures Coherent(Lobby(l.rooms[rid := r], l.playerRoom[pid := rid], l.history[rid := []], now), tick)
  {
    hide RoomOk, JournalOk;
    OthersAge(l, rid, now, tick);
  }

  lemma MemberEnters(l: Lobby, pid: Pid, rid: Rid, s: Room, now: int, tick: int)
    requires tick > 0 && Coherent(l, tick) && l.clock <= now && rid in l.rooms && pid !in l.playerRoom
    requires s.players.Keys == l.rooms[rid].players.Keys + {pid}
    requires rid in l.history && RoomOk(s) && JournalOk(s, l.history[rid], now, tick)
    ensures Coherent(Lobby(l.rooms[rid := s], l.playerRoom[pid := rid], l.history, now), tick)
  {
    hide RoomOk, JournalOk;
    OthersAge(l, rid, now, tick);
  }

  lemma MemberGoes(l: Lobby, pid: Pid, rid: Rid, s: Room, now: int, tick: int)
    requires tick > 0 && Coherent(l, tick) && l.clock <= now && pid in l.playerRoom && l.playerRoom[pid] == rid
    requires rid in l.rooms && s.players.Keys == l.rooms[rid].players.Keys - {pid}
    requires rid in l.history && RoomOk(s) && JournalOk(s, l.history[rid], now, tick)
    ensures Coherent(Lobby(l.rooms[rid := s], l.playerRoom - {pid}, l.history, now), tick)
  {
    hide RoomOk, JournalOk;
    OthersAge(l, rid, now, tick);
  }

  lemma RoomCloses(l: Lobby, pid: Pid, rid: Rid, now: int, tick: int)
    requires tick > 0 && Coherent(l, tick) && l.clock <= now && rid in l.rooms && l.rooms[rid].players.Keys == {pid}
    ensures Coherent(Lobby(l.rooms - {rid}, l.playerRoom - {pid}, l.history - {rid}, now), tick)
  {
    hide RoomOk, JournalOk;
    OthersAge(l, rid, now, tick);
    var k := Lobby(l.rooms - {rid}, l.playerRoom - {pid}, l.history - {rid}, now);
    forall p | p in l.rooms[rid].players ensures p == pid {
      assert p in l.rooms[rid].players.Keys;
    }
    forall p | p in k.playerRoom ensures k.playerRoom[p] in k.rooms && p in k.rooms[k.playerRoom[p]].players {}
    forall r, p | r in k.rooms && p in k.rooms[r].players ensures p in k.playerRoom && k.playerRoom[p] == r {
      assert pid in l.rooms[rid].players;
      assert l.playerRoom[p] == r;
    }
  }

  lemma NewRoomOk(q: Operation, now: int, tick: int)
    requires tick > 0 && q.Create?
    ensures var r := Room(q.name, q.pid, Idle, CapacityOf(q.capacity), map[q.pid := false], 0, [], None);
            r.players.Keys == {q.pid} && RoomOk(r) && JournalOk(r, [], now, tick)
  {
  }

  lemma CreateKeepsCoherent(l: Lobby, q: Operation, now: int, tick: int)
    requires tick > 0 && Coherent(l, tick) && l.clock <= now
    requires q.Create? && Refusal(l, q) == None && q.rid !in l.rooms
    ensures Coherent(Serve(l, q, now, tick), tick)
  {
    hide Coherent, RoomOk, JournalOk, CapacityOf;
    NewRoomOk(q, now, tick);
    RoomOpens(l, q.pid, q.rid, Room(q.name, q.pid, Idle, CapacityOf(q.capacity), map[q.pid := false], 0, [], None),
              now, tick);
  }

  lemma KnownRoom(l: Lobby, rid: Rid, tick: int)
    requires tick > 0 && Coherent(l, tick) && rid in l.rooms
    ensures rid in l.history && RoomOk(l.rooms[rid]) && JournalOk(l.rooms[rid], l.history[rid], l.clock, tick)
    ensures forall p :: p in l.rooms[rid].players ==> p in l.playerRoom
  {
    hide RoomOk, JournalOk;
  }

  lemma JoinKeepsCoherent(l: Lobby, q: Operation, now: int, tick: int)
    requires tick > 0 && Coherent(l, tick) && l.clock <= now
    requires q.Join? && Refusal(l, q) == None
    ensures Coherent(Serve(l, q, now, tick), tick)
  {
    hide Coherent, RoomOk, JournalOk, Updated;
    var r := l.rooms[q.rid];
    var joined := r.(players := r.players[q.pid := false]);
    KnownRoom(l, q.rid, tick);
    JoinedRoomOk(r, q.pid, now);
    JournalAges(r, Updated(joined, now), l.history[q.rid], l.clock, now, tick);
    MemberEnters(l, q.pid, q.rid, Updated(joined, now), now, tick);
  }

  lemma JoinedRoomOk(r: Room, pid: Pid, now: int)
    requires RoomOk(r) && pid !in r.players && |r.players| < r.max && r.state != Playing
    ensures var s := Updated(r.(players := r.players[pid := false]), now);
            && RoomOk(s) && s.players == r.players[pid := false]
            && s.cmdSeq == r.cmdSeq && s.commands == r.commands
            && (s.playingSince == r.playingSince || s.playingSince == Since(r, now))
  {
    var j := r.(players := r.players[pid := false]);
    assert j.players.Keys == r.players.Keys + {pid};
    UpdatedRoomOk(j, now);
  }

  lemma LeftRoomOk(r: Room, pid: Pid, heir: Pid, now: int)
    requires RoomOk(r) && pid in r.players && (r.players - {pid}).Keys != {}
    ensures var players := r.players - {pid};
            var s := Updated(r.(players := players, owner := Heir(r.owner, pid, players, heir)), now);
            && RoomOk(s) && s.players == players
            && s.cmdSeq == r.cmdSeq && s.commands == r.commands
            && (s.playingSince == r.playingSince || s.playingSince == Since(r, now))
  {
    var players := r.players - {pid};
    assert players.Keys == r.players.Keys - {pid};
    UpdatedRoomOk(r.(players := players, owner := Heir(r.owner, pid, players, heir)), now);
  }

  lemma LeaveKeepsCoherent(l: Lobby, q: Operation, now: int, tick: int)
    requires tick > 0 && Coherent(l, tick) && l.clock <= now
    requires q.Leave? && Refusal(l, q) == None
    ensures Coherent(Serve(l, q, now, tick), tick)
  {
    hide Coherent, RoomOk, JournalOk, Updated, Heir;
    HomeRoom(l, q.pid, tick);
    var rid := l.playerRoom[q.pid];
    var r := l.rooms[rid];
    var players := r.players - {q.pid};
    if players.Keys == {} {
      assert r.players.Keys == {q.pid};
      RoomCloses(l, q.pid, rid, now, tick);
    } else {
      var s := Updated(r.(players := players, owner := Heir(r.owner, q.pid, players, q.heir)), now);
      LeftRoomOk(r, q.pid, q.heir, now);
      JournalAges(r, s, l.history[rid], l.clock, now, tick);
      MemberGoes(l, q.pid, rid, s, now, tick);
    }
  }

  lemma ReadyKeepsCoherent(l: Lobby, q: Operation, now: int, tick: int)
    requires tick > 0 && Coherent(l, tick) && l.clock <= now
    requires q.SetReady? && Refusal(l, q) == None
    ensures Coherent(Serve(l, q, now, tick), tick)
  {
    HomeRoom(l, q.pid, tick);
    var rid := l.playerRoom[q.pid];
    var r := l.rooms[rid];
    var changed := r.(players := r.players[q.pid := q.ready]);
    assert changed.players.Keys == r.players.Keys;
    UpdatedRoomOk(changed, now);
    JournalAges(r, Updated(changed, now), l.history[rid], l.clock, now, tick);
    RoomChanges(l, rid, Updated(changed, now), l.history[rid], now, tick);
    assert l.history[rid := l.history[rid]] == l.history;
  }

  lemma StartKeepsCoherent(l: Lobby, q: Operation, now: int, tick: int)
    requires tick > 0 && Coherent(l, tick) && l.clock <= now
    requires q.Start? && Refusal(l, q) == None
    ensures Coherent(Serve(l, q, now, tick), tick)
  {
    HomeRoom(l, q.pid, tick);
    var rid := l.playerRoom[q.pid];
    var r := l.rooms[rid];
    var started := r.(state := Playing, playingSince := Since(r, now));
    JournalAges(r, started, l.history[rid], l.clock, now, tick);
    RoomChanges(l, rid, started, l.history[rid], now, tick);
    assert l.history[rid := l.history[rid]] == l.history;
  }

  /** The room after an accepted input, and the input. */
  lemma SubmittedRoomOk(r: Room, h: History, c: Command, clock: int, now: int, tick: int)
    requires tick > 0 && clock <= now && RoomOk(r) && JournalOk(r, h, clock, tick) && r.state == Playing
    requires c.number == r.cmdSeq + 1 && c.frame == FrameAt(r, now, tick)
    ensures var s := r.(cmdSeq := r.cmdSeq + 1, commands := Tail(r.commands + [c]));
            RoomOk(s) && JournalOk(s, h + [c], now, tick)
  {
    SubmitExtendsJournal(r, h, c, clock, now, tick);
  }

  lemma SubmitKeepsCoherent(l: Lobby, q: Operation, now: int, tick: int)
    requires tick > 0 && Coherent(l, tick) && l.clock <= now
    requires q.Submit? && Refusal(l, q) == None
    ensures Coherent(Serve(l, q, now, tick), tick)
  {
    LookupRefuses(l, q, now, tick);
    HomeRoom(l, q.pid, tick);
    SubmitServes(l, q.pid, q.cmd, q.payload, now, tick);
    var rid := l.playerRoom[q.pid];
    var r := l.rooms[rid];
    var c := NewCommand(r, q.pid, q.cmd, q.payload, now, tick);
    KnownRoom(l, rid, tick);
    SubmittedRoomOk(r, l.history[rid], c, l.clock, now, tick);
    hide Coherent, Serve, Refusal, JournalOk, RoomOk, Tail, NewCommand, FrameAt;
    RoomChanges(l, rid, r.(cmdSeq := r.cmdSeq + 1, commands := Tail(r.commands + [c])), l.history[rid] + [c],
                now, tick);
  }

  lemma RefusalKeepsCoherent(l: Lobby, q: Operation, now: int, tick: int)
    requires tick > 0 && Coherent(l, tick) && l.clock <= now && Refusal(l, q) != None
    ensures Coherent(Serve(l, q, now, tick), tick)
  {
    hide RoomOk, JournalOk, Refusal;
    OthersAge(l, "", now, tick);
  }

  /** Every operation, accepted or refused, keeps the manager coherent. */
  lemma ServeKeepsCoherent(l: Lobby, q: Operation, now: int, tick: int)
    requires tick > 0 && Coherent(l, tick) && l.clock <= now
    requires q.Create? ==> q.rid !in l.rooms
    ensures Coherent(Serve(l, q, now, tick), tick)
  {
    hide Coherent, Refusal, Serve;
    if Refusal(l, q) != None {
      RefusalKeepsCoherent(l, q, now, tick);
    } else {
      match q
      case Create(_, _, _, _) => CreateKeepsCoherent(l, q, now, tick);
      case Join(_, _) => JoinKeepsCoherent(l, q, now, tick);
      case SetReady(_, _) => ReadyKeepsCoherent(l, q, now, tick);
      case Start(_) => StartKeepsCoherent(l, q, now, tick);
      case Leave(_, _) => LeaveKeepsCoherent(l, q, now, tick);
      case Submit(_, _, _) => SubmitKeepsCoherent(l, q, now, tick);
    }
  }

  lemma ServeSetsClock(l: Lobby, q: Operation, now: int, tick: int)
    requires tick > 0
    ensures Serve(l, q, now, tick).clock == now
  {
    hide Applied, Refusal;
  }

  // ------------------------------------------------- operation by operation

  lemma JoinServes(l: Lobby, pid: Pid, rid: Rid, now: int, tick: int)
    requires tick > 0
    ensures var e, k := Refusal(l, Join(pid, rid)), Serve(l, Join(pid, rid), now, tick);
            if pid in l.playerRoom then e == Some(AlreadyInRoom) && k == l.(clock := now)
            else if rid !in l.rooms then e == Some(RoomNotFound) && k == l.(clock := now)
            else if l.rooms[rid].state in {Closed, Settlement, Playing} then
              e == Some(StateForbids) && k == l.(clock := now)
            else if |l.rooms[rid].players| >= l.rooms[rid].max then e == Some(RoomFull) && k == l.(clock := now)
            else
              e == None &&
              k == Lobby(l.rooms[rid := Updated(l.rooms[rid].(players := l.rooms[rid].players[pid := false]), now)],
                         l.playerRoom[pid := rid], l.history, now)
  {
    hide Updated;
  }

  /** The lookup that all requests of players inside a room start with. */
  lemma LookupRefuses(l: Lobby, q: Operation, now: int, tick: int)
    requires tick > 0 && !q.Create? && !q.Join?
    ensures q.pid !in l.playerRoom ==> Refusal(l, q) == Some(NotInRoom)
    ensures q.pid in l.playerRoom && l.playerRoom[q.pid] !in l.rooms ==> Refusal(l, q) == Some(RoomNotFound)
    ensures Refusal(l, q) != None ==> Serve(l, q, now, tick) == l.(clock := now)
  {
    hide Applied;
  }

  lemma LeaveServes(l: Lobby, pid: Pid, heir: Pid, now: int, tick: int)
    requires tick > 0 && pid in l.playerRoom && l.playerRoom[pid] in l.rooms
    ensures Refusal(l, Leave(pid, heir)) == None
    ensures Serve(l, Leave(pid, heir), now, tick) == Left(l, pid, l.playerRoom[pid], heir, now).(clock := now)
  {
    hide Left;
  }

  lemma ReadyServes(l: Lobby, pid: Pid, ready: bool, now: int, tick: int)
    requires tick > 0 && pid in l.playerRoom && l.playerRoom[pid] in l.rooms
    ensures var rid := l.playerRoom[pid];
            && Refusal(l, SetReady(pid, ready)) == None
            && Serve(l, SetReady(pid, ready), now, tick) ==
               Lobby(l.rooms[rid := Updated(l.rooms[rid].(players := l.rooms[rid].players[pid := ready]), now)],
                     l.playerRoom, l.history, now)
  {
    hide Updated;
  }

  lemma StartServes(l: Lobby, pid: Pid, now: int, tick: int)
    requires tick > 0 && pid in l.playerRoom && l.playerRoom[pid] in l.rooms
    ensures var rid, r := l.playerRoom[pid], l.rooms[l.playerRoom[pid]];
            if r.owner != pid then Refusal(l, Start(pid)) == Some(OnlyOwnerStarts)
            else if |r.players| < 2 then Refusal(l, Start(pid)) == Some(NeedTwoPlayers)
            else
              && Refusal(l, Start(pid)) == None
              && Serve(l, Start(pid), now, tick) ==
                 Lobby(l.rooms[rid := r.(state := Playing, playingSince := Since(r, now))], l.playerRoom, l.history,
                       now)
  {
  }

  lemma SubmitServes(l: Lobby, pid: Pid, cmd: string, payload: string, now: int, tick: int)
    requires tick > 0 && pid in l.playerRoom && l.playerRoom[pid] in l.rooms && l.playerRoom[pid] in l.history
    ensures var q, rid := Submit(pid, cmd, payload), l.playerRoom[pid];
            var r, c := l.rooms[rid], NewCommand(l.rooms[rid], pid, cmd, payload, now, tick);
            if r.state != Playing then Refusal(l, q) == Some(NotPlaying)
            else if cmd == "" then Refusal(l, q) == Some(EmptyCommand)
            else
              && Refusal(l, q) == None
              && Serve(l, q, now, tick) ==
                 Lobby(l.rooms[rid := r.(cmdSeq := r.cmdSeq + 1, commands := Tail(r.commands + [c]))], l.playerRoom,
                       l.history[rid := l.history[rid] + [c]], now)
  {
    hide Tail, NewCommand;
  }

  // ------------------------------------------------- whole runs

  datatype Arrival = Arrival(request: Operation, time: int)

  const EMPTY_LOBBY := Lobby(map[], map[], map[], 0)

  /** l is what the empty manager becomes by serving the arrivals in order, at
      nondecreasing times and with fresh room ids. */
  ghost predicate Served(arrivals: seq<Arrival>, l: Lobby, tick: int)
    requires tick > 0
    decreases |arrivals|
  {
    if arrivals == [] then l == EMPTY_LOBBY
    else
      var n := |arrivals| - 1;
      var Arrival(q, now) := arrivals[n];
      exists k :: Served(arrivals[..n], k, tick) && k.clock <= now && (q.Create? ==> q.rid !in k.rooms)
                  && l == Serve(k, q, now, tick)
  }

  /** In every reachable state: the maps are mutually inverse, every room is
      non-empty, within capacity, owned by a member and in the state its members
      call for, and every log is the tail of its whole history. */
  lemma {:induction false} ServedIsCoherent(arrivals: seq<Arrival>, l: Lobby, tick: int)
    requires tick > 0 && Served(arrivals, l, tick)
    ensures Coherent(l, tick)
    decreases |arrivals|
  {
    hide Serve, RoomOk, JournalOk;
    if arrivals != [] {
      var n := |arrivals| - 1;
      var Arrival(q, now) := arrivals[n];
      var k :| Served(arrivals[..n], k, tick) && k.clock <= now && (q.Create? ==> q.rid !in k.rooms)
               && l == Serve(k, q, now, tick);
      ServedIsCoherent(arrivals[..n], k, tick);
      ServeKeepsCoherent(k, q, now, tick);
    }
  }
}
