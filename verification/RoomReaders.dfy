/** Reading a room's inputs while the room goes on: requests of anybody and the
    pulls of one member, in any order. */
module RoomReaders {
  import opened Wrappers
  import opened CommandLog
  import opened RoomRules

  datatype Turn = Ask(request: RoomRules.Operation, time: int) | Pull

  /** The lobby, and everything the reader has received so far. */
  datatype Reading = Reading(lobby: Lobby, received: seq<Command>)

  /** What one turn makes of a reading of room rid. The reader pulls as a member,
      with the number of the last input it has seen, 0 at first. */
  ghost predicate Turns(x: Reading, t: Turn, y: Reading, rid: Rid, tick: int)
    requires tick > 0
  {
    match t
    case Ask(q, now) =>
      && x.lobby.clock <= now && (q.Create? ==> q.rid !in x.lobby.rooms)
      && y == Reading(Serve(x.lobby, q, now, tick), x.received)
    case Pull =>
      rid in x.lobby.rooms && y == x.(received := x.received + After(x.lobby.rooms[rid].commands, Cursor(x.received)))
  }

  /** A reader no more than 2048 inputs behind when it pulls. */
  ghost predicate InTime(x: Reading, t: Turn, rid: Rid) {
    t.Pull? && rid in x.lobby.history ==> |x.lobby.history[rid]| - |x.received| <= LOG_LIMIT
  }

  /** y comes from x by the turns, during all of which the room exists and every
      pull is in time. */
  ghost predicate Reads(x: Reading, turns: seq<Turn>, y: Reading, rid: Rid, tick: int)
    requires tick > 0
    decreases |turns|
  {
    rid in y.lobby.rooms &&
    if turns == [] then y == x
    else
      var n := |turns| - 1;
      exists z :: Reads(x, turns[..n], z, rid, tick) && InTime(z, turns[n], rid) && Turns(z, turns[n], y, rid, tick)
  }

  /** A request changes a room's history, if at all, by adding one input to it. */
  lemma HistoryGrows(l: Lobby, q: RoomRules.Operation, now: int, tick: int, rid: Rid)
    requires tick > 0 && Coherent(l, tick) && rid in l.rooms && (q.Create? ==> q.rid !in l.rooms)
    requires rid in Serve(l, q, now, tick).rooms
    ensures var k := Serve(l, q, now, tick);
            && rid in l.history && rid in k.history
            && (k.history[rid] == l.history[rid] ||
                exists c :: k.history[rid] == l.history[rid] + [c])
  {
    hide JournalOk, RoomOk, Updated, Heir, FrameAt, Tail, Refusal, AllReady;
    if Refusal(l, q) == None {
      AppliedHistory(l, q, now, tick, rid);
    }
  }

  lemma AppliedHistory(l: Lobby, q: RoomRules.Operation, now: int, tick: int, rid: Rid)
    requires tick > 0 && Refusal(l, q) == None && l.history.Keys == l.rooms.Keys && rid in l.rooms
    requires (q.Create? ==> q.rid !in l.rooms) && rid in Applied(l, q, now, tick).rooms
    ensures var k := Applied(l, q, now, tick);
            rid in k.history && (k.history[rid] == l.history[rid] || exists c :: k.history[rid] == l.history[rid] + [c])
  {
    hide Updated, Heir, FrameAt, Tail, AllReady;
    if q.Submit? {
      var home := l.playerRoom[q.pid];
      var c := NewCommand(l.rooms[home], q.pid, q.cmd, q.payload, now, tick);
      if rid == home {
        assert Applied(l, q, now, tick).history[rid] == l.history[rid] + [c];
      }
    }
  }

  /** The reader has received a part of the room's history, from its beginning. */
  ghost predicate HasPrefix(x: Reading, rid: Rid) {
    rid in x.lobby.history && |x.received| <= |x.lobby.history[rid]|
    && x.received == x.lobby.history[rid][..|x.received|]
  }

  lemma TurnKeepsPrefix(x: Reading, t: Turn, y: Reading, rid: Rid, tick: int)
    requires tick > 0 && Coherent(x.lobby, tick) && rid in x.lobby.rooms && rid in y.lobby.rooms
    requires HasPrefix(x, rid) && InTime(x, t, rid) && Turns(x, t, y, rid, tick)
    ensures Coherent(y.lobby, tick) && HasPrefix(y, rid)
    ensures t.Pull? ==> y.received == y.lobby.history[rid]
    ensures x.lobby.history[rid] <= y.lobby.history[rid]
  {
    hide Coherent, Serve, HasPrefix, Tail, After;
    match t
    case Ask(q, now) =>
      ServeKeepsCoherent(x.lobby, q, now, tick);
      HistoryGrows(x.lobby, q, now, tick, rid);
      PrefixStays(x, y, rid);
    case Pull =>
      HistoryIsNumbered(x.lobby, rid, tick);
      PullCompletes(x, y, rid);
  }

  lemma PrefixStays(x: Reading, y: Reading, rid: Rid)
    requires HasPrefix(x, rid) && y.received == x.received && rid in y.lobby.history
    requires y.lobby.history[rid] == x.lobby.history[rid] ||
             exists c :: y.lobby.history[rid] == x.lobby.history[rid] + [c]
    ensures HasPrefix(y, rid) && x.lobby.history[rid] <= y.lobby.history[rid]
  {
  }

  lemma PullCompletes(x: Reading, y: Reading, rid: Rid)
    requires HasPrefix(x, rid) && rid in x.lobby.rooms && Numbered(x.lobby.history[rid])
    requires x.lobby.rooms[rid].commands == Tail(x.lobby.history[rid])
    requires |x.lobby.history[rid]| - |x.received| <= LOG_LIMIT
    requires y == x.(received := x.received + After(x.lobby.rooms[rid].commands, Cursor(x.received)))
    ensures HasPrefix(y, rid) && y.received == y.lobby.history[rid]
  {
    hide Tail, After, Numbered;
    var h, n := x.lobby.history[rid], |x.received|;
    assert h[..|h|] == h;
    NextPull(h, n, |h|);
  }

  lemma HistoryIsNumbered(l: Lobby, rid: Rid, tick: int)
    requires tick > 0 && Coherent(l, tick) && rid in l.rooms
    ensures rid in l.history && Numbered(l.history[rid]) && l.rooms[rid].commands == Tail(l.history[rid])
  {
    hide Mirrored, RoomsOk, Tail, FramesOrdered, FrameAt;
  }

  /** Over whole runs: a member who starts from 0 and is never more than 2048
      inputs behind when it pulls has at every point received the room's inputs
      from the first on, once each and in order, and right after a pull all of
      them; and the history itself only ever grows. */
  lemma {:induction false} ReaderMissesNothing(x: Reading, turns: seq<Turn>, y: Reading, rid: Rid, tick: int)
    requires tick > 0 && Coherent(x.lobby, tick) && x.received == []
    requires Reads(x, turns, y, rid, tick)
    ensures Coherent(y.lobby, tick) && rid in x.lobby.rooms && HasPrefix(y, rid)
    ensures turns != [] && turns[|turns| - 1].Pull? ==> y.received == y.lobby.history[rid]
    ensures rid in x.lobby.history && x.lobby.history[rid] <= y.lobby.history[rid]
    decreases |turns|
  {
    hide Coherent, Turns, InTime, Serve;
    if turns == [] {
      HistoryIsNumbered(x.lobby, rid, tick);
      assert x.received == x.lobby.history[rid][..0];
    } else {
      var n := |turns| - 1;
      var z :| Reads(x, turns[..n], z, rid, tick) && InTime(z, turns[n], rid) && Turns(z, turns[n], y, rid, tick);
      ReaderMissesNothing(x, turns[..n], z, rid, tick);
      TurnKeepsPrefix(z, turns[n], y, rid, tick);
    }
  }
}
