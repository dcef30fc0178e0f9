/** The table of running sessions and the connections to them. Creating a session
    again under the same room id replaces it and leaves the old connections open. */
module SessionTables {
  import opened Wrappers
  import opened Rules
  import opened Matches
  import opened Scheduler
  import opened RoomManager
  import opened SessionRules
  import opened Sessions

  type RoomId = string

  /** For each session the tickets it dealt, and who has a connection to it. */
  datatype Table = Table(tickets: map<RoomId, map<Pid, string>>, open: map<RoomId, set<Pid>>)

  datatype Change =
    | Create(rid: RoomId, tickets: map<Pid, string>)
    | Connect(rid: RoomId, pid: Pid, ticket: string)
    | Close(rid: RoomId, pid: Pid)

  const NO_SESSIONS := Table(map[], map[])

  predicate Admits(t: Table, rid: RoomId, pid: Pid, ticket: string) {
    ticket != "" && rid in t.tickets && pid in t.tickets[rid] && t.tickets[rid][pid] == ticket
  }

  function Connected(t: Table, rid: RoomId): set<Pid> {
    if rid in t.open then t.open[rid] else {}
  }

  function Changed(t: Table, q: Change): Table {
    match q
    case Create(rid, tickets) => t.(tickets := t.tickets[rid := tickets])
    case Connect(rid, pid, ticket) =>
      if Admits(t, rid, pid, ticket) then t.(open := t.open[rid := Connected(t, rid) + {pid}]) else t
    case Close(rid, pid) => t.(open := t.open[rid := Connected(t, rid) - {pid}])
  }

  /** Every connection is of a player of its session, who has a game there. */
  ghost predicate NoStrangers(t: Table) {
    forall r, p :: p in Connected(t, r) ==> r in t.tickets && p in t.tickets[r]
  }

  /** A session is created without someone who is connected to its room. */
  predicate LeavesOut(t: Table, q: Change) {
    q.Create? && !(Connected(t, q.rid) <= q.tickets.Keys)
  }

  lemma StrangersAreLeftOut(t: Table, q: Change)
    requires NoStrangers(t)
    ensures NoStrangers(Changed(t, q)) <==> !LeavesOut(t, q)
  {
    if LeavesOut(t, q) {
      var p :| p in Connected(t, q.rid) && p !in q.tickets.Keys;
      assert p in Connected(Changed(t, q), q.rid);
    } else {
      forall r, p | p in Connected(Changed(t, q), r)
        ensures r in Changed(t, q).tickets && p in Changed(t, q).tickets[r]
      {
        assert p in Connected(t, r) || (q.Connect? && q.rid == r && q.pid == p);
      }
    }
  }

  function TableAfter(qs: seq<Change>): Table {
    if qs == [] then NO_SESSIONS else Changed(TableAfter(qs[..|qs| - 1]), qs[|qs| - 1])
  }

  /** In no state of the run was there a stranger. */
  ghost predicate NeverStrangers(qs: seq<Change>) {
    NoStrangers(TableAfter(qs)) && (qs != [] ==> NeverStrangers(qs[..|qs| - 1]))
  }

  /** No change of the run left anyone out. */
  predicate NeverLeavesOut(qs: seq<Change>) {
    qs != [] ==> var n := |qs| - 1; !LeavesOut(TableAfter(qs[..n]), qs[n]) && NeverLeavesOut(qs[..n])
  }

  /** Over whole runs: strangers never turn up exactly when no session was ever
      created without someone connected to its room. */
  lemma {:induction false} StrangersNeedReplacement(qs: seq<Change>)
    ensures NeverStrangers(qs) <==> NeverLeavesOut(qs)
  {
    hide NoStrangers, LeavesOut, Changed;
    if qs == [] {
      NobodyIsStrange();
    } else {
      var n := |qs| - 1;
      StrangersNeedReplacement(qs[..n]);
      if NeverStrangers(qs[..n]) {
        StrangersAreLeftOut(TableAfter(qs[..n]), qs[n]);
      }
    }
  }

  lemma NobodyIsStrange()
    ensures NoStrangers(NO_SESSIONS)
  {
  }

  /** And that happens: a player of the first session is still connected to the
      second, which has no game for it. */
  lemma StrangerHappens(rid: RoomId, a: Pid, b: Pid, ticket: string)
    requires a != b && ticket != ""
    ensures var t := TableAfter([Create(rid, map[a := ticket]), Connect(rid, a, ticket),
                                 Create(rid, map[b := ticket])]);
            rid in t.tickets && a in Connected(t, rid) && a !in t.tickets[rid]
  {
    var q, r, s := Create(rid, map[a := ticket]), Connect(rid, a, ticket), Create(rid, map[b := ticket]);
    assert [q, r, s][..2] == [q, r] && [q, r][..1] == [q] && [q][..0] == [];
    assert TableAfter([q]) == Changed(NO_SESSIONS, q);
    assert TableAfter([q, r]) == Changed(TableAfter([q]), r);
  }

  class GameServer {
    var sessions: map<RoomId, GameSession>
    var wsConns: map<RoomId, set<Pid>>

    ghost function Value(): Table
      reads this
    {
      Table(map r | r in sessions :: sessions[r].Tickets, wsConns)
    }

    constructor ()
      ensures Value() == NO_SESSIONS
    {
      sessions, wsConns := map[], map[];
    }

    method Publish(rid: RoomId, sess: GameSession)
      modifies this`sessions
      ensures sessions == old(sessions)[rid := sess] && Value() == Changed(old(Value()), Create(rid, sess.Tickets))
    {
      sessions := sessions[rid := sess];
    }

    /** Refuses without a room or players; otherwise a new session takes the
        place of any old one. */
    method CreateSession(rid: RoomId, players: set<Pid>, now: int, rand: Pid -> Deal, randomTicket: Pid -> string)
      returns (tickets: Option<map<Pid, string>>)
      modifies this`sessions
      ensures tickets.Some? <==> rid != "" && players != {}
      ensures tickets == None ==> sessions == old(sessions)
      ensures tickets.Some? ==>
                && tickets.value == (map p | p in players :: randomTicket(p))
                && Value() == Changed(old(Value()), Create(rid, tickets.value))
                && rid in sessions && fresh(sessions[rid]) && sessions[rid].Valid()
                && sessions[rid].Value() == Created(players, p => InitialGame(rand(p)), now)
    {
      hide Gridded, Games, Fair, Created, Changed, Value;
      if rid == "" || players == {} {
        return None;
      }
      var sess := new GameSession(players, now, rand, randomTicket);
      label created:
      Publish(rid, sess);
      GamesUnchanged@created(sess.States);
      return Some(sess.Tickets);
    }

    method HandleWSGame(rid: RoomId, pid: Pid, ticket: string, at: int) returns (ok: bool)
      requires rid in sessions ==> sessions[rid].Valid()
      modifies this`wsConns, if rid in sessions then {sessions[rid]} else {}
      ensures ok <==> Admits(old(Value()), rid, pid, ticket)
      ensures Value() == Changed(old(Value()), Connect(rid, pid, ticket))
      ensures ok <==>
              rid in sessions && pid in sessions[rid].Tickets && sessions[rid].Tickets[pid] == ticket && ticket != ""
      ensures Connected(Value(), rid) == Connected(old(Value()), rid) + (if ok then {pid} else {})
      ensures rid in sessions ==> sessions[rid].Valid()
    {
      hide Gridded, Games, Fair;
      if rid !in sessions {
        return false;
      }
      ok := HandleConnect(sessions[rid], pid, ticket, at);
      label connected:
      if ok {
        wsConns := wsConns[rid := (if rid in wsConns then wsConns[rid] else {}) + {pid}];
        GamesUnchanged@connected(sessions[rid].States);
      }
    }

    method CloseWS(rid: RoomId, pid: Pid)
      modifies this`wsConns
      ensures Value() == Changed(old(Value()), Close(rid, pid))
      ensures Connected(Value(), rid) == Connected(old(Value()), rid) - {pid} && sessions == old(sessions)
    {
      wsConns := wsConns[rid := (if rid in wsConns then wsConns[rid] else {}) - {pid}];
    }

    /** A message over a connection goes to the session its room has by then: the
        server goes down exactly on an aim of a stranger there. */
    method ReadWS(rid: RoomId, mgr: Manager, e: Event, at: int, now: int) returns (panics: bool)
      requires rid in sessions ==> sessions[rid].Valid() && mgr.Valid() && mgr.clock <= now
      requires IsMessage(e)
      modifies if rid in sessions then
                 {sessions[rid], mgr} + Objects(sessions[rid].States) + BoardsOf(sessions[rid].States)
               else {}
      ensures panics <==> e.Aim? && rid in Value().tickets && e.pid !in Value().tickets[rid]
      ensures !panics && rid in sessions ==> sessions[rid].Valid() && mgr.Valid()
    {
      hide Gridded, Games, Fair;
      if rid !in sessions {
        return false;
      }
      ghost var ds;
      panics, ds := HandleMessage(sessions[rid], mgr, e, at, now);
    }
  }
}
