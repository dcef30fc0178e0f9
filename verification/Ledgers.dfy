/** The single-process server with its books: beside the tables, for each running
    match, what was dealt to it and what became of every landing since. */
module Ledgers {
  import opened Grid
  import opened Boards
  import opened Rules
  import opened Matches
  import opened MonoRules

  datatype Books = Books(tables: Tables, matches: map<Rid, Match>)

  ghost predicate Kept(x: Books) {
    && Coherent(x.tables) && x.matches.Keys == x.tables.games.Keys
    && forall r :: r in x.matches ==>
         r in x.tables.nextAdd && Running(x.tables.games[r], x.tables.nextAdd[r], x.matches[r])
  }

  /** What a request that does not deal enters in the books of a room's match. */
  ghost function Continued(m: Match, q: Request, r: Rid): Match
    requires Consistent(m)
  {
    if q.Deliver? && q.rid == r && IsMessage(q.event) then Step(m, q.event)
    else if q.PollRoom? && q.rid == r then
      var ticked := Event.Tick(q.now, q.draws);
      StepKeepsConsistent(m, ticked);
      Step(Step(m, ticked), AddLayers(q.now, q.tops))
    else m
  }

  ghost function Entry(x: Books, q: Request, r: Rid): Match
    requires Kept(x) && InProtocol(x.tables) && r in Serve(x.tables, q).games
  {
    if Deals(x.tables, q, r) then Opened(Serve(x.tables, q).games[r], q.time)
    else
      RoomOfMatch(x, q, r);
      Continued(x.matches[r], q, r)
  }

  lemma RoomOfMatch(x: Books, q: Request, r: Rid)
    requires Kept(x) && InProtocol(x.tables) && r in Serve(x.tables, q).games && !Deals(x.tables, q, r)
    ensures r in x.matches && Consistent(x.matches[r])
  {
    hide Coherent, InProtocol, Reachable, Receive, Poll, AfterLeaving, Swept, Incoming, Connected, CreateRoom, JoinRoom;
    ServeScope(x.tables, q, r);
    ReachableIsConsistent(x.matches[r]);
  }

  /** The books after serving one more request. */
  ghost function Recorded(x: Books, q: Request): Books
    requires Kept(x) && InProtocol(x.tables)
  {
    Books(Serve(x.tables, q), map r | r in Serve(x.tables, q).games :: Entry(x, q, r))
  }

  lemma DealIsRunning(t: Tables, q: Request, r: Rid)
    requires InProtocol(t) && Deals(t, q, r) && Admissible(t, q)
    ensures var u := Serve(t, q);
            r in u.games && r in u.nextAdd && Running(u.games[r], u.nextAdd[r], Opened(u.games[r], q.time))
  {
    hide Reachable, Dealt, Opened;
    var games := Serve(t, q).games[r];
    assert forall p :: p in games ==> Dealt(games[p]);
    OpenedRuns(games, q.time);
  }

  lemma OpenedRuns(games: map<Pid, Game>, now: nat)
    requires forall p :: p in games ==> Dealt(games[p])
    ensures Running(games, now + PERIOD, Opened(games, now))
  {
    hide Reachable, Dealt;
    assert Starts(Opened(games, now));
    StartIsReachable(Opened(games, now));
  }

  lemma MessageKeepsDeadline(m: Match, e: Event)
    requires Consistent(m) && IsMessage(e)
    ensures Step(m, e).nextAt == m.nextAt
  {
    hide Consistent, Played, Booked;
  }

  lemma MessageIsEntered(t: Tables, rid: Rid, e: Event, m: Match)
    requires Coherent(t) && IsMessage(e) && rid in t.games && rid in t.nextAdd
    requires Running(t.games[rid], t.nextAdd[rid], m)
    requires InProtocol(t) && rid in Receive(t, rid, e).games
    ensures Consistent(m)
    ensures var u := Receive(t, rid, e);
            rid in u.nextAdd && Running(u.games[rid], u.nextAdd[rid], Step(m, e))
  {
    hide Coherent, InProtocol, Reachable, Receive, AllProtocol, Consistent, Played, Step;
    ReachableIsConsistent(m);
    StepIsReachable(m, e);
    StepByKind(m, e);
    MessageKeepsDeadline(m, e);
    ReceivedMatch(t, rid, e);
  }

  /** The match of a room after a message, if it goes on. */
  lemma ReceivedMatch(t: Tables, rid: Rid, e: Event)
    requires InProtocol(t) && IsMessage(e) && rid in t.games && rid in t.nextAdd && rid in Receive(t, rid, e).games
    ensures var u := Receive(t, rid, e);
            rid in u.nextAdd && u.nextAdd[rid] == t.nextAdd[rid] && u.games[rid] == Played(t.games[rid], e)
  {
    hide Outcome, AllProtocol;
    if e.pid in t.games[rid] {
      var u := t.(games := t.games[rid := Played(t.games[rid], e)]);
      if e.Land? {
        OutcomeFollows(u, rid, rid);
      }
    }
  }

  lemma PollSteps(m: Match, q: Request)
    requires q.PollRoom? && Reachable(m)
    ensures Consistent(m) && Reachable(Continued(m, q, q.rid))
    ensures Consistent(Step(m, Event.Tick(q.now, q.draws)))
    ensures Continued(m, q, q.rid) == Step(Step(m, Event.Tick(q.now, q.draws)), AddLayers(q.now, q.tops))
  {
    hide Reachable, Step;
    StepIsReachable(m, Event.Tick(q.now, q.draws));
    StepIsReachable(Step(m, Event.Tick(q.now, q.draws)), AddLayers(q.now, q.tops));
  }

  lemma TickIsEntered(m: Match, now: int, draws: Pid -> Colour)
    requires Consistent(m)
    ensures var k := Step(m, Event.Tick(now, draws));
            AllProtocol(m.games) && k.games == Ticked(m.games, now, draws) && k.nextAt == m.nextAt
  {
    hide Ticked, Protocol, Balanced;
  }

  lemma PollIsEntered(t: Tables, q: Request, m: Match)
    requires q.PollRoom? && Coherent(t) && q.rid in t.games && q.rid in t.nextAdd
    requires Running(t.games[q.rid], t.nextAdd[q.rid], m)
    requires InProtocol(t) && q.rid in Poll(t, q.rid, q.now, q.draws, q.tops).games
    ensures Consistent(m)
    ensures var u := Poll(t, q.rid, q.now, q.draws, q.tops);
            q.rid in u.nextAdd && Running(u.games[q.rid], u.nextAdd[q.rid], Continued(m, q, q.rid))
  {
    hide Coherent, InProtocol, Reachable, Outcome, Schedule, AllProtocol, Consistent, Ticked, Step, Continued;
    var rid, ticked := q.rid, Event.Tick(q.now, q.draws);
    PollSteps(m, q);
    TickIsEntered(m, q.now, q.draws);
    RunningIsARoom(t);
    PollKeepsCoherent(t, rid, q.now, q.draws, q.tops);
    var u := t.(games := t.games[rid := Ticked(t.games[rid], q.now, q.draws)]);
    var v := Outcome(u, rid);
    ScheduleAddsNoGame(v, rid, q.now, q.tops, rid);
    OutcomeFollows(u, rid, rid);
    ScheduleIsEntered(v, rid, q.now, q.tops, Step(m, ticked));
  }

  lemma ScheduleIsEntered(t: Tables, rid: Rid, now: int, tops: (Pid, nat) -> Layer, m: Match)
    requires Coherent(t) && rid in t.games && rid in t.nextAdd && Consistent(m)
    requires m.games == t.games[rid] && m.nextAt == t.nextAdd[rid]
    ensures var u, k := Schedule(t, rid, now, tops), Step(m, AddLayers(now, tops));
            rid in u.games && rid in u.nextAdd && k.games == u.games[rid] && k.nextAt == u.nextAdd[rid]
  {
    hide RoomsOk, HomesOk, MatchesOk, Consistent, LayersNow, Layered;
    assert IsPlaying(t, rid);
    if t.games[rid].Keys == {} {
      assert AllLayered(m.games, tops, LayersNow(m.games, m.nextAt, now, tops)) == t.games[rid];
    }
  }

  /** The books of a room after one request belong to its match after it. */
  lemma EntryIsRunning(x: Books, q: Request, r: Rid)
    requires Kept(x) && InProtocol(x.tables) && Admissible(x.tables, q) && r in Serve(x.tables, q).games
    ensures var u := Serve(x.tables, q); r in u.nextAdd && Running(u.games[r], u.nextAdd[r], Entry(x, q, r))
  {
    hide Coherent, InProtocol, Running, Deals, Serve, Admissible, Continued;
    if Deals(x.tables, q, r) {
      DealIsRunning(x.tables, q, r);
    } else {
      RoomOfMatch(x, q, r);
      ContinuedIsRunning(x.tables, q, r, x.matches[r]);
    }
  }

  lemma ContinuedIsRunning(t: Tables, q: Request, r: Rid, m: Match)
    requires Coherent(t) && InProtocol(t) && !Deals(t, q, r) && r in Serve(t, q).games
    requires r in t.games && r in t.nextAdd && Running(t.games[r], t.nextAdd[r], m)
    ensures Consistent(m)
    ensures var u := Serve(t, q); r in u.nextAdd && Running(u.games[r], u.nextAdd[r], Continued(m, q, r))
  {
    hide Coherent, InProtocol, Running, Receive, Poll, Consistent, Step, Deals, Serve, Noted;
    ServedByKind(t, q);
    RunningIsConsistent(t.games[r], t.nextAdd[r], m);
    if q.Deliver? && q.rid == r && IsMessage(q.event) {
      NotingKeepsCoherent(t, q.event.pid, q.at);
      NotingKeepsProtocol(t, q.event.pid, q.at);
      NotingKeepsMatches(t, q.event.pid, q.at);
      MessageIsEntered(Noted(t, q.event.pid, q.at), r, q.event, m);
    } else if q.PollRoom? && q.rid == r {
      PollIsEntered(t, q, m);
    } else {
      OthersKeepTheMatch(t, q, r);
    }
  }

  lemma RunningIsConsistent(games: map<Pid, Game>, nextAt: int, m: Match)
    requires Running(games, nextAt, m)
    ensures Consistent(m)
  {
    hide Reachable, Consistent;
    ReachableIsConsistent(m);
  }

  lemma NotingKeepsMatches(t: Tables, pid: Pid, at: int)
    ensures Noted(t, pid, at).games == t.games && Noted(t, pid, at).nextAdd == t.nextAdd
  {
  }

  lemma OthersKeepTheMatch(t: Tables, q: Request, r: Rid)
    requires InProtocol(t) && r in Serve(t, q).games && !Deals(t, q, r)
    requires !(q.Deliver? && q.rid == r && IsMessage(q.event)) && !(q.PollRoom? && q.rid == r)
    ensures SameMatch(t, Serve(t, q), r)
  {
    hide InProtocol, Receive, Poll, Dealt;
    if !(q.Deliver? && q.rid == r) {
      ServeScope(t, q, r);
    }
  }

  lemma RecordedIsKept(x: Books, q: Request)
    requires Kept(x) && InProtocol(x.tables) && Admissible(x.tables, q)
    ensures Kept(Recorded(x, q))
  {
    hide Coherent, InProtocol, Admissible, Serve, Entry, Running;
    ServeKeepsCoherent(x.tables, q);
    forall r | r in Serve(x.tables, q).games
      ensures var u := Serve(x.tables, q); r in u.nextAdd && Running(u.games[r], u.nextAdd[r], Entry(x, q, r))
    {
      EntryIsRunning(x, q, r);
    }
  }

  /** x is what the empty server and its empty books become by serving the
      requests in order. */
  ghost predicate BookedBy(qs: seq<Request>, x: Books)
    decreases |qs|
  {
    if qs == [] then x == Books(EMPTY_TABLES, map[])
    else
      var n := |qs| - 1;
      exists y ::
        && BookedBy(qs[..n], y) && Kept(y) && InProtocol(y.tables) && Admissible(y.tables, qs[n])
        && x == Recorded(y, qs[n])
  }

  lemma EmptyIsKept()
    ensures Kept(Books(EMPTY_TABLES, map[]))
  {
  }

  lemma {:induction false} BookedIsKept(qs: seq<Request>, x: Books)
    requires BookedBy(qs, x)
    ensures Kept(x) && Served(qs, x.tables)
    decreases |qs|
  {
    hide Kept, InProtocol, Admissible, Recorded, Serve;
    if qs == [] {
      EmptyIsKept();
    } else {
      var n := |qs| - 1;
      var y :| BookedBy(qs[..n], y) && Kept(y) && InProtocol(y.tables) && Admissible(y.tables, qs[n])
               && x == Recorded(y, qs[n]);
      BookedIsKept(qs[..n], y);
      RecordedIsKept(y, qs[n]);
      RecordedTables(y, qs[n]);
    }
  }

  /** Every run of the server has its books. */
  lemma {:induction false} EveryRunIsBooked(qs: seq<Request>, t: Tables) returns (x: Books)
    requires Served(qs, t)
    ensures BookedBy(qs, x) && x.tables == t
    decreases |qs|
  {
    hide Kept, InProtocol, Admissible, Recorded, Serve, Coherent;
    if qs == [] {
      x := Books(EMPTY_TABLES, map[]);
    } else {
      var n := |qs| - 1;
      var s :| ServedFrom(EMPTY_TABLES, qs[..n], s) && InProtocol(s) && Admissible(s, qs[n]) && t == Serve(s, qs[n]);
      var y := EveryRunIsBooked(qs[..n], s);
      BookedIsKept(qs[..n], y);
      RecordedTables(y, qs[n]);
      x := Recorded(y, qs[n]);
    }
  }

  lemma RecordedTables(y: Books, q: Request)
    requires Kept(y) && InProtocol(y.tables)
    ensures Recorded(y, q).tables == Serve(y.tables, q)
  {
    hide Kept, Serve, Entry;
  }

  /** The balance of one match of the books. */
  ghost predicate InBalance(x: Books, rid: Rid) {
    && rid in x.matches && rid in x.tables.games && rid in x.tables.nextAdd
    && var m := x.matches[rid];
       && m.games == x.tables.games[rid] && m.accounts.Keys == m.games.Keys
       && x.tables.nextAdd[rid] == m.start + 10000 * (m.layers + 1)
       && forall p :: p in m.games ==>
            var g, a := m.games[p], m.accounts[p];
            && a.layers == m.layers
            && Bubbles(g.board) == a.initial + 17 * a.layers + a.placed - a.cleared - a.dropped
            && g.score == 10 * a.cleared + 15 * a.dropped
            && a.landings == g.shotSeq - (if g.pending then 1 else 0)
            && (a.placed > 0 ==> Anchored(g.board))
  }

  lemma BooksBalance(qs: seq<Request>, x: Books, rid: Rid)
    requires BookedBy(qs, x) && rid in x.tables.games
    ensures Served(qs, x.tables) && InBalance(x, rid)
  {
    hide Reachable, Coherent, BookedBy, Served, Protocol, Bubbles, Anchored;
    BookedIsKept(qs, x);
    ReachableIsConsistent(x.matches[rid]);
  }

  /** In every state of every run of the server its books balance: for each game
      of each running match, bubbles on the board = those dealt + 17 per layer +
      those placed by its accepted landings - those cleared - those dropped, the
      score is what was paid for the last two, the board is anchored once a
      landing was placed, and the deadline is ten seconds per layer after the start. */
  lemma RunningMatchesBalance(qs: seq<Request>, t: Tables) returns (x: Books)
    requires Served(qs, t)
    ensures BookedBy(qs, x) && x.tables == t
    ensures forall rid :: rid in t.games ==> InBalance(x, rid)
  {
    hide Served, BookedBy, InBalance;
    x := EveryRunIsBooked(qs, t);
    forall rid | rid in t.games ensures InBalance(x, rid) {
      BooksBalance(qs, x, rid);
    }
  }
}
