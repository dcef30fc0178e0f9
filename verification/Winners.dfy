/** When players of a session lose by silence and when a winner is named, stated of
    the session alone, over single actions and whole runs. */
module Winners {
  import opened Wrappers
  import opened Boards
  import opened Rules
  import opened Matches
  import opened SessionRules
  import Lobbies = RoomRules

  /** A heartbeat check: exactly those lose who were heard of, more than the
      timeout ago; everything else stays, what is already lost too. */
  lemma TimedOutExactly(s: Session, now: int, timeout: int)
    ensures var t := TimedOut(s, now, timeout);
            && t.states.Keys == s.states.Keys && t == s.(states := t.states)
            && forall p :: p in s.states ==>
                 && t.states[p] == s.states[p].(status := t.states[p].status)
                 && (t.states[p].status == s.states[p].status || t.states[p].status == Lost)
                 && (t.states[p].status == Lost <==>
                     || s.states[p].status == Lost
                     || (p in s.lastHeartbeat && 0 < s.lastHeartbeat[p] && s.lastHeartbeat[p] + timeout < now))
  {
  }

  /** A poll: once a winner stands nobody times out any more; until then exactly the
      silent lose. Every game is then at the time of the poll. */
  lemma BuildIsExact(s: System, at: int, draws: Pid -> Colour, ds: seq<Departure>, now: int, timeout: int, tick: int)
    requires tick > 0 && Fair(s.session)
    ensures var t := Act(s, Build(at, draws, ds), now, timeout, tick);
            && t.session.states.Keys == s.session.states.Keys && t.session.lastHeartbeat == s.session.lastHeartbeat
            && (forall p :: p in s.session.states ==> t.session.states[p].lastTick == at)
            && if s.session.winner.Some? then
                 && t.lobby == s.lobby && t.session.winner == s.session.winner
                 && forall p :: p in s.session.states ==> t.session.states[p].status == s.session.states[p].status
               else forall p :: p in s.session.states ==>
                 (t.session.states[p].status == Lost <==>
                    || s.session.states[p].status == Lost
                    || (p in s.session.lastHeartbeat && 0 < s.session.lastHeartbeat[p] &&
                        s.session.lastHeartbeat[p] + timeout < at))
  {
    hide ResolveOutcome, TimedOut, Ticked, AllProtocol, Fair;
    FairProtocol(s.session);
    TimedOutProtocol(s.session, at, timeout);
    TimedOutExactly(s.session, at, timeout);
    var u := s.(session := TimedOut(s.session, at, timeout));
    ResolveKeepsGames(u, ds, now, tick);
    var t := CheckHeartbeats(s, at, ds, now, timeout, tick);
    CheckIsFair(s, at, ds, now, timeout, tick);
    FairProtocol(t.session);
    TicksOnly(t.session.states, at, draws);
  }

  lemma ResolveKeepsGames(s: System, ds: seq<Departure>, now: int, tick: int)
    requires tick > 0
    ensures var t := ResolveOutcome(s, ds, now, tick);
            t.session.states == s.session.states && t.session.lastHeartbeat == s.session.lastHeartbeat
  {
    hide OneLeft, Dismiss;
  }

  /** Of two players or more exactly this one has not lost. */
  ghost predicate LastOne(s: Session, w: Pid) {
    && |s.states| >= 2 && w in s.states && s.states[w].status != Lost
    && forall p :: p in s.states && p != w ==> s.states[p].status == Lost
  }

  /** Settling the outcome names exactly the last one left, if there is one, and
      sends the others out unless that was done before; otherwise it does nothing. */
  lemma ResolveIsExact(s: System, ds: seq<Departure>, now: int, tick: int)
    requires tick > 0
    ensures forall w :: LastOne(s.session, w) ==>
              ResolveOutcome(s, ds, now, tick) ==
              System(s.session.(winner := Some(w), finalized := true),
                     if s.session.finalized then s.lobby else Dismiss(s.lobby, ds, now, tick))
    ensures (forall w :: !LastOne(s.session, w)) ==> ResolveOutcome(s, ds, now, tick) == s
  {
    hide Dismiss;
    forall w | LastOne(s.session, w) ensures OneLeft(s.session.states) && Survivor(s.session.states) == w {
      assert AliveIn(s.session.states) == {w};
      assert |{w}| == 1;
    }
    if OneLeft(s.session.states) {
      var w := Survivor(s.session.states);
      forall p | p in s.session.states && p != w ensures s.session.states[p].status == Lost {
        assert p !in AliveIn(s.session.states);
      }
      assert LastOne(s.session, w);
    }
  }

  /** Whoever is the last one left has been named and the others sent out. */
  ghost predicate Named(s: Session) {
    forall w :: LastOne(s, w) ==> s.winner == Some(w) && s.finalized
  }

  lemma ResolveNames(s: System, ds: seq<Departure>, now: int, tick: int)
    requires tick > 0
    ensures Named(ResolveOutcome(s, ds, now, tick).session)
  {
    hide ResolveOutcome, Dismiss;
    ResolveIsExact(s, ds, now, tick);
    var t := ResolveOutcome(s, ds, now, tick).session;
    forall w | LastOne(t, w) ensures t.winner == Some(w) && t.finalized {
      if v :| LastOne(s.session, v) {
        assert t == s.session.(winner := Some(v), finalized := true);
        assert LastOne(s.session, w);
      }
    }
  }

  /** The same players with the same verdicts. */
  ghost predicate SameVerdicts(s: Session, t: Session) {
    && t.states.Keys == s.states.Keys && t.winner == s.winner && t.finalized == s.finalized
    && forall p :: p in s.states ==> t.states[p].status == s.states[p].status
  }

  lemma SameIsNamed(s: Session, t: Session)
    requires Named(s) && SameVerdicts(s, t)
    ensures Named(t)
  {
    assert |t.states| == |t.states.Keys| == |s.states|;
    forall w | LastOne(t, w) ensures t.winner == Some(w) && t.finalized {
      assert LastOne(s, w);
    }
  }

  lemma TalkKeepsVerdicts(s: Session, e: Event)
    requires Fair(s) && IsMessage(e) && !e.Land?
    ensures AllProtocol(s.states) && SameVerdicts(s, s.(states := Played(s.states, e)))
  {
    hide Protocol, CommitLanding;
  }

  lemma TicksKeepVerdicts(s: Session, now: int, draws: Pid -> Colour)
    requires Fair(s)
    ensures AllProtocol(s.states) && SameVerdicts(s, s.(states := Ticked(s.states, now, draws)))
  {
    hide Ticked, AllProtocol;
    FairProtocol(s);
    TicksOnly(s.states, now, draws);
  }

  lemma CheckNames(s: System, at: int, ds: seq<Departure>, now: int, timeout: int, tick: int)
    requires tick > 0 && Fair(s.session) && Named(s.session)
    ensures var t := CheckHeartbeats(s, at, ds, now, timeout, tick); Fair(t.session) && Named(t.session)
  {
    hide Fair, Named, ResolveOutcome, TimedOut;
    CheckIsFair(s, at, ds, now, timeout, tick);
    ResolveNames(s.(session := TimedOut(s.session, at, timeout)), ds, now, tick);
  }

  lemma ActNames(s: System, a: Action, now: int, timeout: int, tick: int)
    requires tick > 0 && Fair(s.session) && Named(s.session)
    ensures Named(Act(s, a, now, timeout, tick).session)
  {
    hide Fair, Named, ResolveOutcome, CheckHeartbeats, Played, Ticked, AllProtocol, Lobbies.Serve, SameVerdicts;
    FairProtocol(s.session);
    match a
    case Hear(e, at, ds) =>
      if IsMessage(e) {
        HearingNames(s, e, at, ds, now, tick);
      }
    case Heartbeat(p, at) => HeardVerdicts(s, p, at);
    case Build(at, draws, ds) =>
      var t := CheckHeartbeats(s, at, ds, now, timeout, tick);
      CheckNames(s, at, ds, now, timeout, tick);
      TicksKeepVerdicts(t.session, at, draws);
      SameIsNamed(t.session, t.session.(states := Ticked(t.session.states, at, draws)));
    case RoomRequest(q) =>
  }

  lemma FairProtocol(s: Session)
    requires Fair(s)
    ensures AllProtocol(s.states)
  {
  }

  lemma HeardVerdicts(s: System, p: Pid, at: int)
    requires Named(s.session)
    ensures Named(Touched(s, p, at).session)
  {
    SameIsNamed(s.session, Touched(s, p, at).session);
  }

  lemma HearingNames(s: System, e: Event, at: int, ds: seq<Departure>, now: int, tick: int)
    requires tick > 0 && Fair(s.session) && Named(s.session) && IsMessage(e) && AllProtocol(s.session.states)
    ensures Named(AfterMessage(s, e, at, ds, now, tick).session)
  {
    hide Fair, Named, ResolveOutcome, Played, AllProtocol, SameVerdicts;
    if e.Land? {
      ResolveNames(Taken(s, e, at), ds, now, tick);
    } else {
      TalkKeepsVerdicts(s.session, e);
      TakenVerdicts(s, e, at);
      SameIsNamed(s.session, Taken(s, e, at).session);
    }
  }

  lemma TakenVerdicts(s: System, e: Event, at: int)
    requires IsMessage(e) && AllProtocol(s.session.states)
    requires SameVerdicts(s.session, s.session.(states := Played(s.session.states, e)))
    ensures SameVerdicts(s.session, Taken(s, e, at).session)
  {
    hide Played, AllProtocol;
  }

  lemma {:induction false} RunNames(s: System, es: seq<Timed>, timeout: int, tick: int)
    requires tick > 0 && Fair(s.session) && Named(s.session)
    ensures Named(RunFrom(s, es, timeout, tick).session)
  {
    hide Fair, Named, Act;
    if es != [] {
      var n := |es| - 1;
      RunNames(s, es[..n], timeout, tick);
      ActNames(RunFrom(s, es[..n], timeout, tick), es[n].action, es[n].time, timeout, tick);
    }
  }

  lemma NobodyIsLast(players: set<Pid>, deal: Pid -> Game, now: int)
    requires forall p :: Dealt(deal(p))
    ensures Named(Created(players, deal, now))
  {
    hide Dealt;
    var s := Created(players, deal, now);
    assert s.states.Keys == players && |s.states| == |s.states.Keys|;
    forall w ensures !LastOne(s, w) {
      if w in players && |players| >= 2 {
        assert |players - {w}| >= 1;
        var p :| p in players - {w};
        DealtPlays(deal(p));
        assert s.states[p].status == Playing;
      }
    }
  }

  lemma DealtPlays(g: Game)
    requires Dealt(g)
    ensures g.status == Playing
  {
  }

  /** Over whole runs of a session: in every state, if all its players but one have
      lost, that one has been named the winner and the others have been sent out. */
  lemma WinnerIsNamedAtOnce(players: set<Pid>, deal: Pid -> Game, start: int, l: Lobbies.Lobby, es: seq<Timed>,
                            timeout: int, tick: int)
    requires tick > 0 && forall p :: Dealt(deal(p))
    ensures Fair(Created(players, deal, start))
    ensures var x := RunFrom(System(Created(players, deal, start), l), es, timeout, tick).session;
            forall w :: LastOne(x, w) ==> x.winner == Some(w) && x.finalized
  {
    hide Fair, Created, Dealt, RunFrom;
    CreatedIsFair(players, deal, start);
    NobodyIsLast(players, deal, start);
    RunNames(System(Created(players, deal, start), l), es, timeout, tick);
  }
}
