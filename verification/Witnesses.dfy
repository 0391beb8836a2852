/** Concrete inputs on which a promise one might expect of the code does not hold. */
module Witnesses {
  import opened Common
  import opened Lifecycle
  import opened LifecycleReplay
  import opened Machine
  import opened Patches
  import opened Receipts
  import opened Actor
  import T = Table
  import TableReplay
  import TableUndo
  import TableReject
  import TableRuns
  import Movement
  import Conservation
  import Requests
  import Progress
  import Deadlines
  import Safety
  import Ballots
  import opened Agreement

  const PLAYER := Player(Active, None, None)

  /** Two players, player 1 to move, and an empty table. */
  const DUEL := Game(
    Life(map[1 := PLAYER, 2 := PLAYER], Turn(Some(1), 0, 0, 0), map[], map[], false, None, None),
    T.Table({1, 2}, map[1 := T.EMPTY, 2 := T.EMPTY], map[], map[], map[]))

  const CONCESSION := Stored(Event(1, ConcessionMade(ConcedeEvent(2, Some(5), None, Some(5))), Some(2), Some(Text(7))), Absent)

  lemma DuelEnds(now: int)
    ensures GameOk(DUEL)
    ensures var next := ReplayBody(DUEL, CONCESSION.event.body, now);
      next.Some? && next.value.life.finished && next.value.table == DUEL.table && IsActive(next.value.life, 1)
  {
    assert ActiveSet(DUEL.life) == {1, 2};
    var left := Lifecycle.Concede(DUEL.life, 2, Some(5));
    assert ActiveSet(left) == {1};
    assert HandOver(left, 2).0 == left;
  }

  const LAGGING := Actor(GAME, DUEL, 0, map[], [], false)

  /** The actor catches up over the concession that ended the game. */
  lemma CatchesUp(r: Request)
    requires r.base == 1 && r.action == Text(9) && r.author == Some(1) && r.permitted && r.now == 0
    requires r.command == Unknown || r.command.Changing?
    ensures var over := ReplayBody(DUEL, CONCESSION.event.body, 0);
      && over.Some? && over.value.life.finished
      && Begin(LAGGING, r, true) == At(LAGGING, r, Looking) && Look(LAGGING, r, [CONCESSION]) == At(LAGGING, r, Admitting)
      && Admit(LAGGING, r, [CONCESSION]) == At(LAGGING.(game := over.value, version := 1), r, Checking)
      && Submit(LAGGING, r, Undisturbed([CONCESSION])) == FromAdmit(LAGGING, r, Undisturbed([CONCESSION]))
  {
    var log := [CONCESSION];
    DuelEnds(0);
    var over := ReplayBody(DUEL, CONCESSION.event.body, 0).value;
    assert log[1..] == [] && log[..0] == [];
    assert After(log, 0) == log;
    assert CatchUp(GAME, Position(DUEL, 0), log, 1, 0) == (Position(over, 1), true);
    assert Lookup(log, Text(9)) == None;
  }

  /** An actor one event behind, asked to work at the head of the log: it catches up over the
      concession that ended the game and appends to the finished game. */
  lemma FinishedGameGrows()
    ensures exists a: Actor, r: Request, w: World ::
      && GameOk(a.game) && !a.game.life.finished && w.tail == w.gap == w.head == w.lookup
      && Submit(a, r, w).2.Some? && Submit(a, r, w).1.Ok? && Submit(a, r, w).0.game.life.finished
  {
    var log := [CONCESSION];
    var r := Request(Changing(T.Draw(1, 0), 0), 1, Text(9), Some(1), true, 0, []);
    DuelEnds(0);
    CatchesUp(r);
    var over := ReplayBody(DUEL, CONCESSION.event.body, 0).value;
    var b := LAGGING.(game := over, version := 1);
    assert Check(b, r, log) == At(b, r, Committing);
    assert Lookup(log, Text(9)) == None;
    assert Exec(over, r.command, 0, 2) == Applied(over, TableChanged(T.Drawn(1, []), 0));
    Progress.HeadCommits(log, b, r);
    assert Submit(LAGGING, r, Undisturbed(log)) == FromCommit(b, r, Undisturbed(log));
  }

  /** A request refused because its type is unknown has still moved the actor forward. */
  lemma RefusedRequestAdvances()
    ensures exists a: Actor, r: Request, w: World ::
      && w.tail == w.gap == w.head == w.lookup
      && Submit(a, r, w).1 == Err(UnknownCommand) && Submit(a, r, w).0.version > a.version
  {
    var log := [CONCESSION];
    var r := Request(Unknown, 1, Text(9), Some(1), true, 0, []);
    CatchesUp(r);
    var b := LAGGING.(game := ReplayBody(DUEL, CONCESSION.event.body, 0).value, version := 1);
    assert Check(b, r, log) == Finished(b, Err(UnknownCommand));
    assert Submit(LAGGING, r, Undisturbed(log)) == (b, Err(UnknownCommand), None);
  }

  lemma DuelTable()
    ensures Movement.WellFormed(DUEL.table)
  {
    assert forall q: T.Place :: T.At(DUEL.table.zones, q) == [];
  }

  /** Two tokens are created, one is replayed; and if their event is not appended they stay. */
  lemma TwoTokensReplayAsOne()
    ensures var c := T.CreateTokens(1, Some(2), 0); var r := T.Apply(DUEL.table, c, 0);
      r.Some? && T.Replay(DUEL.table, r.value.1, 0) != Some(r.value.0) && TableUndo.Undo(DUEL.table, c, r.value.0) != DUEL.table
  {
    var c := T.CreateTokens(1, Some(2), 0);
    DuelTable();
    assert T.TokenCount(c.quantity) == 2;
    TableReplay.ReplayFaithful(DUEL.table, c, 0);
    TableUndo.UndoExact(DUEL.table, c, 0);
  }

  /** Cards from two zones in one request: the event names one zone and cannot be replayed. */
  lemma MixedZonesDoNotReplay()
    ensures var t := TableReject.BORROWED; var c := T.MoveCards(1, None, [T.Printed(0), T.Printed(1)], T.Graveyard, None, T.Append, None);
      var r := T.Apply(t, c, 0);
      r.Some? && T.Replay(t, r.value.1, 0) != Some(r.value.0)
  {
    var t := TableReject.BORROWED;
    var c := T.MoveCards(1, None, [T.Printed(0), T.Printed(1)], T.Graveyard, None, T.Append, None);
    TableReject.BorrowedIsWellFormed();
    assert c.ids[0] == T.Printed(0) && c.ids[1] == T.Printed(1) && T.CanMove(t, c.ids);
    assert c.ids[1] in c.ids && t.loc[c.ids[1]].zone != t.loc[c.ids[0]].zone;
    assert !TableReplay.SameSource(t, c.ids);
    TableReplay.ReplayFaithful(t, c, 0);
  }

  /** A borrowed card sent to the graveyard goes to its owner, whose zones the rollback did
      not capture. */
  lemma BorrowedCardIsNotUndone()
    ensures var t := TableReject.BORROWED; var c := T.MoveCards(1, None, [T.Printed(0)], T.Graveyard, None, T.Append, None);
      var r := T.Apply(t, c, 0);
      r.Some? && TableUndo.Undo(t, c, r.value.0) != t
  {
    var t := TableReject.BORROWED;
    var c := T.MoveCards(1, None, [T.Printed(0)], T.Graveyard, None, T.Append, None);
    TableReject.BorrowedIsWellFormed();
    assert c.ids[0] == T.Printed(0) && T.CanMove(t, c.ids);
    assert T.Destination(t, c.ids[0], 1, T.Graveyard) == 2 && 2 !in TableUndo.Captured(t, c);
    TableUndo.UndoExact(t, c, 0);
  }

  /** Player 1 holds card 1; player 2 has card 0 on the battlefield. */
  const APART := T.Table({1, 2},
    map[1 := T.PlayerZones([], [T.Printed(1)], [], [], [], []), 2 := T.PlayerZones([], [], [T.Printed(0)], [], [], [])],
    map[T.Printed(0) := T.Card(Some(2), Some(2), false, false, 0), T.Printed(1) := T.Card(Some(1), Some(1), false, false, 0)],
    map[T.Printed(0) := T.Place(2, T.Battlefield), T.Printed(1) := T.Place(1, T.Hand)],
    map[])

  const MISNAMED := T.MoveCards(1, None, [T.Printed(0)], T.Battlefield, None, T.Append, Some(T.Printed(1)))

  lemma ApartIsWellFormed()
    ensures Movement.WellFormed(APART)
  {
    assert forall q: T.Place :: |T.At(APART.zones, q)| <= 1;
  }

  lemma MisnamedApplies()
    ensures T.CanMove(APART, MISNAMED.ids) && T.Apply(APART, MISNAMED, 0).Some?
    ensures T.Apply(APART, MISNAMED, 0).value.0 == T.MoveWithRules(APART, MISNAMED.ids, 1, T.Battlefield, T.Append)
    ensures T.Evaporating(APART, MISNAMED.ids, T.Battlefield) == {} && T.Destination(APART, T.Printed(0), 1, T.Battlefield) == 1
  {
    assert MISNAMED.ids[0] == T.Printed(0);
  }

  lemma MisnamedCaptures()
    ensures TableUndo.Captured(APART, MISNAMED) == {1}
  {}

  /** A request to move card 0 that names card 1 beside its list: its rollback looks only at
      card 1, and after a failed append card 0 is in no zone at all. */
  lemma NamedCardHidesList()
    ensures Movement.WellFormed(APART) && T.Apply(APART, MISNAMED, 0).Some?
    ensures var back := TableUndo.Undo(APART, MISNAMED, T.Apply(APART, MISNAMED, 0).value.0);
      forall q: T.Place :: T.Printed(0) !in T.At(back.zones, q)
  {
    ApartIsWellFormed();
    MisnamedApplies();
    MisnamedCaptures();
    TableRuns.CrossedIsLost(APART, MISNAMED.ids, 1, T.Battlefield, T.Append, {1}, TableUndo.CapturedCards(APART, MISNAMED), T.Printed(0));
  }

  /** A token put into a library is a token outside the battlefields. */
  lemma ShelvedToken()
    ensures exists t: T.Table, c: T.TableCommand ::
      && Movement.WellFormed(t) && Conservation.TokensAtHome(t)
      && T.Apply(t, c, 0).Some? && !Conservation.TokensAtHome(T.Apply(t, c, 0).value.0)
  {
    var make := T.CreateTokens(1, None, 0);
    var token := T.Minted(0, 0);
    DuelTable();
    assert T.TokenIds(0, 1) == [token];
    Conservation.ApplyKeeps(DUEL.table, make, 0);
    Conservation.TokensStayHome(DUEL.table, make, 0);
    var t := T.Apply(DUEL.table, make, 0).value.0;
    var c := T.Put(1, token, true);
    assert token in t.cards && token in t.loc && 1 in t.zones && t.cards[token].token;
    Conservation.TokensStayHome(t, c, 0);
  }

  // -------------------------------------------------------- ids and deadlines

  /** Player 2 is away, player 1 may vote until the sixtieth second. */
  const AWAY := DUEL.(life := DUEL.life.(ballots := map[2 := Ballot(Open, Some(0), Some(60), None, map[], [1], Some(1))]))

  const GREETING := Stored(Event(1, ChatSent, Some(1), Some(Text(7))), Absent)

  const ATTENTIVE := Deadlines.Heartbeat(Actor(GAME, AWAY, 1, map[], [], false), [GREETING])

  /** Player 1 draws nothing, under the action id of the timeout to come. */
  const SQUATTER := Request(Changing(T.Draw(1, 0), 0), 1, TimeoutOf(2, 60), Some(1), true, 10, [])

  lemma SquatterRuns()
    ensures Deadlines.Ready(ATTENTIVE) && Lookup(ATTENTIVE.log, TimeoutOf(2, 60)).None?
    ensures Submit(ATTENTIVE.actor, SQUATTER, Undisturbed(ATTENTIVE.log)) == FromCommit(ATTENTIVE.actor, SQUATTER, Undisturbed(ATTENTIVE.log))
  {
    assert [GREETING][1..] == [];
    assert Lookup([GREETING], TimeoutOf(2, 60)) == None;
    assert IsActive(AWAY.life, 1);
    assert Admit(ATTENTIVE.actor, SQUATTER, ATTENTIVE.log) == At(ATTENTIVE.actor, SQUATTER, Checking);
  }

  lemma SquatterAppends()
    ensures var (a, result, stored) := Submit(ATTENTIVE.actor, SQUATTER, Undisturbed(ATTENTIVE.log));
      && result.Ok? && stored.Some? && stored.value.event.action == Some(TimeoutOf(2, 60))
      && a.game == AWAY && Deadlines.Ready(Deadlines.Heartbeat(a, ATTENTIVE.log + [stored.value]))
  {
    SquatterRuns();
    var body := TableChanged(T.Drawn(1, []), 0);
    assert Exec(AWAY, SQUATTER.command, 10, 2) == Applied(AWAY, body);
    Deadlines.HeadAppends(ATTENTIVE, SQUATTER, AWAY, GAME.undo(AWAY, SQUATTER.command, AWAY), body);
  }

  /** A browser takes the action id of a coming timeout; at every later heartbeat the ballot is
      past its deadline and still open. */
  lemma SpentDeadlineStaysOpen(now: int, emitted: seq<Emission>)
    requires now >= 60
    ensures var (a, _, stored) := Submit(ATTENTIVE.actor, SQUATTER, Undisturbed(ATTENTIVE.log));
      && stored.Some? && a.game == AWAY
      && var h := Deadlines.Tick(Deadlines.Heartbeat(a, ATTENTIVE.log + [stored.value]), [2], now, emitted);
        2 in h.actor.game.life.ballots && Deadlines.Due(h.actor.game.life.ballots[2], now)
  {
    SquatterAppends();
    var (a, _, stored) := Submit(ATTENTIVE.actor, SQUATTER, Undisturbed(ATTENTIVE.log));
    var h := Deadlines.Heartbeat(a, ATTENTIVE.log + [stored.value]);
    Safety.LookupGrows(ATTENTIVE.log, stored.value, TimeoutOf(2, 60));
    SquatterRuns();
    assert Deadlines.Blocked(h, 2);
    Deadlines.HeartbeatResolves(h, [2], now, emitted);
  }

  // ------------------------------------------------------------ carried fields

  const TRIO := Life(map[1 := PLAYER, 2 := PLAYER, 3 := PLAYER], Turn(Some(1), 0, 0, 0), map[], map[], false, None, None)

  /** An expulsion sent along, without any ballot. */
  const EXPULSION := VoteCommand(1, Browser, None,
    Carried(VoteEvent(1, Some(ResolvedExpel), map[], None, None, None, None, None)), None)

  /** Any player's browser can put out the player whose turn it is. The turn stays with them,
      and the event does not say that they were put out: replaying it leaves them in. */
  lemma CarriedExpulsion(now: int, version: int, later: int)
    ensures Ballots.GameInv(TRIO)
    ensures var r := ApplyVote(TRIO, EXPULSION, now, version);
      && r.Done? && IsConceded(r.life, 1) && r.life.turn.active == Some(1) && !Ballots.TurnOk(r.life)
      && r.event.status.None? && r.event.ballots == map[]
      && var replayed := ReplayVote(TRIO, r.event, later);
        replayed.Some? && IsActive(replayed.value, 1) && !Similar(r.life, replayed.value)
  {
    assert ActiveSet(TRIO) == {1, 2, 3};
    var e := EXPULSION.signal.fields;
    assert ActiveSet(Restored(TRIO, e)) == {2, 3};
  }

  /** A browser that says "online" is believed, although no newer generation says so. */
  lemma BrowserMovesPresence(now: int, version: int)
    ensures var l := TRIO.(players := TRIO.players[2 := PLAYER.(online := Some(false))], generations := map[2 := 5]);
      var r := ApplyVote(l, VoteCommand(2, Browser, None, GoOnline, None), now, version);
      r.Done? && r.life.players[2].online == Some(true) && Generation(r.life, 2) == 5
  {}

  // ------------------------------------------------------------- turn changes

  function PassTo(p: PlayerId): TurnCommand {
    TurnCommand(Some(Some(p)), None, None, None)
  }

  function FirstEvent(body: Body): Stored {
    Stored(Event(1, body, Some(1), Some(Text(1))), Absent)
  }

  const THREE := DUEL.(life := TRIO)

  /** Player 1 passes the turn to player 3. An actor that recovers from the log has it with
      player 1 still, and when player 1 concedes it hands the turn to player 2, while for the
      actor that ran the commands it stays with player 3. */
  lemma PassIsForgotten(now: int, later: int)
    ensures var e := Exec(THREE, Passing(PassTo(3)), now, 1);
      && e.Applied? && e.game.life.turn.active == Some(3)
      && RecoverFrom(GAME, Position(THREE, 0), [FirstEvent(e.body)], later) == Some(Position(THREE, 1))
      && var c := Conceding(ConcedeCommand(1, None, None)); var live, recovered := Exec(e.game, c, now, 2), Exec(THREE, c, now, 2);
        && live.Applied? && recovered.Applied? && live.body.ConcessionMade?
        && live.game.life.turn.active == Some(3) && recovered.game.life.turn.active == Some(2)
  {
    var e := Exec(THREE, Passing(PassTo(3)), now, 1);
    assert [FirstEvent(e.body)][1..] == [];
    LeavesTwo(TRIO, now);
    LeavesTwo(e.game.life, now);
  }

  lemma LeavesTwo(l: Life, now: int)
    requires l.players == TRIO.players && !l.finished
    ensures var left := Lifecycle.Concede(l, 1, Some(now));
      ActiveSet(left) == {2, 3} && |ActiveSet(left)| == 2 && NextActive(left, 1) == Some(2)
  {
    var left := Lifecycle.Concede(l, 1, Some(now));
    assert ActiveSet(left) == {2, 3};
    assert ActiveSet(HandOver(left, 1).0) == {2, 3};
    assert Least({2, 3}) == 2;
  }

  /** The player whose turn it is can give the turn to one who has conceded. */
  lemma PassToConceded(now: int)
    ensures var l := Lifecycle.Concede(TRIO, 3, Some(0)); var r := Ballots.Request(Ballots.Passing(PassTo(3)), now, 1);
      && Ballots.GameInv(l) && Ballots.CarriedBy(l, r).None?
      && Permits(DUEL.(life := l), Request(Passing(PassTo(3)), 0, Text(1), Some(1), true, now, []))
      && IsConceded(Ballots.Step(l, r), 3) && Ballots.Step(l, r).turn.active == Some(3) && !Ballots.GameInv(Ballots.Step(l, r))
  {
    assert ActiveSet(Lifecycle.Concede(TRIO, 3, Some(0))) == {1, 2};
  }
}
