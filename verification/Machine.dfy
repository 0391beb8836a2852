/**
  One game as the actor sees it: executing a command, undoing it when its event could not be
  appended, and replaying an event's body. Lifecycle and table are independent parts.
 */
module Machine {
  import opened Common
  import opened Lifecycle
  import opened LifecycleReplay
  import Table
  import TableReplay
  import TableUndo
  import TableReject
  import Movement
  import Conservation

  datatype Game = Game(life: Life, table: Table.Table)

  datatype Command =
    | Voting(vote: VoteCommand)
    | Conceding(concede: ConcedeCommand)
    | Passing(pass: TurnCommand)
    | Changing(change: Table.TableCommand, tag: nat)
    | Unknown

  /** What an event's payload records; chat comes from outside and changes no game. */
  datatype Body =
    | ChatSent
    | VoteUpdated(vote: VoteEvent)
    | ConcessionMade(concede: ConcedeEvent)
    | TurnPassed(pass: TurnEvent)
    | TableChanged(change: Table.TableEvent, tag: nat)

  /** `Rejected` carries what the rollback of a failed applier leaves. */
  datatype Execution = Applied(game: Game, body: Body) | Rejected(game: Game)

  function Exec(g: Game, c: Command, now: int, version: int): Execution {
    match c
    case Voting(vote) =>
      (match ApplyVote(g.life, vote, now, version)
       case Done(life, event) => Applied(g.(life := life), VoteUpdated(event))
       case Refused(_) => Rejected(g))
    case Conceding(concede) =>
      (match ApplyConcede(g.life, concede, now)
       case Done(life, event) => Applied(g.(life := life), ConcessionMade(event))
       case Refused(_) => Rejected(g))
    case Passing(pass) =>
      var (life, event) := ApplyTurn(g.life, pass);
      Applied(g.(life := life), TurnPassed(event))
    case Changing(change, tag) =>
      (match Table.Apply(g.table, change, tag)
       case Some(pair) => Applied(g.(table := pair.0), TableChanged(pair.1, tag))
       case None => Rejected(g.(table := TableReject.Rejected(g.table, change, tag))))
    case Unknown => Rejected(g)
  }

  /** Votes are backed up whole; a concession backs up its player, the turn and the status,
      but neither the ballots nor the winner; a turn change backs up the turn, table commands
      zones and cards. */
  function Undo(g: Game, c: Command, after: Game): Game {
    match c
    case Voting(_) => g
    case Conceding(concede) =>
      var p := concede.player;
      var players := if p in g.life.players then after.life.players[p := g.life.players[p]] else after.life.players - {p};
      after.(life := after.life.(players := players, turn := g.life.turn, finished := g.life.finished))
    case Passing(_) => after.(life := after.life.(turn := g.life.turn))
    case Changing(change, _) => after.(table := TableUndo.Undo(g.table, change, after.table))
    case Unknown => g
  }

  function ReplayBody(g: Game, b: Body, now: int): Option<Game> {
    match b
    case ChatSent => Some(g)
    case VoteUpdated(event) =>
      (match ReplayVote(g.life, event, now) case Some(life) => Some(g.(life := life)) case None => None)
    case ConcessionMade(event) =>
      (match ReplayConcede(g.life, event, now) case Some(life) => Some(g.(life := life)) case None => None)
    case TurnPassed(event) => Some(g.(life := ReplayTurn(g.life, event)))
    case TableChanged(event, tag) =>
      (match Table.Replay(g.table, event, tag) case Some(table) => Some(g.(table := table)) case None => None)
  }

  /** An actor's appliers: how it executes, undoes and replays. */
  datatype Rules = Rules(
    exec: (Game, Command, int, int) -> Execution,
    undo: (Game, Command, Game) -> Game,
    replay: (Game, Body, int) -> Option<Game>)

  const GAME := Rules(Exec, Undo, ReplayBody)

  /** The actor forgets all ballots and presence once nobody is connected; no event says so. */
  function AllOffline(g: Game): Game {
    g.(life := g.life.(
         players := map p | p in g.life.players :: g.life.players[p].(online := Some(false)),
         ballots := map[]))
  }

  // ------------------------------------------------------------- invariants

  ghost predicate GameOk(g: Game) {
    LifeInv(g.life) && Movement.WellFormed(g.table)
  }

  /** Equal tables, and lives that agree up to the turn and the actor-hot fields. */
  ghost predicate Like(a: Game, b: Game) {
    Similar(a.life, b.life) && a.table == b.table
  }

  predicate SameTurn(a: Game, b: Game) {
    a.life.turn == b.life.turn
  }

  /** How close a game is to the one a log stands for: the same, the same up to the actor-hot
      fields, or up to the turn as well. */
  datatype Fit = Same | Warm | Turned

  ghost predicate Alike(a: Game, b: Game, fit: Fit) {
    Like(a, b) && (fit != Turned ==> SameTurn(a, b)) && (fit == Same ==> a == b)
  }

  /** After a change of hot fields. */
  function Warmed(fit: Fit): Fit {
    if fit == Same then Warm else fit
  }

  /** The command's event says enough to replay it. */
  predicate Trackable(g: Game, c: Command) {
    Followable(g, c) && !Turns(g, c)
  }

  /** The command writes a turn that its event does not give back. */
  predicate Turns(g: Game, c: Command) {
    match c
    case Voting(vote) => VoteTurns(g.life, vote)
    case Passing(pass) => TurnAfter(g.life.turn, pass) != g.life.turn
    case _ => false
  }

  /** The command's event says enough, but perhaps for the turn. */
  predicate Followable(g: Game, c: Command) {
    match c
    case Voting(vote) => VoteFollowable(g.life, vote)
    case Conceding(_) => true
    case Passing(_) => true
    case Changing(change, _) => TableReplay.Replayable(g.table, change)
    case Unknown => true
  }

  /** Undoing or rejecting the command leaves the table as it was. */
  predicate Reversible(g: Game, c: Command) {
    c.Changing? ==>
      if Table.Apply(g.table, c.change, c.tag).Some? then TableUndo.Undoable(g.table, c.change)
      else TableReject.Harmless(g.table, c.change, c.tag)
  }

  lemma LikeReflexive(g: Game)
    ensures Like(g, g)
  {}

  /** Which commands the appliers take, and which part of the game they leave alone: lifecycle
      commands the table, table commands the life. A turn change is always taken. */
  lemma ExecTakes(g: Game, c: Command, now: int, version: int)
    ensures var e := Exec(g, c, now, version);
      match c
      case Voting(vote) => (e.Applied? <==> ApplyVote(g.life, vote, now, version).Done?) && e.game.table == g.table
      case Conceding(concede) => (e.Applied? <==> concede.player in g.life.players) && e.game.table == g.table
      case Passing(pass) => e.Applied? && e.game == g.(life := ApplyTurn(g.life, pass).0)
      case Changing(change, tag) => (e.Applied? <==> Table.Apply(g.table, change, tag).Some?) && e.game.life == g.life
      case Unknown => e == Rejected(g)
  {}

  /** Executing a command on `s` and replaying its event on a game like it. The turns stay
      equal if they were, unless the command writes one itself; so do the games. */
  lemma ExecReplays(s: Game, t: Game, c: Command, now: int, version: int, later: int)
    requires GameOk(s) && GameOk(t) && Like(s, t)
    requires Exec(s, c, now, version).Applied? && Followable(s, c)
    ensures var r := Exec(s, c, now, version); var t' := ReplayBody(t, r.body, later);
      && t'.Some? && Like(r.game, t'.value)
      && (SameTurn(s, t) && !Turns(s, c) ==> SameTurn(r.game, t'.value))
      && (s == t && !Turns(s, c) ==> r.game == t'.value)
      && GameOk(r.game) && GameOk(t'.value)
  {
    match c
    case Voting(vote) => VoteReplays(s.life, t.life, vote, now, version, later);
    case Conceding(concede) => ConcedeReplays(s.life, t.life, concede, now, later);
    case Passing(pass) => TurnKeepsLife(s.life, pass); TurnKeepsLife(t.life, FieldsOf(ApplyTurn(s.life, pass).1));
    case Changing(change, tag) => ChangeReplays(s.table, change, tag);
  }

  /** One event replayed on two games with the same turn leaves them with the same turn. */
  lemma ReplayedTurns(g: Game, t: Game, body: Body, a: int, b: int)
    requires Like(g, t) && SameTurn(g, t) && ReplayBody(g, body, a).Some? && ReplayBody(t, body, b).Some?
    ensures SameTurn(ReplayBody(g, body, a).value, ReplayBody(t, body, b).value)
  {
    match body
    case VoteUpdated(e) =>
      RestoredRestores(g.life, e);
      RestoredRestores(t.life, e);
    case ConcessionMade(e) => ConcededTurns(g.life, t.life, e, a, b);
    case _ =>
  }

  lemma ConcededTurns(l: Life, m: Life, e: ConcedeEvent, a: int, b: int)
    requires Similar(l, m) && l.turn == m.turn && ReplayConcede(l, e, a).Some? && ReplayConcede(m, e, b).Some?
    ensures ReplayConcede(l, e, a).value.turn == ReplayConcede(m, e, b).value.turn
  {
    assert SamePlayer(l.players[e.player], m.players[e.player]);
    ConcedeSimilar(l, m, e.player, Some(Or(e.concededAt, a)));
    HandOverIgnoresTime(l, e.player, Some(Or(e.concededAt, a)), Some(Or(e.concededAt, b)));
    HandOverIgnoresTime(m, e.player, Some(Or(e.concededAt, a)), Some(Or(e.concededAt, b)));
  }

  lemma HandOverIgnoresTime(l: Life, p: PlayerId, a: Option<int>, b: Option<int>)
    requires p in l.players
    ensures HandOver(Concede(l, p, a), p).0.turn == HandOver(Concede(l, p, b), p).0.turn
  {
    assert ActiveSet(Concede(l, p, a)) == ActiveSet(Concede(l, p, b));
  }

  lemma TurnKeepsLife(l: Life, c: TurnCommand)
    requires LifeInv(l)
    ensures var l' := ApplyTurn(l, c).0; LifeInv(l') && Similar(l', l) && ActiveSet(l') == ActiveSet(l)
  {
    assert ActiveSet(ApplyTurn(l, c).0) == ActiveSet(l);
  }

  lemma ChangeReplays(t: Table.Table, c: Table.TableCommand, tag: nat)
    requires Movement.WellFormed(t) && Table.Apply(t, c, tag).Some? && TableReplay.Replayable(t, c)
    ensures Table.Replay(t, Table.Apply(t, c, tag).value.1, tag) == Some(Table.Apply(t, c, tag).value.0)
    ensures Movement.WellFormed(Table.Apply(t, c, tag).value.0)
  {
    TableReplay.ReplayFaithful(t, c, tag);
    Conservation.ApplyKeeps(t, c, tag);
  }

  lemma ChangeReplayExact(s: Game, change: Table.TableCommand, tag: nat, now: int, version: int, later: int)
    requires GameOk(s) && Exec(s, Changing(change, tag), now, version).Applied?
    ensures var r := Exec(s, Changing(change, tag), now, version);
      ReplayBody(s, r.body, later) == Some(r.game) <==> TableReplay.Replayable(s.table, change)
  {
    TableReplay.ReplayFaithful(s.table, change, tag);
    var pair := Table.Apply(s.table, change, tag).value;
    ReplayedChange(s, pair.1, tag, pair.0, later);
  }

  lemma ReplayedChange(s: Game, event: Table.TableEvent, tag: nat, after: Table.Table, later: int)
    ensures ReplayBody(s, TableChanged(event, tag), later) == Some(s.(table := after)) <==> Table.Replay(s.table, event, tag) == Some(after)
  {}

  /** For every command, replay gives the live game if and only if the command is trackable. */
  lemma UntrackableDiverges(s: Game, c: Command, now: int, version: int, later: int)
    requires GameOk(s) && Exec(s, c, now, version).Applied?
    ensures ReplayBody(s, Exec(s, c, now, version).body, later) == Some(Exec(s, c, now, version).game) <==> Trackable(s, c)
  {
    match c
    case Voting(vote) => VoteReplayExact(s.life, vote, now, version, later);
    case Conceding(concede) => ConcedeReplays(s.life, s.life, concede, now, later);
    case Passing(pass) => TurnReplayExact(s.life, pass);
    case Changing(change, tag) => ChangeReplayExact(s, change, tag, now, version, later);
  }

  // ------------------------------------------------------------------- undo

  /** A command ends the game when the game was running and no longer is. */
  predicate Ends(rules: Rules, g: Game, c: Command, now: int, version: int) {
    rules.exec(g, c, now, version).Applied? && rules.exec(g, c, now, version).game.life.finished != g.life.finished
  }

  /** After a failed append the game is like the one before; it is the same one unless a
      concession had ended it. */
  lemma UndoKeeps(g: Game, c: Command, now: int, version: int)
    requires GameOk(g) && Exec(g, c, now, version).Applied? && Reversible(g, c)
    ensures var back := Undo(g, c, Exec(g, c, now, version).game);
      GameOk(back) && Like(back, g) && SameTurn(back, g) && (!(c.Conceding? && Ends(GAME, g, c, now, version)) ==> back == g)
  {
    var after := Exec(g, c, now, version).game;
    match c
    case Voting(_) =>
    case Conceding(concede) => ConcessionUndo(g.life, concede, now);
    case Passing(_) =>
    case Changing(change, tag) => TableUndo.UndoExact(g.table, change, tag);
  }

  /** The undone concession of a life. */
  function BackFromConcede(l: Life, c: ConcedeCommand, after: Life): Life
    requires c.player in l.players
  {
    after.(players := after.players[c.player := l.players[c.player]], turn := l.turn, finished := l.finished)
  }

  /** The concession is the one that ends the game. */
  predicate LastConcession(l: Life, c: ConcedeCommand) {
    !l.finished && IsActive(l, c.player) && |ActiveSet(l) - {c.player}| == 1
  }

  /** The game already carries the marks that undoing its end leaves: no ballots, and the
      winner and finish time an earlier undone concession left. */
  predicate AlreadyMarked(l: Life, c: ConcedeCommand, now: int)
    requires LastConcession(l, c)
  {
    var left := ActiveSet(l) - {c.player};
    left != {} && l.ballots == map[] && l.winner == Some(Least(left)) && l.finishedAt == Some(Or(c.finishAt, now))
  }

  lemma ConcessionUndo(l: Life, c: ConcedeCommand, now: int)
    requires LifeInv(l) && ApplyConcede(l, c, now).Done?
    ensures var after := ApplyConcede(l, c, now).life; var back := BackFromConcede(l, c, after);
      && LifeInv(back) && Similar(back, l)
      && (after.finished != l.finished <==> LastConcession(l, c))
      && (!LastConcession(l, c) ==> back == l)
      && (LastConcession(l, c) ==> (back == l <==> AlreadyMarked(l, c, now)))
  {
    var after := ApplyConcede(l, c, now).life;
    if l.players[c.player].standing == Active {
      var l1 := Concede(l, c.player, Some(Or(c.at, now)));
      HandOverKeeps(l1, c.player);
      assert ActiveSet(l1) == ActiveSet(l) - {c.player};
      EndOfConcession(l, l1, HandOver(l1, c.player).0, c, now);
    }
    var back := BackFromConcede(l, c, after);
    assert back.players == l.players;
    assert ActiveSet(back) == ActiveSet(l);
  }

  lemma EndOfConcession(l: Life, l1: Life, l2: Life, c: ConcedeCommand, now: int)
    requires c.player in l.players && l1.finished == l.finished && l1.ballots == l.ballots && l1.winner == l.winner && l1.finishedAt == l.finishedAt
    requires l2 == l1.(turn := l2.turn) && ActiveSet(l2) == ActiveSet(l1) == ActiveSet(l) - {c.player} && IsActive(l, c.player)
    ensures var end := Finish(l2, Or(c.finishAt, now)).0;
      && (end.finished != l.finished <==> LastConcession(l, c))
      && (!LastConcession(l, c) ==> end == l2)
      && (LastConcession(l, c) ==> (end.ballots == l.ballots && end.winner == l.winner && end.finishedAt == l.finishedAt
                                    <==> AlreadyMarked(l, c, now)))
  {}

  /** Undoing gives back the very game if and only if the command is reversible and not the
      concession that ends the game, unless the game already carries the marks of that end. */
  lemma UndoExactly(g: Game, c: Command, now: int, version: int)
    requires GameOk(g) && Exec(g, c, now, version).Applied?
    ensures Undo(g, c, Exec(g, c, now, version).game) == g <==>
      && Reversible(g, c)
      && (c.Conceding? && LastConcession(g.life, c.concede) ==> AlreadyMarked(g.life, c.concede, now))
  {
    match c
    case Voting(_) =>
    case Conceding(concede) => ConcessionUndo(g.life, concede, now);
    case Passing(_) =>
    case Changing(change, tag) => TableUndo.UndoExact(g.table, change, tag);
  }

  lemma RejectionKeeps(g: Game, c: Command, now: int, version: int)
    requires GameOk(g) && Exec(g, c, now, version).Rejected?
    ensures Exec(g, c, now, version).game == g <==> Reversible(g, c)
  {
    if c.Changing? { TableReject.RejectionExact(g.table, c.change, c.tag); }
  }

  lemma AllOfflineKeeps(g: Game)
    requires GameOk(g)
    ensures GameOk(AllOffline(g)) && Like(AllOffline(g), g) && SameTurn(AllOffline(g), g)
    ensures AllOffline(g).life.ballots == map[]
    ensures forall p | p in g.life.players :: AllOffline(g).life.players[p].online == Some(false)
  {
    assert ActiveSet(AllOffline(g).life) == ActiveSet(g.life);
  }
}
