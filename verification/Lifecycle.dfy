/**
  The lifecycle part of a game as a value, and what every lifecycle command and
  every lifecycle event does to it: concession, turn hand-over, the finish check,
  presence generations and the disconnect ballots.
 */
module Lifecycle {
  import opened Common

  datatype Standing = Active | Conceded

  datatype Player = Player(standing: Standing, concededAt: Option<int>, online: Option<bool>)

  /** `phase` and `step` stand for the names the client gives; only `active` is looked at. */
  datatype Turn = Turn(active: Option<PlayerId>, phase: int, step: int, number: int)

  datatype Choice = Wait | Expel

  datatype Vote = Vote(choice: Choice, at: int)

  datatype BallotStatus = Open | ResolvedWait | ResolvedExpel | Cancelled

  datatype Ballot = Ballot(
    status: BallotStatus,
    openedAt: Option<int>,
    deadline: Option<int>,
    cooldown: Option<int>,
    votes: map<PlayerId, Vote>,
    eligible: seq<PlayerId>,
    version: Option<int>)

  /** `finished` is the status and the phase; the winner and the finish time are separate
      because an undo restores only the former. */
  datatype Life = Life(
    players: map<PlayerId, Player>,
    turn: Turn,
    ballots: map<PlayerId, Ballot>,
    generations: map<PlayerId, int>,
    finished: bool,
    winner: Option<PlayerId>,
    finishedAt: Option<int>)

  datatype Origin = Gateway | ActorTick | Browser

  /** A `disconnect.vote` command that brings its own `disconnectVotes` is `Carried`: it takes
      the branch that replays events, whoever sent it. */
  datatype Signal =
    | GoOffline(connected: seq<PlayerId>)
    | GoOnline
    | Timeout
    | Cast(voter: Option<PlayerId>, choice: Option<Choice>, connected: seq<PlayerId>)
    | Carried(fields: VoteEvent)

  datatype VoteCommand = VoteCommand(
    target: PlayerId, origin: Origin, generation: Option<int>, signal: Signal, finishAt: Option<int>)

  datatype ConcedeCommand = ConcedeCommand(player: PlayerId, at: Option<int>, finishAt: Option<int>)

  /** The fields a `turn.changed` request names; an active player may be named as nobody. */
  datatype TurnCommand = TurnCommand(active: Option<Option<PlayerId>>, phase: Option<int>, step: Option<int>, number: Option<int>)

  datatype TurnEvent = TurnEvent(turn: Turn, previous: Turn)

  datatype VoteEvent = VoteEvent(
    target: PlayerId,
    status: Option<BallotStatus>,
    ballots: map<PlayerId, Ballot>,
    generation: Option<int>,
    online: Option<bool>,
    concededAt: Option<int>,
    turn: Option<Turn>,
    finishedAt: Option<int>)

  datatype ConcedeEvent = ConcedeEvent(
    player: PlayerId, concededAt: Option<int>, turn: Option<Turn>, finishedAt: Option<int>)

  datatype LifeError =
    | UnknownPlayer | InvalidGeneration | StaleGeneration
    | InvalidVote | NoOpenBallot | MissingVoter | NotEligible

  datatype Outcome<E> = Done(life: Life, event: E) | Refused(error: LifeError)

  const BALLOT_SECONDS := 60
  const COOLDOWN_SECONDS := 300

  // ---------------------------------------------------------------- queries

  predicate IsActive(l: Life, p: PlayerId) {
    p in l.players && l.players[p].standing == Active
  }

  predicate IsConceded(l: Life, p: PlayerId) {
    p in l.players && l.players[p].standing == Conceded
  }

  function ActiveSet(l: Life): set<PlayerId> {
    set p | p in l.players && l.players[p].standing == Active
  }

  function Generation(l: Life, p: PlayerId): int {
    if p in l.generations then l.generations[p] else 0
  }

  predicate HasStatus(l: Life, p: PlayerId, s: BallotStatus) {
    p in l.ballots && l.ballots[p].status == s
  }

  function StatusOf(l: Life, p: PlayerId): Option<BallotStatus> {
    if p in l.ballots then Some(l.ballots[p].status) else None
  }

  function Later(ids: set<PlayerId>, p: PlayerId): set<PlayerId> {
    set q | q in ids && p < q
  }

  /** The active player the turn goes to after `current`: the next larger active id when
      `current` is itself active, otherwise the least active id. */
  function NextActive(l: Life, current: PlayerId): Option<PlayerId> {
    var active := ActiveSet(l);
    var later := Later(active, current);
    if active == {} then None
    else if current in active && later != {} then Some(Least(later))
    else Some(Least(active))
  }

  predicate MayVote(players: map<PlayerId, Player>, target: PlayerId, connected: seq<PlayerId>, p: PlayerId) {
    p in players && p != target && players[p].standing == Active && (connected == [] || p in connected)
  }

  function VoterSet(l: Life, target: PlayerId, connected: seq<PlayerId>): set<PlayerId> {
    set p | p in l.players && MayVote(l.players, target, connected, p)
  }

  function Eligible(l: Life, target: PlayerId, connected: seq<PlayerId>): seq<PlayerId> {
    SortedIds(VoterSet(l, target, connected))
  }

  /** The voters of a ballot: those fixed when it was opened, or, for a ballot
      without a list, those eligible now. */
  function BallotVoters(b: Ballot, l: Life, target: PlayerId, connected: seq<PlayerId>): seq<PlayerId> {
    if b.eligible != [] then b.eligible else Eligible(l, target, connected)
  }

  function Count(voters: seq<PlayerId>, votes: map<PlayerId, Vote>, choice: Choice): nat {
    if voters == [] then 0
    else
      var n := |voters| - 1;
      Count(voters[..n], votes, choice)
      + if voters[n] in votes && votes[voters[n]].choice == choice then 1 else 0
  }

  function Majority(n: nat): nat {
    n / 2 + 1
  }

  // ------------------------------------------------------------ small steps

  function SetOnline(l: Life, p: PlayerId, b: bool): Life {
    if p !in l.players || l.players[p].online == Some(b) then l
    else l.(players := l.players[p := l.players[p].(online := Some(b))])
  }

  function Concede(l: Life, p: PlayerId, at: Option<int>): Life
    requires p in l.players
  {
    l.(players := l.players[p := l.players[p].(standing := Conceded, concededAt := at)])
  }

  /** Hands the turn over when the leaver holds it and somebody active remains. */
  function HandOver(l: Life, leaver: PlayerId): (Life, Option<Turn>) {
    if l.turn.active == Some(leaver) && NextActive(l, leaver).Some? then
      var turn := l.turn.(active := NextActive(l, leaver));
      (l.(turn := turn), Some(turn))
    else (l, None)
  }

  /** The finish check: exactly one active player left in an unfinished game. */
  function Finish(l: Life, at: int): (Life, Option<int>) {
    if l.finished || |ActiveSet(l)| != 1 then (l, None)
    else
      (l.(finished := true, winner := Some(Least(ActiveSet(l))), finishedAt := Some(at), ballots := map[]), Some(at))
  }

  function Or(o: Option<int>, default: int): int {
    match o case Some(v) => v case None => default
  }

  function Payload(l: Life, target: PlayerId): VoteEvent {
    VoteEvent(target, StatusOf(l, target), l.ballots, None, None, None, None, None)
  }

  // --------------------------------------------------------------- concede

  function ApplyConcede(l: Life, c: ConcedeCommand, now: int): Outcome<ConcedeEvent> {
    if c.player !in l.players then Refused(UnknownPlayer)
    else if l.players[c.player].standing == Conceded then
      Done(l, ConcedeEvent(c.player, l.players[c.player].concededAt, None, None))
    else
      var at := Or(c.at, now);
      var (l1, turn) := HandOver(Concede(l, c.player, Some(at)), c.player);
      var (l2, finishedAt) := Finish(l1, Or(c.finishAt, now));
      Done(l2, ConcedeEvent(c.player, Some(at), turn, finishedAt))
  }

  /** Replay runs the same applier on the event's own payload. */
  function ReplayConcede(l: Life, e: ConcedeEvent, now: int): Option<Life> {
    match ApplyConcede(l, ConcedeCommand(e.player, e.concededAt, e.finishedAt), now)
    case Done(l', _) => Some(l')
    case Refused(_) => None
  }

  // ------------------------------------------------------------------ turns

  /** The turn with the named fields written into it, unchecked. */
  function TurnAfter(turn: Turn, c: TurnCommand): Turn {
    Turn(if c.active.Some? then c.active.value else turn.active, Or(c.phase, turn.phase), Or(c.step, turn.step), Or(c.number, turn.number))
  }

  function ApplyTurn(l: Life, c: TurnCommand): (Life, TurnEvent) {
    var turn := TurnAfter(l.turn, c);
    (l.(turn := turn), TurnEvent(turn, l.turn))
  }

  /** What the applier finds when it is given the event for a request: both turns are there,
      each as a whole, but none of the fields it looks for. */
  function FieldsOf(e: TurnEvent): TurnCommand {
    TurnCommand(None, None, None, None)
  }

  /** Replay runs the same applier on the event's own payload. */
  function ReplayTurn(l: Life, e: TurnEvent): Life {
    ApplyTurn(l, FieldsOf(e)).0
  }

  // ----------------------------------------------------------- disconnects

  function AdvanceGeneration(l: Life, c: VoteCommand): Outcome<Option<int>> {
    if c.origin != Gateway || c.generation.None? then Done(l, None)
    else if c.generation.value < 1 then Refused(InvalidGeneration)
    else if c.generation.value <= Generation(l, c.target) then Refused(StaleGeneration)
    else Done(l.(generations := l.generations[c.target := c.generation.value]), c.generation)
  }

  function OpenVote(l: Life, target: PlayerId, connected: seq<PlayerId>, now: int, version: int): Life {
    if HasStatus(l, target, Open) || IsConceded(l, target) || connected == [] then l
    else
      var eligible := Eligible(l, target, connected);
      var ballot :=
        if eligible == [] then
          Ballot(ResolvedWait, None, None, Some(now + COOLDOWN_SECONDS), map[], eligible, Some(version))
        else
          Ballot(Open, Some(now), Some(now + BALLOT_SECONDS), None, map[], eligible, Some(version));
      l.(ballots := l.ballots[target := ballot])
  }

  function CancelVote(l: Life, target: PlayerId): Life {
    if !HasStatus(l, target, Open) && !HasStatus(l, target, ResolvedWait) then l
    else l.(ballots := l.ballots[target := Ballot(Cancelled, None, None, None, map[], [], None)])
  }

  /** Every missing decision becomes a wait. */
  function TimeoutVotes(voters: seq<PlayerId>, votes: map<PlayerId, Vote>, now: int): map<PlayerId, Vote> {
    map p | p in votes.Keys + SetOf(voters) :: if p in votes then votes[p] else Vote(Wait, now)
  }

  function ResolveTimeout(l: Life, target: PlayerId, now: int): Life {
    if !HasStatus(l, target, Open) then l
    else
      var b := l.ballots[target];
      var votes := TimeoutVotes(BallotVoters(b, l, target, []), b.votes, now);
      l.(ballots := l.ballots[target := b.(votes := votes, status := ResolvedWait, openedAt := None,
                                           deadline := None, cooldown := Some(now + COOLDOWN_SECONDS))])
  }

  /** What a ballot becomes once `votes` are in. */
  function Settle(b: Ballot, voters: seq<PlayerId>, votes: map<PlayerId, Vote>, now: int): Ballot {
    var wait := Count(voters, votes, Wait);
    var expel := Count(voters, votes, Expel);
    var majority := Majority(|voters|);
    if expel >= majority then
      b.(votes := votes, status := ResolvedExpel, openedAt := None, deadline := None, cooldown := None)
    else if wait >= majority || (wait > 0 && wait == expel) then
      b.(votes := votes, status := ResolvedWait, openedAt := None, deadline := None,
         cooldown := Some(now + COOLDOWN_SECONDS))
    else b.(votes := votes)
  }

  function RecordVote(l: Life, target: PlayerId, voter: Option<PlayerId>, choice: Choice,
                      connected: seq<PlayerId>, now: int, finishAt: Option<int>): Outcome<VoteEvent>
    requires target in l.players
  {
    if !HasStatus(l, target, Open) then Refused(NoOpenBallot)
    else if voter.None? then Refused(MissingVoter)
    else if voter.value == target || voter.value !in l.players then Refused(InvalidVote)
    else
      var b := l.ballots[target];
      var voters := BallotVoters(b, l, target, connected);
      if voter.value !in voters then Refused(NotEligible)
      else
        var settled := Settle(b, voters, b.votes[voter.value := Vote(choice, now)], now);
        var (l1, turn) :=
          if settled.status == ResolvedExpel then HandOver(Concede(l, target, Some(now)), target) else (l, None);
        var l2 := l1.(ballots := l.ballots[target := settled]);
        var payload := Payload(l2, target).(turn := turn);
        if !IsConceded(l2, target) then Done(l2, payload)
        else
          var (l3, finishedAt) := Finish(l2, Or(finishAt, now));
          Done(l3, payload.(concededAt := l2.players[target].concededAt, finishedAt := finishedAt))
  }

  // ------------------------------------------------------- carried fields

  function RestoreFence(l: Life, p: PlayerId, generation: Option<int>): Life {
    if generation.Some? && generation.value > Generation(l, p)
    then l.(generations := l.generations[p := generation.value]) else l
  }

  predicate Expels(e: VoteEvent) {
    e.status == Some(ResolvedExpel)
  }

  /** The carried fields put into the game: fence, ballots, presence, an expulsion, the turn. */
  function Restored(l: Life, e: VoteEvent): Life
    requires e.target in l.players
  {
    var l1 := RestoreFence(l, e.target, e.generation).(ballots := e.ballots);
    var l2 := if e.online.Some? then SetOnline(l1, e.target, e.online.value) else l1;
    var l3 :=
      if Expels(e) then Concede(l2, e.target, if e.concededAt.Some? then e.concededAt else l2.players[e.target].concededAt)
      else l2;
    if e.turn.Some? then l3.(turn := e.turn.value) else l3
  }

  /** Carried by a live command. The new event repeats neither the fence nor the turn, and
      its status is that of the carried ballot, not the status that was sent. */
  function ApplyCarried(l: Life, e: VoteEvent, now: int): Outcome<VoteEvent>
    requires e.target in l.players
  {
    if e.generation.Some? && e.generation.value < 1 then Refused(InvalidGeneration)
    else
      var l1 := Restored(l, e);
      var payload := Payload(l1, e.target).(online := e.online);
      if !IsConceded(l1, e.target) then Done(l1, payload)
      else
        var (l2, finishedAt) := Finish(l1, Or(e.finishedAt, now));
        Done(l2, payload.(concededAt := l1.players[e.target].concededAt, finishedAt := finishedAt))
  }

  /** A `disconnect.vote` command arriving at the actor at version `version - 1`. */
  function ApplyVote(l: Life, c: VoteCommand, now: int, version: int): Outcome<VoteEvent> {
    if c.target !in l.players then Refused(UnknownPlayer)
    else if c.signal.Carried? then ApplyCarried(l, c.signal.fields.(target := c.target), now)
    else
      match AdvanceGeneration(l, c)
      case Refused(error) => Refused(error)
      case Done(l0, generation) =>
        match c.signal
        case GoOffline(connected) =>
          var l1 := OpenVote(SetOnline(l0, c.target, false), c.target, connected, now, version);
          Done(l1, Payload(l1, c.target).(generation := generation, online := Some(false)))
        case GoOnline =>
          var l1 := CancelVote(SetOnline(l0, c.target, true), c.target);
          Done(l1, Payload(l1, c.target).(generation := generation, online := Some(true)))
        case Timeout =>
          var l1 := ResolveTimeout(l0, c.target, now);
          Done(l1, Payload(l1, c.target).(generation := generation))
        case Cast(voter, choice, connected) =>
          if choice.None? then Refused(InvalidVote)
          else
            match RecordVote(l0, c.target, voter, choice.value, connected, now, c.finishAt)
            case Refused(error) => Refused(error)
            case Done(l1, payload) => Done(l1, payload.(generation := generation))
  }

  /** The replay branch: the payload's ballots replace the actor's, and the
      recorded consequences are applied. */
  function ReplayVote(l: Life, e: VoteEvent, now: int): Option<Life> {
    if e.target !in l.players || (e.generation.Some? && e.generation.value < 1) then None
    else
      var l1 := Restored(l, e);
      Some(if IsConceded(l1, e.target) then Finish(l1, Or(e.finishedAt, now)).0 else l1)
  }
}
