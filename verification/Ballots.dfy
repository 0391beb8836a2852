/**
  Invariants of runs of lifecycle commands on one game: safety and completeness of
  disconnect ballots, the standing of players, the finish, and turn hand-over.
 */
module Ballots {
  import opened Common
  import opened Lifecycle
  import LifecycleReplay

  datatype Request = Request(command: LifeCommand, now: int, version: int)

  datatype LifeCommand = Voting(vote: VoteCommand) | Conceding(concede: ConcedeCommand) | Passing(pass: TurnCommand)

  /** One command at an actor that is at the head of its log: a finished game takes no
      more commands and a refused command changes nothing. */
  function Step(l: Life, r: Request): Life {
    if l.finished then l
    else match r.command
      case Voting(c) => (match ApplyVote(l, c, r.now, r.version) case Done(l', _) => l' case Refused(_) => l)
      case Conceding(c) => (match ApplyConcede(l, c, r.now) case Done(l', _) => l' case Refused(_) => l)
      case Passing(c) => ApplyTurn(l, c).0
  }

  function Run(l: Life, rs: seq<Request>): Life {
    if rs == [] then l else Step(Run(l, rs[..|rs| - 1]), rs[|rs| - 1])
  }

  // ---------------------------------------------------------------- ballots

  /** Neither side of an open ballot has won and there is no tie above zero. */
  ghost predicate Undecided(b: Ballot) {
    var wait, expel := Count(b.eligible, b.votes, Wait), Count(b.eligible, b.votes, Expel);
    expel < Majority(|b.eligible|) && wait < Majority(|b.eligible|) && !(wait > 0 && wait == expel)
  }

  ghost predicate BallotOk(l: Life, t: PlayerId, b: Ballot) {
    && t in l.players
    && (b.status == Open || b.status == ResolvedWait ==> l.players[t].online == Some(false))
    && (b.status == Open ==>
          && b.eligible != [] && NoDup(b.eligible) && t !in b.eligible && b.deadline.Some?
          && (forall v | v in b.eligible :: v in l.players)
          && b.votes.Keys <= SetOf(b.eligible)
          && Undecided(b))
    && (b.status == ResolvedExpel ==>
          IsConceded(l, t) && 2 * Count(b.eligible, b.votes, Expel) > |b.eligible|)
  }

  ghost predicate BallotsOk(l: Life) {
    forall t | t in l.ballots :: BallotOk(l, t, l.ballots[t])
  }

  lemma {:induction false} CountBound(voters: seq<PlayerId>, votes: map<PlayerId, Vote>)
    ensures Count(voters, votes, Wait) + Count(voters, votes, Expel) <= |voters|
    ensures SetOf(voters) <= votes.Keys ==> Count(voters, votes, Wait) + Count(voters, votes, Expel) == |voters|
  {
    if voters != [] {
      var n := |voters| - 1;
      CountBound(voters[..n], votes);
      assert voters[n] in SetOf(voters);
      assert SetOf(voters[..n]) <= SetOf(voters);
    }
  }

  lemma {:induction false} CountNone(voters: seq<PlayerId>, choice: Choice)
    ensures Count(voters, map[], choice) == 0
  {
    if voters != [] { CountNone(voters[..|voters| - 1], choice); }
  }

  /** Completeness: in a reachable state an open ballot still waits for somebody;
      once every eligible player has voted it is closed. */
  lemma OpenBallotAwaitsSomebody(l: Life, t: PlayerId)
    requires BallotsOk(l) && HasStatus(l, t, Open)
    ensures exists v :: v in l.ballots[t].eligible && v !in l.ballots[t].votes
  {
    var b := l.ballots[t];
    assert BallotOk(l, t, b);
    CountBound(b.eligible, b.votes);
    assert !(SetOf(b.eligible) <= b.votes.Keys);
  }

  /** Presence and standing only move in the direction ballots allow. */
  ghost predicate PlayersFollow(l: Life, l': Life) {
    && l.players.Keys == l'.players.Keys
    && (forall p | IsConceded(l, p) :: IsConceded(l', p))
  }

  lemma SetOnlineFollows(l: Life, p: PlayerId, b: bool)
    ensures PlayersFollow(l, SetOnline(l, p, b))
    ensures forall q | q in l.players && q != p :: SetOnline(l, p, b).players[q] == l.players[q]
    ensures p in l.players ==> SetOnline(l, p, b).players[p].online == Some(b)
    ensures SetOnline(l, p, b).ballots == l.ballots && SetOnline(l, p, b).finished == l.finished
  {}

  lemma OfflineKeepsBallots(l: Life, c: VoteCommand, connected: seq<PlayerId>, now: int, version: int)
    requires BallotsOk(l) && c.target in l.players
    ensures BallotsOk(OpenVote(SetOnline(l, c.target, false), c.target, connected, now, version))
  {
    var p := c.target;
    var l1 := SetOnline(l, p, false);
    SetOnlineFollows(l, p, false);
    assert BallotsOk(l1) by {
      forall t | t in l1.ballots ensures BallotOk(l1, t, l1.ballots[t]) { assert BallotOk(l, t, l.ballots[t]); }
    }
    var l2 := OpenVote(l1, p, connected, now, version);
    if l2 != l1 {
      var b := l2.ballots[p];
      var voters := Eligible(l1, p, connected);
      IncreasingIsNoDup(voters);
      assert forall v | v in voters :: v in SetOf(voters);
      CountNone(voters, Wait);
      CountNone(voters, Expel);
      assert BallotOk(l2, p, b);
      forall t | t in l2.ballots ensures BallotOk(l2, t, l2.ballots[t]) {
        if t != p { assert BallotOk(l1, t, l1.ballots[t]); }
      }
    }
  }

  lemma OnlineKeepsBallots(l: Life, p: PlayerId)
    requires BallotsOk(l) && p in l.players
    ensures BallotsOk(CancelVote(SetOnline(l, p, true), p))
  {
    var l1 := SetOnline(l, p, true);
    SetOnlineFollows(l, p, true);
    var l2 := CancelVote(l1, p);
    forall t | t in l2.ballots ensures BallotOk(l2, t, l2.ballots[t]) {
      if t in l.ballots { assert BallotOk(l, t, l.ballots[t]); }
    }
  }

  lemma TimeoutKeepsBallots(l: Life, p: PlayerId, now: int)
    requires BallotsOk(l)
    ensures BallotsOk(ResolveTimeout(l, p, now))
  {
    var l' := ResolveTimeout(l, p, now);
    forall t | t in l'.ballots ensures BallotOk(l', t, l'.ballots[t]) {
      assert BallotOk(l, t, l.ballots[t]);
    }
  }

  /** Settling keeps an open ballot undecided, and expels only by a strict majority. */
  lemma SettleIsSafe(b: Ballot, votes: map<PlayerId, Vote>, now: int)
    requires b.status == Open
    ensures var b' := Settle(b, b.eligible, votes, now);
            && b'.eligible == b.eligible && b'.votes == votes && b'.deadline == (if b'.status == Open then b.deadline else None)
            && (b'.status == Open ==> Undecided(b'))
            && (b'.status == ResolvedExpel <==> 2 * Count(b.eligible, votes, Expel) > |b.eligible|)
            && b'.status != Cancelled
  {}

  lemma ConcessionKeepsBallots(l: Life, l': Life, p: PlayerId)
    requires BallotsOk(l) && p in l.players
    requires p in l'.players && l'.players == Concede(l, p, l'.players[p].concededAt).players
    requires l'.ballots == l.ballots || l'.ballots == map[]
    ensures BallotsOk(l')
  {
    forall t | t in l'.ballots ensures BallotOk(l', t, l'.ballots[t]) {
      assert BallotOk(l, t, l.ballots[t]);
    }
  }

  lemma HandOverKeeps(l: Life, p: PlayerId)
    ensures HandOver(l, p).0.players == l.players && HandOver(l, p).0.ballots == l.ballots
    ensures HandOver(l, p).0.finished == l.finished
  {}

  lemma SettledKeepsBallots(l: Life, l': Life, target: PlayerId, settled: Ballot, at: Option<int>)
    requires BallotsOk(l) && HasStatus(l, target, Open) && target in l.players
    requires settled.eligible == l.ballots[target].eligible && settled.votes.Keys <= SetOf(settled.eligible)
    requires settled.status != Cancelled
    requires settled.status == Open ==> Undecided(settled) && settled.deadline == l.ballots[target].deadline
    requires settled.status == ResolvedExpel ==> 2 * Count(settled.eligible, settled.votes, Expel) > |settled.eligible|
    requires l'.players == if settled.status == ResolvedExpel then Concede(l, target, at).players else l.players
    requires l'.ballots == l.ballots[target := settled]
    ensures BallotsOk(l')
  {
    assert BallotOk(l, target, l.ballots[target]);
    forall t | t in l'.ballots ensures BallotOk(l', t, l'.ballots[t]) {
      if t != target { assert BallotOk(l, t, l.ballots[t]); }
    }
  }

  lemma CastKeepsBallots(l: Life, target: PlayerId, voter: Option<PlayerId>, choice: Choice,
                         connected: seq<PlayerId>, now: int, finishAt: Option<int>)
    requires BallotsOk(l) && target in l.players
    requires RecordVote(l, target, voter, choice, connected, now, finishAt).Done?
    ensures BallotsOk(RecordVote(l, target, voter, choice, connected, now, finishAt).life)
  {
    var b := l.ballots[target];
    assert BallotOk(l, target, b);
    var votes := b.votes[voter.value := Vote(choice, now)];
    var settled := Settle(b, b.eligible, votes, now);
    SettleIsSafe(b, votes, now);
    assert voter.value in SetOf(b.eligible);
    var l1 := if settled.status == ResolvedExpel then HandOver(Concede(l, target, Some(now)), target).0 else l;
    HandOverKeeps(Concede(l, target, Some(now)), target);
    var l2 := l1.(ballots := l.ballots[target := settled]);
    SettledKeepsBallots(l, l2, target, settled, Some(now));
    var r := RecordVote(l, target, voter, choice, connected, now, finishAt);
    assert r.life == l2 || r.life == Finish(l2, Or(finishAt, now)).0;
  }

  lemma GenerationKeepsBallots(l: Life, c: VoteCommand)
    requires BallotsOk(l) && AdvanceGeneration(l, c).Done?
    ensures var l0 := AdvanceGeneration(l, c).life;
            BallotsOk(l0) && l0.players == l.players && l0.ballots == l.ballots && l0.turn == l.turn
            && l0.finished == l.finished && ActiveSet(l0) == ActiveSet(l)
  {
    var l0 := AdvanceGeneration(l, c).life;
    assert ActiveSet(l0) == ActiveSet(l);
    forall t | t in l0.ballots ensures BallotOk(l0, t, l0.ballots[t]) { assert BallotOk(l, t, l.ballots[t]); }
  }

  // --------------------------------------------------------- carried ballots

  /** The carried fields of a command that is accepted with them. */
  function CarriedBy(l: Life, r: Request): Option<VoteEvent> {
    if l.finished || !r.command.Voting? || !r.command.vote.signal.Carried? || r.command.vote.target !in l.players then None
    else
      var e := r.command.vote.signal.fields.(target := r.command.vote.target);
      if e.generation.Some? && e.generation.value < 1 then None else Some(e)
  }

  /** Taking the fields over leaves one active player, which ends the game and drops the ballots. */
  predicate CarriedEnds(l: Life, e: VoteEvent) {
    (Expels(e) || IsConceded(l, e.target)) && |ActiveSet(l) - if Expels(e) then {e.target} else {}| == 1
  }

  /** One carried ballot is as good as one the actor would have made. */
  ghost predicate HonestBallot(l: Life, e: VoteEvent, t: PlayerId, b: Ballot) {
    && t in l.players
    && (b.status == Open || b.status == ResolvedWait ==>
          (if t == e.target && e.online.Some? then e.online else l.players[t].online) == Some(false))
    && (b.status == Open ==>
          && b.eligible != [] && NoDup(b.eligible) && t !in b.eligible && b.deadline.Some?
          && (forall v | v in b.eligible :: v in l.players)
          && b.votes.Keys <= SetOf(b.eligible)
          && Undecided(b))
    && (b.status == ResolvedExpel ==>
          (IsConceded(l, t) || (t == e.target && Expels(e))) && 2 * Count(b.eligible, b.votes, Expel) > |b.eligible|)
  }

  ghost predicate HonestBallots(l: Life, e: VoteEvent) {
    CarriedEnds(l, e) || forall t | t in e.ballots :: HonestBallot(l, e, t, e.ballots[t])
  }

  /** What a command with carried fields does to a running game. */
  lemma CarriedStep(l: Life, r: Request)
    requires CarriedBy(l, r).Some?
    ensures var e := CarriedBy(l, r).value; var l1 := Restored(l, e);
      && e.target in l.players && LifecycleReplay.Restores(l, e, l1) && LifecycleReplay.RestoredPlayer(l.players[e.target], e) == l1.players[e.target]
      && ActiveSet(l1) == ActiveSet(l) - (if Expels(e) then {e.target} else {})
      && (IsConceded(l1, e.target) <==> Expels(e) || IsConceded(l, e.target))
      && Step(l, r) == (if IsConceded(l1, e.target) then Finish(l1, Or(e.finishedAt, r.now)).0 else l1)
  {
    var e := CarriedBy(l, r).value;
    LifecycleReplay.RestoredRestores(l, e);
    LifecycleReplay.RestoredActive(l, e);
    LifecycleReplay.CarriedEvent(l, e, r.now);
  }

  lemma CarriedKeepsBallots(l: Life, r: Request)
    requires CarriedBy(l, r).Some?
    ensures BallotsOk(Step(l, r)) <==> HonestBallots(l, CarriedBy(l, r).value)
  {
    var e := CarriedBy(l, r).value;
    var l1 := Restored(l, e);
    CarriedStep(l, r);
    if !CarriedEnds(l, e) {
      assert Step(l, r) == l1;
      HonestIsOk(l, e, l1);
    }
  }

  lemma HonestIsOk(l: Life, e: VoteEvent, l1: Life)
    requires e.target in l.players && LifecycleReplay.Restores(l, e, l1)
    ensures BallotsOk(l1) <==> forall t | t in e.ballots :: HonestBallot(l, e, t, e.ballots[t])
  {
    forall t | t in e.ballots ensures BallotOk(l1, t, e.ballots[t]) <==> HonestBallot(l, e, t, e.ballots[t]) {
      assert t in l.players && t != e.target ==> l1.players[t] == l.players[t];
    }
  }

  /** Every command keeps the ballots well formed, and one that carries ballots does if and
      only if those are honest, or it ends the game. */
  lemma StepKeepsBallots(l: Life, r: Request)
    requires BallotsOk(l)
    ensures BallotsOk(Step(l, r)) <==> (CarriedBy(l, r).Some? ==> HonestBallots(l, CarriedBy(l, r).value))
  {
    if CarriedBy(l, r).Some? {
      CarriedKeepsBallots(l, r);
    } else {
      OwnStepKeepsBallots(l, r);
    }
  }

  lemma OwnStepKeepsBallots(l: Life, r: Request)
    requires BallotsOk(l) && CarriedBy(l, r).None?
    ensures BallotsOk(Step(l, r))
  {
    if l.finished { return; }
    match r.command {
      case Voting(c) =>
        if c.target in l.players && AdvanceGeneration(l, c).Done? {
          GenerationKeepsBallots(l, c);
          var l0 := AdvanceGeneration(l, c).life;
          match c.signal {
            case GoOffline(connected) => OfflineKeepsBallots(l0, c, connected, r.now, r.version);
            case GoOnline => OnlineKeepsBallots(l0, c.target);
            case Timeout => TimeoutKeepsBallots(l0, c.target, r.now);
            case Cast(voter, choice, connected) =>
              if choice.Some? && RecordVote(l0, c.target, voter, choice.value, connected, r.now, c.finishAt).Done? {
                CastKeepsBallots(l0, c.target, voter, choice.value, connected, r.now, c.finishAt);
              }
            case Carried(_) =>
          }
        }
      case Conceding(c) =>
        if c.player in l.players && l.players[c.player].standing == Active {
          HandOverKeeps(Concede(l, c.player, Some(Or(c.at, r.now))), c.player);
          ConcessionKeepsBallots(l, Step(l, r), c.player);
        }
      case Passing(c) =>
        forall t | t in l.ballots ensures BallotOk(Step(l, r), t, l.ballots[t]) { assert BallotOk(l, t, l.ballots[t]); }
    }
  }

  // ------------------------------------------------------ standing and turn

  /** A finished game has one active player, the recorded winner. */
  ghost predicate FinishedWell(l: Life) {
    l.finished ==> l.winner.Some? && ActiveSet(l) == {l.winner.value} && l.finishedAt.Some? && l.ballots == map[]
  }

  /** A step either leaves standing and turn alone, or takes exactly one active player out:
      then the turn moves iff that player held it, to the least remaining active player. */
  ghost predicate Departure(l: Life, l': Life, p: PlayerId) {
    && IsActive(l, p) && l'.players.Keys == l.players.Keys && ActiveSet(l') == ActiveSet(l) - {p}
    && l'.turn == l.turn.(active := l'.turn.active)
    && l'.turn.active == (if l.turn.active == Some(p) && ActiveSet(l') != {} then Some(Least(ActiveSet(l')))
                          else l.turn.active)
    && l'.finished == (|ActiveSet(l')| == 1)
  }

  ghost predicate NoDeparture(l: Life, l': Life) {
    && l'.players.Keys == l.players.Keys && ActiveSet(l') == ActiveSet(l)
    && l'.turn == l.turn && l'.finished == l.finished
  }

  lemma HandOverGoesToLeast(l: Life, p: PlayerId, at: Option<int>)
    requires p in l.players
    ensures var l1 := Concede(l, p, at);
            var (l2, turn) := HandOver(l1, p);
            && ActiveSet(l2) == ActiveSet(l1) == ActiveSet(l) - {p}
            && l2 == l1.(turn := l2.turn) && l2.turn == l.turn.(active := l2.turn.active)
            && l2.turn.active == (if l.turn.active == Some(p) && ActiveSet(l2) != {} then Some(Least(ActiveSet(l2)))
                                  else l.turn.active)
  {
    var l1 := Concede(l, p, at);
    var l2 := HandOver(l1, p).0;
    assert ActiveSet(l1) == ActiveSet(l) - {p};
    assert ActiveSet(l2) == ActiveSet(l1);
  }

  lemma FinishKeepsActive(l: Life, at: int)
    ensures ActiveSet(Finish(l, at).0) == ActiveSet(l) && Finish(l, at).0.turn == l.turn
    ensures FinishedWell(l) ==> FinishedWell(Finish(l, at).0)
    ensures Finish(l, at).0.finished == (l.finished || |ActiveSet(l)| == 1)
  {
    var l' := Finish(l, at).0;
    assert ActiveSet(l') == ActiveSet(l);
    if !l.finished && |ActiveSet(l)| == 1 {
      var w := Least(ActiveSet(l));
      assert |ActiveSet(l) - {w}| == 0;
      assert ActiveSet(l) == {w} + (ActiveSet(l) - {w});
    }
  }

  lemma ConcedingStep(l: Life, c: ConcedeCommand, now: int)
    requires !l.finished && |ActiveSet(l)| >= 2 && ApplyConcede(l, c, now).Done?
    ensures var l' := ApplyConcede(l, c, now).life;
            FinishedWell(l') && (NoDeparture(l, l') || Departure(l, l', c.player))
  {
    if l.players[c.player].standing == Active {
      var at := Some(Or(c.at, now));
      HandOverGoesToLeast(l, c.player, at);
      FinishKeepsActive(HandOver(Concede(l, c.player, at), c.player).0, Or(c.finishAt, now));
    }
  }

  lemma QuietStepKeepsStanding(l: Life, target: PlayerId, connected: seq<PlayerId>, now: int, version: int)
    ensures NoDeparture(l, OpenVote(SetOnline(l, target, false), target, connected, now, version))
    ensures NoDeparture(l, CancelVote(SetOnline(l, target, true), target))
    ensures NoDeparture(l, ResolveTimeout(l, target, now))
  {
    LifecycleReplay.SetOnlineKeeps(l, target, false);
    LifecycleReplay.SetOnlineKeeps(l, target, true);
    var a, b := OpenVote(SetOnline(l, target, false), target, connected, now, version), CancelVote(SetOnline(l, target, true), target);
    assert ActiveSet(a) == ActiveSet(SetOnline(l, target, false));
    assert ActiveSet(b) == ActiveSet(SetOnline(l, target, true));
    assert ActiveSet(ResolveTimeout(l, target, now)) == ActiveSet(l);
  }

  /** Nobody who has conceded holds the turn. */
  ghost predicate TurnOk(l: Life) {
    l.turn.active.Some? ==> !IsConceded(l, l.turn.active.value)
  }

  lemma CastStep(l: Life, target: PlayerId, voter: Option<PlayerId>, choice: Choice,
                 connected: seq<PlayerId>, now: int, finishAt: Option<int>)
    requires target in l.players && !l.finished && |ActiveSet(l)| >= 2 && TurnOk(l)
    requires RecordVote(l, target, voter, choice, connected, now, finishAt).Done?
    ensures var r := RecordVote(l, target, voter, choice, connected, now, finishAt);
            && FinishedWell(r.life)
            && (NoDeparture(l, r.life) || (Departure(l, r.life, target) && r.event.status == Some(ResolvedExpel)))
  {
    var b := l.ballots[target];
    var voters := BallotVoters(b, l, target, connected);
    var settled := Settle(b, voters, b.votes[voter.value := Vote(choice, now)], now);
    var ballots := l.ballots[target := settled];
    if settled.status == ResolvedExpel {
      var x := HandOver(Concede(l, target, Some(now)), target).0;
      HandOverGoesToLeast(l, target, Some(now));
      assert ActiveSet(x.(ballots := ballots)) == ActiveSet(x);
      FinishKeepsActive(x.(ballots := ballots), Or(finishAt, now));
      assert IsConceded(l, target) ==> ActiveSet(l) - {target} == ActiveSet(l);
    } else {
      assert ActiveSet(l.(ballots := ballots)) == ActiveSet(l);
      FinishKeepsActive(l.(ballots := ballots), Or(finishAt, now));
    }
  }

  /** All that holds of a game between commands. */
  ghost predicate GameInv(l: Life) {
    BallotsOk(l) && FinishedWell(l) && TurnOk(l) && (!l.finished ==> |ActiveSet(l)| >= 2)
  }

  /** The turn the rules of the game ask for after the carried fields. */
  function RuledTurn(l: Life, e: VoteEvent): Turn
    requires e.target in l.players
  {
    if Expels(e) && IsActive(l, e.target) then HandOver(Concede(l, e.target, e.concededAt), e.target).0.turn else l.turn
  }

  function CarriedTurn(l: Life, e: VoteEvent): Turn {
    if e.turn.Some? then e.turn.value else l.turn
  }

  /** The carried fields pass the turn as the rules do. */
  predicate PassesTurn(l: Life, e: VoteEvent)
    requires e.target in l.players
  {
    CarriedTurn(l, e) == RuledTurn(l, e)
  }

  lemma CarriedDeparts(l: Life, r: Request)
    requires GameInv(l) && CarriedBy(l, r).Some?
    ensures var e := CarriedBy(l, r).value; var l' := Step(l, r);
      && FinishedWell(l') && l'.turn == CarriedTurn(l, e) && l'.players.Keys == l.players.Keys
      && ActiveSet(l') == ActiveSet(l) - (if Expels(e) then {e.target} else {})
      && (!l'.finished ==> |ActiveSet(l')| >= 2)
      && (l'.finished <==> |ActiveSet(l')| == 1)
  {
    var e := CarriedBy(l, r).value;
    var l1 := Restored(l, e);
    CarriedStep(l, r);
    FinishKeepsActive(l1, Or(e.finishedAt, r.now));
    LifecycleReplay.RestoredActive(l, e);
    if !Expels(e) { assert ActiveSet(l) - {} == ActiveSet(l); }
  }

  lemma CarriedPasses(l: Life, r: Request)
    requires GameInv(l) && CarriedBy(l, r).Some?
    ensures (NoDeparture(l, Step(l, r)) || exists p :: Departure(l, Step(l, r), p)) <==> PassesTurn(l, CarriedBy(l, r).value)
  {
    var e := CarriedBy(l, r).value;
    var l' := Step(l, r);
    CarriedDeparts(l, r);
    var p := e.target;
    HandOverGoesToLeast(l, p, e.concededAt);
    if Expels(e) && IsActive(l, p) {
      assert p in ActiveSet(l) && ActiveSet(l') == ActiveSet(l) - {p};
      if q :| Departure(l, l', q) { assert q in ActiveSet(l) && q !in ActiveSet(l'); assert q == p; }
      assert PassesTurn(l, e) ==> Departure(l, l', p);
    } else {
      assert ActiveSet(l') == ActiveSet(l);
      assert PassesTurn(l, e) ==> NoDeparture(l, l');
    }
  }

  /** The turn fields a request writes into a running game. */
  function PassedBy(l: Life, r: Request): Option<TurnCommand> {
    if !l.finished && r.command.Passing? then Some(r.command.pass) else None
  }

  lemma PassedStep(l: Life, r: Request)
    requires PassedBy(l, r).Some?
    ensures var l' := Step(l, r);
      l' == l.(turn := TurnAfter(l.turn, PassedBy(l, r).value)) && ActiveSet(l') == ActiveSet(l)
  {
    assert ActiveSet(Step(l, r)) == ActiveSet(l);
  }

  /** One command: the finish is recorded; at most one player leaves and the turn moves only by
      the rules for leavers, except that carried fields do so if and only if the turn they leave
      behind is the one the rules ask for, and a turn change if and only if it changes nothing. */
  lemma StepDepartures(l: Life, r: Request)
    requires GameInv(l) && !l.finished
    ensures FinishedWell(Step(l, r))
    ensures (NoDeparture(l, Step(l, r)) || exists p :: Departure(l, Step(l, r), p))
      <==> && (CarriedBy(l, r).Some? ==> PassesTurn(l, CarriedBy(l, r).value))
           && (PassedBy(l, r).Some? ==> TurnAfter(l.turn, PassedBy(l, r).value) == l.turn)
  {
    if CarriedBy(l, r).Some? {
      CarriedDeparts(l, r);
      CarriedPasses(l, r);
    } else if PassedBy(l, r).Some? {
      PassedStep(l, r);
      forall p ensures !Departure(l, Step(l, r), p) { assert p in ActiveSet(l) ==> p in ActiveSet(Step(l, r)); }
    } else {
      OwnStepDepartures(l, r);
    }
  }

  lemma OwnStepDepartures(l: Life, r: Request)
    requires GameInv(l) && !l.finished && CarriedBy(l, r).None? && PassedBy(l, r).None?
    ensures FinishedWell(Step(l, r))
    ensures NoDeparture(l, Step(l, r)) || exists p :: Departure(l, Step(l, r), p)
  {
    match r.command {
      case Voting(c) =>
        if c.target in l.players && AdvanceGeneration(l, c).Done? {
          GenerationKeepsBallots(l, c);
          var l0 := AdvanceGeneration(l, c).life;
          match c.signal {
            case GoOffline(connected) => QuietStepKeepsStanding(l0, c.target, connected, r.now, r.version);
            case GoOnline => QuietStepKeepsStanding(l0, c.target, [], r.now, r.version);
            case Timeout => QuietStepKeepsStanding(l0, c.target, [], r.now, r.version);
            case Cast(voter, choice, connected) =>
              if choice.Some? && RecordVote(l0, c.target, voter, choice.value, connected, r.now, c.finishAt).Done? {
                CastStep(l0, c.target, voter, choice.value, connected, r.now, c.finishAt);
                assert Departure(l0, Step(l, r), c.target) ==> Departure(l, Step(l, r), c.target);
              }
            case Carried(_) =>
          }
        }
      case Conceding(c) =>
        if ApplyConcede(l, c, r.now).Done? { ConcedingStep(l, c, r.now); }
    }
  }

  lemma MoveKeepsGame(l: Life, l': Life)
    requires GameInv(l) && !l.finished && BallotsOk(l') && FinishedWell(l')
    requires NoDeparture(l, l') || exists p :: Departure(l, l', p)
    ensures GameInv(l')
  {
    forall q | q in l'.players && IsConceded(l', q) ensures l'.turn.active != Some(q) {
      assert q !in ActiveSet(l') && q in l.players;
    }
    if p :| Departure(l, l', p) {
      assert ActiveSet(l) == ActiveSet(l') + {p};
      assert |ActiveSet(l')| >= 1;
    }
  }

  /** The turn after the carried fields is not with somebody who has conceded by then. */
  predicate HonestTurn(l: Life, e: VoteEvent) {
    var turn := CarriedTurn(l, e);
    turn.active.Some? ==> !IsConceded(l, turn.active.value) && !(Expels(e) && turn.active.value == e.target)
  }

  /** The turn is not given to somebody who has conceded. */
  predicate HonestPass(l: Life, c: TurnCommand) {
    c.active.Some? && c.active.value.Some? ==> !IsConceded(l, c.active.value.value)
  }

  /** A command that carries nothing, or honest ballots and an honest turn, and gives the turn
      to nobody who has conceded. */
  ghost predicate HonestStep(l: Life, r: Request) {
    && (CarriedBy(l, r).Some? ==> HonestBallots(l, CarriedBy(l, r).value) && HonestTurn(l, CarriedBy(l, r).value))
    && (PassedBy(l, r).Some? ==> HonestPass(l, PassedBy(l, r).value))
  }

  /** Every command keeps everything that holds of a game, if and only if it is honest. */
  lemma StepKeepsGame(l: Life, r: Request)
    requires GameInv(l)
    ensures GameInv(Step(l, r)) <==> HonestStep(l, r)
  {
    if CarriedBy(l, r).Some? {
      CarriedDeparts(l, r);
      CarriedKeepsBallots(l, r);
      CarriedStep(l, r);
      CarriedTurnOk(l, r);
    } else if PassedBy(l, r).Some? {
      PassedStep(l, r);
      OwnStepKeepsBallots(l, r);
    } else if !l.finished {
      OwnStepKeepsBallots(l, r);
      OwnStepDepartures(l, r);
      MoveKeepsGame(l, Step(l, r));
    }
  }

  lemma CarriedTurnOk(l: Life, r: Request)
    requires GameInv(l) && CarriedBy(l, r).Some?
    ensures TurnOk(Step(l, r)) <==> HonestTurn(l, CarriedBy(l, r).value)
  {
    var e := CarriedBy(l, r).value;
    CarriedDeparts(l, r);
    CarriedStep(l, r);
    forall q ensures IsConceded(Step(l, r), q) <==> IsConceded(l, q) || (Expels(e) && q == e.target) {
      assert q in Restored(l, e).players && q != e.target ==> Restored(l, e).players[q] == l.players[q];
    }
  }

  /** Over every run of honest commands from a sound start: open ballots are safe and wait for
      somebody, an unfinished game keeps two active players, a finished one has its winner. */
  lemma {:induction false} RunKeepsGame(l: Life, rs: seq<Request>)
    requires GameInv(l) && forall i | 0 <= i < |rs| :: HonestStep(Run(l, rs[..i]), rs[i])
    ensures GameInv(Run(l, rs))
  {
    if rs != [] {
      var n := |rs| - 1;
      forall i | 0 <= i < n ensures HonestStep(Run(l, rs[..n][..i]), rs[..n][i]) {
        assert rs[..n][..i] == rs[..i];
      }
      RunKeepsGame(l, rs[..n]);
      StepKeepsGame(Run(l, rs[..n]), rs[n]);
    }
  }

  /** The carried turn is with somebody else who is active. */
  predicate NamesSuccessor(l: Life, e: VoteEvent) {
    var turn := CarriedTurn(l, e);
    turn.active.Some? && turn.active.value != e.target && IsActive(l, turn.active.value)
  }

  /** Whoever holds the turn and leaves, by conceding or by being voted out, hands it to a
      different player who is active; one who is put out by carried fields does if and only if
      the fields name such a player. */
  lemma LeaverHandsTurnOn(l: Life, r: Request, p: PlayerId)
    requires GameInv(l) && !l.finished && l.turn.active == Some(p)
    requires IsActive(l, p) && !IsActive(Step(l, r), p)
    ensures var l' := Step(l, r);
      (l'.turn.active.Some? && l'.turn.active.value != p && IsActive(l', l'.turn.active.value))
      <==> (CarriedBy(l, r).Some? ==> NamesSuccessor(l, CarriedBy(l, r).value))
  {
    var l' := Step(l, r);
    assert p in ActiveSet(l) && p !in ActiveSet(l');
    if CarriedBy(l, r).Some? {
      var e := CarriedBy(l, r).value;
      CarriedDeparts(l, r);
      assert p == e.target && Expels(e);
      forall q ensures IsActive(l', q) <==> IsActive(l, q) && q != p {
        assert IsActive(l', q) <==> q in ActiveSet(l');
        assert IsActive(l, q) <==> q in ActiveSet(l);
      }
    } else if PassedBy(l, r).Some? {
      PassedStep(l, r);
      assert false;
    } else {
      OwnStepDepartures(l, r);
      var q :| Departure(l, l', q);
      assert ActiveSet(l) == ActiveSet(l') + {q};
      assert ActiveSet(l') != {};
      assert Least(ActiveSet(l')) in ActiveSet(l');
    }
  }

  /** The player who follows `p` around the table, by id. */
  function CyclicSuccessor(active: set<PlayerId>, p: PlayerId): PlayerId
    requires active != {}
  {
    var later := Later(active, p);
    if later != {} then Least(later) else Least(active)
  }

  ghost predicate FollowsAround(l: Life, p: PlayerId, q: PlayerId) {
    if exists x :: IsActive(l, x) && p < x then p < q && forall x | IsActive(l, x) && p < x :: q <= x
    else forall x | IsActive(l, x) :: q <= x
  }

  /** From a player who stays, the turn goes to the next larger active id, and after the largest
      to the smallest. */
  lemma NextActiveGoesAround(l: Life, p: PlayerId, q: PlayerId)
    requires IsActive(l, p)
    ensures NextActive(l, p) == Some(q) <==> IsActive(l, q) && FollowsAround(l, p, q)
  {
    var active := ActiveSet(l);
    var later := Later(active, p);
    assert p in active;
    assert forall x :: x in active <==> IsActive(l, x);
    assert forall x :: x in later <==> IsActive(l, x) && p < x;
  }

  /** The turn does not always pass around the table: with players 1, 2 and 3, when 2
      leaves it goes back to 1. */
  lemma HandOverIsNotCyclic()
    ensures exists l: Life, p: PlayerId ::
              && IsActive(l, p) && |ActiveSet(Concede(l, p, None))| >= 2
              && NextActive(Concede(l, p, None), p) != Some(CyclicSuccessor(ActiveSet(Concede(l, p, None)), p))
  {
    var seat := Player(Active, None, None);
    var l := Life(map[1 := seat, 2 := seat, 3 := seat], Turn(Some(2), 0, 0, 0), map[], map[], false, None, None);
    var l' := Concede(l, 2, None);
    assert ActiveSet(l') == {1, 3};
    var later := Later(ActiveSet(l'), 2);
    assert 3 in later;
    assert Least(later) == 3;
    assert Least(ActiveSet(l')) == 1;
    assert IsActive(l, 2) && |ActiveSet(Concede(l, 2, None))| >= 2;
  }

  /** It does exactly when nobody, or everybody, who stays has a smaller id. */
  lemma HandOverCyclicIff(l: Life, p: PlayerId, at: Option<int>)
    requires p in l.players && ActiveSet(Concede(l, p, at)) != {}
    ensures var active := ActiveSet(Concede(l, p, at));
            NextActive(Concede(l, p, at), p) == Some(CyclicSuccessor(active, p))
            <==> (forall q | q in active :: p < q) || (forall q | q in active :: q < p)
  {
    var active := ActiveSet(Concede(l, p, at));
    var later := Later(active, p);
    assert p !in active;
    assert NextActive(Concede(l, p, at), p) == Some(Least(active));
    if later == {} {
      forall q | q in active ensures q < p { assert q !in later; }
    } else if exists q :: q in active && q < p {
      var q :| q in active && q < p;
      assert Least(active) <= q < p < Least(later);
      assert Least(later) in active;
    } else {
      forall q | q in active ensures p < q { assert !(q < p); }
      assert later == active;
    }
  }
}
