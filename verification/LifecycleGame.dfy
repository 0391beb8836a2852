/**
  The lifecycle state as the actor holds it: one object whose methods update its
  fields. Each method is tied to the value-level step of `Lifecycle`.
 */
module LifecycleGame {
  import opened Common
  import opened Lifecycle
  import Ballots

  /** The scan over the sorted ids that picks the player after `current`. */
  method ScanForNext(ids: seq<PlayerId>, players: map<PlayerId, Player>, ghost active: set<PlayerId>, current: PlayerId)
    returns (next: Option<PlayerId>)
    requires Increasing(ids) && forall p :: p in ids <==> p in players
    requires forall p :: p in active <==> p in players && players[p].standing == Active
    ensures active == {} ==> next == None
    ensures active != {} ==>
              next == Some(if current in active && Later(active, current) != {} then Least(Later(active, current))
                           else Least(active))
  {
    var afterCurrent, first := false, None;
    for i := 0 to |ids|
      invariant first.None? ==> forall j | 0 <= j < i :: ids[j] !in active
      invariant first.Some? ==> first.value in active && first.value <= ids[|ids| - 1]
                                && forall j | 0 <= j < |ids| && ids[j] in active :: first.value <= ids[j]
      invariant afterCurrent ==> current in active && i > 0 && current <= ids[i - 1]
                                 && forall j | 0 <= j < i && ids[j] in active :: ids[j] <= current
      invariant !afterCurrent && current in active ==> forall j | 0 <= j < i :: ids[j] != current
    {
      if players[ids[i]].standing == Active {
        if first.None? { first := Some(ids[i]); }
        if afterCurrent {
          FirstLater(ids, active, current, i);
          return Some(ids[i]);
        }
        if ids[i] == current { afterCurrent := true; }
      }
    }
    if active != {} {
      assert Least(active) in ids;
      if current in active { assert current in ids; }
      assert forall q | q in Later(active, current) && current in active :: q in ids;
    }
    return first;
  }

  lemma FirstLater(ids: seq<PlayerId>, active: set<PlayerId>, current: PlayerId, i: nat)
    requires Increasing(ids) && i < |ids| && ids[i] in active && current < ids[i]
    requires forall p | p in active :: p in ids
    requires forall j | 0 <= j < i && ids[j] in active :: ids[j] <= current
    ensures Later(active, current) != {} && Least(Later(active, current)) == ids[i]
  {
    assert ids[i] in Later(active, current);
    var q := Least(Later(active, current));
    assert q in ids;
  }

  /** What a ballot becomes once the tally is in. */
  method SettleBallot(current: Ballot, voters: seq<PlayerId>, wait: nat, expel: nat, now: int) returns (settled: Ballot)
    requires wait == Count(voters, current.votes, Wait) && expel == Count(voters, current.votes, Expel)
    ensures settled == Settle(current, voters, current.votes, now)
  {
    var majority := |voters| / 2 + 1;
    settled := current;
    if expel >= majority {
      settled := settled.(status := ResolvedExpel, openedAt := None, deadline := None, cooldown := None);
    } else if wait >= majority || (wait > 0 && wait == expel) {
      settled := settled.(status := ResolvedWait, openedAt := None, deadline := None,
                          cooldown := Some(now + COOLDOWN_SECONDS));
    }
  }

  class GameState {
    var players: map<PlayerId, Player>
    var turn: Turn
    var ballots: map<PlayerId, Ballot>
    var generations: map<PlayerId, int>
    var finished: bool
    var winner: Option<PlayerId>
    var finishedAt: Option<int>

    ghost function Abs(): Life
      reads this
    {
      Life(players, turn, ballots, generations, finished, winner, finishedAt)
    }

    constructor (l: Life)
      ensures Abs() == l
    {
      players, turn, ballots, generations := l.players, l.turn, l.ballots, l.generations;
      finished, winner, finishedAt := l.finished, l.winner, l.finishedAt;
    }

    method SetPlayerOnline(p: PlayerId, isOnline: bool)
      modifies this
      ensures Abs() == SetOnline(old(Abs()), p, isOnline)
    {
      if p !in players { return; }
      var player := players[p];
      if player.online == Some(isOnline) { return; }
      players := players[p := player.(online := Some(isOnline))];
    }

    method MarkConceded(p: PlayerId, at: Option<int>)
      requires p in players
      modifies this
      ensures Abs() == Concede(old(Abs()), p, at)
    {
      players := players[p := players[p].(standing := Conceded, concededAt := at)];
    }

    method ActivePlayers() returns (active: set<PlayerId>)
      ensures active == ActiveSet(Abs())
    {
      active := {};
      var rest := players.Keys;
      while rest != {}
        invariant rest <= players.Keys
        invariant active == set p | p in players.Keys - rest && players[p].standing == Active
        decreases rest
      {
        var p :| p in rest;
        rest := rest - {p};
        if players[p].standing == Active { active := active + {p}; }
      }
    }

    method NextActivePlayer(current: PlayerId) returns (next: Option<PlayerId>)
      ensures next == NextActive(Abs(), current)
    {
      ghost var active := ActiveSet(Abs());
      var ids := SortedIds(players.Keys);
      assert forall p :: p in ids <==> p in SetOf(ids);
      next := ScanForNext(ids, players, active, current);
    }

    /** Hands the turn over from `leaver`; the result is what the event records. */
    method PassTurn(leaver: PlayerId) returns (recorded: Option<Turn>)
      modifies this
      ensures (Abs(), recorded) == HandOver(old(Abs()), leaver)
    {
      recorded := None;
      if turn.active == Some(leaver) {
        var next := NextActivePlayer(leaver);
        if next.Some? {
          turn := turn.(active := next);
          recorded := Some(turn);
        }
      }
    }

    method FinishWhenOneRemains(at: int) returns (recorded: Option<int>)
      modifies this
      ensures (Abs(), recorded) == Finish(old(Abs()), at)
    {
      recorded := None;
      if finished { return; }
      var active := ActivePlayers();
      if |active| != 1 { return; }
      finished, winner, finishedAt := true, Some(SortedIds(active)[0]), Some(at);
      assert SortedIds(active)[0] == Least(active);
      ballots := map[];
      recorded := Some(at);
    }

    method ApplyConcession(c: ConcedeCommand, now: int) returns (r: Outcome<ConcedeEvent>)
      modifies this
      ensures r.Refused? ==> Abs() == old(Abs())
      ensures r.Done? ==> r.life == Abs()
      ensures r == ApplyConcede(old(Abs()), c, now)
    {
      if c.player !in players { return Refused(UnknownPlayer); }
      if players[c.player].standing == Conceded {
        return Done(Life(players, turn, ballots, generations, finished, winner, finishedAt),
                    ConcedeEvent(c.player, players[c.player].concededAt, None, None));
      }
      var at := Or(c.at, now);
      MarkConceded(c.player, Some(at));
      var handed := PassTurn(c.player);
      var end := FinishWhenOneRemains(Or(c.finishAt, now));
      r := Done(Life(players, turn, ballots, generations, finished, winner, finishedAt),
                ConcedeEvent(c.player, Some(at), handed, end));
    }

    method EligibleVoters(target: PlayerId, connected: seq<PlayerId>) returns (eligible: seq<PlayerId>)
      ensures eligible == Eligible(Abs(), target, connected)
    {
      var chosen: set<PlayerId> := {};
      var rest := players.Keys;
      while rest != {}
        invariant rest <= players.Keys
        invariant chosen == set p | p in players.Keys - rest && MayVote(players, target, connected, p)
        decreases rest
      {
        var p :| p in rest;
        rest := rest - {p};
        if p == target || players[p].standing != Active { continue; }
        if connected != [] && p !in connected { continue; }
        chosen := chosen + {p};
      }
      assert chosen == VoterSet(Abs(), target, connected);
      eligible := SortedIds(chosen);
    }

    method VotersOf(b: Ballot, target: PlayerId, connected: seq<PlayerId>) returns (voters: seq<PlayerId>)
      ensures voters == BallotVoters(b, Abs(), target, connected)
    {
      if b.eligible != [] { return b.eligible; }
      voters := EligibleVoters(target, connected);
    }

    method OpenBallot(target: PlayerId, connected: seq<PlayerId>, now: int, version: int)
      modifies this
      ensures Abs() == OpenVote(old(Abs()), target, connected, now, version)
    {
      if target in ballots && ballots[target].status == Open { return; }
      if target in players && players[target].standing == Conceded { return; }
      if connected == [] { return; }
      var eligible := EligibleVoters(target, connected);
      if eligible == [] {
        ballots := ballots[target := Ballot(ResolvedWait, None, None, Some(now + COOLDOWN_SECONDS), map[], eligible, Some(version))];
        return;
      }
      ballots := ballots[target := Ballot(Open, Some(now), Some(now + BALLOT_SECONDS), None, map[], eligible, Some(version))];
    }

    method CancelBallot(target: PlayerId)
      modifies this
      ensures Abs() == CancelVote(old(Abs()), target)
    {
      if target !in ballots { return; }
      var status := ballots[target].status;
      if status != Open && status != ResolvedWait { return; }
      ballots := ballots[target := Ballot(Cancelled, None, None, None, map[], [], None)];
    }

    method TimeOutBallot(target: PlayerId, now: int)
      modifies this
      ensures Abs() == ResolveTimeout(old(Abs()), target, now)
    {
      if target !in ballots || ballots[target].status != Open { return; }
      var current := ballots[target];
      var votes := current.votes;
      var voters := VotersOf(current, target, []);
      for i := 0 to |voters|
        invariant votes == TimeoutVotes(voters[..i], current.votes, now)
      {
        assert voters[..i + 1] == voters[..i] + [voters[i]];
        assert SetOf(voters[..i + 1]) == SetOf(voters[..i]) + {voters[i]};
        if voters[i] !in votes { votes := votes[voters[i] := Vote(Wait, now)]; }
      }
      assert voters[..|voters|] == voters;
      ballots := ballots[target := current.(votes := votes, status := ResolvedWait, openedAt := None,
                                            deadline := None, cooldown := Some(now + COOLDOWN_SECONDS))];
    }

    method Tally(voters: seq<PlayerId>, votes: map<PlayerId, Vote>) returns (wait: nat, expel: nat)
      ensures wait == Count(voters, votes, Wait) && expel == Count(voters, votes, Expel)
    {
      wait, expel := 0, 0;
      for i := 0 to |voters|
        invariant wait == Count(voters[..i], votes, Wait) && expel == Count(voters[..i], votes, Expel)
      {
        assert voters[..i + 1][..i] == voters[..i];
        if voters[i] in votes {
          match votes[voters[i]].choice {
            case Wait => wait := wait + 1;
            case Expel => expel := expel + 1;
          }
        }
      }
      assert voters[..|voters|] == voters;
    }

    /** Puts a settled ballot in place with its consequences. */
    method CloseVote(target: PlayerId, settled: Ballot, now: int, finishAt: Option<int>) returns (payload: VoteEvent)
      requires target in players && target in ballots
      modifies this
      ensures var l := old(Abs());
              var (l1, turn) :=
                if settled.status == ResolvedExpel then HandOver(Concede(l, target, Some(now)), target) else (l, None);
              var l2 := l1.(ballots := l.ballots[target := settled]);
              var p := Payload(l2, target).(turn := turn);
              if !IsConceded(l2, target) then (Abs(), payload) == (l2, p)
              else
                var (l3, end) := Finish(l2, Or(finishAt, now));
                (Abs(), payload) == (l3, p.(concededAt := l2.players[target].concededAt, finishedAt := end))
    {
      var before := ballots;
      var handed: Option<Turn> := None;
      if settled.status == ResolvedExpel {
        MarkConceded(target, Some(now));
        handed := PassTurn(target);
      }
      ballots := before[target := settled];
      payload := VoteEvent(target, Some(settled.status), ballots, None, None, None, handed, None);
      if players[target].standing == Conceded {
        payload := payload.(concededAt := players[target].concededAt);
        var end := FinishWhenOneRemains(Or(finishAt, now));
        payload := payload.(finishedAt := end);
      }
    }

    method RecordBallotVote(target: PlayerId, voter: Option<PlayerId>, choice: Choice, connected: seq<PlayerId>,
                            now: int, finishAt: Option<int>)
      returns (r: Outcome<VoteEvent>)
      requires target in players
      modifies this
      ensures r.Refused? ==> Abs() == old(Abs())
      ensures r.Done? ==> r.life == Abs()
      ensures r == RecordVote(old(Abs()), target, voter, choice, connected, now, finishAt)
    {
      if target !in ballots || ballots[target].status != Open { return Refused(NoOpenBallot); }
      if voter.None? { return Refused(MissingVoter); }
      if voter.value == target || voter.value !in players { return Refused(InvalidVote); }
      var current := ballots[target];
      var voters := VotersOf(current, target, connected);
      if voter.value !in voters { return Refused(NotEligible); }
      current := current.(votes := current.votes[voter.value := Vote(choice, now)]);
      var wait, expel := Tally(voters, current.votes);
      var settled := SettleBallot(current, voters, wait, expel, now);
      assert settled == Settle(ballots[target], voters, current.votes, now);
      var payload := CloseVote(target, settled, now, finishAt);
      r := Done(Life(players, turn, ballots, generations, finished, winner, finishedAt), payload);
    }

    /** The live branch of a `disconnect.vote` command. A refusal may leave the fence
        advanced; the actor undoes a refused command (see `Actor`). */
    method ApplySignal(c: VoteCommand, now: int, version: int) returns (r: Outcome<VoteEvent>)
      modifies this
      ensures r.Done? ==> r.life == Abs()
      ensures r == ApplyVote(old(Abs()), c, now, version)
    {
      if c.target !in players { return Refused(UnknownPlayer); }
      if c.signal.Carried? {
        r := ApplyCarriedFields(c.signal.fields.(target := c.target), now);
        return;
      }
      var generation: Option<int> := None;
      if c.origin == Gateway && c.generation.Some? {
        if c.generation.value < 1 { return Refused(InvalidGeneration); }
        var fence := if c.target in generations then generations[c.target] else 0;
        if c.generation.value <= fence { return Refused(StaleGeneration); }
        generations := generations[c.target := c.generation.value];
        generation := c.generation;
      }
      var online: Option<bool> := None;
      match c.signal {
        case GoOffline(connected) =>
          SetPlayerOnline(c.target, false);
          OpenBallot(c.target, connected, now, version);
          online := Some(false);
        case GoOnline =>
          SetPlayerOnline(c.target, true);
          CancelBallot(c.target);
          online := Some(true);
        case Timeout =>
          TimeOutBallot(c.target, now);
        case Cast(voter, choice, connected) =>
          if choice.None? { return Refused(InvalidVote); }
          r := RecordBallotVote(c.target, voter, choice.value, connected, now, c.finishAt);
          if r.Done? { r := Done(r.life, r.event.(generation := generation)); }
          return;
      }
      var status := if c.target in ballots then Some(ballots[c.target].status) else None;
      r := Done(Life(players, turn, ballots, generations, finished, winner, finishedAt),
                VoteEvent(c.target, status, ballots, generation, online, None, None, None));
    }

    /** `turn.changed`: each named field is written, whatever it says. */
    method ChangeTurn(c: TurnCommand) returns (e: TurnEvent)
      modifies this`turn
      ensures (Abs(), e) == ApplyTurn(old(Abs()), c)
    {
      var previous := turn;
      if c.active.Some? { turn := turn.(active := c.active.value); }
      if c.phase.Some? { turn := turn.(phase := c.phase.value); }
      if c.step.Some? { turn := turn.(step := c.step.value); }
      if c.number.Some? { turn := turn.(number := c.number.value); }
      e := TurnEvent(turn, previous);
    }

    /** Replay and carried commands raise the fence to the given generation if that is higher,
        and touch no other player's. */
    method RestoreGeneration(target: PlayerId, generation: Option<int>)
      modifies this`generations
      ensures Generation(Abs(), target) >= Generation(old(Abs()), target)
      ensures generation.Some? ==> Generation(Abs(), target) >= generation.value
      ensures Generation(Abs(), target) != Generation(old(Abs()), target) ==> Some(Generation(Abs(), target)) == generation
      ensures generations == if Generation(Abs(), target) == Generation(old(Abs()), target) then old(generations)
                             else old(generations)[target := Generation(Abs(), target)]
    {
      if generation.None? { return; }
      var fence := if target in generations then generations[target] else 0;
      if generation.value > fence { generations := generations[target := generation.value]; }
    }

    /** The branch of an applier that was given ballots: every carried field is taken over. */
    method RestoreFields(e: VoteEvent)
      requires e.target in players
      modifies this
      ensures Abs() == Restored(old(Abs()), e)
    {
      RestoreGeneration(e.target, e.generation);
      assert Abs() == RestoreFence(old(Abs()), e.target, e.generation);
      ballots := e.ballots;
      if e.online.Some? { SetPlayerOnline(e.target, e.online.value); }
      if Expels(e) {
        MarkConceded(e.target, if e.concededAt.Some? then e.concededAt else players[e.target].concededAt);
      }
      if e.turn.Some? { turn := e.turn.value; }
    }

    /** A live command with its own ballots. */
    method ApplyCarriedFields(e: VoteEvent, now: int) returns (r: Outcome<VoteEvent>)
      requires e.target in players
      modifies this
      ensures r.Done? ==> r.life == Abs()
      ensures r.Refused? ==> Abs() == old(Abs())
      ensures r == ApplyCarried(old(Abs()), e, now)
    {
      if e.generation.Some? && e.generation.value < 1 { return Refused(InvalidGeneration); }
      RestoreFields(e);
      var status := if e.target in ballots then Some(ballots[e.target].status) else None;
      var payload := VoteEvent(e.target, status, ballots, None, e.online, None, None, None);
      if players[e.target].standing == Conceded {
        payload := payload.(concededAt := players[e.target].concededAt);
        var end := FinishWhenOneRemains(Or(e.finishedAt, now));
        payload := payload.(finishedAt := end);
      }
      r := Done(Life(players, turn, ballots, generations, finished, winner, finishedAt), payload);
    }

    /** The same branch with an event's payload. */
    method ReplaySignal(e: VoteEvent, now: int) returns (ok: bool)
      modifies this
      ensures ok <==> ReplayVote(old(Abs()), e, now).Some?
      ensures ok ==> Abs() == ReplayVote(old(Abs()), e, now).value
      ensures !ok ==> Abs() == old(Abs())
    {
      if e.target !in players || (e.generation.Some? && e.generation.value < 1) { return false; }
      RestoreFields(e);
      if players[e.target].standing == Conceded {
        var _ := FinishWhenOneRemains(Or(e.finishedAt, now));
      }
      return true;
    }
  }
}
