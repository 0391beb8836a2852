/**
  What one signal does to the ballot it is about, in counts, names and times: when a vote is
  taken and when it decides, whom a new ballot asks and until when, what a reconnect and a
  timeout leave.
 */
module BallotSteps {
  import opened Common
  import opened Lifecycle

  // ------------------------------------------------------------------- votes

  function Choosing(voters: seq<PlayerId>, votes: map<PlayerId, Vote>, choice: Choice): set<PlayerId> {
    set v | v in SetOf(voters) && v in votes && votes[v].choice == choice
  }

  /** A count is the number of voters who made that choice. */
  lemma {:induction false} CountIsCardinality(voters: seq<PlayerId>, votes: map<PlayerId, Vote>, choice: Choice)
    requires NoDup(voters)
    ensures Count(voters, votes, choice) == |Choosing(voters, votes, choice)|
  {
    if voters != [] {
      var n := |voters| - 1;
      CountIsCardinality(voters[..n], votes, choice);
      assert voters == voters[..n] + [voters[n]] && voters[n] !in voters[..n];
      ChoosingGrows(voters[..n], voters[n], votes, choice);
    }
  }

  lemma ChoosingGrows(voters: seq<PlayerId>, last: PlayerId, votes: map<PlayerId, Vote>, choice: Choice)
    requires last !in voters
    ensures |Choosing(voters + [last], votes, choice)| == |Choosing(voters, votes, choice)|
      + if last in votes && votes[last].choice == choice then 1 else 0
  {
    var before, all := Choosing(voters, votes, choice), Choosing(voters + [last], votes, choice);
    var joins := last in votes && votes[last].choice == choice;
    assert last !in before;
    forall v ensures v in all <==> v in before || (joins && v == last) {
      assert v in voters + [last] <==> v in voters || v == last;
    }
    assert all == if joins then before + {last} else before;
  }

  /** What `n` voters have decided. */
  ghost predicate DecidedBy(status: BallotStatus, n: nat, wait: nat, expel: nat) {
    && (status == ResolvedExpel <==> 2 * expel > n)
    && (status == ResolvedWait <==> 2 * expel <= n && (2 * wait > n || (wait == expel && expel > 0)))
    && (status == Open <==> 2 * expel <= n && 2 * wait <= n && !(wait == expel && expel > 0))
  }

  /** More than half for expelling expels; otherwise more than half for waiting, or a tie above
      zero, waits; otherwise the ballot stays open, and nothing but its votes changes. */
  lemma SettleDecides(b: Ballot, voters: seq<PlayerId>, votes: map<PlayerId, Vote>, now: int)
    requires b.status == Open
    ensures var b' := Settle(b, voters, votes, now);
      && DecidedBy(b'.status, |voters|, Count(voters, votes, Wait), Count(voters, votes, Expel))
      && b'.votes == votes && b'.eligible == b.eligible && b'.version == b.version
      && if b'.status == Open then b'.deadline == b.deadline && b'.openedAt == b.openedAt && b'.cooldown == b.cooldown
         else
           && b'.deadline.None? && b'.openedAt.None?
           && b'.cooldown == if b'.status == ResolvedWait then Some(now + 300) else None
  {}

  /** Who may vote on an open ballot about somebody else. */
  predicate TakesVote(l: Life, target: PlayerId, voter: Option<PlayerId>, connected: seq<PlayerId>) {
    HasStatus(l, target, Open) && voter.Some? && voter.value != target && voter.value in l.players
    && (if l.ballots[target].eligible != [] then voter.value in l.ballots[target].eligible
        else IsActive(l, voter.value) && (connected == [] || voter.value in connected))
  }

  lemma EligibleMembers(l: Life, target: PlayerId, connected: seq<PlayerId>)
    ensures forall v :: v in Eligible(l, target, connected) <==> IsActive(l, v) && v != target && (connected == [] || v in connected)
    ensures NoDup(Eligible(l, target, connected))
  {
    var voters := VoterSet(l, target, connected);
    assert forall v :: v in Eligible(l, target, connected) <==> v in SetOf(Eligible(l, target, connected));
    IncreasingIsNoDup(Eligible(l, target, connected));
  }

  /** A vote is taken exactly from a voter of an open ballot. */
  lemma VoteTakenIff(l: Life, target: PlayerId, voter: Option<PlayerId>, choice: Choice,
                     connected: seq<PlayerId>, now: int, finishAt: Option<int>)
    requires target in l.players
    ensures RecordVote(l, target, voter, choice, connected, now, finishAt).Done? <==> TakesVote(l, target, voter, connected)
  {
    EligibleMembers(l, target, connected);
  }

  /** What a vote leaves of its ballot: the voter's earlier choice is replaced, and the counts decide. */
  ghost predicate Voted(b: Ballot, b': Ballot, voters: seq<PlayerId>, voter: PlayerId, choice: Choice, now: int) {
    && b'.votes == b.votes[voter := Vote(choice, now)] && b'.eligible == b.eligible
    && DecidedBy(b'.status, |voters|, Count(voters, b'.votes, Wait), Count(voters, b'.votes, Expel))
    && (b'.status == Open ==> b'.deadline == b.deadline)
  }

  /** A vote that is taken decides its ballot by the counts and touches no other; an expulsion,
      and nothing else, concedes the target. */
  lemma VoteDecides(l: Life, target: PlayerId, voter: Option<PlayerId>, choice: Choice,
                    connected: seq<PlayerId>, now: int, finishAt: Option<int>)
    requires target in l.players && RecordVote(l, target, voter, choice, connected, now, finishAt).Done?
    ensures var r := RecordVote(l, target, voter, choice, connected, now, finishAt);
      && target in r.event.ballots && r.event.ballots == l.ballots[target := r.event.ballots[target]]
      && Voted(l.ballots[target], r.event.ballots[target], BallotVoters(l.ballots[target], l, target, connected), voter.value, choice, now)
      && r.event.status == Some(r.event.ballots[target].status)
      && r.life.ballots == (if r.life.finished && !l.finished then map[] else r.event.ballots)
      && r.life.players == (if r.event.ballots[target].status == ResolvedExpel
                            then l.players[target := l.players[target].(standing := Conceded, concededAt := Some(now))] else l.players)
      && r.event.concededAt == (if IsConceded(r.life, target) then r.life.players[target].concededAt else None)
      && (r.life.finished && !l.finished ==>
            r.life.finishedAt == Some(TimeOr(finishAt, now)) && r.event.finishedAt == r.life.finishedAt)
  {
    var b := l.ballots[target];
    var voters := BallotVoters(b, l, target, connected);
    var votes := b.votes[voter.value := Vote(choice, now)];
    var settled := Settle(b, voters, votes, now);
    SettleDecides(b, voters, votes, now);
    VoteLeaves(l, target, voter, choice, connected, now, finishAt, settled);
  }

  lemma VoteLeaves(l: Life, target: PlayerId, voter: Option<PlayerId>, choice: Choice,
                   connected: seq<PlayerId>, now: int, finishAt: Option<int>, settled: Ballot)
    requires target in l.players && RecordVote(l, target, voter, choice, connected, now, finishAt).Done?
    requires var b := l.ballots[target];
      settled == Settle(b, BallotVoters(b, l, target, connected), b.votes[voter.value := Vote(choice, now)], now)
    ensures var r := RecordVote(l, target, voter, choice, connected, now, finishAt);
      && r.event.ballots == l.ballots[target := settled] && r.event.status == Some(settled.status)
      && r.life.ballots == (if r.life.finished && !l.finished then map[] else r.event.ballots)
      && r.life.players == (if settled.status == ResolvedExpel
                            then l.players[target := l.players[target].(standing := Conceded, concededAt := Some(now))] else l.players)
      && r.event.concededAt == (if IsConceded(r.life, target) then r.life.players[target].concededAt else None)
      && (r.life.finished && !l.finished ==>
            r.life.finishedAt == Some(TimeOr(finishAt, now)) && r.event.finishedAt == r.life.finishedAt)
  {}

  // ------------------------------------------------ concession and the finish

  predicate Alone(l: Life, p: PlayerId) {
    IsActive(l, p) && forall q | q in l.players && IsActive(l, q) :: q == p
  }

  lemma AloneIsOne(l: Life, p: PlayerId)
    ensures Alone(l, p) <==> ActiveSet(l) == {p}
    ensures Alone(l, p) ==> |ActiveSet(l)| == 1 && Least(ActiveSet(l)) == p
  {
    assert forall q :: q in ActiveSet(l) <==> q in l.players && IsActive(l, q);
  }

  /** A running game with one active player ends: that player has won, at that time, and no
      ballot is left; any other game is as it was. */
  lemma FinishRecords(l: Life, at: int)
    ensures !l.finished && (exists p: PlayerId :: Alone(l, p)) ==>
      var (l', time) := Finish(l, at);
      && time == Some(at) && l'.finished && l'.finishedAt == Some(at) && l'.winner.Some? && Alone(l, l'.winner.value)
      && l'.ballots == map[] && l'.players == l.players && l'.turn == l.turn && l'.generations == l.generations
    ensures l.finished || !(exists p: PlayerId :: Alone(l, p)) ==> Finish(l, at) == (l, None)
  {
    forall p: PlayerId ensures Alone(l, p) <==> ActiveSet(l) == {p} { AloneIsOne(l, p); }
    if |ActiveSet(l)| == 1 {
      var p := Least(ActiveSet(l));
      assert |ActiveSet(l) - {p}| == 0;
      assert ActiveSet(l) == {p} + (ActiveSet(l) - {p});
      assert Alone(l, p);
    }
  }

  function TimeOr(t: Option<int>, now: int): int {
    match t case Some(at) => at case None => now
  }

  /** A first concession is recorded with its time, given or now; the turn is handed on if the
      leaver had it; and if one player is left the game ends at the time given or now. A repeated
      one is answered with the first's time and changes nothing. */
  lemma ConcedeResult(l: Life, c: ConcedeCommand, now: int)
    ensures ApplyConcede(l, c, now).Done? <==> c.player in l.players
    ensures c.player in l.players && IsConceded(l, c.player) ==>
      ApplyConcede(l, c, now) == Done(l, ConcedeEvent(c.player, l.players[c.player].concededAt, None, None))
    ensures c.player in l.players && !IsConceded(l, c.player) ==>
      var r := ApplyConcede(l, c, now); var left := l.(players := l.players[c.player := Player(Conceded, Some(TimeOr(c.at, now)), l.players[c.player].online)]);
      && r.event.player == c.player && r.event.concededAt == Some(TimeOr(c.at, now))
      && r.life.players == left.players && r.life.generations == l.generations
      && r.life.turn == (if r.event.turn.Some? then r.event.turn.value else l.turn)
      && (r.event.turn.Some? <==> l.turn.active == Some(c.player) && exists q :: IsActive(left, q))
      && (if !l.finished && exists p: PlayerId :: Alone(left, p)
          then r.life.finished && r.life.finishedAt == Some(TimeOr(c.finishAt, now)) && r.event.finishedAt == r.life.finishedAt
               && r.life.winner.Some? && Alone(left, r.life.winner.value) && r.life.ballots == map[]
          else r.event.finishedAt.None? && r.life == left.(turn := r.life.turn))
  {
    if c.player in l.players && !IsConceded(l, c.player) {
      var left := Concede(l, c.player, Some(Or(c.at, now)));
      var (l1, turn) := HandOver(left, c.player);
      HandsOnIff(left, c.player);
      FinishRecords(l1, Or(c.finishAt, now));
      assert forall p :: IsActive(l1, p) <==> IsActive(left, p);
      assert forall p: PlayerId :: Alone(l1, p) <==> Alone(left, p);
    }
  }

  lemma HandsOnIff(l: Life, p: PlayerId)
    ensures var (l', turn) := HandOver(l, p);
      && (turn.Some? <==> l.turn.active == Some(p) && exists q :: IsActive(l, q))
      && l' == l.(turn := if turn.Some? then turn.value else l.turn)
  {
    if q :| IsActive(l, q) { assert q in ActiveSet(l); }
    if ActiveSet(l) != {} { assert Least(ActiveSet(l)) in ActiveSet(l) && IsActive(l, Least(ActiveSet(l))); }
  }

  // ----------------------------------------------------- opening and closing

  /** What a player who is offline is asked about, and whom. */
  ghost predicate Asks(l: Life, target: PlayerId, connected: seq<PlayerId>, now: int, version: int, b: Ballot) {
    && (forall v :: v in b.eligible <==> IsActive(l, v) && v != target && v in connected)
    && b.votes == map[] && b.version == Some(version)
    && if exists v :: v in connected && v != target && IsActive(l, v)
       then b.status == Open && b.openedAt == Some(now) && b.deadline == Some(now + 60) && b.cooldown.None?
       else b.status == ResolvedWait && b.openedAt.None? && b.deadline.None? && b.cooldown == Some(now + 300)
  }

  lemma OpenVoteAsks(l: Life, target: PlayerId, connected: seq<PlayerId>, now: int, version: int)
    requires !HasStatus(l, target, Open) && !IsConceded(l, target) && connected != []
    ensures var l' := OpenVote(l, target, connected, now, version);
      && target in l'.ballots && l' == l.(ballots := l.ballots[target := l'.ballots[target]])
      && Asks(l, target, connected, now, version, l'.ballots[target])
  {
    EligibleMembers(l, target, connected);
    var eligible := Eligible(l, target, connected);
    if v :| v in connected && v != target && IsActive(l, v) { assert v in eligible; }
    if eligible != [] { assert eligible[0] in eligible; }
  }

  /** Unless a ballot is open already, the target has conceded or nobody is connected, going
      offline opens a ballot among the connected active others, for sixty seconds; when there
      are none it waits at once. No other ballot is touched. */
  lemma OfflineOpens(l: Life, c: VoteCommand, connected: seq<PlayerId>, now: int, version: int)
    requires c.signal == GoOffline(connected) && ApplyVote(l, c, now, version).Done?
    ensures var l' := ApplyVote(l, c, now, version).life;
      && c.target in l'.players && l'.players == l.players[c.target := l.players[c.target].(online := Some(false))]
      && l'.turn == l.turn && l'.finished == l.finished
      && if HasStatus(l, c.target, Open) || IsConceded(l, c.target) || connected == [] then l'.ballots == l.ballots
         else c.target in l'.ballots && l'.ballots == l.ballots[c.target := l'.ballots[c.target]]
              && Asks(l, c.target, connected, now, version, l'.ballots[c.target])
  {
    var l1 := SetOnline(AdvanceGeneration(l, c).life, c.target, false);
    assert l1.players == l.players[c.target := l.players[c.target].(online := Some(false))];
    assert forall v :: IsActive(l1, v) <==> IsActive(l, v);
    if !(HasStatus(l, c.target, Open) || IsConceded(l, c.target) || connected == []) {
      OpenVoteAsks(l1, c.target, connected, now, version);
      AsksAlike(l, l1, c.target, connected, now, version, OpenVote(l1, c.target, connected, now, version).ballots[c.target]);
    }
  }

  lemma AsksAlike(l: Life, l1: Life, target: PlayerId, connected: seq<PlayerId>, now: int, version: int, b: Ballot)
    requires forall v :: IsActive(l1, v) <==> IsActive(l, v)
    ensures Asks(l1, target, connected, now, version, b) <==> Asks(l, target, connected, now, version, b)
  {}

  /** A reconnect cancels the ballot if it is open or waiting, votes and all, and no other. */
  lemma OnlineCancels(l: Life, c: VoteCommand, now: int, version: int)
    requires c.signal == GoOnline && ApplyVote(l, c, now, version).Done?
    ensures var l' := ApplyVote(l, c, now, version).life;
      && c.target in l'.players && l'.players == l.players[c.target := l.players[c.target].(online := Some(true))]
      && l'.turn == l.turn && l'.finished == l.finished
      && if HasStatus(l, c.target, Open) || HasStatus(l, c.target, ResolvedWait)
         then HasStatus(l', c.target, Cancelled) && l'.ballots == l.ballots[c.target := l'.ballots[c.target]]
              && l'.ballots[c.target].votes == map[] && l'.ballots[c.target].deadline.None? && l'.ballots[c.target].cooldown.None?
         else l'.ballots == l.ballots
  {
    var l0 := AdvanceGeneration(l, c).life;
    assert SetOnline(l0, c.target, true).players == l.players[c.target := l.players[c.target].(online := Some(true))];
  }

  /** The ballot ran out: every decision that was missing is a wait, those made stand, and the
      cooldown runs. */
  ghost predicate RunsDown(b: Ballot, b': Ballot, voters: seq<PlayerId>, now: int) {
    && b'.status == ResolvedWait && b'.openedAt.None? && b'.deadline.None? && b'.cooldown == Some(now + 300)
    && b'.eligible == b.eligible && b'.version == b.version
    && b'.votes.Keys == b.votes.Keys + SetOf(voters)
    && (forall v | v in b'.votes :: b'.votes[v] == if v in b.votes then b.votes[v] else Vote(Wait, now))
  }

  lemma TimeoutFills(l: Life, c: VoteCommand, now: int, version: int)
    requires c.signal == Timeout && ApplyVote(l, c, now, version).Done?
    ensures var l' := ApplyVote(l, c, now, version).life;
      && l'.players == l.players && l'.turn == l.turn && l'.finished == l.finished
      && if HasStatus(l, c.target, Open)
         then c.target in l'.ballots && l'.ballots == l.ballots[c.target := l'.ballots[c.target]]
              && RunsDown(l.ballots[c.target], l'.ballots[c.target], BallotVoters(l.ballots[c.target], l, c.target, []), now)
         else l'.ballots == l.ballots
  {
    var l0 := AdvanceGeneration(l, c).life;
    assert Eligible(l0, c.target, []) == Eligible(l, c.target, []) by {
      assert VoterSet(l0, c.target, []) == VoterSet(l, c.target, []);
    }
  }
}
