/**
  Presence signals reach the actor late, twice and out of order. Their generations
  make the last one win; the actor's own heartbeat never contradicts it.
 */
module Presence {
  import opened Common
  import opened Lifecycle
  import opened Ballots
  import LifecycleReplay

  function MaxOf(a: int, b: int): int {
    if a < b then b else a
  }

  predicate IsPresence(c: VoteCommand) {
    c.signal.GoOffline? || c.signal.GoOnline?
  }

  predicate IsGatewaySignal(r: Request, t: PlayerId) {
    r.command.Voting? && r.command.vote.target == t && r.command.vote.origin == Gateway
    && IsPresence(r.command.vote) && r.command.vote.generation.Some?
  }

  /** What presence a command says its target has, if it says so. */
  function Said(c: VoteCommand): Option<bool> {
    match c.signal
    case GoOffline(_) => Some(false)
    case GoOnline => Some(true)
    case Timeout => None
    case Cast(_, _, _) => None
    case Carried(fields) => fields.online
  }

  /** The fence a command would raise: a gateway's own, or a carried one. */
  function Raised(l: Life, c: VoteCommand): Option<int> {
    if c.signal.Carried? then
      if c.signal.fields.generation.Some? && c.signal.fields.generation.value > Generation(l, c.target)
      then c.signal.fields.generation else None
    else if c.origin == Gateway then c.generation else None
  }

  /** The command says nothing new about its target. */
  predicate Silent(l: Life, c: VoteCommand) {
    Raised(l, c).None? && (Said(c).Some? ==> c.target in l.players && l.players[c.target].online == Said(c))
  }

  /** What may reach the actor about `t`: a gateway signal of some generation, saying what
      that generation stands for; the heartbeat reopening a cooled-down ballot; anything that is
      refused or silent; anything about somebody else. */
  ghost predicate Deliverable(l: Life, r: Request, t: PlayerId, truth: int -> bool) {
    r.command.Voting? && r.command.vote.target == t ==>
      var c := r.command.vote;
      if IsGatewaySignal(r, t) then c.generation.value >= 1 && c.signal.GoOnline? == truth(c.generation.value)
      else
        || (c.origin == ActorTick && c.signal.GoOffline? && HasStatus(l, t, ResolvedWait))
        || ApplyVote(l, c, r.now, r.version).Refused?
        || Silent(l, c)
  }

  /** The highest generation delivered about `t` while the game ran, or the fence it started from. */
  function Highest(l: Life, rs: seq<Request>, t: PlayerId): int {
    if rs == [] then Generation(l, t)
    else
      var r := rs[|rs| - 1];
      var before := Highest(l, rs[..|rs| - 1], t);
      if IsGatewaySignal(r, t) && !Run(l, rs[..|rs| - 1]).finished then MaxOf(before, r.command.vote.generation.value)
      else before
  }

  ghost predicate Untouched(l: Life, l': Life, t: PlayerId) {
    && (t in l.players <==> t in l'.players)
    && (t in l.players ==> l'.players[t].online == l.players[t].online)
    && Generation(l', t) == Generation(l, t)
  }

  lemma CastLeavesPresence(l: Life, target: PlayerId, voter: Option<PlayerId>, choice: Choice,
                           connected: seq<PlayerId>, now: int, finishAt: Option<int>, t: PlayerId)
    requires target in l.players && RecordVote(l, target, voter, choice, connected, now, finishAt).Done?
    ensures Untouched(l, RecordVote(l, target, voter, choice, connected, now, finishAt).life, t)
  {
    var b := l.ballots[target];
    var settled := Settle(b, BallotVoters(b, l, target, connected), b.votes[voter.value := Vote(choice, now)], now);
    var l1 := if settled.status == ResolvedExpel then HandOver(Concede(l, target, Some(now)), target).0 else l;
    var l2 := l1.(ballots := l.ballots[target := settled]);
    DepartureLeavesPresence(l, target, Some(now), t);
    assert Untouched(l, l2, t);
    FinishLeavesPresence(l2, Or(finishAt, now), t);
    var r := RecordVote(l, target, voter, choice, connected, now, finishAt);
    assert r.life == l2 || r.life == Finish(l2, Or(finishAt, now)).0;
  }

  lemma DepartureLeavesPresence(l: Life, p: PlayerId, at: Option<int>, t: PlayerId)
    requires p in l.players
    ensures Untouched(l, Concede(l, p, at), t)
    ensures Untouched(l, HandOver(Concede(l, p, at), p).0, t)
  {}

  lemma FinishLeavesPresence(l: Life, at: int, t: PlayerId)
    ensures Untouched(l, Finish(l, at).0, t)
  {}

  lemma ConcedeLeavesPresence(l: Life, c: ConcedeCommand, now: int, t: PlayerId)
    requires ApplyConcede(l, c, now).Done?
    ensures Untouched(l, ApplyConcede(l, c, now).life, t)
  {
    if l.players[c.player].standing == Active {
      var at := Some(Or(c.at, now));
      DepartureLeavesPresence(l, c.player, at, t);
      FinishLeavesPresence(HandOver(Concede(l, c.player, at), c.player).0, Or(c.finishAt, now), t);
    }
  }

  /** A command that is accepted, and is no gateway signal about `t`, leaves the presence and
      the fence of `t` alone if and only if it is about somebody else or silent. */
  lemma VoteLeavesPresence(l: Life, c: VoteCommand, now: int, version: int, t: PlayerId)
    requires c.target == t ==> !(c.origin == Gateway && IsPresence(c) && c.generation.Some?)
    requires ApplyVote(l, c, now, version).Done?
    ensures Untouched(l, ApplyVote(l, c, now, version).life, t) <==> c.target != t || Silent(l, c)
  {
    if c.signal.Carried? {
      CarriedLeavesPresence(l, c, now, t);
    } else {
      OwnVoteLeavesPresence(l, c, now, version, t);
    }
  }

  lemma CarriedLeavesPresence(l: Life, c: VoteCommand, now: int, t: PlayerId)
    requires c.signal.Carried? && c.target in l.players && ApplyCarried(l, c.signal.fields.(target := c.target), now).Done?
    ensures Untouched(l, ApplyCarried(l, c.signal.fields.(target := c.target), now).life, t) <==> c.target != t || Silent(l, c)
  {
    var e := c.signal.fields.(target := c.target);
    var l1 := Restored(l, e);
    LifecycleReplay.RestoredRestores(l, e);
    LifecycleReplay.CarriedEvent(l, e, now);
    LifecycleReplay.FenceIs(l, c.target, e.generation);
    assert t in l.players && t != c.target ==> l1.players[t] == l.players[t];
    FinishLeavesPresence(l1, Or(e.finishedAt, now), t);
  }

  lemma OwnVoteLeavesPresence(l: Life, c: VoteCommand, now: int, version: int, t: PlayerId)
    requires c.target == t ==> !(c.origin == Gateway && IsPresence(c) && c.generation.Some?)
    requires ApplyVote(l, c, now, version).Done? && !c.signal.Carried?
    ensures Untouched(l, ApplyVote(l, c, now, version).life, t) <==> c.target != t || Silent(l, c)
  {
    var l0 := AdvanceGeneration(l, c).life;
    match c.signal {
      case GoOffline(connected) => QuietLeavesPresence(l0, c.target, connected, now, version, t);
      case GoOnline => QuietLeavesPresence(l0, c.target, [], now, version, t);
      case Timeout =>
      case Cast(voter, choice, connected) =>
        CastLeavesPresence(l0, c.target, voter, choice.value, connected, now, c.finishAt, t);
    }
  }

  lemma QuietLeavesPresence(l: Life, p: PlayerId, connected: seq<PlayerId>, now: int, version: int, t: PlayerId)
    requires p in l.players
    ensures var off := OpenVote(SetOnline(l, p, false), p, connected, now, version);
      if p != t then Untouched(l, off, t) else Moved(l, off, t, false)
    ensures var on := CancelVote(SetOnline(l, p, true), p);
      if p != t then Untouched(l, on, t) else Moved(l, on, t, true)
  {}

  /** Presence was set, the fence was not. */
  ghost predicate Moved(l: Life, l': Life, t: PlayerId, online: bool) {
    t in l'.players && l'.players[t].online == Some(online) && Generation(l', t) == Generation(l, t)
  }

  /** Nothing but a gateway signal about `t` touches what the actor knows of `t`, if and only if
      it is refused, about somebody else, or silent. */
  lemma OthersLeavePresence(l: Life, r: Request, t: PlayerId)
    requires !IsGatewaySignal(r, t)
    ensures Untouched(l, Step(l, r), t) <==>
      l.finished || !r.command.Voting? || r.command.vote.target != t
      || ApplyVote(l, r.command.vote, r.now, r.version).Refused? || Silent(l, r.command.vote)
  {
    match r.command {
      case Conceding(c) => if ApplyConcede(l, c, r.now).Done? { ConcedeLeavesPresence(l, c, r.now, t); }
      case Passing(_) =>
      case Voting(c) => if ApplyVote(l, c, r.now, r.version).Done? { VoteLeavesPresence(l, c, r.now, r.version, t); }
    }
  }

  /** One gateway signal: taken if its generation is new, ignored otherwise. */
  lemma SignalMovesPresence(l: Life, r: Request, t: PlayerId)
    requires !l.finished && t in l.players && IsGatewaySignal(r, t) && r.command.vote.generation.value >= 1
    ensures var l', g := Step(l, r), r.command.vote.generation.value;
            if g > Generation(l, t)
            then t in l'.players && Generation(l', t) == g
                 && l'.players[t].online == Some(r.command.vote.signal.GoOnline?)
            else l' == l
  {
    var c := r.command.vote;
    if c.generation.value > Generation(l, t) {
      var l0 := AdvanceGeneration(l, c).life;
      SetOnlineFollows(l0, t, c.signal.GoOnline?);
    }
  }

  /** The heartbeat's reopening changes no presence: a cooled-down ballot is about
      somebody who is offline. */
  lemma ReopenLeavesPresence(l: Life, r: Request, t: PlayerId)
    requires BallotsOk(l) && HasStatus(l, t, ResolvedWait)
    requires r.command.Voting? && r.command.vote.target == t
    requires r.command.vote.origin == ActorTick && r.command.vote.signal.GoOffline?
    ensures Untouched(l, Step(l, r), t)
  {
    assert BallotOk(l, t, l.ballots[t]);
    assert SetOnline(l, t, false) == l;
  }

  /** The fence is at `high`, and presence is what that generation said, or the initial one. */
  ghost predicate Settled(l: Life, t: PlayerId, truth: int -> bool, start: int, initial: Option<bool>, high: int) {
    && t in l.players && Generation(l, t) == high && high >= start
    && l.players[t].online == if high > start then Some(truth(high)) else initial
  }

  lemma PresenceStep(l: Life, r: Request, t: PlayerId, truth: int -> bool, start: int, initial: Option<bool>, high: int)
    requires GameInv(l) && Settled(l, t, truth, start, initial, high) && Deliverable(l, r, t, truth)
    ensures Settled(Step(l, r), t, truth, start, initial,
      if IsGatewaySignal(r, t) && !l.finished then MaxOf(high, r.command.vote.generation.value) else high)
  {
    if IsGatewaySignal(r, t) {
      if !l.finished { SignalMovesPresence(l, r, t); }
    } else {
      var tick := r.command.Voting? && r.command.vote.target == t && r.command.vote.origin == ActorTick
        && r.command.vote.signal.GoOffline? && HasStatus(l, t, ResolvedWait);
      if tick { ReopenLeavesPresence(l, r, t); } else { OthersLeavePresence(l, r, t); }
      assert Untouched(l, Step(l, r), t);
    }
  }

  /** Whatever the order, duplication and interleaving: the fence is the highest generation
      delivered while the game ran, and presence is what that signal said. */
  lemma PresenceConverges(l: Life, rs: seq<Request>, t: PlayerId, truth: int -> bool)
    requires GameInv(l) && t in l.players
    requires forall i | 0 <= i < |rs| :: HonestStep(Run(l, rs[..i]), rs[i])
    requires forall i | 0 <= i < |rs| :: Deliverable(Run(l, rs[..i]), rs[i], t, truth)
    ensures var l' := Run(l, rs); var high := Highest(l, rs, t);
      && t in l'.players && Generation(l', t) == high && high >= Generation(l, t)
      && l'.players[t].online == if high > Generation(l, t) then Some(truth(high)) else l.players[t].online
  {
    RunSettles(l, rs, t, truth);
  }

  lemma {:induction false} RunSettles(l: Life, rs: seq<Request>, t: PlayerId, truth: int -> bool)
    requires GameInv(l) && t in l.players
    requires forall i | 0 <= i < |rs| :: HonestStep(Run(l, rs[..i]), rs[i])
    requires forall i | 0 <= i < |rs| :: Deliverable(Run(l, rs[..i]), rs[i], t, truth)
    ensures Settled(Run(l, rs), t, truth, Generation(l, t), l.players[t].online, Highest(l, rs, t))
  {
    if rs != [] {
      var n := |rs| - 1;
      var prefix := rs[..n];
      assert forall i | 0 <= i < n :: prefix[..i] == rs[..i] && prefix[i] == rs[i];
      RunSettles(l, prefix, t, truth);
      RunKeepsGame(l, prefix);
      PresenceStep(Run(l, prefix), rs[n], t, truth, Generation(l, t), l.players[t].online, Highest(l, prefix, t));
    }
  }
}
