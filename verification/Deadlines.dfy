/**
  The actor's heartbeat: ballots past their deadline are resolved, ballots whose cooldown has
  passed are opened again, each by a request of the actor to itself, under an action id made of
  the target and the time.
 */
module Deadlines {
  import opened Common
  import opened Lifecycle
  import opened Machine
  import opened Patches
  import opened Receipts
  import opened Actor
  import opened SeenCache
  import opened GameActor
  import Protocol
  import opened BallotSteps
  import opened Safety

  predicate Due(b: Ballot, now: int) {
    b.status == Open && b.deadline.Some? && b.deadline.value <= now
  }

  /** Past its deadline, or past its cooldown. */
  predicate Timely(b: Ballot, now: int) {
    Due(b, now) || (b.status == ResolvedWait && b.cooldown.Some? && b.cooldown.value <= now)
  }

  /** The action id of the request about one timely ballot. */
  function TickAction(target: PlayerId, b: Ballot): ActionId {
    if b.status == Open then TimeoutOf(target, Or(b.deadline, 0)) else ReopenOf(target, Or(b.cooldown, 0))
  }

  /** The request about one ballot of the snapshot the tick works from, if it is time. */
  function TickRequest(snapshot: Life, target: PlayerId, now: int, base: int, emitted: seq<Emission>): Option<Request>
    requires target in snapshot.ballots
  {
    var b := snapshot.ballots[target];
    var voters := BallotVoters(b, snapshot, target, []);
    if !Timely(b, now) || (!Due(b, now) && voters == []) then None
    else
      var signal := if Due(b, now) then Timeout else GoOffline(voters);
      Some(Request(Voting(VoteCommand(target, ActorTick, None, signal, None)), base, TickAction(target, b), None, true, now, emitted))
  }

  datatype Heartbeat = Heartbeat(actor: Actor, log: seq<Stored>)

  function TickOne(h: Heartbeat, snapshot: Life, target: PlayerId, now: int, emitted: seq<Emission>): Heartbeat
    requires target in snapshot.ballots
  {
    match TickRequest(snapshot, target, now, h.actor.version, emitted)
    case None => h
    case Some(r) =>
      var (a, _, stored) := Submit(h.actor, r, Undisturbed(h.log));
      Heartbeat(a, Protocol.Grown(h.log, stored))
  }

  /** The ballots of the snapshot in some order. */
  function TickAll(h: Heartbeat, snapshot: Life, order: seq<PlayerId>, now: int, emitted: seq<Emission>): Heartbeat
    requires forall t | t in order :: t in snapshot.ballots
  {
    if order == [] then h
    else
      var n := |order| - 1;
      TickOne(TickAll(h, snapshot, order[..n], now, emitted), snapshot, order[n], now, emitted)
  }

  function Tick(h: Heartbeat, order: seq<PlayerId>, now: int, emitted: seq<Emission>): Heartbeat
    requires forall t | t in order :: t in h.actor.game.life.ballots
  {
    if h.actor.game.life.finished || h.actor.closing then h else TickAll(h, h.actor.game.life, order, now, emitted)
  }

  /** The heartbeat of a running actor, in any order of the ballots. */
  method ResolveDue(actor: RunningActor, log: seq<Stored>, order: seq<PlayerId>, now: int, emitted: seq<Emission>)
    returns (after: seq<Stored>)
    requires forall t | t in order :: t in actor.game.life.ballots
    modifies actor
    ensures Heartbeat(actor.Abs(), after) == Tick(Heartbeat(old(actor.Abs()), log), order, now, emitted)
  {
    after := log;
    if actor.game.life.finished || actor.closing {
      return;
    }
    var snapshot := actor.game.life;
    ghost var start := Heartbeat(actor.Abs(), log);
    for i := 0 to |order|
      invariant forall t | t in order :: t in snapshot.ballots
      invariant Heartbeat(actor.Abs(), after) == TickAll(start, snapshot, order[..i], now, emitted)
    {
      assert order[i] in order && order[..i + 1][..i] == order[..i];
      var request := TickRequest(snapshot, order[i], now, actor.version, emitted);
      if request.Some? {
        var result, committed := actor.Apply(request.value, Undisturbed(after));
        after := Protocol.Grown(after, committed);
      }
    }
    assert order[..|order|] == order;
  }

  // --------------------------------------------------------- one tick request

  /** An actor at the head of its log, running and open. */
  ghost predicate Ready(h: Heartbeat) {
    && LogOk(h.log) && AgentOk(h.log, h.actor) && h.actor.version == |h.log|
    && h.actor.rules == GAME && !h.actor.closing && !h.actor.game.life.finished
  }

  /** An action that is in the log already is answered, and changes neither game nor log. */
  lemma UsedIdIsAnswered(h: Heartbeat, r: Request)
    requires Ready(h) && Lookup(h.log, r.action).Some? && r.author.None? && !IsPresence(r.command)
    ensures var (a, _, stored) := Submit(h.actor, r, Undisturbed(h.log));
      && stored.None? && a.game == h.actor.game && Ready(Heartbeat(a, h.log))
  {
    DuplicateOk(h.log, h.actor, r.action, r.author);
    var answer := StoredDuplicate(h.log, r.action, r.author);
    if answer.Found? { RememberKeepsCache(h.actor, r.action, answer.answer); }
  }

  lemma UnloggedIsUnseen(log: seq<Stored>, a: Actor, action: ActionId)
    requires AgentOk(log, a) && Lookup(log, action).None?
    ensures action !in a.seen
  {
    assert action in a.seen ==> AnsweredBy(log, action, a.seen[action]);
  }

  /** A new action of the tick runs on the actor's own game. */
  lemma NewIdRuns(h: Heartbeat, r: Request)
    requires Ready(h) && Lookup(h.log, r.action).None? && r.base == h.actor.version
    requires r.command.Voting? && r.command.vote.origin == ActorTick
    ensures Submit(h.actor, r, Undisturbed(h.log)) == FromCommit(h.actor, r, Undisturbed(h.log))
  {
    UnloggedIsUnseen(h.log, h.actor, r.action);
  }

  lemma HeadAppends(h: Heartbeat, r: Request, after: Game, undone: Game, body: Body)
    requires Ready(h) && Lookup(h.log, r.action).None? && !after.life.finished
    ensures var (p, stored) := Append(h.actor, r, after, undone, body, h.log, true, NoFault);
      && p.Finished? && stored.Some? && stored.value.event.action == Some(r.action)
      && p.actor.game == after && Ready(Heartbeat(p.actor, h.log + [stored.value]))
  {
    AppendOk(h.log, h.actor, r, after, undone, body, true, NoFault);
    HeadIsFree(h.log);
    RememberKeepsCache(h.actor.(game := after, version := h.actor.version + 1), r.action, AnswerOf(h.actor, r, body));
  }

  /** What the tick's own request makes of its ballot: one past its deadline runs down; one past
      its cooldown is opened again among its voters, unless its player has conceded. */
  ghost predicate Served(l: Life, target: PlayerId, b': Ballot, now: int)
    requires target in l.ballots
  {
    var b := l.ballots[target];
    var voters := BallotVoters(b, l, target, []);
    if Due(b, now) then RunsDown(b, b', voters, now)
    else if IsConceded(l, target) then b' == b
    else b'.version.Some? && Asks(l, target, voters, now, b'.version.value, b')
  }

  ghost predicate SameStanding(l: Life, m: Life) {
    l.players.Keys == m.players.Keys && forall p | p in l.players && p in m.players :: l.players[p].standing == m.players[p].standing
  }

  lemma VotersStand(l: Life, m: Life, b: Ballot, target: PlayerId, connected: seq<PlayerId>)
    requires SameStanding(l, m)
    ensures BallotVoters(b, l, target, connected) == BallotVoters(b, m, target, connected)
  {
    assert VoterSet(l, target, connected) == VoterSet(m, target, connected);
  }

  lemma ServedStands(l: Life, m: Life, target: PlayerId, b': Ballot, now: int)
    requires SameStanding(l, m) && target in l.ballots && target in m.ballots && l.ballots[target] == m.ballots[target]
    ensures Served(l, target, b', now) <==> Served(m, target, b', now)
  {
    VotersStand(l, m, l.ballots[target], target, []);
    assert forall v :: IsActive(l, v) <==> IsActive(m, v);
    if b'.version.Some? { AsksAlike(l, m, target, BallotVoters(l.ballots[target], l, target, []), now, b'.version.value, b'); }
  }

  ghost predicate OneBallot(l: Life, l': Life, target: PlayerId) {
    && l'.finished == l.finished && l'.ballots.Keys == l.ballots.Keys && SameStanding(l, l')
    && (forall t | t in l.ballots && t != target :: l'.ballots[t] == l.ballots[t])
  }

  /** What a tick's own command does to the ballots. */
  lemma TickVote(l: Life, c: VoteCommand, now: int, version: int)
    requires c.target in l.players && c.target in l.ballots && c.origin == ActorTick
    requires if Due(l.ballots[c.target], now) then c.signal == Timeout
             else && HasStatus(l, c.target, ResolvedWait) && BallotVoters(l.ballots[c.target], l, c.target, []) != []
                  && c.signal == GoOffline(BallotVoters(l.ballots[c.target], l, c.target, []))
    ensures ApplyVote(l, c, now, version).Done?
    ensures var l' := ApplyVote(l, c, now, version).life;
      OneBallot(l, l', c.target) && Served(l, c.target, l'.ballots[c.target], now)
  {
    if Due(l.ballots[c.target], now) {
      TimeoutFills(l, c, now, version);
    } else {
      OfflineOpens(l, c, BallotVoters(l.ballots[c.target], l, c.target, []), now, version);
    }
  }

  /** One request of the tick: answered as a duplicate, refused for an unknown player, or done. */
  ghost predicate Ticked(h: Heartbeat, h': Heartbeat, target: PlayerId, action: ActionId, now: int) {
    var l, l' := h.actor.game.life, h'.actor.game.life;
    if Lookup(h.log, action).Some? || target !in l.players then h'.actor.game == h.actor.game && h'.log == h.log
    else
      && |h'.log| == |h.log| + 1 && h'.log[..|h.log|] == h.log && h'.log[|h.log|].event.action == Some(action)
      && OneBallot(l, l', target)
      && (target in l.ballots && target in l'.ballots ==> Served(l, target, l'.ballots[target], now))
  }

  lemma TickOneTicks(h: Heartbeat, snapshot: Life, target: PlayerId, now: int, emitted: seq<Emission>)
    requires Ready(h) && target in snapshot.ballots && target in h.actor.game.life.ballots
    requires h.actor.game.life.ballots[target] == snapshot.ballots[target] && SameStanding(snapshot, h.actor.game.life)
    requires TickRequest(snapshot, target, now, h.actor.version, emitted).Some?
    ensures var h' := TickOne(h, snapshot, target, now, emitted);
      Ready(h') && Ticked(h, h', target, TickAction(target, snapshot.ballots[target]), now)
  {
    var r := TickRequest(snapshot, target, now, h.actor.version, emitted).value;
    if Lookup(h.log, r.action).Some? {
      UsedIdIsAnswered(h, r);
    } else {
      NewIdRuns(h, r);
      if target in h.actor.game.life.players {
        VotersStand(snapshot, h.actor.game.life, snapshot.ballots[target], target, []);
        TickVote(h.actor.game.life, r.command.vote, now, h.actor.version + 1);
        VoteAppends(h, r);
      } else {
        assert Exec(h.actor.game, r.command, now, h.actor.version + 1) == Rejected(h.actor.game);
      }
    }
  }

  lemma VoteAppends(h: Heartbeat, r: Request)
    requires Ready(h) && Lookup(h.log, r.action).None? && r.command.Voting?
    requires var done := ApplyVote(h.actor.game.life, r.command.vote, r.now, h.actor.version + 1);
      done.Done? && !done.life.finished
    ensures var (a, _, stored) := FromCommit(h.actor, r, Undisturbed(h.log));
      && stored.Some? && stored.value.event.action == Some(r.action) && Ready(Heartbeat(a, h.log + [stored.value]))
      && a.game.life == ApplyVote(h.actor.game.life, r.command.vote, r.now, h.actor.version + 1).life
  {
    var g := h.actor.game;
    var done := ApplyVote(g.life, r.command.vote, r.now, h.actor.version + 1);
    var e := Exec(g, r.command, r.now, h.actor.version + 1);
    assert e == Applied(g.(life := done.life), VoteUpdated(done.event));
    HeadAppends(h, r, e.game, Undo(g, r.command, e.game), e.body);
  }

  // ------------------------------------------------------- a whole heartbeat

  /** The request about the ballot gets nowhere: its action id is taken, or its player unknown. */
  predicate Blocked(h: Heartbeat, target: PlayerId)
    requires target in h.actor.game.life.ballots
  {
    Lookup(h.log, TickAction(target, h.actor.game.life.ballots[target])).Some? || target !in h.actor.game.life.players
  }

  /** Past its cooldown, with somebody to vote on it. */
  predicate Reopens(l: Life, target: PlayerId, now: int)
    requires target in l.ballots
  {
    var b := l.ballots[target];
    && b.status == ResolvedWait && b.cooldown.Some? && b.cooldown.value <= now
    && (b.eligible != [] || exists v :: v in l.players && v != target && IsActive(l, v))
  }

  lemma TickSendsIff(l: Life, target: PlayerId, now: int, base: int, emitted: seq<Emission>)
    requires target in l.ballots
    ensures TickRequest(l, target, now, base, emitted).Some? <==> Due(l.ballots[target], now) || Reopens(l, target, now)
  {
    EligibleMembers(l, target, []);
    var eligible := Eligible(l, target, []);
    if v :| v in l.players && v != target && IsActive(l, v) { assert v in eligible; }
    if eligible != [] { assert eligible[0] in eligible; }
  }

  /** A request about the ballot is sent and taken. */
  predicate Acted(h: Heartbeat, target: PlayerId, now: int)
    requires target in h.actor.game.life.ballots
  {
    var l := h.actor.game.life;
    (Due(l.ballots[target], now) || Reopens(l, target, now)) && !Blocked(h, target)
  }

  /** What a heartbeat makes of one ballot. */
  ghost predicate Decided(h: Heartbeat, target: PlayerId, b': Ballot, now: int)
    requires target in h.actor.game.life.ballots
  {
    var l := h.actor.game.life;
    if Acted(h, target, now) then Served(l, target, b', now) else b' == l.ballots[target]
  }

  /** The event at `i` is that of the request about the ballot. */
  predicate LoggedAt(h: Heartbeat, h': Heartbeat, target: PlayerId, i: nat)
    requires target in h.actor.game.life.ballots
  {
    |h.log| <= i < |h'.log| && h'.log[i].event.action == Some(TickAction(target, h.actor.game.life.ballots[target]))
  }

  ghost predicate OfTick(h: Heartbeat, h': Heartbeat, done: seq<PlayerId>, now: int, i: nat)
    requires forall t | t in done :: t in h.actor.game.life.ballots
  {
    exists t :: t in done && Acted(h, t, now) && LoggedAt(h, h', t, i)
  }

  /** The new events are those of the requests about `done` that were sent and taken. */
  ghost predicate LogsActed(h: Heartbeat, h': Heartbeat, done: seq<PlayerId>, now: int)
    requires forall t | t in done :: t in h.actor.game.life.ballots
  {
    && |h.log| <= |h'.log| && h'.log[..|h.log|] == h.log
    && (forall t | t in done && Acted(h, t, now) :: exists i: nat :: LoggedAt(h, h', t, i))
    && (forall i: nat | |h.log| <= i < |h'.log| :: OfTick(h, h', done, now, i))
  }

  /** After the requests about `done`: those ballots are decided, the others are as they were,
      and so are the answers to the requests still to come. */
  ghost predicate Halfway(h: Heartbeat, h': Heartbeat, done: seq<PlayerId>, now: int)
    requires forall t | t in done :: t in h.actor.game.life.ballots
  {
    var l, l' := h.actor.game.life, h'.actor.game.life;
    && Ready(h') && l'.ballots.Keys == l.ballots.Keys && SameStanding(l, l')
    && LogsActed(h, h', done, now)
    && (forall t | t in l.ballots ::
          if t in done then Decided(h, t, l'.ballots[t], now)
          else
            && l'.ballots[t] == l.ballots[t]
            && Lookup(h'.log, TickAction(t, l.ballots[t])) == Lookup(h.log, TickAction(t, l.ballots[t])))
  }

  lemma LogsOneMore(h: Heartbeat, h': Heartbeat, h'': Heartbeat, done: seq<PlayerId>, target: PlayerId, now: int)
    requires (forall t | t in done + [target] :: t in h.actor.game.life.ballots) && (forall t | t in done :: t in h.actor.game.life.ballots)
    requires LogsActed(h, h', done, now)
    requires if Acted(h, target, now)
             then |h''.log| == |h'.log| + 1 && h''.log[..|h'.log|] == h'.log
                  && h''.log[|h'.log|].event.action == Some(TickAction(target, h.actor.game.life.ballots[target]))
             else h''.log == h'.log
    ensures LogsActed(h, h'', done + [target], now)
  {
    assert h''.log[..|h.log|] == h'.log[..|h.log|];
    forall t | t in done + [target] && Acted(h, t, now) ensures exists i: nat :: LoggedAt(h, h'', t, i) {
      if t in done {
        var i: nat :| LoggedAt(h, h', t, i);
        assert h''.log[i] == h'.log[i] && LoggedAt(h, h'', t, i);
      } else {
        assert LoggedAt(h, h'', t, |h'.log|);
      }
    }
    forall i: nat | |h.log| <= i < |h''.log| ensures OfTick(h, h'', done + [target], now, i) {
      if i < |h'.log| {
        assert OfTick(h, h', done, now, i);
        var t :| t in done && Acted(h, t, now) && LoggedAt(h, h', t, i);
        assert h''.log[i] == h'.log[i] && t in done + [target] && LoggedAt(h, h'', t, i);
      } else {
        assert target in done + [target] && LoggedAt(h, h'', target, i);
      }
    }
  }

  lemma StepHalfway(h: Heartbeat, h': Heartbeat, h'': Heartbeat, done: seq<PlayerId>, target: PlayerId, now: int)
    requires Ready(h) && target in h.actor.game.life.ballots && target !in done && (forall t | t in done :: t in h.actor.game.life.ballots)
    requires Halfway(h, h', done, now) && Ready(h'')
    requires Due(h.actor.game.life.ballots[target], now) || Reopens(h.actor.game.life, target, now)
    requires Ticked(h', h'', target, TickAction(target, h.actor.game.life.ballots[target]), now)
    ensures Halfway(h, h'', done + [target], now)
  {
    var l, l', l'' := h.actor.game.life, h'.actor.game.life, h''.actor.game.life;
    LogsOneMore(h, h', h'', done, target, now);
    ServedStands(l, l', target, l''.ballots[target], now);
    forall t | t in l.ballots && t !in done + [target]
      ensures l''.ballots[t] == l.ballots[t]
      ensures Lookup(h''.log, TickAction(t, l.ballots[t])) == Lookup(h.log, TickAction(t, l.ballots[t]))
    {
      assert t != target && t !in done;
      OthersToCome(h', h'', target, t, l.ballots[target], l.ballots[t], now);
    }
    forall t | t in l.ballots && t in done + [target] ensures Decided(h, t, l''.ballots[t], now) {
      if t != target { assert t in done; }
    }
  }

  /** A request about one ballot leaves the answer to the request about another as it was. */
  lemma OthersToCome(h: Heartbeat, h': Heartbeat, target: PlayerId, other: PlayerId, b: Ballot, c: Ballot, now: int)
    requires target != other && Ticked(h, h', target, TickAction(target, b), now)
    ensures Lookup(h'.log, TickAction(other, c)) == Lookup(h.log, TickAction(other, c))
  {
    if h'.log != h.log {
      assert h'.log == h.log + [h'.log[|h.log|]];
      LookupGrows(h.log, h'.log[|h.log|], TickAction(other, c));
    }
  }

  /** A ballot about which nothing is sent. */
  lemma SkipHalfway(h: Heartbeat, h': Heartbeat, done: seq<PlayerId>, target: PlayerId, now: int)
    requires target in h.actor.game.life.ballots && target !in done && (forall t | t in done :: t in h.actor.game.life.ballots)
    requires Halfway(h, h', done, now)
    requires !(Due(h.actor.game.life.ballots[target], now) || Reopens(h.actor.game.life, target, now))
    ensures Halfway(h, h', done + [target], now)
  {
    var l := h.actor.game.life;
    LogsOneMore(h, h', h', done, target, now);
    forall t | t in l.ballots && t in done + [target] ensures Decided(h, t, h'.actor.game.life.ballots[t], now) {
      if t != target { assert t in done; }
    }
  }

  lemma OneDecides(h: Heartbeat, h': Heartbeat, done: seq<PlayerId>, target: PlayerId, now: int, emitted: seq<Emission>)
    requires Ready(h) && target in h.actor.game.life.ballots && target !in done && (forall t | t in done :: t in h.actor.game.life.ballots)
    requires Halfway(h, h', done, now)
    ensures Halfway(h, TickOne(h', h.actor.game.life, target, now, emitted), done + [target], now)
  {
    TickSendsIff(h.actor.game.life, target, now, h'.actor.version, emitted);
    if TickRequest(h.actor.game.life, target, now, h'.actor.version, emitted).Some? {
      TickOneTicks(h', h.actor.game.life, target, now, emitted);
      StepHalfway(h, h', TickOne(h', h.actor.game.life, target, now, emitted), done, target, now);
    } else {
      SkipHalfway(h, h', done, target, now);
    }
  }

  lemma {:induction false} TickAllDecides(h: Heartbeat, order: seq<PlayerId>, now: int, emitted: seq<Emission>)
    requires Ready(h) && NoDup(order) && (forall t | t in order :: t in h.actor.game.life.ballots)
    ensures Halfway(h, TickAll(h, h.actor.game.life, order, now, emitted), order, now)
    decreases |order|
  {
    if order != [] {
      var n := |order| - 1;
      assert order[n] in order && order == order[..n] + [order[n]];
      assert order[n] !in order[..n];
      TickAllDecides(h, order[..n], now, emitted);
      OneDecides(h, TickAll(h, h.actor.game.life, order[..n], now, emitted), order[..n], order[n], now, emitted);
    }
  }

  /** A running actor at the head of its log, after one heartbeat in any order of its ballots:
      a ballot past its deadline has run down, one past its cooldown has been opened again if
      somebody can vote, unless its action id was used before or its player is unknown; all
      others are what they were, and the log has grown by exactly one event for each. */
  lemma HeartbeatResolves(h: Heartbeat, order: seq<PlayerId>, now: int, emitted: seq<Emission>)
    requires Ready(h) && NoDup(order) && SetOf(order) == h.actor.game.life.ballots.Keys
    ensures forall t | t in order :: t in h.actor.game.life.ballots
    ensures var h' := Tick(h, order, now, emitted); var l' := h'.actor.game.life;
      && Ready(h') && l'.ballots.Keys == h.actor.game.life.ballots.Keys && SameStanding(h.actor.game.life, l')
      && LogsActed(h, h', order, now)
      && forall t | t in l'.ballots :: Decided(h, t, l'.ballots[t], now)
  {
    forall t | t in order ensures t in h.actor.game.life.ballots { assert t in SetOf(order); }
    TickAllDecides(h, order, now, emitted);
    forall t | t in h.actor.game.life.ballots ensures t in order { assert t in SetOf(order); }
  }

  /** A finished or closing actor has no heartbeat. */
  lemma NoHeartbeat(h: Heartbeat, order: seq<PlayerId>, now: int, emitted: seq<Emission>)
    requires (forall t | t in order :: t in h.actor.game.life.ballots) && (h.actor.game.life.finished || h.actor.closing)
    ensures Tick(h, order, now, emitted) == h
  {}

  /** A ballot at or past its deadline whose id is free: the log gets the timeout, and whoever
      was asked and had not voted is counted as waiting. */
  lemma HeartbeatTimesOut(h: Heartbeat, order: seq<PlayerId>, now: int, emitted: seq<Emission>, target: PlayerId, voter: PlayerId)
    requires Ready(h) && NoDup(order) && SetOf(order) == h.actor.game.life.ballots.Keys
    requires var l := h.actor.game.life;
      && target in l.ballots && target in l.players && voter in l.ballots[target].eligible
      && l.ballots[target].status == Open && l.ballots[target].deadline.Some? && l.ballots[target].deadline.value <= now
      && Lookup(h.log, TimeoutOf(target, l.ballots[target].deadline.value)).None?
    ensures forall t | t in order :: t in h.actor.game.life.ballots
    ensures var h' := Tick(h, order, now, emitted); var l' := h'.actor.game.life; var b := h.actor.game.life.ballots[target];
      && target in l'.ballots && l'.ballots[target].status == ResolvedWait
      && l'.ballots[target].cooldown == Some(now + 300)
      && voter in l'.ballots[target].votes
      && l'.ballots[target].votes[voter] == (if voter in b.votes then b.votes[voter] else Vote(Wait, now))
      && exists i: nat :: |h.log| <= i < |h'.log| && h'.log[i].event.action == Some(TimeoutOf(target, b.deadline.value))
  {
    HeartbeatResolves(h, order, now, emitted);
    assert target in SetOf(order) && Acted(h, target, now);
    var h' := Tick(h, order, now, emitted);
    var i: nat :| LoggedAt(h, h', target, i);
    assert Decided(h, target, h'.actor.game.life.ballots[target], now);
    assert voter in SetOf(h.actor.game.life.ballots[target].eligible);
  }

  /** A player who is away and has not conceded, past the cooldown, with another active player
      to ask: the log gets the reopening, and everybody asked has sixty seconds again. */
  lemma HeartbeatReopens(h: Heartbeat, order: seq<PlayerId>, now: int, emitted: seq<Emission>, target: PlayerId, voter: PlayerId)
    requires Ready(h) && NoDup(order) && SetOf(order) == h.actor.game.life.ballots.Keys
    requires var l := h.actor.game.life;
      && target in l.ballots && IsActive(l, target) && voter != target && IsActive(l, voter)
      && l.ballots[target].status == ResolvedWait && l.ballots[target].cooldown.Some? && l.ballots[target].cooldown.value <= now
      && (l.ballots[target].eligible != [] ==> voter in l.ballots[target].eligible)
      && Lookup(h.log, ReopenOf(target, l.ballots[target].cooldown.value)).None?
    ensures forall t | t in order :: t in h.actor.game.life.ballots
    ensures var h' := Tick(h, order, now, emitted); var l' := h'.actor.game.life;
      && target in l'.ballots && l'.ballots[target].status == Open && l'.ballots[target].votes == map[]
      && l'.ballots[target].deadline == Some(now + 60) && voter in l'.ballots[target].eligible
      && exists i: nat :: |h.log| <= i < |h'.log|
           && h'.log[i].event.action == Some(ReopenOf(target, h.actor.game.life.ballots[target].cooldown.value))
  {
    HeartbeatResolves(h, order, now, emitted);
    var l := h.actor.game.life;
    EligibleMembers(l, target, []);
    assert voter in BallotVoters(l.ballots[target], l, target, []);
    assert target in SetOf(order) && Acted(h, target, now);
    var h' := Tick(h, order, now, emitted);
    var i: nat :| LoggedAt(h, h', target, i);
    assert Decided(h, target, h'.actor.game.life.ballots[target], now);
  }

  /** No ballot is past its deadline after a heartbeat, if and only if no ballot that was past
      its deadline has its action id used up or its player unknown. */
  lemma NoneDueIff(h: Heartbeat, order: seq<PlayerId>, now: int, emitted: seq<Emission>)
    requires Ready(h) && NoDup(order) && SetOf(order) == h.actor.game.life.ballots.Keys
    ensures forall t | t in order :: t in h.actor.game.life.ballots
    ensures var l, l' := h.actor.game.life, Tick(h, order, now, emitted).actor.game.life;
      (forall t | t in l'.ballots :: !Due(l'.ballots[t], now))
      <==> (forall t | t in l.ballots && Due(l.ballots[t], now) :: !Blocked(h, t))
  {
    HeartbeatResolves(h, order, now, emitted);
    var l, l' := h.actor.game.life, Tick(h, order, now, emitted).actor.game.life;
    assert forall t | t in l.ballots :: Due(l'.ballots[t], now) <==> (Due(l.ballots[t], now) && Blocked(h, t)) by {
      forall t | t in l.ballots ensures Due(l'.ballots[t], now) <==> (Due(l.ballots[t], now) && Blocked(h, t)) {
        assert Decided(h, t, l'.ballots[t], now);
      }
    }
  }

  /** Over every interleaving of every actor, restarts and crashes included, one deadline of
      one target has at most one timeout event, and one cooldown at most one reopening. */
  lemma OneTimeoutPerDeadline(rules: Rules, init: Game, steps: seq<Protocol.Step>, i: nat, j: nat, target: PlayerId, b: Ballot)
    requires var log := Protocol.Run(rules, init, steps).log;
      && i < |log| && j < |log|
      && log[i].event.action == Some(TickAction(target, b)) && log[j].event.action == Some(TickAction(target, b))
    ensures i == j
  {
    OneHistory(rules, init, steps);
  }

  /** Different ballots, deadlines or cooldowns never share an action id. */
  lemma TickActionInjective(target: PlayerId, b: Ballot, target': PlayerId, b': Ballot)
    ensures TickAction(target, b) == TickAction(target', b') <==>
      && target == target' && (b.status == Open <==> b'.status == Open)
      && if b.status == Open then Or(b.deadline, 0) == Or(b'.deadline, 0) else Or(b.cooldown, 0) == Or(b'.cooldown, 0)
  {}
}
