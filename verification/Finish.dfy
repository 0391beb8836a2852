/**
  The end of a game and the log: which requests still run after it. The finished game is looked
  at before an actor catches up, so a request can carry its actor over the finish.
 */
module Finish {
  import opened Common
  import opened Lifecycle
  import opened LifecycleReplay
  import opened Machine
  import opened GameLaws
  import opened Receipts
  import opened Actor
  import opened Agreement
  import opened Protocol
  import opened Safety
  import opened Fidelity
  import opened Requests

  /** The game is over after the first `v` events. */
  ghost predicate OverAt(init: Game, log: seq<Stored>, v: nat)
    requires v <= |log|
  {
    ReplayOf(GAME, init, log[..v]).Some? && ReplayOf(GAME, init, log[..v]).value.life.finished
  }

  /** A finished game stays finished whatever is replayed. */
  lemma BodyKeepsFinish(g: Game, body: Body, now: int)
    requires g.life.finished && ReplayBody(g, body, now).Some?
    ensures ReplayBody(g, body, now).value.life.finished
  {
    match body
    case VoteUpdated(e) => RestoredRestores(g.life, e);
    case _ =>
  }

  lemma ReplayStep(rules: Rules, init: Game, log: seq<Stored>, m: nat)
    requires 0 < m <= |log| && ReplayOf(rules, init, log[..m - 1]).Some?
    ensures ReplayOf(rules, init, log[..m])
      == rules.replay(ReplayOf(rules, init, log[..m - 1]).value, log[m - 1].event.body, CLOCK)
  {
    assert log[..m][..m - 1] == log[..m - 1] && log[..m][m - 1] == log[m - 1];
  }

  lemma OverNext(init: Game, log: seq<Stored>, m: nat)
    requires GoodLog(GAME, init, log) && 0 < m <= |log| && OverAt(init, log, m - 1)
    ensures OverAt(init, log, m)
  {
    GoodPrefix(GAME, init, log, m);
    GoodLogReplays(GAME, init, log[..m]);
    ReplayStep(GAME, init, log, m);
    BodyKeepsFinish(ReplayOf(GAME, init, log[..m - 1]).value, log[m - 1].event.body, CLOCK);
  }

  lemma {:induction false} OverStays(init: Game, log: seq<Stored>, v: nat, m: nat)
    requires GoodLog(GAME, init, log) && v <= m <= |log| && OverAt(init, log, v)
    ensures OverAt(init, log, m)
  {
    if v < m {
      OverStays(init, log, v, m - 1);
      OverNext(init, log, m);
    }
  }

  /** An actor that follows the log is finished exactly when the log is at its version. */
  lemma FollowerOver(init: Game, log: seq<Stored>, p: Position, fit: Fit)
    requires Tracks(GAME, init, log, p, fit)
    ensures p.game.life.finished <==> OverAt(init, log, p.version)
  {}

  /** A request's command runs on a finished game if and only if the request is permitted, asks
      for a version the log has and the actor has not, and the game ended in between. */
  lemma RunsOnFinishedIff(init: Game, log: seq<Stored>, a: Actor, fit: Fit, r: Request, w: World)
    requires GoodLog(GAME, init, log) && AgentFollows(GAME, init, log, a, fit) && w.tail == log
    ensures (Executing(a, r, w).Some? && Executing(a, r, w).value.game.life.finished) <==>
      && Permits(a.game, r) && !RepeatsConcession(a.game, r.command) && !r.command.Unknown?
      && a.version < r.base <= |log| && !OverAt(init, log, a.version) && OverAt(init, log, r.base)
  {
    FollowerOver(init, log, PositionOf(a), fit);
    if r.base > a.version {
      AfterContiguous(log, a.version);
      CatchUpTracks(GAME, init, log, PositionOf(a), fit, r.base, r.now);
      var p := CatchUp(GAME, PositionOf(a), log[a.version..], r.base, r.now).0;
      FollowerOver(init, log, p, fit);
      CaughtUpRuns(a, r, w, p);
    }
  }

  /** Past the catch-up only the base version and the command's type are left to check. */
  lemma CaughtUpRuns(a: Actor, r: Request, w: World, p: Position)
    requires r.base > a.version
    requires CatchUp(a.rules, PositionOf(a), After(w.tail, a.version), r.base, r.now) == (p, true) && p.version <= r.base
    ensures Executing(a, r, w) ==
      if Permits(a.game, r) && !RepeatsConcession(a.game, r.command) && !a.game.life.finished
         && p.version == r.base && !r.command.Unknown?
      then Some(a.(game := p.game, version := p.version)) else None
  {}

  // -------------------------------------------------------------------- runs

  /** Requests past admission were admitted while their actor's part of the log was unfinished. */
  ghost predicate BegunUnfinished(init: Game, log: seq<Stored>, agent: Agent) {
    agent.task.Busy? ==>
      && agent.task.began <= agent.actor.version <= |log|
      && (agent.task.stage == Looking || agent.task.stage == Admitting ==> agent.task.began == agent.actor.version)
      && (agent.task.stage == Checking || agent.task.stage == Committing ==> !OverAt(init, log, agent.task.began))
  }

  ghost predicate AllBegun(init: Game, s: System) {
    forall id | id in s.agents :: BegunUnfinished(init, s.log, s.agents[id])
  }

  lemma BegunLonger(init: Game, log: seq<Stored>, more: Stored, agent: Agent)
    requires BegunUnfinished(init, log, agent)
    ensures BegunUnfinished(init, log + [more], agent)
  {
    if agent.task.Busy? {
      assert (log + [more])[..agent.task.began] == log[..agent.task.began];
    }
  }

  lemma AllBegunLonger(init: Game, s: System, more: Stored)
    requires AllBegun(init, s)
    ensures AllBegun(init, s.(log := s.log + [more]))
  {
    forall id | id in s.agents ensures BegunUnfinished(init, s.log + [more], s.agents[id]) {
      BegunLonger(init, s.log, more, s.agents[id]);
    }
  }

  ghost predicate BegunAfter(init: Game, log: seq<Stored>, p: Progress, fit: Fit, began: nat) {
    p.At? ==> BegunUnfinished(init, log, Agent(p.actor, Busy(p.request, p.stage, began), fit))
  }

  lemma StagedBegun(init: Game, s: System, agent: Agent, now: int)
    requires Inv(s) && AgentFollows(GAME, init, s.log, agent.actor, agent.fit)
    requires AgentOk(s.log, agent.actor) && agent.task.Busy? && BegunUnfinished(init, s.log, agent)
    ensures BegunAfter(init, s.log, Staged(agent.actor, agent.task.request, agent.task.stage, s.log, LatestPosition(s), now),
                       agent.fit, agent.task.began)
  {
    var r, stage := agent.task.request, agent.task.stage;
    StagedOk(s.log, agent.actor, r, stage, LatestPosition(s), now);
    FollowerOver(init, s.log, PositionOf(agent.actor), agent.fit);
    StageOrder(agent.actor, r, stage, s.log, LatestPosition(s), now);
  }

  /** Where a stage leads. */
  lemma StageOrder(a: Actor, r: Request, stage: Stage, log: seq<Stored>, snapshot: Option<Position>, now: int)
    ensures var p := Staged(a, r, stage, log, snapshot, now);
      p.At? ==>
        && (stage == Looking ==> p.stage == Admitting && p.actor == a)
        && (stage == Admitting ==> p.stage == Checking && !a.game.life.finished)
        && (stage == Checking ==> p.stage == Committing)
        && (stage == Committing ==> p.stage == Committing && p.actor == a)
        && (stage.Resolving? ==> p.stage == Recovering)
        && (stage != Recovering)
  {}

  lemma ProceedBegun(init: Game, s: System, id: nat, now: int)
    requires Inv(s) && AllBegun(init, s)
    requires id in s.agents ==> AgentFollows(GAME, init, s.log, s.agents[id].actor, s.agents[id].fit)
    ensures AllBegun(init, ProceedStep(s, id, now))
  {
    if id in s.agents && s.agents[id].task.Busy? {
      var agent := s.agents[id];
      StagedBegun(init, s, agent, now);
      AdvanceBegun(init, s, id, Staged(agent.actor, agent.task.request, agent.task.stage, s.log, LatestPosition(s), now),
                   agent.task.request, agent.fit, agent.task.began);
    }
  }

  lemma AdvanceBegun(init: Game, s: System, id: nat, p: Progress, r: Request, fit: Fit, began: nat)
    requires AllBegun(init, s)
    requires BegunAfter(init, s.log, p, fit, began)
    ensures AllBegun(init, Advance(s, id, p, r, fit, began))
  {}

  lemma StartBegun(init: Game, s: System, id: nat, r: Request, held: bool)
    requires Inv(s) && AllBegun(init, s)
    ensures AllBegun(init, StartStep(s, id, r, held))
  {}

  lemma CommitBegun(init: Game, s: System, id: nat, held: bool, fault: Fault)
    requires Inv(s) && AllBegun(init, s) && AtStage(s, id, Committing)
    ensures AllBegun(init, Committed(s, id, held, fault))
  {
    var agent := s.agents[id];
    var r := agent.task.request;
    var (p, stored) := Commit(agent.actor, r, s.log, held, fault);
    CommitLeads(agent.actor, r, agent.actor.rules.exec(agent.actor.game, r.command, r.now, agent.actor.version + 1), s.log, held, fault);
    if stored.Some? { AllBegunLonger(init, s, stored.value); }
  }

  lemma CommitLeads(a: Actor, r: Request, e: Execution, log: seq<Stored>, held: bool, fault: Fault)
    ensures var (p, stored) := CommitOf(a, r, e, log, held, fault);
      p.At? ==> p.stage.Resolving? && p.actor.version == a.version && stored.None?
  {}

  lemma OutsideBegun(init: Game, s: System, id: nat)
    requires AllBegun(init, s)
    ensures AllBegun(init, OfflineStep(s, id)) && AllBegun(init, SaveStep(s, id)) && AllBegun(init, CloseStep(s, id))
    ensures AllBegun(init, s.(agents := s.agents - {id}))
  {}

  lemma BootBegun(init: Game, s: System, id: nat, now: int)
    requires AllBegun(init, s)
    ensures AllBegun(init, BootStep(GAME, init, s, id, now))
  {}

  lemma NextBegun(init: Game, s: System, step: Step)
    requires Inv(s) && Follows(GAME, init, s) && AllBegun(init, s)
    ensures AllBegun(init, Next(GAME, init, s, step))
  {
    match step
    case Start(id, r, held) => StartBegun(init, s, id, r, held);
    case Proceed(id, now) => ProceedBegun(init, s, id, now);
    case DoCommit(id, held, fault) => if AtStage(s, id, Committing) { CommitBegun(init, s, id, held, fault); }
    case External(stored) => if MayAppend(s.log, stored) { AllBegunLonger(init, s, stored); }
    case EverybodyOffline(id) => OutsideBegun(init, s, id);
    case Save(id) => OutsideBegun(init, s, id);
    case Close(id) => OutsideBegun(init, s, id);
    case Crash(id) => OutsideBegun(init, s, id);
    case Boot(id, now) => BootBegun(init, s, id, now);
  }

  lemma {:induction false} RunBegun(init: Game, steps: seq<Step>)
    requires GameOk(init) && Run(GAME, init, steps).sound
    ensures AllBegun(init, Run(GAME, init, steps))
  {
    if steps != [] {
      var before := Run(GAME, init, steps[..|steps| - 1]);
      GameIsLawful();
      SoundBefore(GAME, init, before, steps[|steps| - 1]);
      RunBegun(init, steps[..|steps| - 1]);
      RunOk(GAME, init, steps[..|steps| - 1]);
      RunFollows(GAME, init, steps[..|steps| - 1]);
      NextBegun(init, before, steps[|steps| - 1]);
    }
  }

  /** In every sound run, no event is appended for a request that arrived when its actor was at
      or past the finish: if anything is, the game was running at every version up to there. */
  lemma NoAppendPastFinish(init: Game, steps: seq<Step>, id: nat, held: bool, fault: Fault, f: nat)
    requires GameOk(init) && Run(GAME, init, steps).sound && AtStage(Run(GAME, init, steps), id, Committing)
    requires Committed(Run(GAME, init, steps), id, held, fault).log != Run(GAME, init, steps).log
    requires f <= Run(GAME, init, steps).agents[id].task.began
    ensures f <= |Run(GAME, init, steps).log| && !OverAt(init, Run(GAME, init, steps).log, f)
  {
    var s := Run(GAME, init, steps);
    RunBegun(init, steps);
    GameIsLawful();
    RunFollows(GAME, init, steps);
    var began := s.agents[id].task.began;
    assert BegunUnfinished(init, s.log, s.agents[id]);
    if OverAt(init, s.log, f) { OverStays(init, s.log, f, began); }
  }
}
