/**
  In every sound run, every actor's game is the replay of a prefix of the log, and whatever
  an actor appends was computed from the replay of the whole log before it.
 */
module Fidelity {
  import opened Common
  import opened Lifecycle
  import opened Machine
  import opened GameLaws
  import opened Receipts
  import opened Actor
  import opened Agreement
  import opened SeenCache
  import opened Protocol
  import opened Safety

  function PositionOf(a: Actor): Position {
    Position(a.game, a.version)
  }

  ghost predicate AgentFollows(rules: Rules, init: Game, log: seq<Stored>, a: Actor, fit: Fit) {
    a.rules == rules && Tracks(rules, init, log, PositionOf(a), fit)
  }

  ghost predicate Follows(rules: Rules, init: Game, s: System) {
    && GoodLog(rules, init, s.log)
    && (forall id | id in s.agents :: AgentFollows(rules, init, s.log, s.agents[id].actor, s.agents[id].fit))
    && (forall i | 0 <= i < |s.snapshots| :: Tracks(rules, init, s.log, s.snapshots[i].position, s.snapshots[i].fit))
  }

  /** Unsoundness is never forgotten. */
  lemma SoundBefore(rules: Rules, init: Game, s: System, step: Step)
    requires Next(rules, init, s, step).sound
    ensures s.sound
  {}

  // ------------------------------------------------------------------ stages

  ghost predicate StageFollows(rules: Rules, init: Game, log: seq<Stored>, p: Progress, fit: Fit) {
    AgentFollows(rules, init, log, p.actor, fit)
  }

  lemma LookFollows(rules: Rules, init: Game, log: seq<Stored>, a: Actor, r: Request, fit: Fit)
    requires AgentFollows(rules, init, log, a, fit)
    ensures StageFollows(rules, init, log, Look(a, r, log), fit)
  {}

  lemma ResolveFollows(rules: Rules, init: Game, log: seq<Stored>, a: Actor, r: Request, versionTaken: bool, fit: Fit)
    requires AgentFollows(rules, init, log, a, fit)
    ensures StageFollows(rules, init, log, Resolve(a, r, log, versionTaken), fit)
  {}

  /** Catching up lands on the version asked for, or on the head if that is less. */
  lemma AdmitFollows(rules: Rules, init: Game, log: seq<Stored>, a: Actor, r: Request, fit: Fit)
    requires GoodLog(rules, init, log) && AgentFollows(rules, init, log, a, fit)
    ensures StageFollows(rules, init, log, Admit(a, r, log), fit)
    ensures Admit(a, r, log).At? && r.base > a.version ==>
      Admit(a, r, log).actor.version == if r.base <= |log| then r.base else |log|
  {
    AfterContiguous(log, a.version);
    if r.base > a.version {
      CatchUpTracks(rules, init, log, PositionOf(a), fit, r.base, r.now);
    }
  }

  /** Recovery from the actor's own state reaches the head of the log; the snapshot is not needed. */
  lemma RecoverFollows(rules: Rules, init: Game, log: seq<Stored>, a: Actor, snapshot: Option<Position>, now: int, fit: Fit)
    requires GoodLog(rules, init, log) && AgentFollows(rules, init, log, a, fit) && a.version < |log|
    ensures var own := RecoverFrom(rules, PositionOf(a), After(log, a.version), now);
      && own.Some? && own.value.version == |log| && own.value.version > a.version
      && Recovered(rules, PositionOf(a), log, snapshot, now) == own
      && Recover(a, log, snapshot, now).actor.version == |log|
    ensures StageFollows(rules, init, log, Recover(a, log, snapshot, now), fit)
  {
    AfterContiguous(log, a.version);
    RecoverTracks(rules, init, log, PositionOf(a), fit, now);
  }

  /** Without a longer log recovery changes nothing, unless a snapshot leads further. */
  lemma RecoverIdle(rules: Rules, init: Game, log: seq<Stored>, a: Actor, snapshot: Option<Position>, now: int, fit: Fit)
    requires GoodLog(rules, init, log) && AgentFollows(rules, init, log, a, fit) && a.version == |log|
    requires snapshot.Some? ==> exists e :: Tracks(rules, init, log, snapshot.value, e)
    ensures Recover(a, log, snapshot, now) == Finished(a, Err(VersionConflict))
  {
    AfterContiguous(log, a.version);
    if snapshot.Some? {
      var e :| Tracks(rules, init, log, snapshot.value, e);
      AfterContiguous(log, snapshot.value.version);
      RecoverTracks(rules, init, log, snapshot.value, e, now);
    }
  }

  /** The fallback would give a game that agrees with the actor's own recovery; both are the
      replay of the log if both were. */
  lemma FallbackAgrees(rules: Rules, init: Game, log: seq<Stored>, a: Position, b: Position, x: Fit, y: Fit, now: int, later: int)
    requires GoodLog(rules, init, log) && Tracks(rules, init, log, a, x) && Tracks(rules, init, log, b, y)
    ensures var own, fallback := RecoverFrom(rules, a, After(log, a.version), now), RecoverFrom(rules, b, After(log, b.version), later);
      && own.Some? && fallback.Some? && own.value.version == |log| == fallback.value.version
      && Alike(own.value.game, fallback.value.game, Looser(x, y)) && (x == y == Same ==> own == fallback)
  {
    AfterContiguous(log, a.version);
    AfterContiguous(log, b.version);
    RecoverTracks(rules, init, log, a, x, now);
    RecoverTracks(rules, init, log, b, y, later);
    var p, q := RecoverFrom(rules, a, log[a.version..], now).value, RecoverFrom(rules, b, log[b.version..], later).value;
    assert log[..|log|] == log;
    LikeSymmetric(q.game, ReplayOf(rules, init, log).value);
    AlikeTransitive(p.game, ReplayOf(rules, init, log).value, q.game, x, y);
  }

  // ------------------------------------------------------------------ commit

  /** How the game fits after a command of its own. */
  function Written(fit: Fit, g: Game, c: Command): Fit {
    if Turns(g, c) then Turned else fit
  }

  /** The log with one more event made by an actor at its head. */
  lemma LogExtends(rules: Rules, init: Game, log: seq<Stored>, a: Actor, fit: Fit, c: Command, now: int, stored: Stored)
    requires GoodLog(rules, init, log) && AgentFollows(rules, init, log, a, fit) && a.version == |log|
    requires rules.exec(a.game, c, now, a.version + 1).Applied? && Followable(a.game, c)
    requires stored.event.version == |log| + 1 && stored.event.body == rules.exec(a.game, c, now, a.version + 1).body
    ensures GoodLog(rules, init, log + [stored])
    ensures Tracks(rules, init, log + [stored], Position(rules.exec(a.game, c, now, a.version + 1).game, a.version + 1), Written(fit, a.game, c))
  {
    var more := log + [stored];
    assert log[..a.version] == log;
    var g := ReplayOf(rules, init, log).value;
    GoodLogReplays(rules, init, log);
    BodySourced(rules, a.game, g, c, now, a.version + 1);
    GoodExtends(rules, init, log, stored);
    ExecFits(rules, a.game, g, c, now, a.version + 1, fit);
    ReplayExtends(rules, init, log, stored);
    assert more[..|more|] == more;
  }

  lemma ReplayExtends(rules: Rules, init: Game, log: seq<Stored>, stored: Stored)
    requires ReplayOf(rules, init, log).Some?
    ensures ReplayOf(rules, init, log + [stored]) == rules.replay(ReplayOf(rules, init, log).value, stored.event.body, CLOCK)
  {
    var more := log + [stored];
    assert more[..|more| - 1] == log;
  }

  lemma ExecFits(rules: Rules, s: Game, g: Game, c: Command, now: int, version: int, fit: Fit)
    requires Lawful(rules) && GameOk(s) && GameOk(g) && Alike(s, g, fit)
    requires rules.exec(s, c, now, version).Applied? && Followable(s, c)
    ensures var e := rules.exec(s, c, now, version); var t := rules.replay(g, e.body, CLOCK);
      t.Some? && GameOk(e.game) && Alike(e.game, t.value, Written(fit, s, c))
  {
    assert ReplayLaw(rules, s, g, c, now, version, CLOCK);
  }

  lemma BodySourced(rules: Rules, s: Game, g: Game, c: Command, now: int, version: int)
    requires GameOk(s) && Like(s, g) && rules.exec(s, c, now, version).Applied? && Followable(s, c)
    ensures Sourced(rules, g, rules.exec(s, c, now, version).body)
  {}

  lemma GoodExtends(rules: Rules, init: Game, log: seq<Stored>, stored: Stored)
    requires GoodLog(rules, init, log) && stored.event.version == |log| + 1
    requires ReplayOf(rules, init, log).Some? && Sourced(rules, ReplayOf(rules, init, log).value, stored.event.body)
    ensures GoodLog(rules, init, log + [stored])
  {
    var more := log + [stored];
    forall k | 0 <= k < |more|
      ensures ReplayOf(rules, init, more[..k]).Some? && Sourced(rules, ReplayOf(rules, init, more[..k]).value, more[k].event.body)
    {
      assert more[..k] == log[..k];
      if k == |log| { assert log[..k] == log; }
    }
  }

  /** Undoing and rejecting stay at the same position. */
  lemma UndoFollows(rules: Rules, init: Game, log: seq<Stored>, a: Actor, fit: Fit, c: Command, now: int)
    requires Lawful(rules) && AgentFollows(rules, init, log, a, fit) && Reversible(a.game, c)
    ensures match rules.exec(a.game, c, now, a.version + 1)
      case Rejected(g) => Tracks(rules, init, log, Position(g, a.version), fit)
      case Applied(g, _) =>
        Tracks(rules, init, log, Position(rules.undo(a.game, c, g), a.version), 
          if c.Conceding? && Ends(rules, a.game, c, now, a.version + 1) then Warmed(fit) else fit)
  {
    var e := rules.exec(a.game, c, now, a.version + 1);
    assert UndoLaw(rules, a.game, c, now, a.version + 1);
    if e.Applied? {
      AlikeTransitive(rules.undo(a.game, c, e.game), a.game, ReplayOf(rules, init, log[..a.version]).value,
                     if c.Conceding? && Ends(rules, a.game, c, now, a.version + 1) then Warm else Same, fit);
    }
  }

  /** One commit, whatever happens to its append. */
  lemma CommitFollows(rules: Rules, init: Game, log: seq<Stored>, a: Actor, r: Request, held: bool, fault: Fault, fit: Fit)
    requires GoodLog(rules, init, log) && LogOk(log) && AgentOk(log, a) && AgentFollows(rules, init, log, a, fit)
    requires SoundCommit(a, r, Commit(a, r, log, held, fault).1, fault)
    ensures var (p, stored) := Commit(a, r, log, held, fault);
      var log' := Grown(log, stored);
      && GoodLog(rules, init, log')
      && StageFollows(rules, init, log', p, FitAfter(fit, a, r, stored, fault))
  {
    var e := rules.exec(a.game, r.command, r.now, a.version + 1);
    match e
    case Rejected(_) => UndoFollows(rules, init, log, a, fit, r.command, r.now);
    case Applied(g, body) => AppendFollows(rules, init, log, a, r, g, body, held, fault, fit);
  }

  /** Where an append leaves the actor, and what it adds. */
  lemma AppendLeads(log: seq<Stored>, a: Actor, r: Request, after: Game, undone: Game, body: Body, held: bool, fault: Fault)
    ensures var (p, stored) := Append(a, r, after, undone, body, log, held, fault);
      && p.actor.rules == a.rules
      && (stored.Some? ==> stored.value.event.version == a.version + 1 && stored.value.event.body == body && !VersionTaken(log, a.version + 1))
      && PositionOf(p.actor) == if stored.None? || fault == LostAfter then Position(undone, a.version) else Position(after, a.version + 1)
  {}

  lemma AppendFollows(rules: Rules, init: Game, log: seq<Stored>, a: Actor, r: Request, g: Game, body: Body, held: bool, fault: Fault, fit: Fit)
    requires GoodLog(rules, init, log) && LogOk(log) && AgentOk(log, a) && AgentFollows(rules, init, log, a, fit)
    requires rules.exec(a.game, r.command, r.now, a.version + 1) == Applied(g, body)
    requires var stored := Append(a, r, g, rules.undo(a.game, r.command, g), body, log, held, fault).1;
      && (stored.Some? ==> Followable(a.game, r.command))
      && (stored.None? || fault == LostAfter ==> Reversible(a.game, r.command))
    ensures var (p, stored) := Append(a, r, g, rules.undo(a.game, r.command, g), body, log, held, fault);
      && GoodLog(rules, init, Grown(log, stored))
      && StageFollows(rules, init, Grown(log, stored), p, FitAfter(fit, a, r, stored, fault))
  {
    var undone := rules.undo(a.game, r.command, g);
    var (p, stored) := Append(a, r, g, undone, body, log, held, fault);
    AppendLeads(log, a, r, g, undone, body, held, fault);
    if stored.Some? {
      FreeVersionIsHead(log, a.version);
      LogExtends(rules, init, log, a, fit, r.command, r.now, stored.value);
    }
    if stored.None? || fault == LostAfter {
      UndoneFollows(rules, init, log, a, r, g, body, stored, fault, fit);
    }
  }

  lemma UndoneFollows(rules: Rules, init: Game, log: seq<Stored>, a: Actor, r: Request, g: Game, body: Body,
                      stored: Option<Stored>, fault: Fault, fit: Fit)
    requires Lawful(rules) && AgentFollows(rules, init, log, a, fit) && Reversible(a.game, r.command)
    requires rules.exec(a.game, r.command, r.now, a.version + 1) == Applied(g, body)
    requires stored.None? || fault == LostAfter
    ensures Tracks(rules, init, Grown(log, stored), Position(rules.undo(a.game, r.command, g), a.version),
                   FitAfter(fit, a, r, stored, fault))
  {
    UndoFollows(rules, init, log, a, fit, r.command, r.now);
    if stored.Some? {
      TracksLonger(rules, init, log, [stored.value], Position(rules.undo(a.game, r.command, g), a.version),
                   FitAfter(fit, a, r, stored, fault));
    }
  }

  // ------------------------------------------------------------------- steps

  lemma AdvanceFollows(rules: Rules, init: Game, s: System, id: nat, p: Progress, r: Request, fit: Fit, began: nat)
    requires Follows(rules, init, s) && StageFollows(rules, init, s.log, p, fit)
    ensures Follows(rules, init, Advance(s, id, p, r, fit, began))
  {}

  /** A longer good log. */
  lemma FollowsLonger(rules: Rules, init: Game, s: System, stored: Stored)
    requires Follows(rules, init, s) && GoodLog(rules, init, s.log + [stored])
    ensures Follows(rules, init, s.(log := s.log + [stored]))
  {
    forall id | id in s.agents ensures AgentFollows(rules, init, s.log + [stored], s.agents[id].actor, s.agents[id].fit) {
      TracksLonger(rules, init, s.log, [stored], PositionOf(s.agents[id].actor), s.agents[id].fit);
    }
    forall i | 0 <= i < |s.snapshots| ensures Tracks(rules, init, s.log + [stored], s.snapshots[i].position, s.snapshots[i].fit) {
      TracksLonger(rules, init, s.log, [stored], s.snapshots[i].position, s.snapshots[i].fit);
    }
  }

  lemma CommitStepFollows(rules: Rules, init: Game, s: System, id: nat, held: bool, fault: Fault)
    requires Inv(s) && Follows(rules, init, s) && AtStage(s, id, Committing)
    requires Committed(s, id, held, fault).sound
    ensures Follows(rules, init, Committed(s, id, held, fault))
  {
    var agent := s.agents[id];
    var r := agent.task.request;
    var (p, stored) := Commit(agent.actor, r, s.log, held, fault);
    var fit := FitAfter(agent.fit, agent.actor, r, stored, fault);
    CommitFollows(rules, init, s.log, agent.actor, r, held, fault, agent.fit);
    var s0 := s.(log := Grown(s.log, stored));
    if stored.Some? { FollowsLonger(rules, init, s, stored.value); }
    AdvanceFollows(rules, init, s0, id, p, r, fit, agent.task.began);
    CommittedAdvances(s, id, held, fault, p, stored);
  }

  lemma StagedFollows(rules: Rules, init: Game, s: System, a: Actor, r: Request, stage: Stage, now: int, fit: Fit)
    requires Inv(s) && Follows(rules, init, s) && AgentFollows(rules, init, s.log, a, fit)
    ensures StageFollows(rules, init, s.log, Staged(a, r, stage, s.log, LatestPosition(s), now), fit)
  {
    match stage
    case Looking => LookFollows(rules, init, s.log, a, r, fit);
    case Admitting => AdmitFollows(rules, init, s.log, a, r, fit);
    case Checking =>
    case Committing =>
    case Resolving(versionTaken) => ResolveFollows(rules, init, s.log, a, r, versionTaken, fit);
    case Recovering => RecoveryFollows(rules, init, s, a, now, fit);
  }

  lemma RecoveryFollows(rules: Rules, init: Game, s: System, a: Actor, now: int, fit: Fit)
    requires Inv(s) && Follows(rules, init, s) && AgentFollows(rules, init, s.log, a, fit)
    ensures StageFollows(rules, init, s.log, Recover(a, s.log, LatestPosition(s), now), fit)
  {
    if a.version < |s.log| {
      RecoverFollows(rules, init, s.log, a, LatestPosition(s), now, fit);
    } else {
      if s.snapshots != [] {
        var last := s.snapshots[|s.snapshots| - 1];
        assert Tracks(rules, init, s.log, last.position, last.fit);
      }
      RecoverIdle(rules, init, s.log, a, LatestPosition(s), now, fit);
    }
  }

  lemma ExternalFollows(rules: Rules, init: Game, s: System, stored: Stored)
    requires Follows(rules, init, s) && MayAppend(s.log, stored)
    ensures Follows(rules, init, s.(log := s.log + [stored]))
  {
    GoodLogReplays(rules, init, s.log);
    GoodExtends(rules, init, s.log, stored);
    FollowsLonger(rules, init, s, stored);
  }

  lemma OfflineFollows(rules: Rules, init: Game, s: System, id: nat)
    requires Follows(rules, init, s)
    ensures Follows(rules, init, OfflineStep(s, id))
  {
    if Free(s, id) {
      var agent := s.agents[id];
      AgentOffline(rules, init, s.log, agent.actor, agent.fit);
      JoinedFollows(rules, init, s, id, agent.(actor := agent.actor.(game := AllOffline(agent.actor.game)), fit := Warmed(agent.fit)));
    }
  }

  lemma AgentOffline(rules: Rules, init: Game, log: seq<Stored>, a: Actor, fit: Fit)
    requires AgentFollows(rules, init, log, a, fit)
    ensures AgentFollows(rules, init, log, a.(game := AllOffline(a.game)), Warmed(fit))
  {
    AllOfflineKeeps(a.game);
    AlikeTransitive(AllOffline(a.game), a.game, ReplayOf(rules, init, log[..a.version]).value, Warm, fit);
  }

  lemma BaseTracks(rules: Rules, init: Game, s: System)
    requires GameOk(init) && Follows(rules, init, s)
    ensures Tracks(rules, init, s.log, BootFrom(init, s).position, BootFrom(init, s).fit)
  {
    if s.snapshots == [] {
      assert s.log[..0] == [];
      LikeReflexive(init);
    } else {
      assert BootFrom(init, s) == s.snapshots[|s.snapshots| - 1];
    }
  }

  lemma BaseFollows(rules: Rules, init: Game, s: System, now: int)
    requires GameOk(init) && Follows(rules, init, s)
    ensures var base := BootFrom(init, s); var p := RecoverFrom(rules, base.position, After(s.log, base.position.version), now);
      base.position.version <= |s.log| && p.Some? && p.value.version == |s.log| && Tracks(rules, init, s.log, p.value, base.fit)
  {
    var base := BootFrom(init, s);
    BaseTracks(rules, init, s);
    AfterContiguous(s.log, base.position.version);
    RecoverTracks(rules, init, s.log, base.position, base.fit, now);
  }

  /** No message has come since the latest snapshot. */
  ghost predicate QuietSince(init: Game, s: System) {
    forall i | BootFrom(init, s).position.version <= i < |s.log| :: !s.log[i].event.body.ChatSent?
  }

  lemma RestartReads(rules: Rules, init: Game, s: System, now: int)
    requires GameOk(init) && Follows(rules, init, s)
    ensures var base := BootFrom(init, s); var events := After(s.log, base.position.version);
      Restart(rules, base.position, events, now) == if QuietSince(init, s) then RecoverFrom(rules, base.position, events, now) else None
  {
    var base := BootFrom(init, s);
    BaseFollows(rules, init, s, now);
    AfterContiguous(s.log, base.position.version);
    var events := s.log[base.position.version..];
    if !QuietSince(init, s) {
      var i :| base.position.version <= i < |s.log| && s.log[i].event.body.ChatSent?;
      assert events[i - base.position.version] == s.log[i];
    }
  }

  /** A restart succeeds if and only if no message has come since the latest snapshot; the
      restarted actor is at the head of the log. */
  lemma BootFollows(rules: Rules, init: Game, s: System, id: nat, now: int)
    requires GameOk(init) && Follows(rules, init, s)
    ensures var s' := BootStep(rules, init, s, id, now);
      && Follows(rules, init, s')
      && (id !in s.agents ==> (id in s'.agents <==> QuietSince(init, s)))
      && (id !in s.agents && id in s'.agents ==> s'.agents[id].actor.version == |s.log|)
  {
    BaseFollows(rules, init, s, now);
    RestartReads(rules, init, s, now);
    if QuietSince(init, s) {
      var base := BootFrom(init, s);
      var p := RecoverFrom(rules, base.position, After(s.log, base.position.version), now).value;
      JoinedFollows(rules, init, s, id, Agent(Actor(rules, p.game, p.version, map[], [], false), Idle, base.fit));
    }
  }

  lemma JoinedFollows(rules: Rules, init: Game, s: System, id: nat, agent: Agent)
    requires Follows(rules, init, s) && AgentFollows(rules, init, s.log, agent.actor, agent.fit)
    ensures Follows(rules, init, s.(agents := s.agents[id := agent]))
  {}

  lemma StartFollows(rules: Rules, init: Game, s: System, id: nat, r: Request, held: bool)
    requires Follows(rules, init, s)
    ensures Follows(rules, init, StartStep(s, id, r, held))
  {
    if Free(s, id) {
      AdvanceFollows(rules, init, s, id, Begin(s.agents[id].actor, r, held), r, s.agents[id].fit, s.agents[id].actor.version);
    }
  }

  lemma ProceedFollows(rules: Rules, init: Game, s: System, id: nat, now: int)
    requires Inv(s) && Follows(rules, init, s)
    ensures Follows(rules, init, ProceedStep(s, id, now))
  {
    if id in s.agents && s.agents[id].task.Busy? {
      var agent := s.agents[id];
      var r, stage := agent.task.request, agent.task.stage;
      StagedFollows(rules, init, s, agent.actor, r, stage, now, agent.fit);
      AdvanceFollows(rules, init, s, id, Staged(agent.actor, r, stage, s.log, LatestPosition(s), now), r, agent.fit, agent.task.began);
    }
  }

  lemma SavedFollows(rules: Rules, init: Game, s: System, id: nat)
    requires Follows(rules, init, s)
    ensures Follows(rules, init, SaveStep(s, id)) && Follows(rules, init, CloseStep(s, id))
    ensures Follows(rules, init, s.(agents := s.agents - {id}))
  {}

  lemma NextFollows(rules: Rules, init: Game, s: System, step: Step)
    requires Lawful(rules) && GameOk(init) && Inv(s) && Follows(rules, init, s) && Next(rules, init, s, step).sound
    ensures Follows(rules, init, Next(rules, init, s, step))
  {
    match step
    case DoCommit(id, held, fault) => if AtStage(s, id, Committing) { CommitStepFollows(rules, init, s, id, held, fault); }
    case External(stored) => if MayAppend(s.log, stored) { ExternalFollows(rules, init, s, stored); }
    case Boot(id, now) => BootFollows(rules, init, s, id, now);
    case EverybodyOffline(id) => OfflineFollows(rules, init, s, id);
    case Save(id) => SavedFollows(rules, init, s, id);
    case Close(id) => SavedFollows(rules, init, s, id);
    case Crash(id) => SavedFollows(rules, init, s, id);
    case Start(id, r, held) => StartFollows(rules, init, s, id, r, held);
    case Proceed(id, now) => ProceedFollows(rules, init, s, id, now);
  }

  lemma {:induction false} RunFollows(rules: Rules, init: Game, steps: seq<Step>)
    requires Lawful(rules) && GameOk(init) && Run(rules, init, steps).sound
    ensures Follows(rules, init, Run(rules, init, steps))
  {
    if steps != [] {
      var before := Run(rules, init, steps[..|steps| - 1]);
      SoundBefore(rules, init, before, steps[|steps| - 1]);
      RunFollows(rules, init, steps[..|steps| - 1]);
      RunOk(rules, init, steps[..|steps| - 1]);
      NextFollows(rules, init, before, steps[|steps| - 1]);
    }
  }

  // ---------------------------------------------------------------- theorems

  /** In every interleaving of a sound run of this game's actors, after success and after every
      rejection alike, each actor's game is the replay of as many events as its version says:
      the very same, or up to the hot fields once they were changed without an event, or up to
      the turn as well once the actor's own commands wrote one. */
  lemma ActorsArePrefixes(init: Game, steps: seq<Step>, id: nat)
    requires GameOk(init) && Run(GAME, init, steps).sound && id in Run(GAME, init, steps).agents
    ensures var s := Run(GAME, init, steps); var agent := s.agents[id]; var a := agent.actor;
      && a.version <= |s.log| && ReplayOf(GAME, init, s.log[..a.version]).Some?
      && Alike(a.game, ReplayOf(GAME, init, s.log[..a.version]).value, agent.fit)
  {
    GameIsLawful();
    RunFollows(GAME, init, steps);
  }

  /** What an actor at the head of its log appends: its game is like the replay of the entire
      log, and the game its command leads to is like the replay of the log with the new event;
      both as closely as the actor fits, but for a turn the command itself writes. */
  ghost predicate AppendsTo(rules: Rules, init: Game, log: seq<Stored>, a: Actor, r: Request, stored: Stored, fit: Fit) {
    var e := rules.exec(a.game, r.command, r.now, |log| + 1);
    && a.version == |log| && e.Applied? && stored.event.body == e.body
    && StandsFor(rules, init, log, a.game, fit) && StandsFor(rules, init, log + [stored], e.game, Written(fit, a.game, r.command))
  }

  ghost predicate StandsFor(rules: Rules, init: Game, log: seq<Stored>, g: Game, fit: Fit) {
    var replayed := ReplayOf(rules, init, log);
    replayed.Some? && Alike(g, replayed.value, fit)
  }

  lemma AppendedFromWholeLog(rules: Rules, init: Game, log: seq<Stored>, a: Actor, r: Request, held: bool, fault: Fault, fit: Fit)
    requires GoodLog(rules, init, log) && LogOk(log) && AgentOk(log, a) && AgentFollows(rules, init, log, a, fit)
    requires Commit(a, r, log, held, fault).1.Some? && SoundCommit(a, r, Commit(a, r, log, held, fault).1, fault)
    ensures AppendsTo(rules, init, log, a, r, Commit(a, r, log, held, fault).1.value, fit)
  {
    CommitOk(log, a, r, held, fault);
    CommitBody(a, r, a.rules.exec(a.game, r.command, r.now, a.version + 1), log, held, fault);
    HeadExtends(rules, init, log, a, r, Commit(a, r, log, held, fault).1.value, fit);
  }

  lemma HeadExtends(rules: Rules, init: Game, log: seq<Stored>, a: Actor, r: Request, stored: Stored, fit: Fit)
    requires GoodLog(rules, init, log) && AgentFollows(rules, init, log, a, fit) && a.version == |log|
    requires rules.exec(a.game, r.command, r.now, a.version + 1).Applied? && Followable(a.game, r.command)
    requires stored.event.version == |log| + 1 && stored.event.body == rules.exec(a.game, r.command, r.now, a.version + 1).body
    ensures AppendsTo(rules, init, log, a, r, stored, fit)
  {
    LogExtends(rules, init, log, a, fit, r.command, r.now, stored);
    AtHead(rules, init, log, PositionOf(a), fit);
    AtHead(rules, init, log + [stored], Position(rules.exec(a.game, r.command, r.now, a.version + 1).game, a.version + 1), Written(fit, a.game, r.command));
  }

  lemma AtHead(rules: Rules, init: Game, log: seq<Stored>, p: Position, fit: Fit)
    requires Tracks(rules, init, log, p, fit) && p.version == |log|
    ensures StandsFor(rules, init, log, p.game, fit)
  {
    assert log[..|log|] == log;
  }

  lemma CommitBody(a: Actor, r: Request, e: Execution, log: seq<Stored>, held: bool, fault: Fault)
    ensures var stored := CommitOf(a, r, e, log, held, fault).1;
      stored.Some? ==> e.Applied? && stored.value.event.body == e.body && stored.value.event.version == a.version + 1
  {}

  /** In every sound run of this game's actors, an append extends the log by the event its
      command produces on a game that stands for the entire log, and the game it produces
      stands for the longer one. */
  lemma AppendsComputedAtHead(init: Game, steps: seq<Step>, id: nat, held: bool, fault: Fault)
    requires GameOk(init) && AtStage(Run(GAME, init, steps), id, Committing)
    requires var s := Run(GAME, init, steps); Committed(s, id, held, fault).sound && Committed(s, id, held, fault).log != s.log
    ensures var s := Run(GAME, init, steps); var log' := Committed(s, id, held, fault).log; var agent := s.agents[id];
      && |log'| == |s.log| + 1 && log'[..|s.log|] == s.log
      && AppendsTo(GAME, init, s.log, agent.actor, agent.task.request, log'[|s.log|], agent.fit)
  {
    var s := Run(GAME, init, steps);
    GameIsLawful();
    RunFollows(GAME, init, steps);
    RunOk(GAME, init, steps);
    AppendedFromWholeLog(GAME, init, s.log, s.agents[id].actor, s.agents[id].task.request, held, fault, s.agents[id].fit);
  }
}
