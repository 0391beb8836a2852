/**
  Events that no replay gets past. A top card played face down leaves one: once the actor that
  played it is gone without a snapshot, nobody ever catches up with the log again.
 */
module DeadEnd {
  import opened Common
  import opened Machine
  import opened Receipts
  import opened Actor
  import opened Protocol
  import opened Safety
  import Table

  ghost predicate Unreplayable(rules: Rules, body: Body) {
    forall g: Game, now: int :: rules.replay(g, body, now).None?
  }

  lemma PlayedTopUnreplayable(c: Table.TableCommand, tag: nat, g: Game, now: int, version: int)
    requires c.PlayTop? && Exec(g, Changing(c, tag), now, version).Applied?
    ensures Unreplayable(GAME, Exec(g, Changing(c, tag), now, version).body)
  {
    PlayTopEvent(g.table, c, tag);
    NeverReplayed(Exec(g, Changing(c, tag), now, version).body);
  }

  lemma PlayTopEvent(t: Table.Table, c: Table.TableCommand, tag: nat)
    requires c.PlayTop? && Table.Apply(t, c, tag).Some?
    ensures Table.Apply(t, c, tag).value.1.PlayedTop?
  {}

  lemma NeverReplayed(body: Body)
    requires body.TableChanged? && body.change.PlayedTop?
    ensures Unreplayable(GAME, body)
  {
    forall g: Game, later: int ensures GAME.replay(g, body, later).None? { TopNeverReplayed(g.table, body.change, body.tag); }
  }

  lemma TopNeverReplayed(t: Table.Table, e: Table.TableEvent, tag: nat)
    requires e.PlayedTop?
    ensures Table.Replay(t, e, tag).None?
  {}

  /** Recovery gives up at the event, catching up stops before it. */
  lemma {:induction false} ReplayStops(rules: Rules, p: Position, events: seq<Stored>, target: int, now: int, k: nat)
    requires k < |events| && Unreplayable(rules, events[k].event.body)
    ensures RecoverFrom(rules, p, events, now).None?
    ensures p.version <= CatchUp(rules, p, events, target, now).0.version <= p.version + k
    decreases k
  {
    assert k == 0 ==> rules.replay(p.game, events[0].event.body, now).None?;
    if k > 0 {
      match rules.replay(p.game, events[0].event.body, now)
      case None =>
      case Some(g) =>
        assert events[1..][k - 1] == events[k];
        ReplayStops(rules, Position(g, p.version + 1), events[1..], target, now, k - 1);
    }
  }

  /** The same on a log, from any position before the event. */
  lemma LogStops(rules: Rules, p: Position, log: seq<Stored>, target: int, now: int, k: nat)
    requires Contiguous(log) && k < |log| && Unreplayable(rules, log[k].event.body) && p.version <= k
    ensures RecoverFrom(rules, p, After(log, p.version), now).None?
    ensures p.version <= CatchUp(rules, p, After(log, p.version), target, now).0.version <= k
  {
    AfterContiguous(log, p.version);
    ReplayStops(rules, p, log[p.version..], target, now, k - p.version);
  }

  // -------------------------------------------------------------------- runs

  ghost predicate ActorBehind(rules: Rules, a: Actor, k: nat) {
    a.rules == rules && a.version <= k
  }

  /** Every actor and every snapshot is before the unreplayable event. */
  ghost predicate Behind(rules: Rules, s: System, k: nat) {
    && k < |s.log| && Unreplayable(rules, s.log[k].event.body)
    && (forall id | id in s.agents :: ActorBehind(rules, s.agents[id].actor, k))
    && (forall i | 0 <= i < |s.snapshots| :: s.snapshots[i].position.version <= k)
  }

  lemma StagedBehind(rules: Rules, s: System, a: Actor, r: Request, stage: Stage, now: int, k: nat)
    requires Inv(s) && Behind(rules, s, k) && ActorBehind(rules, a, k)
    ensures ActorBehind(rules, Staged(a, r, stage, s.log, LatestPosition(s), now).actor, k)
  {
    match stage
    case Admitting => LogStops(rules, Position(a.game, a.version), s.log, r.base, r.now, k);
    case Recovering =>
      LogStops(rules, Position(a.game, a.version), s.log, 0, now, k);
      if LatestPosition(s).Some? { LogStops(rules, LatestPosition(s).value, s.log, 0, now, k); }
    case _ =>
  }

  lemma AdvanceBehind(rules: Rules, s: System, id: nat, p: Progress, r: Request, fit: Fit, began: nat, k: nat)
    requires Behind(rules, s, k) && ActorBehind(rules, p.actor, k)
    ensures Behind(rules, Advance(s, id, p, r, fit, began), k)
  {}

  /** An actor behind the head cannot append. */
  lemma CommitBehind(rules: Rules, log: seq<Stored>, a: Actor, r: Request, e: Execution, held: bool, fault: Fault, k: nat)
    requires Contiguous(log) && k < |log| && ActorBehind(rules, a, k)
    ensures var (p, stored) := CommitOf(a, r, e, log, held, fault); stored.None? && ActorBehind(rules, p.actor, k)
  {
    TakenBelow(log, a.version);
  }

  lemma CommittedBehind(rules: Rules, s: System, id: nat, held: bool, fault: Fault, k: nat)
    requires Inv(s) && Behind(rules, s, k) && AtStage(s, id, Committing)
    ensures Behind(rules, Committed(s, id, held, fault), k) && Committed(s, id, held, fault).log == s.log
  {
    var agent := s.agents[id];
    var r := agent.task.request;
    var (p, stored) := Commit(agent.actor, r, s.log, held, fault);
    CommitBehind(rules, s.log, agent.actor, r, agent.actor.rules.exec(agent.actor.game, r.command, r.now, agent.actor.version + 1),
                 held, fault, k);
    CommittedAdvances(s, id, held, fault, p, stored);
    var fit := FitAfter(agent.fit, agent.actor, r, stored, fault);
    assert s.(log := Grown(s.log, stored)) == s;
    AdvanceBehind(rules, s, id, p, r, fit, agent.task.began, k);
    SoundAside(rules, Advance(s, id, p, r, fit, agent.task.began), s.sound && SoundCommit(agent.actor, r, stored, fault), k);
  }

  lemma SoundAside(rules: Rules, s: System, sound: bool, k: nat)
    requires Behind(rules, s, k)
    ensures Behind(rules, s.(sound := sound), k)
  {}

  lemma StartBehind(rules: Rules, s: System, id: nat, r: Request, held: bool, k: nat)
    requires Behind(rules, s, k)
    ensures Behind(rules, StartStep(s, id, r, held), k)
  {
    if Free(s, id) {
      AdvanceBehind(rules, s, id, Begin(s.agents[id].actor, r, held), r, s.agents[id].fit, s.agents[id].actor.version, k);
    }
  }

  lemma OutsideBehind(rules: Rules, s: System, id: nat, k: nat)
    requires Behind(rules, s, k)
    ensures Behind(rules, OfflineStep(s, id), k) && Behind(rules, SaveStep(s, id), k) && Behind(rules, CloseStep(s, id), k)
    ensures Behind(rules, s.(agents := s.agents - {id}), k)
  {}

  lemma LongerBehind(rules: Rules, s: System, stored: Stored, k: nat)
    requires Behind(rules, s, k)
    ensures Behind(rules, s.(log := s.log + [stored]), k)
  {}

  lemma ProceedBehind(rules: Rules, s: System, id: nat, now: int, k: nat)
    requires Inv(s) && Behind(rules, s, k)
    ensures Behind(rules, ProceedStep(s, id, now), k)
  {
    if id in s.agents && s.agents[id].task.Busy? {
      var agent := s.agents[id];
      var r, stage := agent.task.request, agent.task.stage;
      StagedBehind(rules, s, agent.actor, r, stage, now, k);
      AdvanceBehind(rules, s, id, Staged(agent.actor, r, stage, s.log, LatestPosition(s), now), r, agent.fit, agent.task.began, k);
    }
  }

  lemma BootBehind(rules: Rules, init: Game, s: System, id: nat, now: int, k: nat)
    requires Inv(s) && Behind(rules, s, k)
    ensures BootStep(rules, init, s, id, now) == s
  {
    LogStops(rules, BootFrom(init, s).position, s.log, 0, now, k);
  }

  /** One step of anybody: nobody passes the event, and nothing but messages is appended. */
  lemma StepBehind(rules: Rules, init: Game, s: System, step: Step, k: nat)
    requires Inv(s) && Behind(rules, s, k)
    ensures Behind(rules, Next(rules, init, s, step), k) && (!step.External? ==> Next(rules, init, s, step).log == s.log)
  {
    match step
    case Proceed(id, now) => ProceedBehind(rules, s, id, now, k);
    case DoCommit(id, held, fault) => if AtStage(s, id, Committing) { CommittedBehind(rules, s, id, held, fault, k); }
    case Boot(id, now) => BootBehind(rules, init, s, id, now, k);
    case Start(id, r, held) => StartBehind(rules, s, id, r, held, k);
    case External(stored) => LongerBehind(rules, s, stored, k);
    case EverybodyOffline(id) => OutsideBehind(rules, s, id, k);
    case Save(id) => OutsideBehind(rules, s, id, k);
    case Close(id) => OutsideBehind(rules, s, id, k);
    case Crash(id) => OutsideBehind(rules, s, id, k);
  }

  function RunFrom(rules: Rules, init: Game, s: System, steps: seq<Step>): System {
    if steps == [] then s else Next(rules, init, RunFrom(rules, init, s, steps[..|steps| - 1]), steps[|steps| - 1])
  }

  /** Once everybody is before an unreplayable event, over every run from there no actor passes it,
      no restart succeeds, and no command is ever appended again. */
  lemma {:induction false} DeadForGood(rules: Rules, init: Game, s: System, steps: seq<Step>, k: nat)
    requires Inv(s) && Behind(rules, s, k)
    ensures var s' := RunFrom(rules, init, s, steps);
      && Inv(s') && Behind(rules, s', k) && |s.log| <= |s'.log| && s'.log[..|s.log|] == s.log
      && forall i | |s.log| <= i < |s'.log| :: s'.log[i].event.body.ChatSent?
  {
    if steps != [] {
      var before := RunFrom(rules, init, s, steps[..|steps| - 1]);
      DeadForGood(rules, init, s, steps[..|steps| - 1], k);
      StepBehind(rules, init, before, steps[|steps| - 1], k);
      NextOk(rules, init, before, steps[|steps| - 1]);
    }
  }

  /** The only actor of a game plays the top card face down and crashes before it saves. */
  lemma PlayThenCrash(init: Game, s: System, id: nat, c: Table.TableCommand, tag: nat)
    requires Inv(s) && s.agents.Keys == {id} && AtStage(s, id, Committing)
    requires var a, r := s.agents[id].actor, s.agents[id].task.request;
      && a.rules == GAME && a.version == |s.log| && Lookup(s.log, r.action).None?
      && c.PlayTop? && r.command == Changing(c, tag) && Exec(a.game, r.command, r.now, a.version + 1).Applied?
    ensures Behind(GAME, Next(GAME, init, Next(GAME, init, s, DoCommit(id, true, NoFault)), Crash(id)), |s.log|)
  {
    var a, r := s.agents[id].actor, s.agents[id].task.request;
    PlayedTopUnreplayable(c, tag, a.game, r.now, a.version + 1);
    HeadIsFree(s.log);
    CommitsEvent(a, r, Exec(a.game, r.command, r.now, a.version + 1), s.log);
    var (p, stored) := Commit(a, r, s.log, true, NoFault);
    CommitThenCrash(init, s, id, p, stored.value);
  }

  lemma CommitThenCrash(init: Game, s: System, id: nat, p: Progress, stored: Stored)
    requires Inv(s) && s.agents.Keys == {id} && AtStage(s, id, Committing)
    requires (p, Some(stored)) == Commit(s.agents[id].actor, s.agents[id].task.request, s.log, true, NoFault)
    requires Unreplayable(GAME, stored.event.body)
    ensures Behind(GAME, Next(GAME, init, Committed(s, id, true, NoFault), Crash(id)), |s.log|)
  {
    CommittedAdvances(s, id, true, NoFault, p, Some(stored));
  }

  lemma CommitsEvent(a: Actor, r: Request, e: Execution, log: seq<Stored>)
    requires e.Applied? && !VersionTaken(log, a.version + 1) && Lookup(log, r.action).None?
    ensures var (p, stored) := CommitOf(a, r, e, log, true, NoFault); p.Finished? && stored.Some? && stored.value.event.body == e.body
  {}
}
