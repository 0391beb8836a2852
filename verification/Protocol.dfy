/**
  Any number of actors for one game on one shared log: old owners, new owners, restarted
  ones. Every stage of every request is a step of its own, so stages of different actors
  interleave in every order, with appends from outside, crashes, restarts and snapshots.
 */
module Protocol {
  import opened Common
  import opened Lifecycle
  import opened Machine
  import opened Receipts
  import opened Actor

  /** `began` is the actor's version when the request arrived. */
  datatype Task = Idle | Busy(request: Request, stage: Stage, began: nat)

  /** `fit` records how well the actor's game fits the log: the cleanup when everybody is offline
      and the undoing of a concession that had ended the game change it without an event, and a
      turn the actor's own commands wrote is not given back by their events. */
  datatype Agent = Agent(actor: Actor, task: Task, fit: Fit)

  datatype Snapshot = Snapshot(position: Position, fit: Fit)

  datatype Reply = Reply(action: ActionId, author: Option<PlayerId>, result: Result)

  /** `sound` records that every appended command was followable and every command that was
      undone or refused was reversible. */
  datatype System = System(
    log: seq<Stored>, agents: map<nat, Agent>, snapshots: seq<Snapshot>, replies: seq<Reply>, sound: bool)

  datatype Step =
    | Start(id: nat, request: Request, held: bool)
    | Proceed(id: nat, now: int)
    | DoCommit(id: nat, held: bool, fault: Fault)
    | External(stored: Stored)
    | EverybodyOffline(id: nat)
    | Save(id: nat)
    | Close(id: nat)
    | Crash(id: nat)
    | Boot(id: nat, now: int)

  function Initial(): System {
    System([], map[], [], [], true)
  }

  // ------------------------------------------------------------------- steps

  function Advance(s: System, id: nat, p: Progress, r: Request, fit: Fit, began: nat): System {
    match p
    case Finished(a, result) =>
      s.(agents := s.agents[id := Agent(a, Idle, fit)], replies := s.replies + [Reply(r.action, r.author, result)])
    case At(a, r', stage) => s.(agents := s.agents[id := Agent(a, Busy(r', stage, began), fit)])
  }

  predicate AtStage(s: System, id: nat, stage: Stage) {
    id in s.agents && s.agents[id].task.Busy? && s.agents[id].task.stage == stage
  }

  predicate Free(s: System, id: nat) {
    id in s.agents && s.agents[id].task.Idle?
  }

  function Latest(s: System): Option<Snapshot> {
    if s.snapshots == [] then None else Some(s.snapshots[|s.snapshots| - 1])
  }

  function LatestPosition(s: System): Option<Position> {
    match Latest(s) case None => None case Some(snapshot) => Some(snapshot.position)
  }

  /** What a commit must satisfy for the run to stay sound. */
  predicate SoundCommit(a: Actor, r: Request, committed: Option<Stored>, fault: Fault) {
    match a.rules.exec(a.game, r.command, r.now, a.version + 1)
    case Rejected(_) => Reversible(a.game, r.command)
    case Applied(_, _) =>
      (committed.Some? ==> Followable(a.game, r.command))
      && (committed.None? || fault == LostAfter ==> Reversible(a.game, r.command))
  }

  /** How the actor's game fits after a commit. Undoing a concession that had ended the game does
      not bring its ballots back; a turn that was written stays. */
  function FitAfter(fit: Fit, a: Actor, r: Request, committed: Option<Stored>, fault: Fault): Fit {
    if committed.None? || fault == LostAfter then
      if r.command.Conceding? && Ends(a.rules, a.game, r.command, r.now, a.version + 1) then Warmed(fit) else fit
    else if Turns(a.game, r.command) then Turned
    else fit
  }

  function Grown(log: seq<Stored>, stored: Option<Stored>): seq<Stored> {
    if stored.Some? then log + [stored.value] else log
  }

  function Committed(s: System, id: nat, held: bool, fault: Fault): System
    requires AtStage(s, id, Committing)
  {
    var agent := s.agents[id];
    var r := agent.task.request;
    var (p, stored) := Commit(agent.actor, r, s.log, held, fault);
    var s' := Advance(s, id, p, r, FitAfter(agent.fit, agent.actor, r, stored, fault), agent.task.began);
    s'.(log := Grown(s.log, stored),
        sound := s.sound && SoundCommit(agent.actor, r, stored, fault))
  }

  /** A message from outside: the next version, an action id not used before. */
  predicate MayAppend(log: seq<Stored>, stored: Stored) {
    && stored.event.body.ChatSent? && stored.event.version == |log| + 1
    && (stored.event.action.Some? ==> Lookup(log, stored.event.action.value).None?)
  }

  function BootFrom(init: Game, s: System): Snapshot {
    match Latest(s) case Some(snapshot) => snapshot case None => Snapshot(Position(init, 0), Same)
  }

  /** A stage without an append, at the log as it is now. */
  function Staged(a: Actor, r: Request, stage: Stage, log: seq<Stored>, snapshot: Option<Position>, now: int): Progress {
    match stage
    case Looking => Look(a, r, log)
    case Admitting => Admit(a, r, log)
    case Checking => Check(a, r, log)
    case Committing => At(a, r, Committing)
    case Resolving(versionTaken) => Resolve(a, r, log, versionTaken)
    case Recovering => Recover(a, log, snapshot, now)
  }

  function StartStep(s: System, id: nat, r: Request, held: bool): System {
    if !Free(s, id) then s
    else Advance(s, id, Begin(s.agents[id].actor, r, held), r, s.agents[id].fit, s.agents[id].actor.version)
  }

  function ProceedStep(s: System, id: nat, now: int): System {
    if id !in s.agents || s.agents[id].task.Idle? then s
    else
      var agent := s.agents[id];
      var r := agent.task.request;
      Advance(s, id, Staged(agent.actor, r, agent.task.stage, s.log, LatestPosition(s), now), r, agent.fit, agent.task.began)
  }

  function OfflineStep(s: System, id: nat): System {
    if !Free(s, id) then s
    else
      var agent := s.agents[id];
      s.(agents := s.agents[id := agent.(actor := agent.actor.(game := AllOffline(agent.actor.game)), fit := Warmed(agent.fit))])
  }

  function SaveStep(s: System, id: nat): System {
    if !Free(s, id) then s
    else
      var agent := s.agents[id];
      s.(snapshots := s.snapshots + [Snapshot(Position(agent.actor.game, agent.actor.version), agent.fit)])
  }

  function CloseStep(s: System, id: nat): System {
    if !Free(s, id) then s
    else s.(agents := s.agents[id := s.agents[id].(actor := s.agents[id].actor.(closing := true))])
  }

  function BootStep(rules: Rules, init: Game, s: System, id: nat, now: int): System {
    var base := BootFrom(init, s);
    match Restart(rules, base.position, After(s.log, base.position.version), now)
    case None => s
    case Some(p) =>
      if id in s.agents then s
      else s.(agents := s.agents[id := Agent(Actor(rules, p.game, p.version, map[], [], false), Idle, base.fit)])
  }

  function Next(rules: Rules, init: Game, s: System, step: Step): System {
    match step
    case DoCommit(id, held, fault) => if AtStage(s, id, Committing) then Committed(s, id, held, fault) else s
    case External(stored) => if MayAppend(s.log, stored) then s.(log := s.log + [stored]) else s
    case EverybodyOffline(id) => OfflineStep(s, id)
    case Save(id) => SaveStep(s, id)
    case Close(id) => CloseStep(s, id)
    case Crash(id) => s.(agents := s.agents - {id})
    case Boot(id, now) => BootStep(rules, init, s, id, now)
    case Start(id, r, held) => StartStep(s, id, r, held)
    case Proceed(id, now) => ProceedStep(s, id, now)
  }

  function Run(rules: Rules, init: Game, steps: seq<Step>): System {
    if steps == [] then Initial() else Next(rules, init, Run(rules, init, steps[..|steps| - 1]), steps[|steps| - 1])
  }
}
