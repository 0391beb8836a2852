/**
  What holds in every reachable state of the protocol, sound or not: one contiguous history,
  no action twice, caches and answers that agree with the log.
 */
module Safety {
  import opened Common
  import opened Machine
  import opened Patches
  import opened Receipts
  import opened Actor
  import opened SeenCache
  import opened Protocol

  ghost predicate UniqueActions(log: seq<Stored>) {
    forall i, j | 0 <= i < j < |log| :: log[i].event.action.Some? ==> log[i].event.action != log[j].event.action
  }

  /** The answer is the receipt round trip of the log's event for that action. */
  ghost predicate AnsweredBy(log: seq<Stored>, action: ActionId, answer: Answer) {
    match Lookup(log, action)
    case None => false
    case Some(s) => answer.event == Strip(s) && ReadReceipt(s) == Read(answer.patches)
  }

  ghost predicate CacheTrue(log: seq<Stored>, a: Actor) {
    CacheOk(a) && forall k | k in a.seen :: AnsweredBy(log, k, a.seen[k])
  }

  ghost predicate AgentOk(log: seq<Stored>, a: Actor) {
    a.version <= |log| && CacheTrue(log, a)
  }

  ghost predicate ReplyOk(log: seq<Stored>, reply: Reply) {
    reply.result.Ok? ==>
      AnsweredBy(log, reply.action, reply.result.answer) && Matches(reply.result.answer.event.author, reply.author)
  }

  ghost predicate LogOk(log: seq<Stored>) {
    Contiguous(log) && UniqueActions(log)
  }

  ghost predicate Inv(s: System) {
    && LogOk(s.log)
    && (forall id | id in s.agents :: AgentOk(s.log, s.agents[id].actor))
    && (forall i | 0 <= i < |s.snapshots| :: s.snapshots[i].position.version <= |s.log|)
    && (forall i | 0 <= i < |s.replies| :: ReplyOk(s.log, s.replies[i]))
  }

  // --------------------------------------------------------------------- log

  lemma {:induction false} LookupFinds(log: seq<Stored>, action: ActionId)
    ensures match Lookup(log, action)
      case None => forall i | 0 <= i < |log| :: log[i].event.action != Some(action)
      case Some(s) => s.event.action == Some(action) && exists i :: 0 <= i < |log| && log[i] == s
  {
    if log != [] {
      LookupFinds(log[1..], action);
      assert log[0] == log[0];
      if log[0].event.action != Some(action) && Lookup(log[1..], action).Some? {
        var i :| 0 <= i < |log| - 1 && log[1..][i] == Lookup(log[1..], action).value;
        assert log[i + 1] == Lookup(log, action).value;
      }
      forall i | 0 < i < |log| ensures log[i] == log[1..][i - 1] {}
    }
  }

  lemma {:induction false} LookupGrows(log: seq<Stored>, more: Stored, action: ActionId)
    ensures Lookup(log, action).Some? ==> Lookup(log + [more], action) == Lookup(log, action)
    ensures Lookup(log, action).None? ==> Lookup(log + [more], action) == if more.event.action == Some(action) then Some(more) else None
  {
    if log == [] {
      assert ([] + [more])[1..] == [];
    } else {
      LookupGrows(log[1..], more, action);
      assert (log + [more])[1..] == log[1..] + [more];
    }
  }

  lemma LogGrows(log: seq<Stored>, more: Stored)
    requires LogOk(log) && more.event.version == |log| + 1
    requires more.event.action.Some? ==> Lookup(log, more.event.action.value).None?
    ensures LogOk(log + [more])
  {
    if more.event.action.Some? { LookupFinds(log, more.event.action.value); }
  }

  lemma AnswerSurvives(log: seq<Stored>, more: Stored, action: ActionId, answer: Answer)
    requires AnsweredBy(log, action, answer)
    ensures AnsweredBy(log + [more], action, answer)
  {
    LookupGrows(log, more, action);
  }

  lemma AgentSurvives(log: seq<Stored>, more: Stored, a: Actor)
    requires AgentOk(log, a)
    ensures AgentOk(log + [more], a)
  {
    forall k | k in a.seen ensures AnsweredBy(log + [more], k, a.seen[k]) { AnswerSurvives(log, more, k, a.seen[k]); }
  }

  /** A version that is not taken, next to an actor inside the log, is the version after the head. */
  lemma FreeVersionIsHead(log: seq<Stored>, v: nat)
    requires Contiguous(log) && v <= |log| && !VersionTaken(log, v + 1)
    ensures v == |log|
  {
    if v < |log| { TakenBelow(log, v); }
  }

  lemma TakenBelow(log: seq<Stored>, v: nat)
    requires Contiguous(log) && v < |log|
    ensures VersionTaken(log, v + 1)
  {
    assert log[v] in log && log[v].event.version == v + 1;
  }

  lemma HeadIsFree(log: seq<Stored>)
    requires Contiguous(log)
    ensures !VersionTaken(log, |log| + 1)
  {
    assert forall s | s in log :: exists i :: 0 <= i < |log| && log[i] == s;
  }

  // ------------------------------------------------------------------ stages

  /** What a stage without an append keeps. */
  ghost predicate StageOk(log: seq<Stored>, a: Actor, r: Request, p: Progress) {
    && AgentOk(log, p.actor) && p.actor.version >= a.version
    && (p.Finished? ==> ReplyOk(log, Reply(r.action, r.author, p.result)))
    && (p.At? ==> p.request.action == r.action && p.request.author == r.author)
  }

  lemma RememberOk(log: seq<Stored>, a: Actor, action: ActionId, answer: Answer)
    requires AgentOk(log, a) && AnsweredBy(log, action, answer)
    ensures AgentOk(log, Remember(a, action, answer))
  {
    RememberKeepsCache(a, action, answer);
  }

  lemma BeginOk(log: seq<Stored>, a: Actor, r: Request, held: bool)
    requires AgentOk(log, a)
    ensures StageOk(log, a, r, Begin(a, r, held))
  {}

  lemma DuplicateOk(log: seq<Stored>, a: Actor, action: ActionId, author: Option<PlayerId>)
    requires AgentOk(log, a)
    ensures var d := StoredDuplicate(log, action, author);
      d.Found? ==>
        && AnsweredBy(log, action, d.answer) && Matches(d.answer.event.author, author)
        && AgentOk(log, Remember(a, action, d.answer)) && Remember(a, action, d.answer).version == a.version
  {
    var d := StoredDuplicate(log, action, author);
    if d.Found? {
      RememberOk(log, a, action, d.answer);
    }
  }

  lemma LookOk(log: seq<Stored>, a: Actor, r: Request)
    requires AgentOk(log, a)
    ensures StageOk(log, a, r, Look(a, r, log))
  {
    DuplicateOk(log, a, r.action, r.author);
  }

  lemma ResolveOk(log: seq<Stored>, a: Actor, r: Request, versionTaken: bool)
    requires AgentOk(log, a)
    ensures StageOk(log, a, r, Resolve(a, r, log, versionTaken))
  {
    DuplicateOk(log, a, r.action, r.author);
  }

  lemma {:induction false} CatchUpBounds(rules: Rules, p: Position, events: seq<Stored>, target: int, now: int)
    ensures var (q, _) := CatchUp(rules, p, events, target, now); p.version <= q.version <= p.version + |events|
    decreases |events|
  {
    if events != [] && events[0].event.version <= target && events[0].event.version == p.version + 1 {
      match rules.replay(p.game, events[0].event.body, now)
      case None =>
      case Some(g) => CatchUpBounds(rules, Position(g, p.version + 1), events[1..], target, now);
    }
  }

  lemma {:induction false} RecoverBounds(rules: Rules, p: Position, events: seq<Stored>, now: int)
    ensures var q := RecoverFrom(rules, p, events, now); q.Some? ==> q.value.version == p.version + |events|
    decreases |events|
  {
    if events != [] && events[0].event.version == p.version + 1 {
      match rules.replay(p.game, events[0].event.body, now)
      case None =>
      case Some(g) => RecoverBounds(rules, Position(g, p.version + 1), events[1..], now);
    }
  }

  lemma AdmitOk(log: seq<Stored>, a: Actor, r: Request)
    requires AgentOk(log, a) && Contiguous(log)
    ensures StageOk(log, a, r, Admit(a, r, log))
  {
    AfterContiguous(log, a.version);
    CatchUpBounds(a.rules, Position(a.game, a.version), After(log, a.version), r.base, r.now);
    assert forall p: Position :: CacheTrue(log, a.(game := p.game, version := p.version));
  }

  lemma CheckOk(log: seq<Stored>, a: Actor, r: Request)
    requires AgentOk(log, a)
    ensures StageOk(log, a, r, Check(a, r, log))
  {}

  lemma RecoverOk(log: seq<Stored>, a: Actor, r: Request, snapshot: Option<Position>, now: int)
    requires AgentOk(log, a) && Contiguous(log) && (snapshot.Some? ==> snapshot.value.version <= |log|)
    ensures StageOk(log, a, r, Recover(a, log, snapshot, now))
  {
    AfterContiguous(log, a.version);
    RecoverBounds(a.rules, Position(a.game, a.version), After(log, a.version), now);
    if snapshot.Some? {
      AfterContiguous(log, snapshot.value.version);
      RecoverBounds(a.rules, snapshot.value, After(log, snapshot.value.version), now);
    }
  }

  /** What an append keeps; one that succeeds is the one the whole log leads up to. */
  ghost predicate AppendedOk(log: seq<Stored>, a: Actor, r: Request, out: (Progress, Option<Stored>)) {
    var (p, stored) := out;
    && (stored.Some? ==>
          && a.version == |log| && stored.value.event.version == |log| + 1
          && Lookup(log, r.action).None? && stored.value.event.action == Some(r.action))
    && LogOk(Grown(log, stored)) && StageOk(Grown(log, stored), a, r, p)
  }

  lemma AppendOk(log: seq<Stored>, a: Actor, r: Request, after: Game, undone: Game, body: Body, held: bool, fault: Fault)
    requires LogOk(log) && AgentOk(log, a)
    ensures AppendedOk(log, a, r, Append(a, r, after, undone, body, log, held, fault))
  {
    var (p, stored) := Append(a, r, after, undone, body, log, held, fault);
    if stored.Some? {
      FreeVersionIsHead(log, a.version);
      LogGrows(log, stored.value);
      AgentSurvives(log, stored.value, a);
      if fault != LostAfter {
        var answer := AnswerOf(a, r, body);
        LookupGrows(log, stored.value, r.action);
        EmittedReadsBack(answer.event, r.emitted, r.action);
        RememberOk(log + [stored.value], a.(game := after, version := a.version + 1), r.action, answer);
        RememberKeepsCache(a.(game := after, version := a.version + 1), r.action, answer);
      }
    }
  }

  lemma CommitOfOk(log: seq<Stored>, a: Actor, r: Request, e: Execution, held: bool, fault: Fault)
    requires LogOk(log) && AgentOk(log, a)
    ensures AppendedOk(log, a, r, CommitOf(a, r, e, log, held, fault))
  {
    match e
    case Applied(g, body) => AppendOk(log, a, r, g, a.rules.undo(a.game, r.command, g), body, held, fault);
    case Rejected(g) =>
  }

  lemma CommitOk(log: seq<Stored>, a: Actor, r: Request, held: bool, fault: Fault)
    requires LogOk(log) && AgentOk(log, a)
    ensures AppendedOk(log, a, r, Commit(a, r, log, held, fault))
  {
    var e := a.rules.exec(a.game, r.command, r.now, a.version + 1);
    CommitOfOk(log, a, r, e, held, fault);
    CommitIsOf(a, r, e, log, held, fault, CommitOf(a, r, e, log, held, fault));
  }

  lemma CommitIsOf(a: Actor, r: Request, e: Execution, log: seq<Stored>, held: bool, fault: Fault, out: (Progress, Option<Stored>))
    requires e == a.rules.exec(a.game, r.command, r.now, a.version + 1) && out == CommitOf(a, r, e, log, held, fault)
    ensures Commit(a, r, log, held, fault) == out
  {}

  // ------------------------------------------------------------------- steps

  lemma AdvanceOk(s: System, id: nat, p: Progress, r: Request, fit: Fit, began: nat)
    requires Inv(s) && id in s.agents && StageOk(s.log, s.agents[id].actor, r, p)
    ensures Inv(Advance(s, id, p, r, fit, began))
  {}

  lemma StagedOk(log: seq<Stored>, a: Actor, r: Request, stage: Stage, snapshot: Option<Position>, now: int)
    requires AgentOk(log, a) && Contiguous(log) && (snapshot.Some? ==> snapshot.value.version <= |log|)
    ensures StageOk(log, a, r, Staged(a, r, stage, log, snapshot, now))
  {
    match stage
    case Looking => LookOk(log, a, r);
    case Admitting => AdmitOk(log, a, r);
    case Checking => CheckOk(log, a, r);
    case Committing =>
    case Resolving(versionTaken) => ResolveOk(log, a, r, versionTaken);
    case Recovering => RecoverOk(log, a, r, snapshot, now);
  }

  lemma StartOk(s: System, id: nat, r: Request, held: bool)
    requires Inv(s)
    ensures Inv(StartStep(s, id, r, held))
  {
    if Free(s, id) {
      var agent := s.agents[id];
      BeginOk(s.log, agent.actor, r, held);
      AdvanceOk(s, id, Begin(agent.actor, r, held), r, agent.fit, agent.actor.version);
    }
  }

  lemma ProceedOk(s: System, id: nat, now: int)
    requires Inv(s)
    ensures Inv(ProceedStep(s, id, now))
  {
    if id in s.agents && s.agents[id].task.Busy? {
      var agent := s.agents[id];
      var r, stage := agent.task.request, agent.task.stage;
      StagedOk(s.log, agent.actor, r, stage, LatestPosition(s), now);
      AdvanceOk(s, id, Staged(agent.actor, r, stage, s.log, LatestPosition(s), now), r, agent.fit, agent.task.began);
    }
  }

  /** Everything that was true of a log is true of a longer one. */
  lemma InvSurvives(s: System, more: Stored)
    requires Inv(s) && LogOk(s.log + [more])
    ensures Inv(s.(log := s.log + [more]))
  {
    forall id | id in s.agents ensures AgentOk(s.log + [more], s.agents[id].actor) {
      AgentSurvives(s.log, more, s.agents[id].actor);
    }
    forall i | 0 <= i < |s.replies| ensures ReplyOk(s.log + [more], s.replies[i]) {
      if s.replies[i].result.Ok? { AnswerSurvives(s.log, more, s.replies[i].action, s.replies[i].result.answer); }
    }
  }

  /** A commit is an advance on the grown log. */
  lemma CommittedAdvances(s: System, id: nat, held: bool, fault: Fault, p: Progress, stored: Option<Stored>)
    requires AtStage(s, id, Committing)
    requires (p, stored) == Commit(s.agents[id].actor, s.agents[id].task.request, s.log, held, fault)
    ensures var agent := s.agents[id]; var r := agent.task.request;
      Committed(s, id, held, fault)
      == Advance(s.(log := Grown(s.log, stored)), id, p, r, FitAfter(agent.fit, agent.actor, r, stored, fault), agent.task.began)
           .(sound := s.sound && SoundCommit(agent.actor, r, stored, fault))
  {}

  lemma CommitStepOk(s: System, id: nat, held: bool, fault: Fault)
    requires Inv(s) && AtStage(s, id, Committing)
    ensures Inv(Committed(s, id, held, fault))
  {
    var agent := s.agents[id];
    var r := agent.task.request;
    var (p, stored) := Commit(agent.actor, r, s.log, held, fault);
    var fit := FitAfter(agent.fit, agent.actor, r, stored, fault);
    CommitOk(s.log, agent.actor, r, held, fault);
    var s0 := s.(log := Grown(s.log, stored));
    if stored.Some? {
      InvSurvives(s, stored.value);
      AgentSurvives(s.log, stored.value, agent.actor);
    }
    AdvanceOk(s0, id, p, r, fit, agent.task.began);
    CommittedAdvances(s, id, held, fault, p, stored);
  }

  lemma ExternalOk(s: System, stored: Stored)
    requires Inv(s) && MayAppend(s.log, stored)
    ensures Inv(s.(log := s.log + [stored]))
  {
    LogGrows(s.log, stored);
    InvSurvives(s, stored);
  }

  lemma BaseBounds(rules: Rules, init: Game, s: System, now: int)
    requires Inv(s)
    ensures var base := BootFrom(init, s); var p := Restart(rules, base.position, After(s.log, base.position.version), now);
      p.Some? ==> p.value.version <= |s.log|
  {
    var base := BootFrom(init, s);
    AfterContiguous(s.log, base.position.version);
    RecoverBounds(rules, base.position, After(s.log, base.position.version), now);
  }

  lemma BootOk(rules: Rules, init: Game, s: System, id: nat, now: int)
    requires Inv(s)
    ensures Inv(BootStep(rules, init, s, id, now))
  {
    BaseBounds(rules, init, s, now);
    var base := BootFrom(init, s);
    var p := Restart(rules, base.position, After(s.log, base.position.version), now);
    if p.Some? { JoinOk(s, id, Actor(rules, p.value.game, p.value.version, map[], [], false), base.fit); }
  }

  /** An actor that remembers nothing agrees with any log that is long enough. */
  lemma JoinOk(s: System, id: nat, a: Actor, fit: Fit)
    requires Inv(s) && a.version <= |s.log| && a.seen == map[] && a.order == []
    ensures Inv(s.(agents := s.agents[id := Agent(a, Idle, fit)]))
  {
    assert AgentOk(s.log, a);
  }

  lemma NextOk(rules: Rules, init: Game, s: System, step: Step)
    requires Inv(s)
    ensures Inv(Next(rules, init, s, step))
  {
    match step
    case Start(id, r, held) => StartOk(s, id, r, held);
    case Proceed(id, now) => ProceedOk(s, id, now);
    case DoCommit(id, held, fault) => if AtStage(s, id, Committing) { CommitStepOk(s, id, held, fault); }
    case External(stored) => if MayAppend(s.log, stored) { ExternalOk(s, stored); }
    case Boot(id, now) => BootOk(rules, init, s, id, now);
    case EverybodyOffline(_) =>
    case Save(_) =>
    case Close(_) =>
    case Crash(_) =>
  }

  lemma {:induction false} RunOk(rules: Rules, init: Game, steps: seq<Step>)
    ensures Inv(Run(rules, init, steps))
  {
    if steps != [] {
      RunOk(rules, init, steps[..|steps| - 1]);
      NextOk(rules, init, Run(rules, init, steps[..|steps| - 1]), steps[|steps| - 1]);
    }
  }

  // ---------------------------------------------------------------- theorems

  /** In every interleaving the log is one contiguous history in which no action occurs twice. */
  lemma OneHistory(rules: Rules, init: Game, steps: seq<Step>)
    ensures var log := Run(rules, init, steps).log;
      && (forall i | 0 <= i < |log| :: log[i].event.version == i + 1)
      && (forall i, j | 0 <= i < j < |log| && log[i].event.action.Some? :: log[i].event.action != log[j].event.action)
  {
    RunOk(rules, init, steps);
  }

  /** Exactly once: successful answers for one action, by whatever actor, from memory, from
      the store or after a lost race, are one and the same answer, that of the single log event
      carrying the action; the asking player may see it. */
  lemma ExactlyOnce(rules: Rules, init: Game, steps: seq<Step>, i: nat, j: nat)
    requires var s := Run(rules, init, steps);
      i < |s.replies| && j < |s.replies| && s.replies[i].action == s.replies[j].action
      && s.replies[i].result.Ok? && s.replies[j].result.Ok?
    ensures var s := Run(rules, init, steps); var answer := s.replies[i].result.answer;
      && s.replies[j].result.answer == answer
      && (answer.event.author.Some? && s.replies[i].author.Some? ==> answer.event.author == s.replies[i].author)
      && answer.event.action == Some(s.replies[i].action)
      && exists k :: 0 <= k < |s.log| && Strip(s.log[k]) == answer.event && ReadReceipt(s.log[k]) == Read(answer.patches)
           && forall m | 0 <= m < |s.log| && m != k :: s.log[m].event.action != answer.event.action
  {
    RunOk(rules, init, steps);
    var s := Run(rules, init, steps);
    LookupFinds(s.log, s.replies[i].action);
    assert ReplyOk(s.log, s.replies[i]) && ReplyOk(s.log, s.replies[j]);
    var found := Lookup(s.log, s.replies[i].action).value;
    var k :| 0 <= k < |s.log| && s.log[k] == found;
    assert Strip(s.log[k]) == s.replies[i].result.answer.event;
  }

  /** Nothing but a crash takes an actor back: not a rejection, not a recovery, not a lost append. */
  lemma VersionsNeverFall(rules: Rules, init: Game, steps: seq<Step>, step: Step, id: nat)
    requires var s := Run(rules, init, steps); id in s.agents && step != Crash(id)
    ensures var s := Run(rules, init, steps); var s' := Next(rules, init, s, step);
      id in s'.agents && s'.agents[id].actor.version >= s.agents[id].actor.version
  {
    RunOk(rules, init, steps);
    NextRaises(rules, init, Run(rules, init, steps), step, id);
  }

  lemma StageRaises(s: System, id: nat, p: Progress, r: Request, fit: Fit, began: nat)
    requires id in s.agents && p.actor.version >= s.agents[id].actor.version
    ensures Raised(s, Advance(s, id, p, r, fit, began))
  {}

  /** Every actor is still there, at the same version or a later one. */
  ghost predicate Raised(s: System, s': System) {
    forall id | id in s.agents :: id in s'.agents && s'.agents[id].actor.version >= s.agents[id].actor.version
  }

  lemma CommitRaises(s: System, id: nat, held: bool, fault: Fault)
    requires Inv(s) && AtStage(s, id, Committing)
    ensures Raised(s, Committed(s, id, held, fault))
  {
    var a, task := s.agents[id].actor, s.agents[id].task;
    CommitOk(s.log, a, task.request, held, fault);
    var p := Commit(a, task.request, s.log, held, fault).0;
    StageRaises(s, id, p, task.request, s.agents[id].fit, task.began);
  }

  lemma ProceedRaises(s: System, id: nat, now: int)
    requires Inv(s)
    ensures Raised(s, ProceedStep(s, id, now))
  {
    if id in s.agents && s.agents[id].task.Busy? {
      var a, task := s.agents[id].actor, s.agents[id].task;
      StagedOk(s.log, a, task.request, task.stage, LatestPosition(s), now);
    }
  }

  lemma StartRaises(s: System, id: nat, r: Request, held: bool)
    requires Inv(s)
    ensures Raised(s, StartStep(s, id, r, held))
  {
    if Free(s, id) { BeginOk(s.log, s.agents[id].actor, r, held); }
  }

  lemma NextRaises(rules: Rules, init: Game, s: System, step: Step, id: nat)
    requires Inv(s) && id in s.agents && step != Crash(id)
    ensures var s' := Next(rules, init, s, step); id in s'.agents && s'.agents[id].actor.version >= s.agents[id].actor.version
  {
    match step
    case Start(x, r, held) => StartRaises(s, x, r, held);
    case Proceed(x, now) => ProceedRaises(s, x, now);
    case DoCommit(x, held, fault) => if AtStage(s, x, Committing) { CommitRaises(s, x, held, fault); }
    case _ =>
  }

  /** Every append by an actor happens at the head: its event follows the whole log, and its
      action is new. */
  lemma AppendsAtHead(rules: Rules, init: Game, steps: seq<Step>, id: nat, held: bool, fault: Fault)
    requires AtStage(Run(rules, init, steps), id, Committing)
    ensures var s := Run(rules, init, steps); var s' := Next(rules, init, s, DoCommit(id, held, fault));
      s'.log == s.log || (s.agents[id].actor.version == |s.log| && |s'.log| == |s.log| + 1 && s'.log[..|s.log|] == s.log
                          && s'.log[|s.log|].event.action == Some(s.agents[id].task.request.action))
  {
    RunOk(rules, init, steps);
    var s := Run(rules, init, steps);
    CommitOk(s.log, s.agents[id].actor, s.agents[id].task.request, held, fault);
  }
}
