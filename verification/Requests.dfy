/**
  Properties of one request: when a stale base is accepted and what it can have missed, when a
  finished game still grows, and how the stages of the protocol make up a whole request.
 */
module Requests {
  import opened Common
  import opened Lifecycle
  import opened Machine
  import opened GameLaws
  import opened Receipts
  import opened Actor
  import opened Agreement
  import opened Protocol
  import opened Safety
  import opened Fidelity

  // -------------------------------------------------------------- stale bases

  /** Messages and disconnect votes. */
  predicate MayBeMissed(b: Body) {
    match b
    case ChatSent => true
    case VoteUpdated(_) => true
    case ConcessionMade(_) => false
    case TurnPassed(_) => false
    case TableChanged(_, _) => false
  }

  /** The events of exactly the versions from `expected` to `version` come first, each of a
      kind that may be skipped; whatever follows is later. */
  ghost predicate Skippable(events: seq<Stored>, expected: int, version: int)
    requires expected <= version + 1
  {
    var n := version + 1 - expected;
    && n <= |events|
    && (forall i | 0 <= i < n :: events[i].event.version == expected + i && MayBeMissed(events[i].event.body))
    && (n < |events| ==> events[n].event.version > version)
  }

  lemma {:induction false} StaleScanExact(events: seq<Stored>, expected: int, version: int)
    requires expected <= version + 1
    ensures StaleScan(events, expected, version) <==> Skippable(events, expected, version)
    decreases |events|
  {
    if events != [] && events[0].event.version == expected && expected <= version && MayBeMissed(events[0].event.body) {
      StaleScanExact(events[1..], expected + 1, version);
      SkippableStep(events, expected, version);
    }
  }

  lemma SkippableStep(events: seq<Stored>, expected: int, version: int)
    requires events != [] && expected <= version
    requires events[0].event.version == expected && MayBeMissed(events[0].event.body)
    ensures Skippable(events, expected, version) <==> Skippable(events[1..], expected + 1, version)
  {
    var n := version + 1 - expected;
    assert forall i | 0 <= i < |events| - 1 :: events[1..][i] == events[i + 1];
    if Skippable(events[1..], expected + 1, version) {
      forall i | 0 <= i < n ensures events[i].event.version == expected + i && MayBeMissed(events[i].event.body) {
        if i > 0 { assert events[i] == events[1..][i - 1]; }
      }
    }
  }

  /** All events after `base`, up to the actor's version, are of a kind that may be skipped. */
  ghost predicate OnlySkippable(log: seq<Stored>, base: nat, version: nat)
    requires version <= |log|
  {
    forall k | base <= k < version :: MayBeMissed(log[k].event.body)
  }

  /** On the log as it is, a stale base is accepted if and only if every event it missed is
      a message or a disconnect vote. */
  lemma StaleBaseAccepted(log: seq<Stored>, base: nat, version: nat)
    requires Contiguous(log) && base <= version <= |log|
    ensures StaleScan(After(log, base), base + 1, version) <==> OnlySkippable(log, base, version)
  {
    var events := log[base..];
    AfterContiguous(log, base);
    StaleScanExact(events, base + 1, version);
    if OnlySkippable(log, base, version) {
      forall i | 0 <= i < version - base
        ensures events[i].event.version == base + 1 + i && MayBeMissed(events[i].event.body)
      {
        assert events[i] == log[base + i];
      }
    }
    if Skippable(events, base + 1, version) {
      forall k | base <= k < version ensures MayBeMissed(log[k].event.body) {
        assert events[k - base] == log[k];
      }
    }
  }

  /** Skippable events leave the table alone. */
  lemma {:induction false} SkippedKeepTable(init: Game, log: seq<Stored>, base: nat, version: nat)
    requires base <= version <= |log| && OnlySkippable(log, base, version)
    requires ReplayOf(GAME, init, log[..version]).Some?
    ensures ReplayOf(GAME, init, log[..base]).Some?
    ensures ReplayOf(GAME, init, log[..base]).value.table == ReplayOf(GAME, init, log[..version]).value.table
    decreases version - base
  {
    if base < version {
      var prefix := log[..version];
      assert prefix[..version - 1] == log[..version - 1] && prefix[version - 1] == log[version - 1];
      var before := ReplayOf(GAME, init, log[..version - 1]);
      assert before.Some? && MayBeMissed(log[version - 1].event.body);
      SkippedBody(before.value, log[version - 1].event.body);
      SkippedKeepTable(init, log, base, version - 1);
    }
  }

  lemma SkippedBody(g: Game, body: Body)
    requires MayBeMissed(body) && ReplayBody(g, body, CLOCK).Some?
    ensures ReplayBody(g, body, CLOCK).value.table == g.table
  {}

  lemma StaleBaseChecked(log: seq<Stored>, a: Actor, r: Request)
    requires Contiguous(log) && a.version <= |log| && 0 <= r.base < a.version
    ensures Check(a, r, log).At? <==> OnlySkippable(log, r.base, a.version) && !r.command.Unknown?
    ensures Check(a, r, log).actor == a
  {
    StaleBaseAccepted(log, r.base, a.version);
  }

  /** A stale base is accepted exactly when it missed only messages and votes, and the table
      the command then runs on is the table at that base. */
  lemma StaleBaseSafe(init: Game, log: seq<Stored>, a: Actor, fit: Fit, r: Request)
    requires GoodLog(GAME, init, log) && AgentFollows(GAME, init, log, a, fit)
    requires 0 <= r.base < a.version
    ensures Check(a, r, log).At? <==> OnlySkippable(log, r.base, a.version) && !r.command.Unknown?
    ensures Check(a, r, log).At? ==>
      ReplayOf(GAME, init, log[..r.base]).Some? && Check(a, r, log).actor.game.table == ReplayOf(GAME, init, log[..r.base]).value.table
  {
    StaleBaseChecked(log, a, r);
    if OnlySkippable(log, r.base, a.version) {
      SkippedKeepTable(init, log, r.base, a.version);
    }
  }

  // ---------------------------------------------------------- finished games

  /** The actor as it is when the command runs, if it gets that far. */
  function Executing(a: Actor, r: Request, w: World): Option<Actor> {
    match Admit(a, r, w.tail)
    case Finished(_, _) => None
    case At(b, _, _) => if Check(b, r, w.gap).At? then Some(b) else None
  }

  lemma ExecutingAdmitted(a: Actor, r: Request, w: World)
    requires Executing(a, r, w).Some?
    ensures Permits(a.game, r) && !RepeatsConcession(a.game, r.command) && !a.game.life.finished && !r.command.Unknown?
    ensures FromAdmit(a, r, w) == FromCommit(Executing(a, r, w).value, r, w)
  {}

  /** Nothing is committed otherwise. */
  lemma NothingElseCommits(a: Actor, r: Request, w: World)
    ensures FromAdmit(a, r, w).2.Some? ==> Executing(a, r, w).Some?
  {}

  // ------------------------------------------------------------- permissions

  /** Whoever may change a game: its active players, the turn only its holder while there is one,
      a player conceding for themselves, and the runtime's own presence signals and ticks. */
  ghost predicate MayChange(l: Life, r: Request) {
    || (r.author.Some? && IsActive(l, r.author.value) && !r.command.Conceding?
        && (r.command.Passing? ==> l.turn.active.None? || l.turn.active == r.author))
    || (r.command.Conceding? && r.author == Some(r.command.concede.player))
    || (r.command.Voting? && r.command.vote.origin != Browser)
  }

  /** Nothing is committed for anybody else, nor by a closing, a finished or an unguarded actor. */
  lemma OnlyPermittedCommit(a: Actor, r: Request, w: World)
    requires Submit(a, r, w).2.Some?
    ensures w.held && w.heldAgain && !a.closing && !a.game.life.finished && MayChange(a.game.life, r)
    ensures r.action !in a.seen && (!IsPresence(r.command) ==> Lookup(w.lookup, r.action).None?)
  {
    var b := Begin(a, r, w.held);
    NothingElseCommits(a, b.request, w);
    ExecutingAdmitted(a, b.request, w);
    CommitGuarded(Executing(a, b.request, w).value, b.request, w);
  }

  lemma CommitGuarded(a: Actor, r: Request, w: World)
    requires FromCommit(a, r, w).2.Some?
    ensures w.heldAgain
  {
    AppendGuarded(a, r, a.rules.exec(a.game, r.command, r.now, a.version + 1), w.head, w.heldAgain, w.fault);
  }

  lemma AppendGuarded(a: Actor, r: Request, e: Execution, log: seq<Stored>, held: bool, fault: Fault)
    ensures CommitOf(a, r, e, log, held, fault).1.Some? ==> held
  {}

  // ----------------------------------------------------- repeated concessions

  /** A repeated concession succeeds without a trace: nothing logged, nothing remembered. */
  lemma RepeatLeavesNoTrace(a: Actor, r: Request, w: World)
    requires Submit(a, r, w).1.Repeated?
    ensures Submit(a, r, w).0 == a && Submit(a, r, w).2.None?
    ensures RepeatsConcession(a.game, r.command) && r.author == Some(r.command.concede.player)
  {
    if Begin(a, r, w.held).At? {
      var r' := Begin(a, r, w.held).request;
      assert r' == Rebased(a, r);
      NoRepeatAfterAdmit(a, r', w);
    }
  }

  lemma NoRepeatAfterAdmit(a: Actor, r: Request, w: World)
    requires FromAdmit(a, r, w).1.Repeated?
    ensures Admit(a, r, w.tail).Finished? && Admit(a, r, w.tail).result.Repeated?
  {
    if Executing(a, r, w).Some? {
      SettleNeverRepeats(Executing(a, r, w).value, r, w);
    }
  }

  lemma SettleNeverRepeats(a: Actor, r: Request, w: World)
    ensures !FromCommit(a, r, w).1.Repeated?
  {
    var c := Commit(a, r, w.head, w.heldAgain, w.fault);
    CommitNeverRepeats(a, r, a.rules.exec(a.game, r.command, r.now, a.version + 1), w.head, w.heldAgain, w.fault);
  }

  lemma CommitNeverRepeats(a: Actor, r: Request, e: Execution, log: seq<Stored>, held: bool, fault: Fault)
    ensures var p := CommitOf(a, r, e, log, held, fault).0; p.Finished? ==> !p.result.Repeated?
  {}

  // --------------------------------------------------------- whole requests

  /** What is left of a request at a stage, as `Submit` composes it. */
  function Rest(a: Actor, r: Request, stage: Stage, w: World): (Actor, Result, Option<Stored>) {
    match stage
    case Looking =>
      (match Look(a, r, w.lookup) case Finished(b, result) => (b, result, None) case At(b, _, _) => FromAdmit(b, r, w))
    case Admitting => FromAdmit(a, r, w)
    case Checking =>
      (match Check(a, r, w.gap) case Finished(b, result) => (b, result, None) case At(b, _, _) => FromCommit(b, r, w))
    case Committing => FromCommit(a, r, w)
    case Resolving(versionTaken) => AfterAppend((At(a, r, Resolving(versionTaken)), None), r, w)
    case Recovering =>
      (match Recover(a, w.recovery, w.snapshot, r.now)
       case Finished(b, result) => (b, result, None) case At(b, _, _) => (b, Err(VersionConflict), None))
  }

  /** The world of an actor that nobody disturbs. */
  function Alone(s: System, held: bool, heldAgain: bool, fault: Fault): World {
    World(held, s.log, s.log, s.log, heldAgain, fault, s.log, s.log, s.log, LatestPosition(s))
  }

  /** The next step of the agent's request. */
  function Onward(s: System, id: nat, w: World, now: int): System {
    if AtStage(s, id, Committing) then Committed(s, id, w.heldAgain, w.fault) else ProceedStep(s, id, now)
  }

  function OnwardTimes(s: System, id: nat, w: World, now: int, n: nat): System
    decreases n
  {
    if n == 0 then s else OnwardTimes(Onward(s, id, w, now), id, w, now, n - 1)
  }

  function StagesLeft(stage: Stage): nat {
    match stage
    case Looking => 6
    case Admitting => 5
    case Checking => 4
    case Committing => 3
    case Resolving(_) => 2
    case Recovering => 1
  }

  /** The request ended as `rest` says. */
  ghost predicate Ended(s: System, s': System, id: nat, r: Request, rest: (Actor, Result, Option<Stored>)) {
    && Free(s', id) && s'.agents[id].actor == rest.0
    && s'.replies == s.replies + [Reply(r.action, r.author, rest.1)]
    && s'.log == (if rest.2.Some? then s.log + [rest.2.value] else s.log)
  }

  /** One stage of the protocol is one stage of the whole request. */
  lemma ProceedIsRest(s: System, id: nat, r: Request, stage: Stage, w: World)
    requires id in s.agents && s.agents[id].task.Busy? && s.agents[id].task.request == r && s.agents[id].task.stage == stage && stage != Committing
    requires w == Alone(s, w.held, w.heldAgain, w.fault)
    ensures var s' := ProceedStep(s, id, r.now); var rest := Rest(s.agents[id].actor, r, stage, w);
      if Staged(s.agents[id].actor, r, stage, s.log, LatestPosition(s), r.now).Finished? then Ended(s, s', id, r, rest)
      else
        && s'.log == s.log && s'.replies == s.replies && s'.snapshots == s.snapshots && id in s'.agents && s'.agents[id].task.Busy?
        && s'.agents[id].task.request == r && StagesLeft(s'.agents[id].task.stage) < StagesLeft(stage)
        && Rest(s'.agents[id].actor, r, s'.agents[id].task.stage, w) == rest
  {}

  lemma CommitIsRest(s: System, id: nat, r: Request, w: World)
    requires AtStage(s, id, Committing) && s.agents[id].task.request == r
    requires w == Alone(s, w.held, w.heldAgain, w.fault)
    ensures var s' := Committed(s, id, w.heldAgain, w.fault); var a := s.agents[id].actor; var rest := Rest(a, r, Committing, w);
      if Commit(a, r, s.log, w.heldAgain, w.fault).0.Finished? then Ended(s, s', id, r, rest)
      else
        && s'.log == s.log && s'.replies == s.replies && s'.snapshots == s.snapshots && id in s'.agents && s'.agents[id].task.Busy?
        && s'.agents[id].task.request == r && s'.agents[id].task.stage.Resolving?
        && Rest(s'.agents[id].actor, r, s'.agents[id].task.stage, w) == rest
  {
    CommitKeepsRequest(s.agents[id].actor, r, s.agents[id].actor.rules.exec(s.agents[id].actor.game, r.command, r.now, s.agents[id].actor.version + 1),
                       s.log, w.heldAgain, w.fault);
  }

  lemma CommitKeepsRequest(a: Actor, r: Request, e: Execution, log: seq<Stored>, held: bool, fault: Fault)
    ensures var (p, stored) := CommitOf(a, r, e, log, held, fault); p.At? ==> p.request == r && p.stage.Resolving? && stored.None?
  {}

  lemma {:induction false} OnwardEnds(s: System, id: nat, r: Request, stage: Stage, w: World, n: nat)
    requires id in s.agents && s.agents[id].task.Busy? && s.agents[id].task.request == r && s.agents[id].task.stage == stage && n >= StagesLeft(stage)
    requires w == Alone(s, w.held, w.heldAgain, w.fault)
    ensures Ended(s, OnwardTimes(s, id, w, r.now, n), id, r, Rest(s.agents[id].actor, r, stage, w))
    decreases n
  {
    var s' := Onward(s, id, w, r.now);
    if stage == Committing { CommitIsRest(s, id, r, w); } else { ProceedIsRest(s, id, r, stage, w); }
    if s'.agents[id].task.Idle? {
      IdleStays(s', id, w, r.now, n - 1);
    } else {
      OnwardEnds(s', id, r, s'.agents[id].task.stage, w, n - 1);
    }
  }

  lemma {:induction false} IdleStays(s: System, id: nat, w: World, now: int, n: nat)
    requires Free(s, id)
    ensures OnwardTimes(s, id, w, now, n) == s
  {
    if n > 0 { IdleStays(s, id, w, now, n - 1); }
  }

  /** With nobody else about, the steps of the protocol do what the whole request does: the
      same actor, the same answer, the same log. */
  lemma UndisturbedRequest(s: System, id: nat, r: Request, held: bool, heldAgain: bool, fault: Fault)
    requires Free(s, id)
    ensures var w := Alone(s, held, heldAgain, fault);
      Ended(s, OnwardTimes(StartStep(s, id, r, held), id, w, r.now, 6), id, r, Submit(s.agents[id].actor, r, w))
  {
    var w := Alone(s, held, heldAgain, fault);
    var s1 := StartStep(s, id, r, held);
    var begun := Begin(s.agents[id].actor, r, held);
    StartIsSubmit(s.agents[id].actor, r, w);
    if begun.Finished? {
      IdleStays(s1, id, w, r.now, 6);
    } else {
      OnwardEnds(s1, id, begun.request, begun.stage, w, 6);
    }
  }

  lemma StartIsSubmit(a: Actor, r: Request, w: World)
    ensures match Begin(a, r, w.held)
      case Finished(b, result) => Submit(a, r, w) == (b, result, None)
      case At(b, r', stage) =>
        && Submit(a, r, w) == Rest(b, r', stage, w)
        && r'.action == r.action && r'.author == r.author && r'.now == r.now && StagesLeft(stage) <= 6
  {}
}
