/**
  What becomes of one request that nobody disturbs, at an actor that is at the head of its log:
  exactly when its event is appended, and what the sender is told then.
 */
module Progress {
  import opened Common
  import opened Lifecycle
  import opened Machine
  import opened Patches
  import opened Receipts
  import opened Actor
  import opened Protocol
  import opened SeenCache
  import opened Safety
  import opened Authors
  import opened Requests

  /** Who may send it: the runtime its own signals and ticks, a player a concession for
      themselves, an active player the rest, the turn only its holder while there is one. */
  predicate MaySend(l: Life, r: Request) {
    if r.command.Voting? && r.command.vote.origin != Browser then true
    else if r.author.None? then false
    else if r.command.Conceding? then r.command.concede.player == r.author.value
    else
      && r.author.value in l.players && l.players[r.author.value].standing == Active
      && if r.command.Passing? then l.turn.active.None? || l.turn.active.value == r.author.value else r.permitted
  }

  /** The version it was made for is the actor's, or all that came since may be missed; signals
      of the gateway are made for any version of a game that has begun. */
  ghost predicate InTime(log: seq<Stored>, a: Actor, r: Request) {
    if r.command.Voting? && r.command.vote.origin == Gateway then a.version >= 1
    else
      && 0 <= r.base <= a.version <= |log|
      && forall k | r.base <= k < a.version :: log[k].event.body.ChatSent? || log[k].event.body.VoteUpdated?
  }

  /** Everything that has to be the case for the command to run, and then to succeed. */
  ghost predicate Accepted(log: seq<Stored>, a: Actor, r: Request) {
    && !a.closing && MaySend(a.game.life, r) && !a.game.life.finished && InTime(log, a, r)
    && !(r.command.Conceding? && r.command.concede.player in a.game.life.players
         && a.game.life.players[r.command.concede.player].standing == Conceded)
    && !r.command.Unknown?
    && a.rules.exec(a.game, r.command, r.now, a.version + 1).Applied?
  }

  lemma AdmittedIff(log: seq<Stored>, a: Actor, q: Request)
    requires Contiguous(log) && a.version == |log|
    ensures if MaySend(a.game.life, q) && !RepeatsConcession(a.game, q.command) && !a.game.life.finished
            then Admit(a, q, log) == At(a, q, Checking) else Admit(a, q, log).Finished?
  {
    AfterContiguous(log, a.version);
    assert log[a.version..] == [];
  }

  lemma CheckedIff(log: seq<Stored>, a: Actor, q: Request)
    requires Contiguous(log) && a.version == |log|
    ensures if q.base <= a.version && (q.base < a.version ==> 0 <= q.base && OnlySkippable(log, q.base, a.version)) && !q.command.Unknown?
            then Check(a, q, log) == At(a, q, Committing) else Check(a, q, log).Finished?
  {
    if 0 <= q.base < a.version { StaleBaseAccepted(log, q.base, a.version); }
    if q.base < 0 { NegativeBase(log, q.base, a.version); }
  }

  lemma InTimeIff(log: seq<Stored>, a: Actor, r: Request)
    requires a.version == |log|
    ensures var q := Rebased(a, r);
      InTime(log, a, r) <==> q.base <= a.version && 0 <= q.base && OnlySkippable(log, q.base, a.version)
  {}

  /** The request reaches the appliers on the actor as it is. */
  lemma ReachesAppliers(log: seq<Stored>, a: Actor, r: Request)
    requires Contiguous(log) && a.version == |log|
    ensures var q := Rebased(a, r);
      (Admit(a, q, log).At? && Check(Admit(a, q, log).actor, q, log).At?) <==>
        && MaySend(a.game.life, r) && !a.game.life.finished && InTime(log, a, r) && !r.command.Unknown?
        && !RepeatsConcession(a.game, r.command)
    ensures var q := Rebased(a, r); Admit(a, q, log).At? && Check(Admit(a, q, log).actor, q, log).At? ==>
      Admit(a, q, log) == At(a, q, Checking) && Check(a, q, log) == At(a, q, Committing)
  {
    var q := Rebased(a, r);
    AdmittedIff(log, a, q);
    CheckedIff(log, a, q);
    InTimeIff(log, a, r);
  }

  lemma NegativeBase(log: seq<Stored>, base: int, version: nat)
    requires Contiguous(log) && base < 0 && version == |log|
    ensures !StaleScan(After(log, base), base + 1, version)
  {
    WholeLog(log, base);
  }

  lemma {:induction false} WholeLog(log: seq<Stored>, base: int)
    requires Contiguous(log) && base < 0
    ensures After(log, base) == log
  {
    if log != [] {
      var n := |log| - 1;
      WholeLog(log[..n], base);
      LastStays(log[..n], log[n], base);
      assert log == log[..n] + [log[n]];
    }
  }

  lemma LastStays(log: seq<Stored>, last: Stored, base: int)
    requires last.event.version > base
    ensures After(log + [last], base) == After(log, base) + [last]
  {
    assert (log + [last])[..|log|] == log;
  }

  lemma FreshIsAdmitted(log: seq<Stored>, a: Actor, r: Request)
    requires AgentOk(log, a) && Lookup(log, r.action).None?
    ensures Submit(a, r, Undisturbed(log)) ==
      if a.closing then (a, Err(GameClosing), None) else FromAdmit(a, Rebased(a, r), Undisturbed(log))
  {
    assert r.action in a.seen ==> AnsweredBy(log, r.action, a.seen[r.action]);
  }

  /** What comes of a command at the head of the log. */
  ghost predicate HeadOutcome(a: Actor, r: Request, e: Execution, log: seq<Stored>, out: (Actor, Result, Option<Stored>)) {
    match e
    case Applied(g, body) =>
      var event := Event(|log| + 1, body, r.author, Some(r.action));
      var patches := EnvelopesOf(r.emitted, |log| + 1, r.action);
      && out.0.game == g && out.0.version == |log| + 1 && Remembers(out.0, r.action, Answer(event, patches))
      && out.1 == Ok(Answer(event, patches)) && out.2 == Some(Attach(event, patches))
    case Rejected(g) => out == (a.(game := g), Err(CommandRefused), None)
  }

  lemma HeadCommits(log: seq<Stored>, a: Actor, r: Request)
    requires LogOk(log) && AgentOk(log, a) && a.version == |log| && Lookup(log, r.action).None?
    ensures HeadOutcome(a, r, a.rules.exec(a.game, r.command, r.now, a.version + 1), log, FromCommit(a, r, Undisturbed(log)))
  {
    var e := a.rules.exec(a.game, r.command, r.now, a.version + 1);
    HeadIsFree(log);
    CommitAtHead(a, r, e, log);
    CommitIsOf(a, r, e, log, true, NoFault, CommitOf(a, r, e, log, true, NoFault));
    var (p, stored) := CommitOf(a, r, e, log, true, NoFault);
    FinishedAfter(p, stored, r, Undisturbed(log));
  }

  lemma FinishedAfter(p: Progress, stored: Option<Stored>, r: Request, w: World)
    requires p.Finished?
    ensures AfterAppend((p, stored), r, w) == (p.actor, p.result, stored)
  {}

  lemma AppendAtHead(a: Actor, r: Request, g: Game, undone: Game, body: Body, log: seq<Stored>)
    requires CacheOk(a) && a.version == |log| && !VersionTaken(log, |log| + 1) && Lookup(log, r.action).None?
    ensures var (p, stored) := Append(a, r, g, undone, body, log, true, NoFault);
      var event := Event(|log| + 1, body, r.author, Some(r.action));
      var patches := EnvelopesOf(r.emitted, |log| + 1, r.action);
      && p.Finished? && p.actor.game == g && p.actor.version == |log| + 1 && Remembers(p.actor, r.action, Answer(event, patches))
      && p.result == Ok(Answer(event, patches)) && stored == Some(Attach(event, patches))
  {
    RememberKeepsCache(a.(game := g, version := a.version + 1), r.action, AnswerOf(a, r, body));
  }

  lemma CommitAtHead(a: Actor, r: Request, e: Execution, log: seq<Stored>)
    requires CacheOk(a) && a.version == |log| && !VersionTaken(log, |log| + 1) && Lookup(log, r.action).None?
    ensures var (p, stored) := CommitOf(a, r, e, log, true, NoFault);
      p.Finished? && HeadOutcome(a, r, e, log, (p.actor, p.result, stored))
  {
    match e
    case Applied(g, body) => AppendAtHead(a, r, g, a.rules.undo(a.game, r.command, g), body, log);
    case Rejected(_) =>
  }

  /** A new action at the head of the log: its event is appended if and only if it is accepted.
      Then the event follows the whole log and carries its sender and action, the actor's game
      is what the command makes of it, and the answer is that event with its patches; otherwise
      no success is reported but for a repeated concession, and the actor stays at its version. */
  lemma AppendedIffAccepted(log: seq<Stored>, a: Actor, r: Request)
    requires LogOk(log) && AgentOk(log, a) && a.version == |log| && Lookup(log, r.action).None?
    ensures var (b, result, stored) := Submit(a, r, Undisturbed(log));
      && (stored.Some? <==> Accepted(log, a, r))
      && (stored.Some? ==>
            var e := a.rules.exec(a.game, r.command, r.now, a.version + 1);
            var event := Event(|log| + 1, e.body, r.author, Some(r.action));
            var patches := EnvelopesOf(r.emitted, |log| + 1, r.action);
            && stored == Some(Attach(event, patches)) && result == Ok(Answer(event, patches))
            && b.game == e.game && b.version == |log| + 1 && Remembers(b, r.action, Answer(event, patches)))
      && (stored.None? ==> !result.Ok? && b.version == a.version)
  {
    FreshIsAdmitted(log, a, r);
    if !a.closing {
      ReachesAppliers(log, a, r);
      var q := Rebased(a, r);
      if Admit(a, q, log).At? && Check(Admit(a, q, log).actor, q, log).At? {
        HeadCommits(log, a, q);
      } else {
        NothingBeforeAppliers(log, a, q);
      }
    }
  }

  /** The actor with its command rolled back. */
  function RolledBack(a: Actor, r: Request, after: Game): Actor {
    a.(game := a.rules.undo(a.game, r.command, after))
  }

  /** A command whose append came too late, because its version or its action is in the log by
      then, is rolled back and nothing is appended. If the store has the action, its sender is
      answered from there and a stranger denied; if only the version is taken, the actor recovers
      and the sender is told of the conflict. */
  lemma LostRaceOutcome(a: Actor, r: Request, w: World, g: Game, body: Body)
    requires w.heldAgain && w.fault != LostBefore && a.rules.exec(a.game, r.command, r.now, a.version + 1) == Applied(g, body)
    requires VersionTaken(w.head, a.version + 1) || Lookup(w.head, r.action).Some?
    ensures var (b, result, stored) := FromCommit(a, r, w); var back := RolledBack(a, r, g); var found := Lookup(w.again, r.action);
      && stored.None?
      && (found.Some? && Stranger(found.value.event.author, r.author) ==> (b, result) == (back, Err(NoPermission)))
      && (found.Some? && !Stranger(found.value.event.author, r.author) && ReadReceipt(found.value).Read? ==>
            result == Ok(Answer(Strip(found.value), ReadReceipt(found.value).patches)) && b.game == back.game && b.version == a.version)
      && (found.Some? && !Stranger(found.value.event.author, r.author) && !ReadReceipt(found.value).Read? ==>
            (b, result) == (back, Err(LookupFailed)))
      && (found.None? && VersionTaken(w.head, a.version + 1) ==>
            result == Err(VersionConflict) && b == Recover(back, w.recovery, w.snapshot, r.now).actor)
      && (found.None? && !VersionTaken(w.head, a.version + 1) ==> (b, result) == (back, Err(AppendFailed)))
  {
    var taken := VersionTaken(w.head, a.version + 1);
    var back := RolledBack(a, r, g);
    LateAppend(a, r, g, body, w);
    assert FromCommit(a, r, w) == AfterAppend((At(back, r, Resolving(taken)), None), r, w);
    if Lookup(w.again, r.action).Some? { LostRaceFor(back, r, w.again, taken); }
  }

  lemma LateAppend(a: Actor, r: Request, g: Game, body: Body, w: World)
    requires w.heldAgain && w.fault != LostBefore && a.rules.exec(a.game, r.command, r.now, a.version + 1) == Applied(g, body)
    requires VersionTaken(w.head, a.version + 1) || Lookup(w.head, r.action).Some?
    ensures Commit(a, r, w.head, w.heldAgain, w.fault)
      == (At(RolledBack(a, r, g), r, Resolving(VersionTaken(w.head, a.version + 1))), None)
  {}

  /** An append that is not guarded, or fails before or after the store has it, leaves the actor
      rolled back; only after the store has it is there an event, which nobody was told of. */
  lemma FailedAppend(a: Actor, r: Request, g: Game, body: Body, log: seq<Stored>, held: bool, fault: Fault)
    requires !held || fault != NoFault
    requires held && fault == LostAfter ==> !VersionTaken(log, a.version + 1) && Lookup(log, r.action).None?
    ensures var (p, stored) := Append(a, r, g, a.rules.undo(a.game, r.command, g), body, log, held, fault);
      && p == Finished(RolledBack(a, r, g), Err(if held then AppendFailed else NotOwner))
      && (stored.Some? <==> held && fault == LostAfter)
      && (stored.Some? ==> stored.value.event == Event(a.version + 1, body, r.author, Some(r.action)))
  {}

  /** Catching up keeps what it could replay, even when it stops short and the request is refused. */
  lemma CaughtUpIsKept(a: Actor, r: Request, log: seq<Stored>)
    requires MaySend(a.game.life, r) && !RepeatsConcession(a.game, r.command) && !a.game.life.finished && r.base > a.version
    ensures var (p, ok) := CatchUp(a.rules, Position(a.game, a.version), After(log, a.version), r.base, r.now);
      var caughtUp := a.(game := p.game, version := p.version);
      Admit(a, r, log) == if ok then At(caughtUp, r, Checking) else Finished(caughtUp, Err(VersionConflict))
  {}

  /** A concession is answered as a repeated one exactly when it is the player's own, they have
      conceded, and the version it was made for is not ahead; the answer has the first's time. */
  lemma RepeatAnsweredIff(log: seq<Stored>, a: Actor, r: Request)
    requires LogOk(log) && AgentOk(log, a) && a.version == |log| && Lookup(log, r.action).None? && r.command.Conceding?
    ensures var p := r.command.concede.player; var l := a.game.life; var result := Submit(a, r, Undisturbed(log)).1;
      && (result.Repeated? <==> !a.closing && r.author == Some(p) && p in l.players && l.players[p].standing == Conceded && r.base <= a.version)
      && (result.Repeated? ==>
            var first := ConcedeEvent(p, l.players[p].concededAt, None, None);
            result.answer.event == Event(a.version, ConcessionMade(first), r.author, Some(r.action)))
  {
    FreshIsAdmitted(log, a, r);
    if !a.closing && Admit(a, r, log).At? {
      ReachesAppliers(log, a, r);
      if Check(Admit(a, r, log).actor, r, log).At? { HeadCommits(log, a, r); }
    }
  }

  /** A request that does not reach the appliers is not answered with success, and leaves the
      actor where it is. */
  lemma NothingBeforeAppliers(log: seq<Stored>, a: Actor, r: Request)
    requires Contiguous(log) && a.version == |log|
    requires !(Admit(a, r, log).At? && Check(Admit(a, r, log).actor, r, log).At?)
    ensures var (b, result, stored) := FromAdmit(a, r, Undisturbed(log)); stored.None? && !result.Ok? && b.version == a.version
  {
    AfterContiguous(log, a.version);
    assert log[a.version..] == [];
  }

  // ---------------------------------------------- what is no request

  /** When everybody is away the actor forgets all ballots and holds everybody offline; nothing
      says so in the log. */
  lemma OfflineClears(s: System, id: nat)
    requires Free(s, id)
    ensures var s' := OfflineStep(s, id);
      && s'.log == s.log && s'.replies == s.replies && s'.snapshots == s.snapshots && id in s'.agents
      && s'.agents[id].actor.version == s.agents[id].actor.version
      && s'.agents[id].actor.game.table == s.agents[id].actor.game.table
      && s'.agents[id].actor.game.life.ballots == map[]
      && s'.agents[id].actor.game.life.players.Keys == s.agents[id].actor.game.life.players.Keys
      && forall p | p in s'.agents[id].actor.game.life.players :: s'.agents[id].actor.game.life.players[p].online == Some(false)
  {}

  /** What an actor saves is what the next restart starts from. */
  lemma SavedIsBase(init: Game, s: System, id: nat)
    requires Free(s, id)
    ensures BootFrom(init, SaveStep(s, id)) == Snapshot(Position(s.agents[id].actor.game, s.agents[id].actor.version), s.agents[id].fit)
  {}

  /** A closing actor refuses every request, known actions included. */
  lemma ClosedRefuses(s: System, id: nat, r: Request)
    requires Free(s, id)
    ensures var s' := StartStep(CloseStep(s, id), id, r, true);
      && Free(s', id) && s'.replies == s.replies + [Reply(r.action, r.author, Err(GameClosing))]
      && s'.agents[id].actor == s.agents[id].actor.(closing := true)
  {}
}
