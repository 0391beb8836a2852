/**
  Who may have the stored answer of an action id: the player who sent the action, and the
  runtime itself; nobody else, neither from memory nor from the store nor after a lost race.
 */
module Authors {
  import opened Common
  import opened Lifecycle
  import opened Machine
  import opened Patches
  import opened Receipts
  import opened Actor
  import opened Protocol
  import opened SeenCache
  import opened Safety

  /** One player asks for what another one did. */
  predicate Stranger(stored: Option<PlayerId>, asking: Option<PlayerId>) {
    stored.Some? && asking.Some? && stored.value != asking.value
  }

  predicate Remembers(a: Actor, action: ActionId, answer: Answer) {
    action in a.seen && a.seen[action] == answer
  }

  /** From memory: a stranger is denied, anybody else gets the answer that was remembered. */
  lemma RememberedFor(a: Actor, r: Request, held: bool)
    requires held && !a.closing && r.action in a.seen
    ensures Begin(a, r, held) ==
      Finished(a, if Stranger(a.seen[r.action].event.author, r.author) then Err(NoPermission) else Ok(a.seen[r.action]))
  {}

  /** From the store: a stranger is denied, anybody else gets the event and the patches that
      were attached to it, if they can still be read. */
  lemma StoredFor(a: Actor, r: Request, log: seq<Stored>)
    requires Lookup(log, r.action).Some?
    ensures var s := Lookup(log, r.action).value;
      && (Stranger(s.event.author, r.author) ==> Look(a, r, log) == Finished(a, Err(NoPermission)))
      && (!Stranger(s.event.author, r.author) && ReadReceipt(s).Read? ==>
            Look(a, r, log).Finished? && Look(a, r, log).result == Ok(Answer(Strip(s), ReadReceipt(s).patches)))
      && (!Stranger(s.event.author, r.author) && !ReadReceipt(s).Read? ==> Look(a, r, log) == Finished(a, Err(LookupFailed)))
  {}

  /** After a lost race as well; the actor is the one whose command was rolled back. */
  lemma LostRaceFor(a: Actor, r: Request, log: seq<Stored>, versionTaken: bool)
    requires Lookup(log, r.action).Some?
    ensures var s := Lookup(log, r.action).value;
      && (Stranger(s.event.author, r.author) ==> Resolve(a, r, log, versionTaken) == Finished(a, Err(NoPermission)))
      && (!Stranger(s.event.author, r.author) && ReadReceipt(s).Read? ==>
            Resolve(a, r, log, versionTaken).Finished? && Resolve(a, r, log, versionTaken).result == Ok(Answer(Strip(s), ReadReceipt(s).patches)))
      && (!Stranger(s.event.author, r.author) && !ReadReceipt(s).Read? ==>
            Resolve(a, r, log, versionTaken) == Finished(a, Err(LookupFailed)))
  {}

  /** What the store answers is remembered; nothing else of the actor changes. */
  lemma StoredIsRemembered(a: Actor, r: Request, log: seq<Stored>, versionTaken: bool)
    requires CacheOk(a) && Lookup(log, r.action).Some? && ReadReceipt(Lookup(log, r.action).value).Read?
    requires !Stranger(Lookup(log, r.action).value.event.author, r.author)
    ensures var s := Lookup(log, r.action).value; var answer := Answer(Strip(s), ReadReceipt(s).patches);
      && Look(a, r, log).actor == Resolve(a, r, log, versionTaken).actor
      && Remembers(Look(a, r, log).actor, r.action, answer) && CacheOk(Look(a, r, log).actor)
      && Look(a, r, log).actor.game == a.game && Look(a, r, log).actor.version == a.version
  {
    var s := Lookup(log, r.action).value;
    RememberKeepsCache(a, r.action, Answer(Strip(s), ReadReceipt(s).patches));
  }

  /** A whole request by a stranger for an action the actor remembers, or the store has: nothing
      is answered, changed or logged. */
  lemma StrangerIsDenied(a: Actor, r: Request, w: World)
    requires w.held && !a.closing && !IsPresence(r.command)
    requires if r.action in a.seen then Stranger(a.seen[r.action].event.author, r.author)
             else Lookup(w.lookup, r.action).Some? && Stranger(Lookup(w.lookup, r.action).value.event.author, r.author)
    ensures Submit(a, r, w) == (a, Err(NoPermission), None)
  {
    if r.action in a.seen { RememberedFor(a, r, w.held); } else { StoredFor(a, r, w.lookup); }
  }

  /** The sender asking again gets the answer of the one event there is, from wherever. */
  lemma SenderIsAnswered(log: seq<Stored>, a: Actor, r: Request, w: World)
    requires AgentOk(log, a) && w.held && !a.closing && !IsPresence(r.command) && w.lookup == log
    requires Lookup(log, r.action).Some? && ReadReceipt(Lookup(log, r.action).value).Read?
    requires !Stranger(Lookup(log, r.action).value.event.author, r.author)
    ensures var s := Lookup(log, r.action).value; var (b, result, stored) := Submit(a, r, w);
      result == Ok(Answer(Strip(s), ReadReceipt(s).patches)) && stored.None? && b.game == a.game && b.version == a.version
  {
    if r.action in a.seen {
      assert AnsweredBy(log, r.action, a.seen[r.action]);
      RememberedFor(a, r, w.held);
    } else {
      StoredFor(a, r, w.lookup);
    }
  }

  /** Over every run, no successful answer to a player is an event by another player. */
  lemma AnswersOwnOnly(rules: Rules, init: Game, steps: seq<Step>, i: nat)
    requires var s := Run(rules, init, steps); i < |s.replies| && s.replies[i].result.Ok?
    ensures var reply := Run(rules, init, steps).replies[i]; var author := reply.result.answer.event.author;
      author.None? || reply.author.None? || author.value == reply.author.value
  {
    RunOk(rules, init, steps);
    assert ReplyOk(Run(rules, init, steps).log, Run(rules, init, steps).replies[i]);
  }

  /** A successful answer for an action is about the log's event for it. */
  lemma AnswerIsLogged(s: System, i: nat, k: nat)
    requires Inv(s) && i < |s.replies| && s.replies[i].result.Ok?
    requires k < |s.log| && s.log[k].event.action == Some(s.replies[i].action)
    ensures s.replies[i].result.answer.event == Strip(s.log[k])
  {
    assert ReplyOk(s.log, s.replies[i]);
    LookupFinds(s.log, s.replies[i].action);
    var found := Lookup(s.log, s.replies[i].action).value;
    var j :| 0 <= j < |s.log| && s.log[j] == found;
    assert j == k;
  }

  /** Over every run, whatever is answered to a player for an action that the log holds under
      another player is a refusal. */
  lemma StrangersGetNothing(rules: Rules, init: Game, steps: seq<Step>, i: nat, k: nat)
    requires var s := Run(rules, init, steps);
      && i < |s.replies| && k < |s.log| && s.log[k].event.action == Some(s.replies[i].action)
      && Stranger(s.log[k].event.author, s.replies[i].author)
    ensures !Run(rules, init, steps).replies[i].result.Ok?
  {
    var s := Run(rules, init, steps);
    RunOk(rules, init, steps);
    if s.replies[i].result.Ok? { AnswerIsLogged(s, i, k); }
    assert ReplyOk(s.log, s.replies[i]);
  }
}
