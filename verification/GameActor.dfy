/** The actor as the runtime runs it: fields updated in place, loops over the store's events. */
module GameActor {
  import opened Common
  import opened Machine
  import opened Patches
  import opened Receipts
  import opened Actor

  class RunningActor {
    var rules: Rules
    var game: Game
    var version: nat
    var seen: map<ActionId, Answer>
    var order: seq<ActionId>
    var closing: bool

    function Abs(): Actor
      reads this
    {
      Actor(rules, game, version, seen, order, closing)
    }

    constructor (a: Actor)
      ensures Abs() == a
    {
      rules, game, version, seen, order, closing := a.rules, a.game, a.version, a.seen, a.order, a.closing;
    }

    /** New keys go to the end; while there are too many, the oldest goes. */
    method RememberSeenAction(action: ActionId, answer: Answer)
      modifies this`seen, this`order
      ensures Abs() == Remember(old(Abs()), action, answer)
    {
      if action !in seen {
        order := order + [action];
      }
      seen := seen[action := answer];
      ghost var start := Cache(seen, order);
      while |order| > MAX_SEEN
        invariant Evict(Cache(seen, order)) == Evict(start)
        decreases |order|
      {
        seen := seen - {order[0]};
        order := order[1..];
      }
    }

    method CatchUpPersistedEvents(log: seq<Stored>, target: int, now: int) returns (ok: bool)
      modifies this`game, this`version
      ensures var (p, fine) := CatchUp(rules, Position(old(game), old(version)), After(log, old(version)), target, now);
        Position(game, version) == p && ok == fine
    {
      var events := After(log, version);
      ghost var goal := CatchUp(rules, Position(game, version), events, target, now);
      var i := 0;
      while i < |events| && events[i].event.version <= target
        invariant 0 <= i <= |events|
        invariant CatchUp(rules, Position(game, version), events[i..], target, now) == goal
      {
        assert events[i..][1..] == events[i + 1..];
        if events[i].event.version != version + 1 {
          return false;
        }
        var replayed := rules.replay(game, events[i].event.body, now);
        if replayed.None? {
          return false;
        }
        game := replayed.value;
        version := events[i].event.version;
        i := i + 1;
      }
      return true;
    }

    method RecoverAuthoritative(log: seq<Stored>, snapshot: Option<Position>, now: int) returns (ok: bool)
      modifies this`game, this`version
      ensures match Recovered(rules, Position(old(game), old(version)), log, snapshot, now)
        case Some(p) => ok && Position(game, version) == p
        case None => !ok && game == old(game) && version == old(version)
    {
      var own := Position(game, version);
      var recovered := RecoverFromBase(rules, own, log, now);
      if recovered.Some? && recovered.value.version > version {
        game, version := recovered.value.game, recovered.value.version;
        return true;
      }
      if snapshot.None? {
        return false;
      }
      recovered := RecoverFromBase(rules, snapshot.value, log, now);
      if recovered.None? || recovered.value.version <= version {
        return false;
      }
      game, version := recovered.value.game, recovered.value.version;
      return true;
    }

    method StoredDuplicateResult(log: seq<Stored>, action: ActionId, author: Option<PlayerId>) returns (d: Duplicate)
      modifies this`seen, this`order
      ensures d == StoredDuplicate(log, action, author)
      ensures Abs() == if d.Found? then Remember(old(Abs()), action, d.answer) else old(Abs())
    {
      d := StoredDuplicate(log, action, author);
      if d.Found? {
        RememberSeenAction(action, d.answer);
      }
    }

    /** One request, start to end; `w` is what the outside world answers at each read. */
    method Apply(request: Request, w: World) returns (result: Result, committed: Option<Stored>)
      modifies this
      ensures (Abs(), result, committed) == Submit(old(Abs()), request, w)
    {
      committed := None;
      if !w.held {
        return Err(NotOwner), None;
      }
      if closing {
        return Err(GameClosing), None;
      }
      var r := request;
      if IsPresence(r.command) {
        r := r.(base := if version < 1 then 1 else version);
      }
      if r.action in seen {
        var existing := seen[r.action];
        if !Matches(existing.event.author, r.author) {
          return Err(NoPermission), None;
        }
        return Ok(existing), None;
      }
      if !IsPresence(r.command) {
        var d := StoredDuplicateResult(w.lookup, r.action, r.author);
        match d {
          case Denied => return Err(NoPermission), None;
          case Broken => return Err(LookupFailed), None;
          case Found(answer) => return Ok(answer), None;
          case NotFound =>
        }
      }
      result, committed := ApplyAdmitted(r, w);
    }

    method ApplyAdmitted(r: Request, w: World) returns (result: Result, committed: Option<Stored>)
      modifies this
      ensures (Abs(), result, committed) == FromAdmit(old(Abs()), r, w)
    {
      if !Permits(game, r) {
        return Err(NoPermission), None;
      }
      if RepeatsConcession(game, r.command) {
        if r.base > version {
          return Err(VersionConflict), None;
        }
        return Repeated(RepeatedAnswer(Abs(), r)), None;
      }
      if game.life.finished {
        return Err(GameFinished), None;
      }
      if r.base > version {
        var caughtUp := CatchUpPersistedEvents(w.tail, r.base, r.now);
        if !caughtUp {
          return Err(VersionConflict), None;
        }
      }
      if r.base < version {
        var accepted := CanAcceptStaleBase(w.gap, r.base, version);
        if !accepted {
          return Err(VersionConflict), None;
        }
      }
      if r.base > version {
        return Err(VersionConflict), None;
      }
      if r.command.Unknown? {
        return Err(UnknownCommand), None;
      }
      result, committed := ExecuteAndAppend(r, w);
    }

    method ExecuteAndAppend(r: Request, w: World) returns (result: Result, committed: Option<Stored>)
      modifies this
      ensures (Abs(), result, committed) == FromCommit(old(Abs()), r, w)
    {
      var before := game;
      var execution := rules.exec(game, r.command, r.now, version + 1);
      game := execution.game;
      if execution.Rejected? {
        return Err(CommandRefused), None;
      }
      result, committed := AppendOrUndo(r, w, before, rules.undo(before, r.command, game), execution.body);
    }

    method AppendOrUndo(r: Request, w: World, ghost before: Game, undone: Game, body: Body)
      returns (result: Result, committed: Option<Stored>)
      modifies this
      ensures (Abs(), result, committed)
        == AfterAppend(Append(old(Abs()).(game := before), r, old(game), undone, body, w.head, w.heldAgain, w.fault), r, w)
    {
      var event := Event(version + 1, body, r.author, Some(r.action));
      var patches := EnvelopesOf(r.emitted, version + 1, r.action);
      if !w.heldAgain {
        game := undone;
        return Err(NotOwner), None;
      }
      if w.fault == LostBefore {
        game := undone;
        return Err(AppendFailed), None;
      }
      var versionTaken := VersionTaken(w.head, version + 1);
      if versionTaken || Lookup(w.head, r.action).Some? {
        game := undone;
        result := ResolveDuplicate(r, w, versionTaken);
        return result, None;
      }
      committed := Some(Attach(event, patches));
      if w.fault == LostAfter {
        game := undone;
        return Err(AppendFailed), committed;
      }
      version := version + 1;
      RememberSeenAction(r.action, Answer(event, patches));
      result := Ok(Answer(event, patches));
    }

    method ResolveDuplicate(r: Request, w: World, versionTaken: bool) returns (result: Result)
      modifies this
      ensures match Resolve(old(Abs()), r, w.again, versionTaken)
        case Finished(b, answer) => Abs() == b && result == answer
        case At(b, _, _) => Finished(Abs(), result) == Recover(b, w.recovery, w.snapshot, r.now)
    {
      var d := StoredDuplicateResult(w.again, r.action, r.author);
      match d {
        case Denied => return Err(NoPermission);
        case Broken => return Err(LookupFailed);
        case Found(answer) => return Ok(answer);
        case NotFound =>
      }
      if versionTaken {
        var recovered := RecoverAuthoritative(w.recovery, w.snapshot, r.now);
        return Err(VersionConflict);
      }
      return Err(AppendFailed);
    }
  }

  method RecoverFromBase(rules: Rules, base: Position, log: seq<Stored>, now: int) returns (r: Option<Position>)
    ensures r == RecoverFrom(rules, base, After(log, base.version), now)
  {
    var events := After(log, base.version);
    var p := base;
    var i := 0;
    while i < |events|
      invariant 0 <= i <= |events|
      invariant RecoverFrom(rules, p, events[i..], now) == RecoverFrom(rules, base, events, now)
    {
      assert events[i..][1..] == events[i + 1..];
      if events[i].event.version != p.version + 1 {
        return None;
      }
      var replayed := rules.replay(p.game, events[i].event.body, now);
      if replayed.None? {
        return None;
      }
      p := Position(replayed.value, p.version + 1);
      i := i + 1;
    }
    return Some(p);
  }

  /** Whether a command based on an older version may run at this one. */
  method CanAcceptStaleBase(log: seq<Stored>, base: int, version: int) returns (accepted: bool)
    requires base < version
    ensures accepted == StaleScan(After(log, base), base + 1, version)
  {
    var events := After(log, base);
    var expected := base + 1;
    var i := 0;
    while i < |events| && events[i].event.version <= version
      invariant 0 <= i <= |events|
      invariant StaleScan(events[i..], expected, version) == StaleScan(events, base + 1, version)
    {
      assert events[i..][1..] == events[i + 1..];
      if events[i].event.version != expected || !AllowsStaleBase(events[i].event.body) {
        return false;
      }
      expected := expected + 1;
      i := i + 1;
    }
    return expected == version + 1;
  }
}
