/**
  The path of one request through an actor, as the stages between its reads of the shared log.
  Each stage is a function of the actor and of the log at that moment.
 */
module Actor {
  import opened Common
  import opened Lifecycle
  import opened Machine
  import opened Patches
  import opened Receipts

  datatype Answer = Answer(event: Event, patches: seq<Envelope>)

  /** `rules` are the appliers; `seen` and `order` are the seen-action cache. */
  datatype Actor = Actor(rules: Rules, game: Game, version: nat, seen: map<ActionId, Answer>, order: seq<ActionId>, closing: bool)

  /** `permitted` stands for the per-command ownership tables; `emitted` for what the applier
      emits besides the event. */
  datatype Request = Request(
    command: Command, base: int, action: ActionId, author: Option<PlayerId>,
    permitted: bool, now: int, emitted: seq<Emission>)

  datatype Rejection =
    | NotOwner | GameClosing | NoPermission | LookupFailed | GameFinished
    | VersionConflict | UnknownCommand | CommandRefused | AppendFailed

  /** `Repeated` is the answer to a repeated concession: a success that is not logged. */
  datatype Result = Ok(answer: Answer) | Repeated(answer: Answer) | Err(rejection: Rejection)

  datatype Stage = Looking | Admitting | Checking | Committing | Resolving(versionTaken: bool) | Recovering

  datatype Progress = Finished(actor: Actor, result: Result) | At(actor: Actor, request: Request, stage: Stage)

  /** How an append may fail besides a duplicate: before or after the store committed it. */
  datatype Fault = NoFault | LostBefore | LostAfter

  const MAX_SEEN := 512

  // -------------------------------------------------------------- seen cache

  datatype Cache = Cache(seen: map<ActionId, Answer>, order: seq<ActionId>)

  function Evict(c: Cache): Cache
    decreases |c.order|
  {
    if |c.order| <= MAX_SEEN then c
    else Evict(Cache(c.seen - {c.order[0]}, c.order[1..]))
  }

  function Remember(a: Actor, action: ActionId, answer: Answer): Actor {
    var order := if action in a.seen then a.order else a.order + [action];
    var c := Evict(Cache(a.seen[action := answer], order));
    a.(seen := c.seen, order := c.order)
  }

  // ------------------------------------------------------------------- store

  function Lookup(log: seq<Stored>, action: ActionId): Option<Stored> {
    if log == [] then None
    else if log[0].event.action == Some(action) then Some(log[0])
    else Lookup(log[1..], action)
  }

  predicate VersionTaken(log: seq<Stored>, v: nat) {
    exists s :: s in log && s.event.version == v
  }

  predicate Matches(stored: Option<PlayerId>, asking: Option<PlayerId>) {
    stored.None? || asking.None? || stored == asking
  }

  datatype Duplicate = NotFound | Denied | Broken | Found(answer: Answer)

  /** The durable lookup of an action id. */
  function StoredDuplicate(log: seq<Stored>, action: ActionId, author: Option<PlayerId>): Duplicate {
    match Lookup(log, action)
    case None => NotFound
    case Some(s) =>
      if !Matches(s.event.author, author) then Denied
      else match ReadReceipt(s)
        case Read(patches) => Found(Answer(Strip(s), patches))
        case _ => Broken
  }

  // ----------------------------------------------------------------- replay

  datatype Position = Position(game: Game, version: nat)

  /** Replays events up to `target`, in place and one by one; stops at the first that does
      not fit. */
  function CatchUp(rules: Rules, p: Position, events: seq<Stored>, target: int, now: int): (Position, bool)
    decreases |events|
  {
    if events == [] || events[0].event.version > target then (p, true)
    else if events[0].event.version != p.version + 1 then (p, false)
    else match rules.replay(p.game, events[0].event.body, now)
      case None => (p, false)
      case Some(g) => CatchUp(rules, Position(g, p.version + 1), events[1..], target, now)
  }

  /** Replays all events on a copy, or nothing. */
  function RecoverFrom(rules: Rules, p: Position, events: seq<Stored>, now: int): Option<Position>
    decreases |events|
  {
    if events == [] then Some(p)
    else if events[0].event.version != p.version + 1 then None
    else match rules.replay(p.game, events[0].event.body, now)
      case None => None
      case Some(g) => RecoverFrom(rules, Position(g, p.version + 1), events[1..], now)
  }

  /** A restart replays the tail without the exception actors make for messages: one message in
      it and there is no actor. */
  function Restart(rules: Rules, p: Position, events: seq<Stored>, now: int): Option<Position> {
    if exists s :: s in events && s.event.body.ChatSent? then None else RecoverFrom(rules, p, events, now)
  }

  /** After a version conflict: the missing tail on the actor's own state, and only if that
      leads nowhere the latest snapshot and its tail. */
  function Recovered(rules: Rules, own: Position, log: seq<Stored>, snapshot: Option<Position>, now: int): Option<Position> {
    match RecoverFrom(rules, own, After(log, own.version), now)
    case Some(p) => if p.version > own.version then Some(p) else FromSnapshot(rules, own, log, snapshot, now)
    case None => FromSnapshot(rules, own, log, snapshot, now)
  }

  function FromSnapshot(rules: Rules, own: Position, log: seq<Stored>, snapshot: Option<Position>, now: int): Option<Position> {
    if snapshot.None? then None
    else match RecoverFrom(rules, snapshot.value, After(log, snapshot.value.version), now)
      case Some(p) => if p.version > own.version then Some(p) else None
      case None => None
  }

  predicate AllowsStaleBase(b: Body) {
    b.ChatSent? || b.VoteUpdated?
  }

  /** Whether the events after `base`, up to `version`, are contiguous and all of a kind a
      stale base may skip. */
  function StaleScan(events: seq<Stored>, expected: int, version: int): bool {
    if events == [] || events[0].event.version > version then expected == version + 1
    else if events[0].event.version != expected || !AllowsStaleBase(events[0].event.body) then false
    else StaleScan(events[1..], expected + 1, version)
  }

  // ------------------------------------------------------------------ stages

  predicate IsPresence(c: Command) {
    c.Voting? && c.vote.origin == Gateway
  }

  /** Presence runs at whatever version the actor has. */
  function Rebased(a: Actor, r: Request): Request {
    if IsPresence(r.command) then r.(base := if a.version < 1 then 1 else a.version) else r
  }

  predicate Permits(g: Game, r: Request) {
    if r.command.Voting? && (r.command.vote.origin == Gateway || r.command.vote.origin == ActorTick) then true
    else match r.author
      case None => false
      case Some(p) =>
        if r.command.Conceding? then r.command.concede.player == p
        else if r.command.Passing? then IsActive(g.life, p) && (g.life.turn.active.None? || g.life.turn.active == Some(p))
        else IsActive(g.life, p) && r.permitted
  }

  predicate RepeatsConcession(g: Game, c: Command) {
    c.Conceding? && IsConceded(g.life, c.concede.player)
  }

  function RepeatedAnswer(a: Actor, r: Request): Answer
    requires RepeatsConcession(a.game, r.command)
  {
    var p := r.command.concede.player;
    Answer(Event(a.version, ConcessionMade(ConcedeEvent(p, a.game.life.players[p].concededAt, None, None)), r.author, Some(r.action)),
           EnvelopesOf(r.emitted, a.version, r.action))
  }

  function Begin(a: Actor, r: Request, held: bool): Progress {
    var r := Rebased(a, r);
    if !held then Finished(a, Err(NotOwner))
    else if a.closing then Finished(a, Err(GameClosing))
    else if r.action in a.seen then
      if !Matches(a.seen[r.action].event.author, r.author) then Finished(a, Err(NoPermission))
      else Finished(a, Ok(a.seen[r.action]))
    else if IsPresence(r.command) then At(a, r, Admitting)
    else At(a, r, Looking)
  }

  function Look(a: Actor, r: Request, log: seq<Stored>): Progress {
    match StoredDuplicate(log, r.action, r.author)
    case NotFound => At(a, r, Admitting)
    case Denied => Finished(a, Err(NoPermission))
    case Broken => Finished(a, Err(LookupFailed))
    case Found(answer) => Finished(Remember(a, r.action, answer), Ok(answer))
  }

  /** Permission, repeated concession and the finished game are looked at before the actor
      catches up with the log. */
  function Admit(a: Actor, r: Request, log: seq<Stored>): Progress {
    if !Permits(a.game, r) then Finished(a, Err(NoPermission))
    else if RepeatsConcession(a.game, r.command) then
      if r.base > a.version then Finished(a, Err(VersionConflict)) else Finished(a, Repeated(RepeatedAnswer(a, r)))
    else if a.game.life.finished then Finished(a, Err(GameFinished))
    else if r.base > a.version then
      var (p, ok) := CatchUp(a.rules, Position(a.game, a.version), After(log, a.version), r.base, r.now);
      var a' := a.(game := p.game, version := p.version);
      if ok then At(a', r, Checking) else Finished(a', Err(VersionConflict))
    else At(a, r, Checking)
  }

  function Check(a: Actor, r: Request, log: seq<Stored>): Progress {
    if r.base < a.version && !StaleScan(After(log, r.base), r.base + 1, a.version) then Finished(a, Err(VersionConflict))
    else if r.base > a.version then Finished(a, Err(VersionConflict))
    else if r.command.Unknown? then Finished(a, Err(UnknownCommand))
    else At(a, r, Committing)
  }

  function EventOf(a: Actor, r: Request, body: Body): Event {
    Event(a.version + 1, body, r.author, Some(r.action))
  }

  function AnswerOf(a: Actor, r: Request, body: Body): Answer {
    Answer(EventOf(a, r, body), EnvelopesOf(r.emitted, a.version + 1, r.action))
  }

  /** Appends the event of a command that led to `after`; `undone` is what the rollback gives
      when the append does not succeed. The second part is what the store has committed. */
  function Append(a: Actor, r: Request, after: Game, undone: Game, body: Body, log: seq<Stored>, held: bool, fault: Fault)
    : (Progress, Option<Stored>)
  {
    var back := a.(game := undone);
    var answer := AnswerOf(a, r, body);
    if !held then (Finished(back, Err(NotOwner)), None)
    else if fault == LostBefore then (Finished(back, Err(AppendFailed)), None)
    else if VersionTaken(log, a.version + 1) then (At(back, r, Resolving(true)), None)
    else if Lookup(log, r.action).Some? then (At(back, r, Resolving(false)), None)
    else if fault == LostAfter then (Finished(back, Err(AppendFailed)), Some(Attach(answer.event, answer.patches)))
    else
      (Finished(Remember(a.(game := after, version := a.version + 1), r.action, answer), Ok(answer)),
       Some(Attach(answer.event, answer.patches)))
  }

  function CommitOf(a: Actor, r: Request, e: Execution, log: seq<Stored>, held: bool, fault: Fault): (Progress, Option<Stored>) {
    match e
    case Rejected(g) => (Finished(a.(game := g), Err(CommandRefused)), None)
    case Applied(g, body) => Append(a, r, g, a.rules.undo(a.game, r.command, g), body, log, held, fault)
  }

  function Commit(a: Actor, r: Request, log: seq<Stored>, held: bool, fault: Fault): (Progress, Option<Stored>) {
    CommitOf(a, r, a.rules.exec(a.game, r.command, r.now, a.version + 1), log, held, fault)
  }

  /** After a duplicate: another actor may have appended this very action. */
  function Resolve(a: Actor, r: Request, log: seq<Stored>, versionTaken: bool): Progress {
    match StoredDuplicate(log, r.action, r.author)
    case Denied => Finished(a, Err(NoPermission))
    case Broken => Finished(a, Err(LookupFailed))
    case Found(answer) => Finished(Remember(a, r.action, answer), Ok(answer))
    case NotFound => if versionTaken then At(a, r, Recovering) else Finished(a, Err(AppendFailed))
  }

  function Recover(a: Actor, log: seq<Stored>, snapshot: Option<Position>, now: int): Progress {
    match Recovered(a.rules, Position(a.game, a.version), log, snapshot, now)
    case None => Finished(a, Err(VersionConflict))
    case Some(p) => Finished(a.(game := p.game, version := p.version), Err(VersionConflict))
  }

  // ------------------------------------------------------- one whole request

  /** What a request sees of the outside world, stage by stage. */
  datatype World = World(
    held: bool, lookup: seq<Stored>, tail: seq<Stored>, gap: seq<Stored>,
    heldAgain: bool, fault: Fault, head: seq<Stored>, again: seq<Stored>, recovery: seq<Stored>, snapshot: Option<Position>)

  /** Nobody else reads or writes the log meanwhile, and no append fails. */
  function Undisturbed(log: seq<Stored>): World {
    World(true, log, log, log, true, NoFault, log, log, log, None)
  }

  function FromCommit(a: Actor, r: Request, w: World): (Actor, Result, Option<Stored>) {
    AfterAppend(Commit(a, r, w.head, w.heldAgain, w.fault), r, w)
  }

  /** The stages after an append. */
  function AfterAppend(appended: (Progress, Option<Stored>), r: Request, w: World): (Actor, Result, Option<Stored>) {
    var (p, stored) := appended;
    match p
    case Finished(a', result) => (a', result, stored)
    case At(a', _, stage) =>
      match Resolve(a', r, w.again, stage.Resolving? && stage.versionTaken)
      case Finished(b, result) => (b, result, stored)
      case At(b, _, _) =>
        match Recover(b, w.recovery, w.snapshot, r.now)
        case Finished(d, result) => (d, result, stored)
        case At(d, _, _) => (d, Err(VersionConflict), stored)
  }

  function FromAdmit(a: Actor, r: Request, w: World): (Actor, Result, Option<Stored>) {
    match Admit(a, r, w.tail)
    case Finished(a', result) => (a', result, None)
    case At(b, _, _) =>
      match Check(b, r, w.gap)
      case Finished(b', result) => (b', result, None)
      case At(d, _, _) => FromCommit(d, r, w)
  }

  /** The actor, its result, and the event the store has committed, if any. */
  function Submit(a: Actor, r: Request, w: World): (Actor, Result, Option<Stored>) {
    match Begin(a, r, w.held)
    case Finished(a', result) => (a', result, None)
    case At(b, r', stage) =>
      if stage.Admitting? then FromAdmit(b, r', w)
      else
        match Look(b, r', w.lookup)
        case Finished(b', result) => (b', result, None)
        case At(d, _, _) => FromAdmit(d, r', w)
  }
}
