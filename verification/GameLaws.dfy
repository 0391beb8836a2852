/**
  What the protocol needs to know about a game's appliers: replaying an event on a game like
  the one it was made on gives a game like the live one, at any clock reading, and undoing
  gives back a game like the one before. The game of this model obeys these laws.
 */
module GameLaws {
  import opened Common
  import opened Lifecycle
  import opened LifecycleReplay
  import opened Machine

  ghost predicate ReplayLaw(rules: Rules, s: Game, t: Game, c: Command, now: int, version: int, later: int) {
    GameOk(s) && GameOk(t) && Like(s, t) && rules.exec(s, c, now, version).Applied? && Followable(s, c) ==>
      var r := rules.exec(s, c, now, version); var t' := rules.replay(t, r.body, later);
      && t'.Some? && Like(r.game, t'.value)
      && (SameTurn(s, t) && !Turns(s, c) ==> SameTurn(r.game, t'.value))
      && (s == t && !Turns(s, c) ==> r.game == t'.value)
      && GameOk(r.game) && GameOk(t'.value)
  }

  ghost predicate ClockLaw(rules: Rules, s: Game, t: Game, c: Command, now: int, version: int, a: int, b: int) {
    GameOk(s) && GameOk(t) && Like(s, t) && rules.exec(s, c, now, version).Applied? && Followable(s, c) ==>
      var body := rules.exec(s, c, now, version).body;
      rules.replay(t, body, a) == rules.replay(t, body, b)
  }

  ghost predicate UndoLaw(rules: Rules, g: Game, c: Command, now: int, version: int) {
    GameOk(g) && Reversible(g, c) ==>
      match rules.exec(g, c, now, version)
      case Rejected(left) => left == g
      case Applied(after, _) =>
        var back := rules.undo(g, c, after);
        && GameOk(back) && Like(back, g) && SameTurn(back, g)
        && (!(c.Conceding? && after.life.finished != g.life.finished) ==> back == g)
  }

  ghost predicate TurnLaw(rules: Rules, g: Game, t: Game, body: Body, a: int, b: int) {
    Like(g, t) && SameTurn(g, t) && rules.replay(g, body, a).Some? && rules.replay(t, body, b).Some? ==>
      SameTurn(rules.replay(g, body, a).value, rules.replay(t, body, b).value)
  }

  ghost predicate ChatLaw(rules: Rules, g: Game, now: int) {
    rules.replay(g, ChatSent, now) == Some(g)
  }

  ghost predicate Lawful(rules: Rules) {
    && (forall s: Game, t: Game, c: Command, now: int, version: int, later: int :: ReplayLaw(rules, s, t, c, now, version, later))
    && (forall s: Game, t: Game, c: Command, now: int, version: int, a: int, b: int :: ClockLaw(rules, s, t, c, now, version, a, b))
    && (forall g: Game, c: Command, now: int, version: int :: UndoLaw(rules, g, c, now, version))
    && (forall g: Game, t: Game, body: Body, a: int, b: int :: TurnLaw(rules, g, t, body, a, b))
    && (forall g: Game, now: int :: ChatLaw(rules, g, now))
  }

  lemma LikeSymmetric(a: Game, b: Game)
    requires Like(a, b)
    ensures Like(b, a)
  {
    forall p | p in b.life.players ensures SamePlayer(b.life.players[p], a.life.players[p]) {
      assert SamePlayer(a.life.players[p], b.life.players[p]);
    }
  }

  lemma LikeTransitive(a: Game, b: Game, c: Game)
    requires Like(a, b) && Like(b, c)
    ensures Like(a, c)
  {
    forall p | p in a.life.players ensures SamePlayer(a.life.players[p], c.life.players[p]) {
      assert SamePlayer(a.life.players[p], b.life.players[p]);
      assert SamePlayer(b.life.players[p], c.life.players[p]);
    }
  }

  lemma AlikeTransitive(a: Game, b: Game, c: Game, x: Fit, y: Fit)
    requires Alike(a, b, x) && Alike(b, c, y)
    ensures Alike(a, c, Looser(x, y))
  {
    LikeTransitive(a, b, c);
  }

  function Looser(x: Fit, y: Fit): Fit {
    if x == Turned || y == Turned then Turned else if x == Warm then Warm else y
  }

  /** The clock read during replay can only show in a finish time. */
  lemma VoteClock(l: Life, e: VoteEvent, a: int, b: int)
    ensures var x, y := ReplayVote(l, e, a), ReplayVote(l, e, b);
      (x.None? <==> y.None?)
      && (x.Some? ==> y.value == x.value.(finishedAt := y.value.finishedAt) && (!x.value.finished ==> x == y))
  {}

  lemma ConcedeClock(l: Life, e: ConcedeEvent, a: int, b: int)
    requires IsConceded(l, e.player) || e.concededAt.Some?
    ensures var x, y := ReplayConcede(l, e, a), ReplayConcede(l, e, b);
      (x.None? <==> y.None?)
      && (x.Some? ==> y.value == x.value.(finishedAt := y.value.finishedAt) && (!x.value.finished ==> x == y))
  {}

  lemma SameFinish(x: Life, y: Life, z: Life)
    requires y == x.(finishedAt := y.finishedAt) && (!x.finished ==> x == y)
    requires Similar(z, x) && Similar(z, y)
    ensures x == y
  {}

  /** The event of a command that ran on `s`, replayed on one game like `s` at two clock readings. */
  lemma ClockIrrelevant(s: Game, t: Game, c: Command, now: int, version: int, a: int, b: int)
    requires GameOk(s) && GameOk(t) && Like(s, t)
    requires Exec(s, c, now, version).Applied? && Followable(s, c)
    ensures ReplayBody(t, Exec(s, c, now, version).body, a) == ReplayBody(t, Exec(s, c, now, version).body, b)
  {
    var r := Exec(s, c, now, version);
    ExecReplays(s, t, c, now, version, a);
    ExecReplays(s, t, c, now, version, b);
    match r.body
    case ChatSent =>
    case TableChanged(_, _) =>
    case TurnPassed(_) =>
    case VoteUpdated(e) =>
      VoteClock(t.life, e, a, b);
      SameFinish(ReplayVote(t.life, e, a).value, ReplayVote(t.life, e, b).value, r.game.life);
    case ConcessionMade(e) =>
      ConcedeEventTimed(s.life, c.concede, now);
      assert SamePlayer(s.life.players[e.player], t.life.players[e.player]);
      ConcedeClock(t.life, e, a, b);
      SameFinish(ReplayConcede(t.life, e, a).value, ReplayConcede(t.life, e, b).value, r.game.life);
  }

  lemma ConcedeEventTimed(l: Life, c: ConcedeCommand, now: int)
    requires ApplyConcede(l, c, now).Done?
    ensures var e := ApplyConcede(l, c, now).event; e.player in l.players && (IsConceded(l, e.player) || e.concededAt.Some?)
  {}

  /** The appliers of this model obey the laws. */
  lemma GameIsLawful()
    ensures Lawful(GAME)
  {
    forall s: Game, t: Game, c: Command, now: int, version: int, later: int
      ensures ReplayLaw(GAME, s, t, c, now, version, later)
    {
      if GameOk(s) && GameOk(t) && Like(s, t) && Exec(s, c, now, version).Applied? && Followable(s, c) {
        ExecReplays(s, t, c, now, version, later);
      }
    }
    forall s: Game, t: Game, c: Command, now: int, version: int, a: int, b: int
      ensures ClockLaw(GAME, s, t, c, now, version, a, b)
    {
      if GameOk(s) && GameOk(t) && Like(s, t) && Exec(s, c, now, version).Applied? && Followable(s, c) {
        ClockIrrelevant(s, t, c, now, version, a, b);
      }
    }
    forall g: Game, t: Game, body: Body, a: int, b: int ensures TurnLaw(GAME, g, t, body, a, b) {
      if Like(g, t) && SameTurn(g, t) && ReplayBody(g, body, a).Some? && ReplayBody(t, body, b).Some? {
        ReplayedTurns(g, t, body, a, b);
      }
    }
    forall g: Game, c: Command, now: int, version: int ensures UndoLaw(GAME, g, c, now, version) {
      if GameOk(g) && Reversible(g, c) {
        if Exec(g, c, now, version).Applied? { UndoKeeps(g, c, now, version); } else { RejectionKeeps(g, c, now, version); }
      }
    }
  }
}
