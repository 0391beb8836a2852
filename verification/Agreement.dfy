/**
  Replaying a stored event on two games that agree up to the actor-hot fields, at any two
  clock readings, gives games that agree, and equal games give equal games.
 */
module Agreement {
  import opened Common
  import opened Lifecycle
  import opened LifecycleReplay
  import opened Machine
  import opened GameLaws
  import opened Receipts
  import opened Actor

  /** The body came from outside, or from a followable command that ran on a game like `g`. */
  ghost predicate Sourced(rules: Rules, g: Game, body: Body) {
    body.ChatSent? || exists s: Game, c: Command, now: int, version: int ::
      GameOk(s) && Like(s, g) && rules.exec(s, c, now, version).Applied? && Followable(s, c) && rules.exec(s, c, now, version).body == body
  }

  /** Any two games like the one the event was made on follow it to games that fit each other
      as well as they did before. */
  lemma BodyAgrees(rules: Rules, g: Game, t: Game, body: Body, a: int, b: int, fit: Fit)
    requires Lawful(rules) && GameOk(g) && GameOk(t) && Alike(t, g, fit) && Sourced(rules, g, body)
    ensures var x, y := rules.replay(g, body, a), rules.replay(t, body, b);
      x.Some? && y.Some? && GameOk(x.value) && GameOk(y.value) && Alike(y.value, x.value, fit)
  {
    assert TurnLaw(rules, t, g, body, b, a);
    if body.ChatSent? {
      assert ChatLaw(rules, g, a) && ChatLaw(rules, t, b);
    } else {
      var s: Game, c: Command, now: int, version: int :|
        GameOk(s) && Like(s, g) && rules.exec(s, c, now, version).Applied? && Followable(s, c) && rules.exec(s, c, now, version).body == body;
      LikeSymmetric(t, g);
      LikeTransitive(s, g, t);
      assert ReplayLaw(rules, s, g, c, now, version, a);
      assert ReplayLaw(rules, s, t, c, now, version, b);
      var x, y := rules.replay(g, body, a).value, rules.replay(t, body, b).value;
      LikeSymmetric(rules.exec(s, c, now, version).game, y);
      LikeTransitive(y, rules.exec(s, c, now, version).game, x);
      assert ClockLaw(rules, s, g, c, now, version, a, b);
    }
  }

  // ---------------------------------------------------------------- the log

  const CLOCK := 0

  /** The game a log prefix stands for. */
  ghost function ReplayOf(rules: Rules, init: Game, log: seq<Stored>): Option<Game> {
    if log == [] then Some(init)
    else match ReplayOf(rules, init, log[..|log| - 1])
      case None => None
      case Some(g) => rules.replay(g, log[|log| - 1].event.body, CLOCK)
  }

  ghost predicate GoodLog(rules: Rules, init: Game, log: seq<Stored>) {
    && Lawful(rules) && GameOk(init)
    && Contiguous(log)
    && forall k | 0 <= k < |log| :: ReplayOf(rules, init, log[..k]).Some? && Sourced(rules, ReplayOf(rules, init, log[..k]).value, log[k].event.body)
  }

  lemma {:induction false} GoodLogReplays(rules: Rules, init: Game, log: seq<Stored>)
    requires GoodLog(rules, init, log)
    ensures ReplayOf(rules, init, log).Some? && GameOk(ReplayOf(rules, init, log).value)
  {
    if log != [] {
      var n := |log| - 1;
      GoodPrefix(rules, init, log, n);
      GoodLogReplays(rules, init, log[..n]);
      var g := ReplayOf(rules, init, log[..n]).value;
      BodyAgrees(rules, g, g, log[n].event.body, CLOCK, CLOCK, Same);
    }
  }

  lemma GoodPrefix(rules: Rules, init: Game, log: seq<Stored>, k: nat)
    requires GoodLog(rules, init, log) && k <= |log|
    ensures GoodLog(rules, init, log[..k])
  {
    forall j | 0 <= j < k
      ensures ReplayOf(rules, init, log[..k][..j]).Some? && Sourced(rules, ReplayOf(rules, init, log[..k][..j]).value, log[..k][j].event.body)
    {
      assert log[..k][..j] == log[..j];
    }
  }

  /** A position in the log: a game that fits the replay of that many events. */
  ghost predicate Tracks(rules: Rules, init: Game, log: seq<Stored>, p: Position, fit: Fit) {
    && p.version <= |log|
    && GameOk(p.game)
    && ReplayOf(rules, init, log[..p.version]).Some?
    && Alike(p.game, ReplayOf(rules, init, log[..p.version]).value, fit)
  }

  /** One more event. */
  lemma TracksNext(rules: Rules, init: Game, log: seq<Stored>, p: Position, fit: Fit, now: int)
    requires GoodLog(rules, init, log) && Tracks(rules, init, log, p, fit) && p.version < |log|
    ensures var next := rules.replay(p.game, log[p.version].event.body, now);
      next.Some? && Tracks(rules, init, log, Position(next.value, p.version + 1), fit)
  {
    var v := p.version;
    assert log[..v + 1][..v] == log[..v];
    GoodPrefix(rules, init, log, v);
    GoodLogReplays(rules, init, log[..v]);
    BodyAgrees(rules, ReplayOf(rules, init, log[..v]).value, p.game, log[v].event.body, CLOCK, now, fit);
  }

  /** Catching up from a position reaches the target, or the end of the log. */
  lemma {:induction false} CatchUpTracks(rules: Rules, init: Game, log: seq<Stored>, p: Position, fit: Fit, target: int, now: int)
    requires GoodLog(rules, init, log) && Tracks(rules, init, log, p, fit) && target >= p.version
    ensures var (q, ok) := CatchUp(rules, p, log[p.version..], target, now);
      ok && Tracks(rules, init, log, q, fit) && q.version == if target <= |log| then target else |log|
    decreases |log| - p.version
  {
    if p.version < |log| && p.version + 1 <= target {
      var events := log[p.version..];
      assert events[0] == log[p.version] && events[1..] == log[p.version + 1..];
      TracksNext(rules, init, log, p, fit, now);
      CatchUpTracks(rules, init, log, Position(rules.replay(p.game, events[0].event.body, now).value, p.version + 1), fit, target, now);
    }
  }

  /** Recovery from a position reaches the end of the log. */
  lemma {:induction false} RecoverTracks(rules: Rules, init: Game, log: seq<Stored>, p: Position, fit: Fit, now: int)
    requires GoodLog(rules, init, log) && Tracks(rules, init, log, p, fit)
    ensures var q := RecoverFrom(rules, p, log[p.version..], now);
      q.Some? && q.value.version == |log| && Tracks(rules, init, log, q.value, fit)
    decreases |log| - p.version
  {
    if p.version < |log| {
      var events := log[p.version..];
      assert events[0] == log[p.version] && events[1..] == log[p.version + 1..];
      TracksNext(rules, init, log, p, fit, now);
      RecoverTracks(rules, init, log, Position(rules.replay(p.game, events[0].event.body, now).value, p.version + 1), fit, now);
    }
  }

  /** A longer log leaves positions where they are. */
  lemma TracksLonger(rules: Rules, init: Game, log: seq<Stored>, more: seq<Stored>, p: Position, fit: Fit)
    requires Tracks(rules, init, log, p, fit)
    ensures Tracks(rules, init, log + more, p, fit)
  {
    assert (log + more)[..p.version] == log[..p.version];
  }
}
