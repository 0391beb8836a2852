/**
  Live execution and replay of lifecycle events are different code. Here they are
  shown to agree, also between a live actor and a replayed log that differ in the
  fields an actor may change without an event.
 */
module LifecycleReplay {
  import opened Common
  import opened Lifecycle

  /** What replay relies on: unfinished games keep two active players. */
  ghost predicate LifeInv(l: Life) {
    !l.finished ==> |ActiveSet(l)| >= 2
  }

  /** A ballot that says its target was expelled is right. */
  predicate Confirmed(l: Life, p: PlayerId) {
    HasStatus(l, p, ResolvedExpel) ==> IsConceded(l, p)
  }

  /** The carried ballots say what the carried status says. */
  predicate Confirms(e: VoteEvent) {
    e.target in e.ballots && e.ballots[e.target].status == ResolvedExpel
  }

  /** Carried fields an event can repeat, but for the turn: no raised fence, and no expulsion
      that only the status, or only the ballot, speaks of. */
  predicate CarriedFollowable(l: Life, e: VoteEvent)
    requires e.target in l.players
  {
    && (e.generation.Some? ==> e.generation.value <= Generation(l, e.target))
    && (Expels(e) && !Confirms(e) ==>
          IsConceded(l, e.target) && (e.concededAt.Some? ==> e.concededAt == l.players[e.target].concededAt))
    && (!Expels(e) && Confirms(e) ==> IsConceded(l, e.target))
  }

  /** The command writes a turn that its event does not give back. */
  predicate VoteTurns(l: Life, c: VoteCommand) {
    c.signal.Carried? && c.signal.fields.turn.Some? && c.signal.fields.turn.value != l.turn
  }

  predicate CarriedTrackable(l: Life, e: VoteEvent)
    requires e.target in l.players
  {
    CarriedFollowable(l, e) && (e.turn.Some? ==> e.turn.value == l.turn)
  }

  predicate VoteTrackable(l: Life, c: VoteCommand) {
    VoteFollowable(l, c) && !VoteTurns(l, c)
  }

  /** The lifecycle commands whose event says enough, but perhaps for the turn. */
  predicate VoteFollowable(l: Life, c: VoteCommand) {
    match c.signal
    case GoOffline(connected) => connected != [] || Confirmed(l, c.target)
    case GoOnline => Confirmed(l, c.target)
    case Timeout => Confirmed(l, c.target)
    case Cast(_, _, _) => true
    case Carried(fields) => c.target in l.players ==> CarriedFollowable(l, fields.(target := c.target))
  }

  ghost predicate SamePlayer(a: Player, b: Player) {
    a.standing == b.standing && a.concededAt == b.concededAt
  }

  /** Equality up to the turn and the actor-hot fields: ballots, presence, and, while the game
      runs, a winner and finish time left over from an undone concession. */
  ghost predicate Similar(a: Life, b: Life) {
    && a.players.Keys == b.players.Keys
    && (forall p | p in a.players :: SamePlayer(a.players[p], b.players[p]))
    && a.generations == b.generations
    && a.finished == b.finished
    && (a.finished ==> a.winner == b.winner && a.finishedAt == b.finishedAt)
  }

  lemma SimilarActive(a: Life, b: Life)
    requires Similar(a, b)
    ensures ActiveSet(a) == ActiveSet(b)
  {
    assert forall p | p in a.players :: SamePlayer(a.players[p], b.players[p]);
  }

  lemma ConcedeShrinks(l: Life, p: PlayerId, at: Option<int>)
    requires p in l.players
    ensures ActiveSet(Concede(l, p, at)) == ActiveSet(l) - {p}
    ensures |ActiveSet(Concede(l, p, at))| >= |ActiveSet(l)| - 1
  {
    var l' := Concede(l, p, at);
    assert ActiveSet(l') == ActiveSet(l) - {p};
    assert p in ActiveSet(l) ==> ActiveSet(l) == ActiveSet(l') + {p};
  }

  /** The finish check agrees on both sides when replay is given the recorded time. */
  lemma FinishAgrees(s: Life, t: Life, at: int, later: int)
    requires Similar(s, t)
    requires !s.finished ==> |ActiveSet(s)| >= 1
    ensures var (s', finishedAt) := Finish(s, at);
            var t' := Finish(t, Or(finishedAt, later)).0;
            && Similar(s', t') && (s == t ==> s' == t') && LifeInv(s') && LifeInv(t')
            && s'.turn == s.turn && t'.turn == t.turn
  {
    SimilarActive(s, t);
    var (s', finishedAt) := Finish(s, at);
    var t' := Finish(t, Or(finishedAt, later)).0;
    assert ActiveSet(s') == ActiveSet(s) && ActiveSet(t') == ActiveSet(t);
  }

  lemma HandOverKeeps(l: Life, p: PlayerId)
    ensures var l' := HandOver(l, p).0;
            && l' == l.(turn := l'.turn) && ActiveSet(l') == ActiveSet(l)
  {
    var l' := HandOver(l, p).0;
    assert ActiveSet(l') == ActiveSet(l);
  }

  lemma ConcedeSimilar(s: Life, t: Life, p: PlayerId, at: Option<int>)
    requires Similar(s, t) && p in s.players
    ensures Similar(Concede(s, p, at), Concede(t, p, at))
    ensures s.turn == t.turn ==> HandOver(Concede(s, p, at), p).1 == HandOver(Concede(t, p, at), p).1
  {
    var s', t' := Concede(s, p, at), Concede(t, p, at);
    assert forall q | q in s'.players :: q in s.players && (q != p ==> SamePlayer(s.players[q], t.players[q]));
    assert Similar(s', t');
    SimilarActive(s', t');
  }

  /** A concession, replayed from its own event on a log that agrees with the actor
      up to turn and hot fields, ends in the actor's state up to those, with the same turn
      or exactly if it started so; the clock read during replay does not matter. */
  lemma ConcedeReplays(s: Life, t: Life, c: ConcedeCommand, now: int, later: int)
    requires LifeInv(s) && LifeInv(t) && Similar(s, t)
    requires ApplyConcede(s, c, now).Done?
    ensures var r := ApplyConcede(s, c, now);
            var t' := ReplayConcede(t, r.event, later);
            && t'.Some? && Similar(r.life, t'.value)
            && (s.turn == t.turn ==> r.life.turn == t'.value.turn)
            && (s == t ==> r.life == t'.value)
            && LifeInv(r.life) && LifeInv(t'.value)
  {
    assert SamePlayer(s.players[c.player], t.players[c.player]);
    if s.players[c.player].standing == Active {
      var at := Some(Or(c.at, now));
      var s1, t1 := Concede(s, c.player, at), Concede(t, c.player, at);
      ConcedeSimilar(s, t, c.player, at);
      ConcedeSimilar(t, t, c.player, at);
      ConcedeShrinks(s, c.player, at);
      HandOverKeeps(s1, c.player);
      HandOverKeeps(t1, c.player);
      var s2, t2 := HandOver(s1, c.player).0, HandOver(t1, c.player).0;
      assert Similar(s2, t2);
      FinishAgrees(s2, t2, Or(c.finishAt, now), later);
    }
  }

  lemma SetOnlineKeeps(l: Life, p: PlayerId, b: bool)
    ensures Similar(SetOnline(l, p, b), l)
    ensures ActiveSet(SetOnline(l, p, b)) == ActiveSet(l)
  {
    var l' := SetOnline(l, p, b);
    assert Similar(l', l);
    SimilarActive(l', l);
  }

  /** What any replayed `disconnect.vote.updated` event amounts to when it neither
      expels nor hands over the turn and the game still has two active players. */
  lemma QuietReplay(t: Life, e: VoteEvent, later: int)
    requires LifeInv(t) && e.target in t.players && e.turn.None? && e.concededAt.None?
    requires e.generation.Some? ==> e.generation.value >= 1
    requires e.status == Some(ResolvedExpel) ==> IsConceded(t, e.target)
    ensures var t0 :=
              if e.generation.Some? && e.generation.value > Generation(t, e.target)
              then t.(generations := t.generations[e.target := e.generation.value], ballots := e.ballots)
              else t.(ballots := e.ballots);
            var t1 := if e.online.Some? then SetOnline(t0, e.target, e.online.value) else t0;
            ReplayVote(t, e, later) == Some(t1) && ActiveSet(t1) == ActiveSet(t)
  {
    var t0 :=
      if e.generation.Some? && e.generation.value > Generation(t, e.target)
      then t.(generations := t.generations[e.target := e.generation.value], ballots := e.ballots)
      else t.(ballots := e.ballots);
    var t1 := if e.online.Some? then SetOnline(t0, e.target, e.online.value) else t0;
    assert ActiveSet(t0) == ActiveSet(t);
    if e.online.Some? { SetOnlineKeeps(t0, e.target, e.online.value); }
    if e.status == Some(ResolvedExpel) {
      assert t1.players[e.target := t1.players[e.target]] == t1.players;
      assert Concede(t1, e.target, t1.players[e.target].concededAt) == t1;
    }
  }

  ghost predicate OnlyBallots(l: Life, l': Life, target: PlayerId) {
    && l' == l.(ballots := l'.ballots)
    && (HasStatus(l', target, ResolvedExpel) ==> HasStatus(l, target, ResolvedExpel))
  }

  lemma BallotStepsOnlyBallots(l: Life, target: PlayerId, connected: seq<PlayerId>, now: int, version: int)
    ensures OnlyBallots(l, OpenVote(l, target, connected, now, version), target)
    ensures OnlyBallots(l, CancelVote(l, target), target)
    ensures OnlyBallots(l, ResolveTimeout(l, target, now), target)
  {}

  /** The fields a generation-fenced signal has advanced. */
  ghost predicate Fenced(s: Life, c: VoteCommand, s0: Life, generation: Option<int>) {
    && s0 == s.(generations := s0.generations)
    && s0.generations == (if generation.Some? then s.generations[c.target := generation.value] else s.generations)
    && (generation.Some? ==> generation.value >= 1 && generation.value > Generation(s, c.target))
  }

  /** A live step that is not a vote: fence, presence, then one ballot. */
  ghost predicate QuietShape(s: Life, c: VoteCommand, s0: Life, s': Life, e: VoteEvent) {
    && c.target in s.players && Fenced(s, c, s0, e.generation)
    && OnlyBallots(if e.online.Some? then SetOnline(s0, c.target, e.online.value) else s0, s', c.target)
    && e.target == c.target && e.ballots == s'.ballots && e.status == StatusOf(s', c.target)
    && e.turn.None? && e.concededAt.None?
  }

  lemma QuietLive(s: Life, c: VoteCommand, now: int, version: int) returns (s0: Life)
    requires !c.signal.Cast? && !c.signal.Carried? && ApplyVote(s, c, now, version).Done?
    ensures var e := ApplyVote(s, c, now, version).event;
            && QuietShape(s, c, s0, ApplyVote(s, c, now, version).life, e)
            && (e.status == Some(ResolvedExpel) ==> IsConceded(s, c.target) || !VoteFollowable(s, c))
            && (!VoteFollowable(s, c) ==> e.status == Some(ResolvedExpel) && !IsConceded(s, c.target))
  {
    s0 := AdvanceGeneration(s, c).life;
    match c.signal {
      case GoOffline(connected) =>
        BallotStepsOnlyBallots(SetOnline(s0, c.target, false), c.target, connected, now, version);
      case GoOnline =>
        BallotStepsOnlyBallots(SetOnline(s0, c.target, true), c.target, [], now, version);
      case Timeout =>
        BallotStepsOnlyBallots(s0, c.target, [], now, version);
    }
  }

  function MaybeOnline(l: Life, p: PlayerId, online: Option<bool>): Life {
    if online.Some? then SetOnline(l, p, online.value) else l
  }

  lemma MaybeOnlineAgrees(a: Life, b: Life, p: PlayerId, online: Option<bool>)
    requires Similar(a, b) && LifeInv(a) && LifeInv(b)
    ensures Similar(MaybeOnline(a, p, online), MaybeOnline(b, p, online))
    ensures LifeInv(MaybeOnline(a, p, online)) && LifeInv(MaybeOnline(b, p, online))
  {
    if online.Some? {
      SetOnlineKeeps(a, p, online.value);
      SetOnlineKeeps(b, p, online.value);
      var a', b' := SetOnline(a, p, online.value), SetOnline(b, p, online.value);
      forall q | q in a'.players ensures q in b'.players && SamePlayer(a'.players[q], b'.players[q]) {
        assert SamePlayer(a.players[q], b.players[q]);
      }
    }
  }

  /** New generations and ballots put on both sides keep them alike. */
  lemma SameBallots(s: Life, t: Life, generations: map<PlayerId, int>, ballots: map<PlayerId, Ballot>)
    requires LifeInv(s) && LifeInv(t) && Similar(s, t)
    ensures var a, b := s.(generations := generations, ballots := ballots), t.(generations := generations, ballots := ballots);
            Similar(a, b) && LifeInv(a) && LifeInv(b)
  {
    var a, b := s.(generations := generations, ballots := ballots), t.(generations := generations, ballots := ballots);
    assert ActiveSet(a) == ActiveSet(s) && ActiveSet(b) == ActiveSet(t);
    forall q | q in a.players ensures SamePlayer(a.players[q], b.players[q]) {
      assert SamePlayer(s.players[q], t.players[q]);
    }
  }

  lemma QuietShapeReplays(s: Life, t: Life, c: VoteCommand, s0: Life, s': Life, e: VoteEvent, later: int)
    requires LifeInv(s) && LifeInv(t) && Similar(s, t) && QuietShape(s, c, s0, s', e)
    requires e.status == Some(ResolvedExpel) ==> IsConceded(s, c.target)
    ensures var t' := ReplayVote(t, e, later);
            && t'.Some? && Similar(s', t'.value) && (s == t ==> s' == t'.value)
            && s'.turn == s.turn && t'.value.turn == t.turn
            && LifeInv(s') && LifeInv(t'.value)
  {
    var p := c.target;
    SameBallots(s, t, s0.generations, e.ballots);
    var a, b := s0.(ballots := e.ballots), t.(generations := s0.generations, ballots := e.ballots);
    MaybeOnlineAgrees(a, b, p, e.online);
    assert p in t.players && (IsConceded(s, p) ==> IsConceded(t, p)) by {
      assert SamePlayer(s.players[p], t.players[p]);
    }
    QuietReplay(t, e, later);
    assert e.generation.None? ==> t.(ballots := e.ballots) == b;
    assert ReplayVote(t, e, later) == Some(MaybeOnline(b, p, e.online));
    assert s' == MaybeOnline(a, p, e.online);
  }

  // ---------------------------------------------------------- carried fields

  /** What the event of a live command with carried fields puts into the game again. */
  function Repeated(l: Life, e: VoteEvent, finishedAt: Option<int>): VoteEvent
    requires e.target in l.players
  {
    RestoredRestores(l, e);
    RepeatedFrom(Restored(l, e), e, finishedAt)
  }

  function RepeatedFrom(l: Life, e: VoteEvent, finishedAt: Option<int>): VoteEvent
    requires e.target in l.players
  {
    Payload(l, e.target).(online := e.online, finishedAt := finishedAt,
      concededAt := if IsConceded(l, e.target) then l.players[e.target].concededAt else None)
  }

  function RestoredPlayer(p: Player, e: VoteEvent): Player {
    Player(if Expels(e) then Conceded else p.standing,
           if Expels(e) && e.concededAt.Some? then e.concededAt else p.concededAt,
           if e.online.Some? then e.online else p.online)
  }

  /** `Restored`, field by field. */
  ghost predicate Restores(l: Life, e: VoteEvent, r: Life)
    requires e.target in l.players
  {
    && r.players == l.players[e.target := RestoredPlayer(l.players[e.target], e)]
    && r.ballots == e.ballots && r.turn == (if e.turn.Some? then e.turn.value else l.turn)
    && r.generations == RestoreFence(l, e.target, e.generation).generations
    && r.finished == l.finished && r.winner == l.winner && r.finishedAt == l.finishedAt
  }

  lemma RestoredRestores(l: Life, e: VoteEvent)
    requires e.target in l.players
    ensures Restores(l, e, Restored(l, e))
  {
    var p := e.target;
    var l1 := RestoreFence(l, p, e.generation).(ballots := e.ballots);
    FenceIs(l, p, e.generation);
    var l2 := MaybeOnline(l1, p, e.online);
    MaybeOnlineIs(l1, p, e.online);
    assert l2.players == l.players[p := l.players[p].(online := if e.online.Some? then e.online else l.players[p].online)];
    var l3 := if Expels(e) then Concede(l2, p, if e.concededAt.Some? then e.concededAt else l2.players[p].concededAt) else l2;
    assert l3.players == l.players[p := RestoredPlayer(l.players[p], e)];
    assert Restored(l, e) == if e.turn.Some? then l3.(turn := e.turn.value) else l3;
  }

  lemma MaybeOnlineIs(l: Life, p: PlayerId, online: Option<bool>)
    requires p in l.players
    ensures MaybeOnline(l, p, online)
      == l.(players := l.players[p := l.players[p].(online := if online.Some? then online else l.players[p].online)])
  {
    assert l.players[p := l.players[p]] == l.players;
  }

  /** Differences the finish check does not touch. */
  ghost predicate Differs(a: Life, b: Life, p: PlayerId) {
    || a.generations != b.generations || a.turn != b.turn
    || (p in a.players && p in b.players && !SamePlayer(a.players[p], b.players[p]))
  }

  lemma FinishKeepsDifference(a: Life, b: Life, p: PlayerId, x: int, y: int)
    requires Differs(a, b, p)
    ensures Finish(a, x).0 != Finish(b, y).0 && Finish(a, x).0 != b && a != Finish(b, y).0 && a != b
  {}

  /** Trackable fields are put in again exactly, followable ones up to the turn; others are not. */
  lemma RepeatsExactly(l: Life, e: VoteEvent, e': VoteEvent, x: Life, y: Life)
    requires e.target in l.players && e'.target == e.target
    requires e'.ballots == e.ballots && e'.online == e.online && e'.generation.None? && e'.turn.None? && Expels(e') == Confirms(e)
    requires Restores(l, e, y) && Restores(l, e', x)
    requires e'.concededAt == if IsConceded(y, e.target) then y.players[e.target].concededAt else None
    ensures x.turn == l.turn && (CarriedFollowable(l, e) ==> x == y.(turn := l.turn))
    ensures !CarriedTrackable(l, e) ==> Differs(x, y, e.target)
  {
    var p := e.target;
    assert x.players[p] == RestoredPlayer(l.players[p], e') && y.players[p] == RestoredPlayer(l.players[p], e);
    if CarriedFollowable(l, e) {
      assert x.players[p] == y.players[p];
      assert x.generations == y.generations;
    }
  }

  lemma RepeatedRestores(l: Life, e: VoteEvent, finishedAt: Option<int>)
    requires e.target in l.players
    ensures CarriedFollowable(l, e) ==> Restored(l, Repeated(l, e, finishedAt)) == Restored(l, e).(turn := l.turn)
    ensures CarriedTrackable(l, e) ==> Restored(l, Repeated(l, e, finishedAt)) == Restored(l, e)
    ensures !CarriedTrackable(l, e) ==> Differs(Restored(l, Repeated(l, e, finishedAt)), Restored(l, e), e.target)
  {
    RestoredRestores(l, e);
    RestoredRestores(l, Repeated(l, e, finishedAt));
    assert CarriedTrackable(l, e) ==> Restored(l, e).(turn := l.turn) == Restored(l, e);
    RepeatsExactly(l, e, Repeated(l, e, finishedAt), Restored(l, Repeated(l, e, finishedAt)), Restored(l, e));
  }

  lemma RestoresAgree(s: Life, t: Life, e: VoteEvent, a: Life, b: Life)
    requires Similar(s, t) && e.target in s.players && e.target in t.players
    requires Restores(s, e, a) && Restores(t, e, b)
    ensures Similar(a, b)
  {
    assert SamePlayer(s.players[e.target], t.players[e.target]);
    forall q | q in a.players ensures q in b.players && SamePlayer(a.players[q], b.players[q]) {
      assert SamePlayer(s.players[q], t.players[q]);
    }
  }

  lemma RestoredAgrees(s: Life, t: Life, e: VoteEvent)
    requires Similar(s, t) && e.target in s.players
    ensures e.target in t.players
    ensures Similar(Restored(s, e), Restored(t, e))
  {
    RestoredRestores(s, e);
    RestoredRestores(t, e);
    RestoresAgree(s, t, e, Restored(s, e), Restored(t, e));
  }

  lemma RestoresActive(l: Life, e: VoteEvent, r: Life)
    requires e.target in l.players && Restores(l, e, r)
    ensures ActiveSet(r) == ActiveSet(l) - if Expels(e) then {e.target} else {}
    ensures IsConceded(r, e.target) <==> Expels(e) || IsConceded(l, e.target)
    ensures |ActiveSet(r)| >= |ActiveSet(l)| - 1
  {
    assert ActiveSet(r) == ActiveSet(l) - if Expels(e) then {e.target} else {};
    assert e.target in ActiveSet(l) && Expels(e) ==> ActiveSet(l) == ActiveSet(r) + {e.target};
    assert !(e.target in ActiveSet(l) && Expels(e)) ==> ActiveSet(l) == ActiveSet(r);
  }

  lemma RestoredActive(l: Life, e: VoteEvent)
    requires e.target in l.players
    ensures ActiveSet(Restored(l, e)) == ActiveSet(l) - if Expels(e) then {e.target} else {}
    ensures Restored(l, e).finished == l.finished
    ensures IsConceded(Restored(l, e), e.target) <==> Expels(e) || IsConceded(l, e.target)
    ensures |ActiveSet(Restored(l, e))| >= |ActiveSet(l)| - 1
  {
    RestoredRestores(l, e);
    RestoresActive(l, e, Restored(l, e));
  }

  lemma FollowableOnBoth(s: Life, t: Life, e: VoteEvent)
    requires Similar(s, t) && e.target in s.players && CarriedFollowable(s, e)
    ensures e.target in t.players && CarriedFollowable(t, e)
  {
    assert SamePlayer(s.players[e.target], t.players[e.target]);
  }

  /** Both sides would repeat the same fields. */
  lemma RepeatedSame(s: Life, t: Life, e: VoteEvent, finishedAt: Option<int>)
    requires Similar(s, t) && e.target in s.players && e.target in t.players
    ensures Repeated(s, e, finishedAt) == Repeated(t, e, finishedAt)
  {
    RestoredAgrees(s, t, e);
    RestoredRestores(s, e);
    RestoredRestores(t, e);
    SameRepetition(Restored(s, e), Restored(t, e), e, finishedAt);
  }

  lemma SameRepetition(a: Life, b: Life, e: VoteEvent, finishedAt: Option<int>)
    requires Similar(a, b) && e.target in a.players && e.target in b.players && a.ballots == b.ballots
    ensures RepeatedFrom(a, e, finishedAt) == RepeatedFrom(b, e, finishedAt)
  {
    assert SamePlayer(a.players[e.target], b.players[e.target]);
  }

  lemma CarriedEvent(l: Life, e: VoteEvent, now: int)
    requires e.target in l.players && ApplyCarried(l, e, now).Done?
    ensures var r := ApplyCarried(l, e, now); var l1 := Restored(l, e);
      && r.event == Repeated(l, e, r.event.finishedAt)
      && r.life == (if IsConceded(l1, e.target) then Finish(l1, Or(e.finishedAt, now)).0 else l1)
      && (IsConceded(l1, e.target) ==> r.event.finishedAt == Finish(l1, Or(e.finishedAt, now)).1)
  {}

  lemma CarriedReplays(s: Life, t: Life, e: VoteEvent, now: int, later: int)
    requires LifeInv(s) && LifeInv(t) && Similar(s, t) && e.target in s.players
    requires ApplyCarried(s, e, now).Done? && CarriedFollowable(s, e)
    ensures var r := ApplyCarried(s, e, now); var t' := ReplayVote(t, r.event, later);
            && t'.Some? && Similar(r.life, t'.value) && (s == t && CarriedTrackable(s, e) ==> r.life == t'.value)
            && r.life.turn == (if e.turn.Some? then e.turn.value else s.turn) && t'.value.turn == t.turn
            && LifeInv(r.life) && LifeInv(t'.value)
  {
    var r := ApplyCarried(s, e, now);
    CarriedEvent(s, e, now);
    FollowableOnBoth(s, t, e);
    RepeatedSame(s, t, e, r.event.finishedAt);
    RepeatedRestores(t, e, r.event.finishedAt);
    RestoredAgrees(s, t, e);
    RestoredActive(s, e);
    RestoredActive(t, e);
    var a, b := Restored(s, e), Restored(t, e).(turn := t.turn);
    RestoredRestores(s, e);
    assert Similar(a, b) by { assert forall p | p in a.players :: SamePlayer(a.players[p], Restored(t, e).players[p]); }
    assert SamePlayer(a.players[e.target], b.players[e.target]);
    SimilarActive(s, t);
    assert ActiveSet(b) == ActiveSet(Restored(t, e));
    if IsConceded(a, e.target) { FinishAgrees(a, b, Or(e.finishedAt, now), later); }
  }

  lemma CarriedDiverges(l: Life, e: VoteEvent, now: int, later: int)
    requires e.target in l.players && ApplyCarried(l, e, now).Done? && !CarriedTrackable(l, e)
    ensures ReplayVote(l, ApplyCarried(l, e, now).event, later) != Some(ApplyCarried(l, e, now).life)
  {
    var r := ApplyCarried(l, e, now);
    CarriedEvent(l, e, now);
    RepeatedRestores(l, e, r.event.finishedAt);
    FinishKeepsDifference(Restored(l, r.event), Restored(l, e), e.target, Or(r.event.finishedAt, later), Or(e.finishedAt, now));
  }

  // ------------------------------------------------------------ all commands

  /** Live and replay agree for every followable presence signal, timeout, vote and carried
      command, in the turn as well unless the command writes one itself. */
  lemma VoteReplays(s: Life, t: Life, c: VoteCommand, now: int, version: int, later: int)
    requires LifeInv(s) && LifeInv(t) && Similar(s, t)
    requires ApplyVote(s, c, now, version).Done? && VoteFollowable(s, c)
    ensures var r := ApplyVote(s, c, now, version);
            var t' := ReplayVote(t, r.event, later);
            && t'.Some? && Similar(r.life, t'.value)
            && (s.turn == t.turn && !VoteTurns(s, c) ==> r.life.turn == t'.value.turn)
            && (s == t && !VoteTurns(s, c) ==> r.life == t'.value)
            && LifeInv(r.life) && LifeInv(t'.value)
  {
    var r := ApplyVote(s, c, now, version);
    if c.signal.Carried? {
      CarriedReplays(s, t, c.signal.fields.(target := c.target), now, later);
    } else if c.signal.Cast? {
      var s0, x := CastLive(s, c, now, version);
      CastShapeReplays(s, t, c, s0, x, r.life, r.event, now, later);
    } else {
      var s0 := QuietLive(s, c, now, version);
      QuietShapeReplays(s, t, c, s0, r.life, r.event, later);
    }
  }

  /** An event that says its target was expelled expels on replay. */
  lemma QuietDiverges(l: Life, c: VoteCommand, s0: Life, l': Life, e: VoteEvent, later: int)
    requires QuietShape(l, c, s0, l', e) && e.status == Some(ResolvedExpel) && !IsConceded(l, c.target)
    ensures ReplayVote(l, e, later) != Some(l')
  {
    var r := ReplayVote(l, e, later);
    if r.Some? {
      assert r.value.players[c.target].standing == Conceded;
      assert l'.players[c.target].standing == Active;
    }
  }

  /** For every lifecycle command, replay gives the live state if and only if it is trackable. */
  lemma VoteReplayExact(l: Life, c: VoteCommand, now: int, version: int, later: int)
    requires LifeInv(l) && ApplyVote(l, c, now, version).Done?
    ensures var r := ApplyVote(l, c, now, version);
      ReplayVote(l, r.event, later) == Some(r.life) <==> VoteTrackable(l, c)
  {
    if VoteTrackable(l, c) {
      VoteReplays(l, l, c, now, version, later);
    } else if c.signal.Carried? {
      CarriedDiverges(l, c.signal.fields.(target := c.target), now, later);
    } else {
      var s0 := QuietLive(l, c, now, version);
      var r := ApplyVote(l, c, now, version);
      QuietDiverges(l, c, s0, r.life, r.event, later);
    }
  }

  /** A turn change writes every field it names and no other; its event has the new turn and
      the one before. */
  lemma TurnWrites(l: Life, c: TurnCommand)
    ensures var (l', e) := ApplyTurn(l, c);
      && l' == l.(turn := l'.turn) && e == TurnEvent(l'.turn, l.turn)
      && (match c.active case Some(p) => l'.turn.active == p case None => l'.turn.active == l.turn.active)
      && (match c.phase case Some(x) => l'.turn.phase == x case None => l'.turn.phase == l.turn.phase)
      && (match c.step case Some(x) => l'.turn.step == x case None => l'.turn.step == l.turn.step)
      && (match c.number case Some(x) => l'.turn.number == x case None => l'.turn.number == l.turn.number)
  {}

  /** Replaying a turn change leaves the turn as it was: it gives the live state if and only if
      nothing was changed. */
  lemma TurnReplayExact(l: Life, c: TurnCommand)
    ensures ReplayTurn(l, ApplyTurn(l, c).1) == l
    ensures ReplayTurn(l, ApplyTurn(l, c).1) == ApplyTurn(l, c).0 <==> TurnAfter(l.turn, c) == l.turn
  {}

  /** Fences restored in any order end at the highest. */
  lemma FencesCommute(l: Life, p: PlayerId, a: Option<int>, b: Option<int>)
    ensures RestoreFence(RestoreFence(l, p, a), p, b) == RestoreFence(RestoreFence(l, p, b), p, a)
    ensures var g := Generation(RestoreFence(RestoreFence(l, p, a), p, b), p);
      && g >= Generation(l, p) && (a.Some? ==> g >= a.value) && (b.Some? ==> g >= b.value)
      && (g == Generation(l, p) || Some(g) == a || Some(g) == b)
  {
    FenceIs(l, p, a);
    FenceIs(l, p, b);
    FenceIs(RestoreFence(l, p, a), p, b);
    FenceIs(RestoreFence(l, p, b), p, a);
  }

  /** A fence after a restore, and that nothing else moved. */
  lemma FenceIs(l: Life, p: PlayerId, a: Option<int>)
    ensures var r := RestoreFence(l, p, a); var raised := a.Some? && a.value > Generation(l, p);
      && Generation(r, p) == (if raised then a.value else Generation(l, p))
      && r == (if raised then l.(generations := l.generations[p := a.value]) else l)
  {}

  /** A live vote: an expulsion is a concession, a hand-over and the finish check on
      top of the new ballots; any other vote only changes its own ballot. */
  ghost predicate CastShape(s: Life, c: VoteCommand, s0: Life, x: Life, s': Life, e: VoteEvent, now: int) {
    && c.target in s.players && Fenced(s, c, s0, e.generation)
    && e.target == c.target && e.online.None?
    && c.target in e.ballots && e.ballots == s.ballots[c.target := e.ballots[c.target]]
    && e.status == Some(e.ballots[c.target].status)
    && (e.status == Some(ResolvedExpel) ==>
          && x == Concede(s0.(ballots := e.ballots), c.target, Some(now))
          && HandOver(x, c.target).1 == e.turn && e.concededAt == Some(now)
          && Finish(HandOver(x, c.target).0, Or(c.finishAt, now)) == (s', e.finishedAt))
    && (e.status != Some(ResolvedExpel) ==>
          s' == s0.(ballots := e.ballots) && e.turn.None? && e.finishedAt.None?)
  }

  lemma CastLive(s: Life, c: VoteCommand, now: int, version: int) returns (s0: Life, x: Life)
    requires LifeInv(s)
    requires c.signal.Cast? && ApplyVote(s, c, now, version).Done?
    ensures CastShape(s, c, s0, x, ApplyVote(s, c, now, version).life, ApplyVote(s, c, now, version).event, now)
  {
    var r := ApplyVote(s, c, now, version);
    var e, p := r.event, c.target;
    s0 := AdvanceGeneration(s, c).life;
    x := Concede(s0.(ballots := e.ballots), p, Some(now));
    var b := s0.ballots[p];
    var voters := BallotVoters(b, s0, p, c.signal.connected);
    var settled := Settle(b, voters, b.votes[c.signal.voter.value := Vote(c.signal.choice.value, now)], now);
    assert e.ballots == s.ballots[p := settled];
    if settled.status == ResolvedExpel {
      HandOverCommutes(s0, e.ballots, p, now);
    } else {
      var s1 := s0.(ballots := e.ballots);
      assert ActiveSet(s1) == ActiveSet(s);
      assert Finish(s1, Or(c.finishAt, now)) == (s1, None);
    }
  }

  lemma HandOverCommutes(l: Life, ballots: map<PlayerId, Ballot>, p: PlayerId, now: int)
    requires p in l.players
    ensures var (a, turn) := HandOver(Concede(l, p, Some(now)), p);
            HandOver(Concede(l.(ballots := ballots), p, Some(now)), p) == (a.(ballots := ballots), turn)
            && IsConceded(a.(ballots := ballots), p) && a.players[p].concededAt == Some(now)
  {
    assert ActiveSet(Concede(l, p, Some(now))) == ActiveSet(Concede(l.(ballots := ballots), p, Some(now)));
  }

  lemma CastShapeReplays(s: Life, t: Life, c: VoteCommand, s0: Life, x: Life, s': Life, e: VoteEvent, now: int, later: int)
    requires LifeInv(s) && LifeInv(t) && Similar(s, t) && CastShape(s, c, s0, x, s', e, now)
    ensures var t' := ReplayVote(t, e, later);
            && t'.Some? && Similar(s', t'.value) && (s == t ==> s' == t'.value)
            && (s.turn == t.turn || e.turn.Some? ==> s'.turn == t'.value.turn)
            && LifeInv(s') && LifeInv(t'.value)
  {
    var p := c.target;
    assert p in t.players && IsConceded(s, p) == IsConceded(t, p) by { assert SamePlayer(s.players[p], t.players[p]); }
    var a, b := s0.(ballots := e.ballots), t.(generations := s0.generations, ballots := e.ballots);
    SameBallots(s, t, s0.generations, e.ballots);
    if e.status == Some(ResolvedExpel) {
      ExpelShapeReplays(a, b, p, e, Or(c.finishAt, now), now, later);
      ExpelReplay(t, e, b, now, later);
    } else {
      assert ReplayVote(t, e, later) == Some(b) by {
        assert e.generation.None? ==> t.(ballots := e.ballots) == b;
        assert Finish(b, Or(e.finishedAt, later)).0 == b;
      }
    }
  }

  lemma ExpelReplay(t: Life, e: VoteEvent, b: Life, now: int, later: int)
    requires e.target in t.players && e.status == Some(ResolvedExpel) && e.concededAt == Some(now) && e.online.None?
    requires e.generation.Some? ==> e.generation.value >= 1 && e.generation.value > Generation(t, e.target)
    requires b == t.(ballots := e.ballots,
                     generations := if e.generation.Some? then t.generations[e.target := e.generation.value]
                                    else t.generations)
    ensures var t2 := Concede(b, e.target, Some(now));
            var t3 := if e.turn.Some? then t2.(turn := e.turn.value) else t2;
            ReplayVote(t, e, later) == Some(Finish(t3, Or(e.finishedAt, later)).0)
  {}

  /** The consequences of an expulsion, live on one side and replayed on the other. */
  lemma ExpelShapeReplays(s1: Life, t1: Life, p: PlayerId, e: VoteEvent, at: int, now: int, later: int)
    requires Similar(s1, t1) && p in s1.players
    requires !s1.finished ==> |ActiveSet(s1)| >= 2
    requires s1.ballots == t1.ballots
    requires HandOver(Concede(s1, p, Some(now)), p).1 == e.turn
    requires Finish(HandOver(Concede(s1, p, Some(now)), p).0, at).1 == e.finishedAt
    ensures var s' := Finish(HandOver(Concede(s1, p, Some(now)), p).0, at).0;
            var t2 := Concede(t1, p, Some(now));
            var t3 := if e.turn.Some? then t2.(turn := e.turn.value) else t2;
            var t' := Finish(t3, Or(e.finishedAt, later)).0;
            Similar(s', t') && (s1 == t1 ==> s' == t') && LifeInv(s') && LifeInv(t')
            && (s1.turn == t1.turn || e.turn.Some? ==> s'.turn == t'.turn)
  {
    var s2, t2 := Concede(s1, p, Some(now)), Concede(t1, p, Some(now));
    ConcedeSimilar(s1, t1, p, Some(now));
    ConcedeShrinks(s1, p, Some(now));
    HandOverKeeps(s2, p);
    var s3 := HandOver(s2, p).0;
    var t3 := if e.turn.Some? then t2.(turn := e.turn.value) else t2;
    assert Similar(s3, t3);
    FinishAgrees(s3, t3, at, later);
  }
}
