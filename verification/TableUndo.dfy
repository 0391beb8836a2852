/**
  The targeted rollback: what it captures before a command, what a command leaves behind when
  its applier fails half-way, and exactly when restoring gives back the table from before.
 */
module TableUndo {
  import opened Common
  import opened Table
  import opened Slots
  import opened Movement
  import opened Conservation

  /** The players whose zones are captured. */
  function Captured(t: Table, c: TableCommand): set<PlayerId> {
    match c
    case MoveCards(p, _, ids, _, target, _, named) =>
      {p, OrElse(target, p)} + set x | x in NamedCards(ids, named) && x in t.loc :: t.loc[x].player
    case MoveAll(p, _, _, target, _) => {p, OrElse(target, p)}
    case Draw(p, _) => {p}
    case MoveTop(p, _, _, target, _) => {p, OrElse(target, p)}
    case Put(p, card, _) => {p} + if card in t.loc then {t.loc[card].player} else {}
    case CreateTokens(p, _, _) => {p}
    case PlayTop(_, _, _) => {}
  }

  /** The cards the capture finds in a movement request: a card that is named singly hides the list. */
  function NamedCards(ids: seq<CardId>, named: Option<CardId>): set<CardId> {
    if named.Some? then {named.value} else SetOf(ids)
  }

  /** A command of a kind the rollback does not know is backed up with the whole game. */
  predicate BackedUpWhole(c: TableCommand) {
    c.PlayTop?
  }

  function Held(pz: PlayerZones): set<CardId> {
    SetOf(pz.library) + SetOf(pz.hand) + SetOf(pz.battlefield) + SetOf(pz.graveyard) + SetOf(pz.exile) + SetOf(pz.command)
  }

  /** The cards captured with their locations: those the command names and all cards of the
      captured zones. */
  function CapturedCards(t: Table, c: TableCommand): set<CardId> {
    (match c
     case MoveCards(_, _, ids, _, _, _, named) => NamedCards(ids, named)
     case Put(_, card, _) => {card}
     case _ => {})
    + set p, x | p in Captured(t, c) && x in Held(ZonesOf(t.zones, p)) :: x
  }

  /** Captured entries come back as they were, absent ones are deleted, the rest is left. */
  function Restore(was: Table, now: Table, players: set<PlayerId>, cards: set<CardId>): Table {
    now.(zones := map p | p in was.zones.Keys + now.zones.Keys && p in (if p in players then was else now).zones ::
           (if p in players then was else now).zones[p],
         cards := map c | c in was.cards.Keys + now.cards.Keys && c in (if c in cards then was else now).cards ::
           (if c in cards then was else now).cards[c],
         loc := map c | c in was.loc.Keys + now.loc.Keys && c in (if c in cards then was else now).loc ::
           (if c in cards then was else now).loc[c])
  }

  /** Undoing a command that was applied but not appended. */
  function Undo(t: Table, c: TableCommand, now: Table): Table {
    if BackedUpWhole(c) then t else Restore(t, now, Captured(t, c), CapturedCards(t, c))
  }

  // --------------------------------------------------- commands that applied

  predicate Undoable(t: Table, c: TableCommand) {
    match c
    case MoveCards(p, _, ids, z, target, _, _) => CapturesTargets(t, ids, OrElse(target, p), z, Captured(t, c))
    case MoveAll(p, source, z, target, _) =>
      CapturesTargets(t, At(t.zones, Place(p, source)), OrElse(target, p), z, Captured(t, c))
    case CreateTokens(_, _, _) => false
    case _ => true
  }

  /** No card comes from a player outside the capture, no surviving one goes to such a player,
      and no commander is cast. */
  predicate CapturesTargets(t: Table, ids: seq<CardId>, requested: PlayerId, z: Zone, players: set<PlayerId>) {
    forall c | c in ids ::
      && !IsCast(t, c, z) && (c in t.loc ==> t.loc[c].player in players)
      && (c in Evaporating(t, ids, z) || Destination(t, c, requested, z) in players)
  }

  ghost predicate ChangesOnly(t: Table, now: Table, players: set<PlayerId>, cards: set<CardId>) {
    && now.players == t.players
    && (forall p | p !in players :: (p in now.zones <==> p in t.zones) && (p in t.zones ==> now.zones[p] == t.zones[p]))
    && (forall c | c !in cards :: (c in now.cards <==> c in t.cards) && (c in t.cards ==> now.cards[c] == t.cards[c]))
    && (forall c | c !in cards :: (c in now.loc <==> c in t.loc) && (c in t.loc ==> now.loc[c] == t.loc[c]))
  }

  /** Restoring is exact when nothing outside the capture changed, and only then. */
  lemma RestoreExact(t: Table, now: Table, players: set<PlayerId>, cards: set<CardId>)
    ensures Restore(t, now, players, cards) == t <==> ChangesOnly(t, now, players, cards) && now.casts == t.casts
  {
    var back := Restore(t, now, players, cards);
    if ChangesOnly(t, now, players, cards) {
      assert back.zones == t.zones;
      assert back.cards == t.cards;
      assert back.loc == t.loc;
    }
    if back == t {
      forall p: PlayerId | p !in players
        ensures (p in now.zones <==> p in t.zones) && (p in t.zones ==> now.zones[p] == t.zones[p])
      {
        assert p in now.zones <==> p in back.zones;
      }
      forall c | c !in cards
        ensures (c in now.cards <==> c in t.cards) && (c in t.cards ==> now.cards[c] == t.cards[c])
        ensures (c in now.loc <==> c in t.loc) && (c in t.loc ==> now.loc[c] == t.loc[c])
      {
        assert c in now.cards <==> c in back.cards;
        assert c in now.loc <==> c in back.loc;
      }
    }
  }

  /** One player's zones are the same when every slot is. */
  lemma SameZones(a: map<PlayerId, PlayerZones>, b: map<PlayerId, PlayerZones>, p: PlayerId)
    requires p in a && p in b
    requires forall z: Zone :: At(a, Place(p, z)) == At(b, Place(p, z))
    ensures a[p] == b[p]
  {
    assert At(a, Place(p, Library)) == At(b, Place(p, Library));
    assert At(a, Place(p, Hand)) == At(b, Place(p, Hand));
    assert At(a, Place(p, Battlefield)) == At(b, Place(p, Battlefield));
    assert At(a, Place(p, Graveyard)) == At(b, Place(p, Graveyard));
    assert At(a, Place(p, Exile)) == At(b, Place(p, Exile));
    assert At(a, Place(p, Command)) == At(b, Place(p, Command));
  }

  lemma HeldHere(t: Table, p: PlayerId, c: CardId)
    requires Indexed(t)
    ensures c in Held(ZonesOf(t.zones, p)) <==> c in t.loc && t.loc[c].player == p
  {
    var pz := ZonesOf(t.zones, p);
    assert c in pz.library <==> c in At(t.zones, Place(p, Library));
    assert c in pz.hand <==> c in At(t.zones, Place(p, Hand));
    assert c in pz.battlefield <==> c in At(t.zones, Place(p, Battlefield));
    assert c in pz.graveyard <==> c in At(t.zones, Place(p, Graveyard));
    assert c in pz.exile <==> c in At(t.zones, Place(p, Exile));
    assert c in pz.command <==> c in At(t.zones, Place(p, Command));
  }

  lemma CapturedHere(t: Table, c: TableCommand, x: CardId)
    requires Indexed(t)
    ensures x in t.loc && t.loc[x].player in Captured(t, c) ==> x in CapturedCards(t, c)
    ensures x in CapturedCards(t, c) && x in t.loc ==> t.loc[x].player in Captured(t, c)
    ensures x in CapturedCards(t, c) && x !in t.loc ==> (c.MoveCards? && x in NamedCards(c.ids, c.named)) || (c.Put? && x == c.card)
  {
    forall p: PlayerId { HeldHere(t, p, x); }
    if x in t.loc && t.loc[x].player in Captured(t, c) {
      assert x in Held(ZonesOf(t.zones, t.loc[x].player));
    }
  }

  // ------------------------------------------------------------- movements

  /** A zone whose player is neither a source nor the target of a surviving card is untouched. */
  lemma OthersUntouched(t: Table, ids: seq<CardId>, requested: PlayerId, z: Zone, position: Position, p: PlayerId)
    requires WellFormed(t) && CanMove(t, ids) && p != requested
    requires forall c | c in ids :: t.loc[c].player != p && (c in Evaporating(t, ids, z) || Destination(t, c, requested, z) != p)
    ensures var r := MoveWithRules(t, ids, requested, z, position);
      (p in r.zones <==> p in t.zones) && (p in t.zones ==> r.zones[p] == t.zones[p])
  {
    var r := MoveWithRules(t, ids, requested, z, position);
    MoveSettles(t, ids, requested, z, position);
    var dest := Destinations(t, ids, requested, z);
    forall d | d in Targets(ids, dest) ensures d == requested || d in t.zones {
      var c :| c in SetOf(ids) && c in dest && dest[c] == d;
    }
    if p in t.zones {
      forall y: Zone ensures At(r.zones, Place(p, y)) == At(t.zones, Place(p, y)) {
        SlotUntouched(t, ids, requested, z, position, Place(p, y));
        assert At(r.zones, Place(p, y)) == Settled(t, ids, requested, z, position, Place(p, y));
      }
      SameZones(r.zones, t.zones, p);
    }
  }

  lemma SlotUntouched(t: Table, ids: seq<CardId>, requested: PlayerId, z: Zone, position: Position, q: Place)
    requires WellFormed(t) && CanMove(t, ids)
    requires forall c | c in ids :: t.loc[c].player != q.player
    requires forall c | c in ids :: c in Evaporating(t, ids, z) || Destination(t, c, requested, z) != q.player
    ensures Settled(t, ids, requested, z, position, q) == At(t.zones, q)
  {
    forall c | c in At(t.zones, q) ensures c !in SetOf(ids) {
      assert c in t.loc && t.loc[c] == q;
    }
    WithoutNone(At(t.zones, q), SetOf(ids));
    KeptMembers(t, ids, requested, z, q.player);
    EmptyOrNot(Kept(t, ids, requested, z, q.player));
    PlacedMembers(At(t.zones, q), [], z, position);
  }

  lemma CastsChange(t: Table, ids: seq<CardId>, requested: PlayerId, z: Zone, position: Position)
    requires NoDup(ids)
    ensures MoveWithRules(t, ids, requested, z, position).casts == t.casts <==> forall c | c in ids :: !IsCast(t, c, z)
  {
    GroupsLand(t, ids, Destinations(t, ids, requested, z), z, position);
    var r := MoveWithRules(t, ids, requested, z, position);
    if c :| c in ids && IsCast(t, c, z) {
      assert r.casts[c] == (if c in t.casts then t.casts[c] else 0) + 1;
    } else {
      assert (set c | c in ids && IsCast(t, c, z)) == {};
      assert r.casts == t.casts;
    }
  }

  lemma MovementUndo(t: Table, ids: seq<CardId>, requested: PlayerId, z: Zone, position: Position,
                     players: set<PlayerId>, cards: set<CardId>)
    requires WellFormed(t) && CanMove(t, ids) && requested in players
    requires forall c | c in ids :: t.loc[c].player in players ==> c in cards
    ensures Restore(t, MoveWithRules(t, ids, requested, z, position), players, cards) == t
      <==> CapturesTargets(t, ids, requested, z, players)
  {
    RestoreExact(t, MoveWithRules(t, ids, requested, z, position), players, cards);
    CastsChange(t, ids, requested, z, position);
    MovementInside(t, ids, requested, z, position, players, cards);
  }

  lemma MovementInside(t: Table, ids: seq<CardId>, requested: PlayerId, z: Zone, position: Position,
                       players: set<PlayerId>, cards: set<CardId>)
    requires WellFormed(t) && CanMove(t, ids) && requested in players
    requires forall c | c in ids :: t.loc[c].player in players ==> c in cards
    ensures ChangesOnly(t, MoveWithRules(t, ids, requested, z, position), players, cards) <==>
      forall c | c in ids ::
        t.loc[c].player in players && (c in Evaporating(t, ids, z) || Destination(t, c, requested, z) in players)
  {
    if c :| c in ids && t.loc[c].player !in players {
      MovementLeaves(t, ids, requested, z, position, c);
    } else if forall c | c in ids :: c in Evaporating(t, ids, z) || Destination(t, c, requested, z) in players {
      MovementStaysInside(t, ids, requested, z, position, players, cards);
    } else {
      var c :| c in ids && c !in Evaporating(t, ids, z) && Destination(t, c, requested, z) !in players;
      MovementEscapes(t, ids, requested, z, position, c);
    }
  }

  lemma MovementStaysInside(t: Table, ids: seq<CardId>, requested: PlayerId, z: Zone, position: Position,
                            players: set<PlayerId>, cards: set<CardId>)
    requires WellFormed(t) && CanMove(t, ids) && requested in players
    requires forall c | c in ids :: t.loc[c].player in players && c in cards
    requires forall c | c in ids :: c in Evaporating(t, ids, z) || Destination(t, c, requested, z) in players
    ensures ChangesOnly(t, MoveWithRules(t, ids, requested, z, position), players, cards)
  {
    forall p: PlayerId | p !in players
      ensures var r := MoveWithRules(t, ids, requested, z, position);
        (p in r.zones <==> p in t.zones) && (p in t.zones ==> r.zones[p] == t.zones[p])
    {
      OthersUntouched(t, ids, requested, z, position, p);
    }
    MovementLedger(t, ids, requested, z, position);
  }

  /** Cards outside the request keep their entries. */
  lemma MovementLedger(t: Table, ids: seq<CardId>, requested: PlayerId, z: Zone, position: Position)
    requires CanMove(t, ids)
    ensures var r := MoveWithRules(t, ids, requested, z, position);
      && r.players == t.players
      && forall c | c !in ids ::
           && (c in r.cards <==> c in t.cards) && (c in t.cards ==> r.cards[c] == t.cards[c])
           && (c in r.loc <==> c in t.loc) && (c in t.loc ==> r.loc[c] == t.loc[c])
  {
    MoveSettles(t, ids, requested, z, position);
    MoveMarksCards(t, ids, requested, z, position);
  }

  /** A surviving card that goes to a player outside the capture changes that player's zones. */
  lemma MovementEscapes(t: Table, ids: seq<CardId>, requested: PlayerId, z: Zone, position: Position, c: CardId)
    requires WellFormed(t) && CanMove(t, ids) && c in ids && c !in Evaporating(t, ids, z)
    requires Destination(t, c, requested, z) != t.loc[c].player
    ensures var r := MoveWithRules(t, ids, requested, z, position); var d := Destination(t, c, requested, z);
      d in r.zones && (d in t.zones ==> r.zones[d] != t.zones[d])
  {
    var r := MoveWithRules(t, ids, requested, z, position);
    var q := Place(Destination(t, c, requested, z), z);
    MoveSettles(t, ids, requested, z, position);
    SettledMembers(t, ids, requested, z, position, q);
    assert c in Settled(t, ids, requested, z, position, q) && At(r.zones, q) == Settled(t, ids, requested, z, position, q);
    assert c !in At(t.zones, q);
  }

  /** A card that comes from another player than the one asked for leaves a gap in that
      player's zones. */
  lemma MovementLeaves(t: Table, ids: seq<CardId>, requested: PlayerId, z: Zone, position: Position, c: CardId)
    requires WellFormed(t) && CanMove(t, ids) && c in ids && t.loc[c].player != requested
    ensures var r := MoveWithRules(t, ids, requested, z, position); var q := t.loc[c];
      c in At(t.zones, q) && c !in At(r.zones, q)
    ensures var r := MoveWithRules(t, ids, requested, z, position); var p := t.loc[c].player;
      p in t.zones && (p in r.zones ==> r.zones[p] != t.zones[p])
  {
    var r := MoveWithRules(t, ids, requested, z, position);
    var q := t.loc[c];
    MoveSettles(t, ids, requested, z, position);
    SettledMembers(t, ids, requested, z, position, q);
    assert At(r.zones, q) == Settled(t, ids, requested, z, position, q);
    assert c in At(t.zones, q);
  }

  // -------------------------------------------------------- library and tokens

  lemma LibraryStepUndo(t: Table, p: PlayerId, n: nat, q: Place, now: Table, players: set<PlayerId>, cards: set<CardId>)
    requires WellFormed(t) && n <= |LibraryOf(t, p)| && q.zone != Library && p in t.zones && {p, q.player} <= players
    requires forall c | c in t.loc && t.loc[c].player in players :: c in cards
    requires now == MoveTopTo(t, p, n, q) || now == MoveTopTo(t, p, n, q).(cards := t.cards)
    ensures Restore(t, now, players, cards) == t
  {
    TopOfLibrary(t, p, n);
    assert forall c | c in LibraryOf(t, p)[..n] :: c in cards;
    LibraryStepInside(t, p, n, q, players, cards);
    RestoreExact(t, now, players, cards);
  }

  lemma LibraryStepInside(t: Table, p: PlayerId, n: nat, q: Place, players: set<PlayerId>, cards: set<CardId>)
    requires n <= |LibraryOf(t, p)| && {p, q.player} <= players
    requires forall c | c in LibraryOf(t, p)[..n] :: c in cards
    ensures ChangesOnly(t, MoveTopTo(t, p, n, q), players, cards)
  {}

  lemma PutUndo(t: Table, p: PlayerId, card: CardId, now: Table, players: set<PlayerId>, cards: set<CardId>)
    requires WellFormed(t) && card in t.loc && {p, t.loc[card].player} <= players && card in cards
    requires now.zones.Keys + players == t.zones.Keys + players
    requires forall s: Place | s.player !in players :: At(now.zones, s) == Without(At(t.zones, s), {card})
    requires forall c | c != card :: (c in now.loc <==> c in t.loc) && (c in t.loc ==> now.loc[c] == t.loc[c])
    requires now.players == t.players && now.cards == t.cards && now.casts == t.casts
    ensures Restore(t, now, players, cards) == t
  {
    forall p: PlayerId | p !in players
      ensures (p in now.zones <==> p in t.zones) && (p in t.zones ==> now.zones[p] == t.zones[p])
    {
      assert p in now.zones.Keys + players <==> p in t.zones.Keys + players;
      if p in t.zones { PutPassesBy(t, now, p, card); }
    }
    RestoreExact(t, now, players, cards);
  }

  lemma PutPassesBy(t: Table, now: Table, p: PlayerId, card: CardId)
    requires Indexed(t) && p in t.zones && p in now.zones && card in t.loc && t.loc[card].player != p
    requires forall z: Zone :: At(now.zones, Place(p, z)) == Without(At(t.zones, Place(p, z)), {card})
    ensures now.zones[p] == t.zones[p]
  {
    forall z: Zone ensures At(now.zones, Place(p, z)) == At(t.zones, Place(p, z)) {
      assert card !in At(t.zones, Place(p, z));
      WithoutNone(At(t.zones, Place(p, z)), {card});
    }
    SameZones(now.zones, t.zones, p);
  }

  /** New tokens stay behind: nothing captured them. */
  lemma TokensLeak(t: Table, c: TableCommand, tag: nat)
    requires WellFormed(t) && c.CreateTokens? && Apply(t, c, tag).Some?
    ensures Undo(t, c, Apply(t, c, tag).value.0) != t
  {
    var first := Minted(tag, 0);
    assert TokenIds(tag, TokenCount(c.quantity))[0] == first;
    CapturedHere(t, c, first);
    assert first in Undo(t, c, Apply(t, c, tag).value.0).cards;
  }

  lemma DrawUndo(t: Table, c: TableCommand, tag: nat)
    requires WellFormed(t) && c.Draw? && Apply(t, c, tag).Some?
    ensures Undo(t, c, Apply(t, c, tag).value.0) == t
  {
    forall x | x in t.loc && t.loc[x].player in Captured(t, c) ensures x in CapturedCards(t, c) { CapturedHere(t, c, x); }
    if c.count > 0 {
      LibraryStepUndo(t, c.player, c.count, Place(c.player, Hand), DrawMany(t, c.player, c.count), Captured(t, c), CapturedCards(t, c));
    } else {
      RestoreExact(t, t, Captured(t, c), CapturedCards(t, c));
    }
  }

  lemma MoveTopUndo(t: Table, c: TableCommand, tag: nat)
    requires WellFormed(t) && c.MoveTop? && Apply(t, c, tag).Some?
    ensures Undo(t, c, Apply(t, c, tag).value.0) == t
  {
    var now := Apply(t, c, tag).value.0;
    forall x | x in t.loc && t.loc[x].player in Captured(t, c) ensures x in CapturedCards(t, c) { CapturedHere(t, c, x); }
    if c.count > 0 && c.to != Library {
      LibraryStepUndo(t, c.player, c.count, Place(OrElse(c.target, c.player), c.to), now, Captured(t, c), CapturedCards(t, c));
    } else {
      assert ChangesOnly(t, now, Captured(t, c), CapturedCards(t, c));
      RestoreExact(t, now, Captured(t, c), CapturedCards(t, c));
    }
  }

  lemma PutUndone(t: Table, c: TableCommand, tag: nat)
    requires WellFormed(t) && c.Put? && Apply(t, c, tag).Some?
    ensures Undo(t, c, Apply(t, c, tag).value.0) == t
  {
    forall s: Place { OneCardSlots(t, c.card, Place(c.player, Library), c.top, s); }
    PutUndo(t, c.player, c.card, PutInLibrary(t, c.player, c.card, c.top), Captured(t, c), CapturedCards(t, c));
  }

  lemma MovesUndo(t: Table, c: TableCommand, tag: nat)
    requires WellFormed(t) && (c.MoveCards? || c.MoveAll?) && Apply(t, c, tag).Some?
    ensures Undo(t, c, Apply(t, c, tag).value.0) == t <==> Undoable(t, c)
  {
    var ids := if c.MoveCards? then c.ids else At(t.zones, Place(c.player, c.source));
    forall x | x in ids ensures t.loc[x].player in Captured(t, c) ==> x in CapturedCards(t, c) {
      CapturedHere(t, c, x);
    }
    MovementUndo(t, ids, OrElse(c.target, c.player), c.to, c.position, Captured(t, c), CapturedCards(t, c));
  }

  /** Where a movement takes a card: home when it leaves a battlefield and its owner is known. */
  function Goes(t: Table, x: CardId, requested: PlayerId, z: Zone): PlayerId
    requires x in t.loc && x in t.cards
  {
    if t.loc[x].zone == Battlefield && z != Battlefield && t.cards[x].owner.Some?
       && (t.cards[x].owner.value in t.players || t.cards[x].owner.value in t.zones)
    then t.cards[x].owner.value else requested
  }

  /** The card neither counts as a cast nor, unless it is a token that vanishes, goes to anybody
      but those of `seen`; and it comes from one of them. */
  predicate Returns(t: Table, x: CardId, requested: PlayerId, z: Zone, seen: set<PlayerId>)
    requires x in t.loc && x in t.cards
  {
    && t.loc[x].player in seen
    && ((t.loc[x].zone == Battlefield && z != Battlefield && t.cards[x].token) || Goes(t, x, requested, z) in seen)
    && !(t.loc[x].zone == Command && z == Battlefield && (t.cards[x].owner.None? || t.cards[x].owner.value == t.loc[x].player))
  }

  /** A movement request is undone exactly if and only if every card returns within what the
      rollback has seen: the acting player, the one asked for, and the players who have the
      listed cards, or only the one who has the singly named card. */
  lemma MovementUndoneIff(t: Table, c: TableCommand, tag: nat, seen: set<PlayerId>)
    requires WellFormed(t) && c.MoveCards? && Apply(t, c, tag).Some?
    requires forall q :: q in seen <==>
      || q == c.player || q == (if c.target.Some? then c.target.value else c.player)
      || if c.named.Some? then c.named.value in t.loc && t.loc[c.named.value].player == q
         else exists x :: x in c.ids && x in t.loc && t.loc[x].player == q
    ensures Undo(t, c, Apply(t, c, tag).value.0) == t <==>
      forall x | x in c.ids :: x in t.loc && x in t.cards && Returns(t, x, OrElse(c.target, c.player), c.to, seen)
  {
    UndoExact(t, c, tag);
    AppliedCanMove(t, c, tag);
    SeenIsCaptured(t, c, seen);
    ReturnsCaptured(t, c.ids, OrElse(c.target, c.player), c.to, seen);
  }

  lemma AppliedCanMove(t: Table, c: TableCommand, tag: nat)
    requires (c.MoveCards? || c.MoveAll?) && Apply(t, c, tag).Some?
    ensures CanMove(t, if c.MoveCards? then c.ids else At(t.zones, Place(c.player, c.source)))
  {}

  lemma SeenIsCaptured(t: Table, c: TableCommand, seen: set<PlayerId>)
    requires c.MoveCards?
    requires forall q :: q in seen <==>
      || q == c.player || q == (if c.target.Some? then c.target.value else c.player)
      || if c.named.Some? then c.named.value in t.loc && t.loc[c.named.value].player == q
         else exists x :: x in c.ids && x in t.loc && t.loc[x].player == q
    ensures Captured(t, c) == seen
  {
    assert forall x :: x in SetOf(c.ids) <==> x in c.ids;
  }

  lemma ReturnsCaptured(t: Table, ids: seq<CardId>, requested: PlayerId, z: Zone, seen: set<PlayerId>)
    requires CanMove(t, ids)
    ensures CapturesTargets(t, ids, requested, z, seen) <==> forall x | x in ids :: x in t.loc && x in t.cards && Returns(t, x, requested, z, seen)
  {
    forall x | x in ids
      ensures (&& !IsCast(t, x, z) && (x in t.loc ==> t.loc[x].player in seen)
               && (x in Evaporating(t, ids, z) || Destination(t, x, requested, z) in seen)) <==> Returns(t, x, requested, z, seen)
    {}
  }

  /** Moving a whole zone is undone exactly if and only if every card of it returns to the acting
      player or the one asked for. */
  lemma ZoneUndoneIff(t: Table, c: TableCommand, tag: nat)
    requires WellFormed(t) && c.MoveAll? && Apply(t, c, tag).Some?
    ensures Undo(t, c, Apply(t, c, tag).value.0) == t <==>
      forall x | x in At(t.zones, Place(c.player, c.source)) ::
        x in t.loc && x in t.cards
        && Returns(t, x, OrElse(c.target, c.player), c.to, {c.player, if c.target.Some? then c.target.value else c.player})
  {
    UndoExact(t, c, tag);
    AppliedCanMove(t, c, tag);
    ReturnsCaptured(t, At(t.zones, Place(c.player, c.source)), OrElse(c.target, c.player), c.to,
                    {c.player, if c.target.Some? then c.target.value else c.player});
  }

  /** Undoing a command that was applied gives the table back if and only if its guard holds. */
  lemma UndoExact(t: Table, c: TableCommand, tag: nat)
    requires WellFormed(t) && Apply(t, c, tag).Some?
    ensures Undo(t, c, Apply(t, c, tag).value.0) == t <==> Undoable(t, c)
  {
    match c
    case MoveCards(_, _, _, _, _, _, _) => MovesUndo(t, c, tag);
    case MoveAll(_, _, _, _, _) => MovesUndo(t, c, tag);
    case Draw(_, _) => DrawUndo(t, c, tag);
    case MoveTop(_, _, _, _, _) => MoveTopUndo(t, c, tag);
    case Put(_, _, _) => PutUndone(t, c, tag);
    case CreateTokens(_, _, _) => TokensLeak(t, c, tag);
    case PlayTop(_, _, _) =>
  }
}
