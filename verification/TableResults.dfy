/**
  What each library and token command leaves, place by place and card by card, and when it is
  taken at all: order included, which neither conservation nor counts can see.
 */
module TableResults {
  import opened Common
  import opened Table
  import opened Slots
  import opened Movement
  import opened Conservation
  import opened TableReject

  /** Everything but the zones of two places, the entries of the moved cards and who controls them. */
  ghost predicate OnlyMoved(t: Table, r: Table, moved: seq<CardId>, from: Place, to: Place) {
    && r.players == t.players && r.casts == t.casts && r.cards.Keys == t.cards.Keys
    && (forall q: Place | q != from && q != to :: At(r.zones, q) == At(t.zones, q))
    && (forall c | c !in moved :: (c in r.loc <==> c in t.loc) && (c in t.loc ==> r.loc[c] == t.loc[c]))
    && (forall c | c in moved :: c in r.loc && r.loc[c] == to)
    && (forall c | c in t.cards && c !in moved :: r.cards[c] == t.cards[c])
  }

  // ------------------------------------------------------------------ library

  /** A draw is taken exactly when the library has that many cards; they go to the end of the
      hand in library order, and nobody's control changes. */
  lemma DrawResult(t: Table, p: PlayerId, n: int, tag: nat)
    ensures Apply(t, Draw(p, n), tag).Some? <==> n <= 0 || (p in t.zones && n <= |LibraryOf(t, p)|)
    ensures n <= 0 ==> Apply(t, Draw(p, n), tag) == Some((t, Drawn(p, [])))
    ensures 0 < n <= |LibraryOf(t, p)| && p in t.zones ==>
      var library := LibraryOf(t, p); var (r, e) := Apply(t, Draw(p, n), tag).value;
      && LibraryOf(r, p) == library[n..] && At(r.zones, Place(p, Hand)) == At(t.zones, Place(p, Hand)) + library[..n]
      && OnlyMoved(t, r, library[..n], Place(p, Library), Place(p, Hand)) && r.cards == t.cards
      && e == Drawn(p, library[..n])
  {
    if 0 < n <= |LibraryOf(t, p)| {
      MoveTopSlots(t, p, n, Place(p, Hand));
      assert forall c | c in LibraryOf(t, p)[..n] :: c in SetOf(LibraryOf(t, p)[..n]);
    }
  }

  /** Moving the top of a library to another zone: taken exactly when there are that many cards;
      they go to the end of that zone in library order, under its player's control when it is a
      battlefield or a hand. */
  lemma MoveTopResult(t: Table, p: PlayerId, n: int, z: Zone, target: Option<PlayerId>, position: Position, tag: nat)
    requires z != Library
    ensures Apply(t, MoveTop(p, n, z, target, position), tag).Some? <==> n <= 0 || (p in t.zones && n <= |LibraryOf(t, p)|)
    ensures n <= 0 ==> Result(Apply(t, MoveTop(p, n, z, target, position), tag)) == Some(t)
    ensures 0 < n <= |LibraryOf(t, p)| && p in t.zones ==>
      var library := LibraryOf(t, p); var q := Place(if target.Some? then target.value else p, z);
      var (r, e) := Apply(t, MoveTop(p, n, z, target, position), tag).value;
      && LibraryOf(r, p) == library[n..] && At(r.zones, q) == At(t.zones, q) + library[..n]
      && OnlyMoved(t, r, library[..n], Place(p, Library), q)
      && (forall c | c in library[..n] && c in t.cards ::
            r.cards[c] == if z == Battlefield || z == Hand then t.cards[c].(controller := Some(q.player)) else t.cards[c])
      && e == MovedTop(p, q.player, z, library[..n])
  {
    if 0 < n <= |LibraryOf(t, p)| {
      var q := Place(OrElse(target, p), z);
      MoveTopSlots(t, p, n, q);
      assert forall c | c in LibraryOf(t, p)[..n] :: c in SetOf(LibraryOf(t, p)[..n]);
    }
  }

  /** Moving the top of a library to its own bottom keeps the order of both parts; it has to be
      asked for as the bottom. */
  lemma ToBottomResult(t: Table, p: PlayerId, n: int, target: Option<PlayerId>, position: Position, tag: nat)
    ensures Apply(t, MoveTop(p, n, Library, target, position), tag).Some? <==>
      position == Bottom && (n <= 0 || (p in t.zones && n <= |LibraryOf(t, p)|))
    ensures n <= 0 && position == Bottom ==> Result(Apply(t, MoveTop(p, n, Library, target, position), tag)) == Some(t)
    ensures 0 < n <= |LibraryOf(t, p)| && p in t.zones && position == Bottom ==>
      var library := LibraryOf(t, p); var (r, e) := Apply(t, MoveTop(p, n, Library, target, position), tag).value;
      && LibraryOf(r, p) == library[n..] + library[..n]
      && (forall q: Place | q != Place(p, Library) :: At(r.zones, q) == At(t.zones, q))
      && r == t.(zones := r.zones) && e == MovedTop(p, p, Library, library[..n])
  {
    if 0 < n <= |LibraryOf(t, p)| {
      var l := LibraryOf(t, p)[n..] + LibraryOf(t, p)[..n];
      forall q: Place ensures At(SetAt(t.zones, Place(p, Library), l), q) == if q == Place(p, Library) then l else At(t.zones, q) {
        AtSetAt(t.zones, Place(p, Library), l, q);
      }
    }
  }

  /** A put is taken exactly when the card is somewhere and the player has zones; the card is
      then the first of that library, or the last, and nowhere else. */
  lemma PutResult(t: Table, p: PlayerId, card: CardId, top: bool, tag: nat)
    ensures Apply(t, Put(p, card, top), tag).Some? <==> card in t.loc && card in t.cards && p in t.zones
    ensures Apply(t, Put(p, card, top), tag).Some? ==>
      var (r, e) := Apply(t, Put(p, card, top), tag).value; var others := Without(LibraryOf(t, p), {card});
      && LibraryOf(r, p) == (if top then [card] + others else others + [card])
      && (forall q: Place | q != Place(p, Library) :: At(r.zones, q) == Without(At(t.zones, q), {card}))
      && r.loc == t.loc[card := Place(p, Library)]
      && r.cards == t.cards && r.casts == t.casts && r.players == t.players && e == PutDown(p, card, top)
  {
    forall q: Place { OneCardSlots(t, card, Place(p, Library), top, q); }
  }

  /** A card put on top is the next one drawn. */
  lemma PutOnTopIsDrawnNext(t: Table, p: PlayerId, card: CardId, tag: nat, later: nat)
    requires Apply(t, Put(p, card, true), tag).Some?
    ensures var r := Apply(t, Put(p, card, true), tag).value.0; var drawn := Apply(r, Draw(p, 1), later);
      && drawn.Some? && drawn.value.1 == Drawn(p, [card])
      && At(drawn.value.0.zones, Place(p, Hand)) == Without(At(t.zones, Place(p, Hand)), {card}) + [card]
      && LibraryOf(drawn.value.0, p) == Without(LibraryOf(t, p), {card})
  {
    var r := Apply(t, Put(p, card, true), tag).value.0;
    PutResult(t, p, card, true, tag);
    DrawResult(r, p, 1, later);
    assert LibraryOf(r, p) == [card] + Without(LibraryOf(t, p), {card});
    assert p in r.zones;
  }

  /** A card put on the bottom is not drawn before all the others. */
  lemma PutOnBottomIsDrawnLast(t: Table, p: PlayerId, card: CardId, tag: nat, n: int, later: nat)
    requires Apply(t, Put(p, card, false), tag).Some? && 0 < n
    ensures var r := Apply(t, Put(p, card, false), tag).value.0; var others := Without(LibraryOf(t, p), {card});
      && (n <= |others| ==> Result(Apply(r, Draw(p, n), later)).Some? && Apply(r, Draw(p, n), later).value.1 == Drawn(p, others[..n]))
      && (n == |others| + 1 ==> Result(Apply(r, Draw(p, n), later)).Some? && Apply(r, Draw(p, n), later).value.1 == Drawn(p, others + [card]))
  {
    var r := Apply(t, Put(p, card, false), tag).value.0;
    var others := Without(LibraryOf(t, p), {card});
    PutResult(t, p, card, false, tag);
    DrawResult(r, p, n, later);
    assert p in r.zones;
    if n <= |others| { assert (others + [card])[..n] == others[..n]; }
    if n == |others| + 1 { assert (others + [card])[..n] == others + [card]; }
  }

  /** A put for a player without zones is refused after the card was taken out: until the
      rollback it is nowhere. */
  lemma RefusedPutTookOut(t: Table, p: PlayerId, card: CardId, top: bool, tag: nat)
    requires card in t.loc && card in t.cards && p !in t.zones
    ensures Apply(t, Put(p, card, top), tag).None?
    ensures var left := Leftover(t, Put(p, card, top), tag);
      card !in left.loc && left.cards == t.cards && forall q: Place :: At(left.zones, q) == Without(At(t.zones, q), {card})
  {
    forall q: Place { AtTake(t.zones, {card}, q); }
  }

  // ------------------------------------------------------------------- tokens

  /** Between one and twenty tokens, one when no number is given, with ids of their own that
      nothing has yet, at the end of their player's battlefield, owned and controlled by them. */
  lemma TokensResult(t: Table, p: PlayerId, quantity: Option<int>, marks: int, tag: nat)
    ensures var n := if quantity.None? || quantity.value < 1 then 1 else if quantity.value > 20 then 20 else quantity.value;
      var ids := seq(n, i requires 0 <= i < n => Minted(tag, i));
      && (Apply(t, CreateTokens(p, quantity, marks), tag).Some? <==> p in t.players && forall c | c in ids :: c !in t.loc)
      && (Apply(t, CreateTokens(p, quantity, marks), tag).Some? ==>
            var r := Apply(t, CreateTokens(p, quantity, marks), tag).value.0; var q := Place(p, Battlefield);
            && (forall s: Place :: At(r.zones, s) == if s == q then At(t.zones, s) + ids else At(t.zones, s))
            && (forall c | c in ids :: c in r.cards && r.cards[c] == Card(Some(p), Some(p), true, false, marks) && c in r.loc && r.loc[c] == q)
            && (forall c | c !in ids :: (c in r.cards <==> c in t.cards) && (c in t.cards ==> r.cards[c] == t.cards[c]))
            && (forall c | c !in ids :: (c in r.loc <==> c in t.loc) && (c in t.loc ==> r.loc[c] == t.loc[c]))
            && r.casts == t.casts && r.players == t.players)
  {
    var n := TokenCount(quantity);
    assert TokenIds(tag, n) == seq(n, i requires 0 <= i < n => Minted(tag, i));
    forall s: Place { TokenSlots(t, p, tag, n, marks, s); }
  }

  // ---------------------------------------------------------------- movements

  /** A movement request is taken exactly when it names cards, each once, all of which exist
      and lie in the zone it says they come from, if it says so. */
  lemma MoveTakenIff(t: Table, c: TableCommand, tag: nat)
    requires c.MoveCards?
    ensures Apply(t, c, tag).Some? <==>
      && c.ids != [] && (forall i, j | 0 <= i < j < |c.ids| :: c.ids[i] != c.ids[j])
      && forall x | x in c.ids :: x in t.loc && x in t.cards && (c.from.Some? ==> t.loc[x].zone == c.from.value)
  {}

  /** One that names nothing, a card that is nowhere, or the wrong zone, is refused before
      anything moves. */
  lemma RefusedAtOnce(t: Table, c: TableCommand, tag: nat)
    requires c.MoveCards? && (c.ids == [] || exists x :: x in c.ids && (x !in t.loc || (c.from.Some? && t.loc[x].zone != c.from.value)))
    ensures Apply(t, c, tag).None? && Leftover(t, c, tag) == t
  {}

  /** A card moved from a command zone to a battlefield, which belongs to the player it comes
      from or to nobody. */
  predicate Casts(t: Table, ids: seq<CardId>, z: Zone, c: CardId) {
    && c in ids && c in t.loc && c in t.cards && t.loc[c].zone == Command && z == Battlefield
    && (t.cards[c].owner.None? || t.cards[c].owner.value == t.loc[c].player)
  }

  /** Every cast is counted once and marks the card as a commander; nothing else does either. */
  lemma CastsCounted(t: Table, ids: seq<CardId>, requested: PlayerId, z: Zone, position: Position, c: CardId)
    requires CanMove(t, ids)
    ensures var r := MoveWithRules(t, ids, requested, z, position);
      && (Casts(t, ids, z, c) ==> c in r.casts && r.casts[c] == (if c in t.casts then t.casts[c] else 0) + 1)
      && (!Casts(t, ids, z, c) ==> (c in r.casts <==> c in t.casts) && (c in t.casts ==> r.casts[c] == t.casts[c]))
  {
    GroupsLand(t, ids, Destinations(t, ids, requested, z), z, position);
    CountedOnce(t, ids, z, c);
  }

  lemma CountedOnce(t: Table, ids: seq<CardId>, z: Zone, c: CardId)
    ensures var casts := CountedCasts(t, t.casts, ids, z);
      && (Casts(t, ids, z, c) ==> c in casts && casts[c] == (if c in t.casts then t.casts[c] else 0) + 1)
      && (!Casts(t, ids, z, c) ==> (c in casts <==> c in t.casts) && (c in t.casts ==> casts[c] == t.casts[c]))
  {}

  lemma CastsMark(t: Table, ids: seq<CardId>, requested: PlayerId, z: Zone, position: Position, c: CardId)
    requires CanMove(t, ids) && c in t.cards && c in MoveWithRules(t, ids, requested, z, position).cards
    ensures MoveWithRules(t, ids, requested, z, position).cards[c].commander == (t.cards[c].commander || Casts(t, ids, z, c))
  {
    MoveMarksCards(t, ids, requested, z, position);
  }

  /** The top card played face down leaves its library to the battlefield of the player asked
      for, at the end unless the request says bottom; nobody may play from an empty library. */
  lemma PlayTopResult(t: Table, p: PlayerId, target: Option<PlayerId>, position: Position, tag: nat)
    requires WellFormed(t)
    ensures Apply(t, PlayTop(p, target, position), tag).Some? <==> LibraryOf(t, p) != []
    ensures LibraryOf(t, p) != [] ==>
      Played(t, Apply(t, PlayTop(p, target, position), tag).value.0, p, if target.Some? then target.value else p, position)
  {
    if LibraryOf(t, p) != [] {
      TopApplies(t, p, target, position, tag);
      PlayTopMoves(t, p, OrElse(target, p), position);
    }
  }

  lemma TopApplies(t: Table, p: PlayerId, target: Option<PlayerId>, position: Position, tag: nat)
    requires WellFormed(t) && LibraryOf(t, p) != []
    ensures Apply(t, PlayTop(p, target, position), tag).Some?
    ensures Apply(t, PlayTop(p, target, position), tag).value.0
      == MoveWithRules(t, [LibraryOf(t, p)[0]], OrElse(target, p), Battlefield, position)
  {
    var l := LibraryOf(t, p);
    assert l[0] in At(t.zones, Place(p, Library)) && l[..1] == [l[0]] && p in t.zones;
  }

  ghost predicate Played(t: Table, r: Table, p: PlayerId, d: PlayerId, position: Position)
    requires LibraryOf(t, p) != []
  {
    var top, board := LibraryOf(t, p)[0], At(t.zones, Place(d, Battlefield));
    && LibraryOf(r, p) == LibraryOf(t, p)[1..]
    && At(r.zones, Place(d, Battlefield)) == (if position == Bottom then [top] + board else board + [top])
    && r.loc == t.loc[top := Place(d, Battlefield)]
    && top in r.cards && r.cards[top].controller == Some(d)
  }

  lemma PlayTopMoves(t: Table, p: PlayerId, d: PlayerId, position: Position)
    requires WellFormed(t) && LibraryOf(t, p) != []
    ensures Played(t, MoveWithRules(t, [LibraryOf(t, p)[0]], d, Battlefield, position), p, d, position)
  {
    var top := LibraryOf(t, p)[0];
    assert top in At(t.zones, Place(p, Library)) && top in t.cards && t.loc[top] == Place(p, Library);
    MoveSettles(t, [top], d, Battlefield, position);
    PlayTopSlots(t, top, p, d, position);
    PlayTopControl(t, top, d, position);
  }

  lemma PlayTopControl(t: Table, top: CardId, d: PlayerId, position: Position)
    requires top in t.cards && top in t.loc && t.loc[top].zone == Library
    ensures var r := MoveWithRules(t, [top], d, Battlefield, position);
      && r.loc == t.loc[top := Place(d, Battlefield)] && top in r.cards && r.cards[top].controller == Some(d)
  {
    MoveSettles(t, [top], d, Battlefield, position);
    MoveMarksCards(t, [top], d, Battlefield, position);
    TopEntry(t, top, d);
  }

  lemma TopEntry(t: Table, top: CardId, d: PlayerId)
    requires top in t.cards && top in t.loc && t.loc[top].zone == Library
    ensures SettledLoc(t, [top], d, Battlefield) == t.loc[top := Place(d, Battlefield)] && Evaporating(t, [top], Battlefield) == {}
    ensures Arriving(t, top, d, Battlefield).controller == Some(d)
  {
    assert SetOf([top]) == {top};
  }

  lemma PlayTopSlots(t: Table, top: CardId, p: PlayerId, d: PlayerId, position: Position)
    requires WellFormed(t) && LibraryOf(t, p) != [] && top == LibraryOf(t, p)[0]
    ensures Settled(t, [top], d, Battlefield, position, Place(p, Library)) == LibraryOf(t, p)[1..]
    ensures var board := At(t.zones, Place(d, Battlefield));
      Settled(t, [top], d, Battlefield, position, Place(d, Battlefield)) == if position == Bottom then [top] + board else board + [top]
  {
    var board := At(t.zones, Place(d, Battlefield));
    assert top in At(t.zones, Place(p, Library)) && t.loc[top] == Place(p, Library) && top !in board;
    assert SetOf([top]) == {top};
    WithoutFirst(LibraryOf(t, p));
    WithoutNone(board, {top});
    KeptAlone(t, top, d);
  }

  lemma WithoutFirst(l: seq<CardId>)
    requires l != [] && NoDup(l)
    ensures Without(l, {l[0]}) == l[1..]
  {
    var head, tail := [l[0]], l[1..];
    assert l == head + tail;
    assert forall c | c in tail :: c != l[0];
    WithoutConcat(head, tail, {l[0]});
    WithoutNone(tail, {l[0]});
    WithoutAll(head, {l[0]});
  }

  lemma KeptAlone(t: Table, top: CardId, d: PlayerId)
    requires !Leaves(t, top, Battlefield)
    ensures Kept(t, [top], d, Battlefield, d) == [top]
  {
    var dest := Destinations(t, [top], d, Battlefield);
    assert top in [top] && top in SetOf([top]) && dest[top] == d;
    WithoutNone([top], set c | c in [top] && (c !in dest || dest[c] != d));
    WithoutNone([top], Evaporating(t, [top], Battlefield));
  }
}
