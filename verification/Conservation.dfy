/**
  No command loses or duplicates a card: every card stays in exactly one slot and the
  location index agrees; tokens appear and evaporate on a battlefield and nowhere else.
 */
module Conservation {
  import opened Common
  import opened Table
  import opened Slots
  import opened Movement

  // ------------------------------------------------- library and token steps

  /** `r` is `t` with the cards `moved` taken out of wherever they were and put into `q`. */
  ghost predicate Relocates(t: Table, r: Table, moved: set<CardId>, q: Place) {
    && (forall c: CardId, s: Place :: c in At(r.zones, s) <==> (c in At(t.zones, s) && c !in moved) || (s == q && c in moved))
    && (forall s: Place :: NoDup(At(r.zones, s)))
    && r.loc == map c | c in t.loc.Keys + moved :: if c in moved then q else t.loc[c]
  }

  lemma RelocatingKeepsIndex(t: Table, r: Table, moved: set<CardId>, q: Place)
    requires Indexed(t) && Relocates(t, r, moved, q)
    ensures Indexed(r)
  {}

  /** The top `n` cards of a library are not anywhere else. */
  lemma TopOfLibrary(t: Table, p: PlayerId, n: nat)
    requires Indexed(t) && n <= |LibraryOf(t, p)|
    ensures var top := LibraryOf(t, p)[..n]; var rest := LibraryOf(t, p)[n..];
      && NoDup(top) && NoDup(rest)
      && (forall c | c in top :: c !in rest && c in t.loc && t.loc[c] == Place(p, Library))
      && (forall c :: c in LibraryOf(t, p) <==> c in top || c in rest)
  {
    var l := LibraryOf(t, p);
    assert l == l[..n] + l[n..];
    assert NoDup(l);
    forall c | c in l[..n] ensures c !in l[n..] && c in t.loc && t.loc[c] == Place(p, Library) {
      var i :| 0 <= i < n && l[i] == c;
      assert c in l;
    }
  }

  lemma MoveTopSlots(t: Table, p: PlayerId, n: nat, q: Place)
    requires n <= |LibraryOf(t, p)| && q.zone != Library
    ensures forall s: Place ::
      (At(MoveTopTo(t, p, n, q).zones, s) == if s == Place(p, Library) then LibraryOf(t, p)[n..]
                                             else if s == q then At(t.zones, q) + LibraryOf(t, p)[..n] else At(t.zones, s))
  {
    var l := LibraryOf(t, p);
    var r := MoveTopTo(t, p, n, q);
    var zones := SetAt(t.zones, Place(p, Library), l[n..]);
    forall s: Place ensures At(r.zones, s) ==
      if s == Place(p, Library) then l[n..] else if s == q then At(t.zones, q) + l[..n] else At(t.zones, s)
    {
      AtSetAt(t.zones, Place(p, Library), l[n..], s);
      AtSetAt(t.zones, Place(p, Library), l[n..], q);
      AtSetAt(zones, q, At(zones, q) + l[..n], s);
    }
  }

  lemma MoveTopRelocates(t: Table, p: PlayerId, n: nat, q: Place)
    requires Indexed(t) && n <= |LibraryOf(t, p)| && q.zone != Library
    ensures Relocates(t, MoveTopTo(t, p, n, q), SetOf(LibraryOf(t, p)[..n]), q)
  {
    TopOfLibrary(t, p, n);
    MoveTopSlots(t, p, n, q);
    var l := LibraryOf(t, p);
    var r := MoveTopTo(t, p, n, q);
    assert forall c | c in l[..n] :: c in t.loc && c !in At(t.zones, q);
    NoDupConcat(At(t.zones, q), l[..n]);
    forall c: CardId, s: Place
      ensures c in At(r.zones, s) <==> (c in At(t.zones, s) && c !in SetOf(l[..n])) || (s == q && c in SetOf(l[..n]))
    {
      assert c in l[..n] && c in At(t.zones, s) ==> s == Place(p, Library);
    }
  }

  lemma ToBottomKeepsIndex(t: Table, p: PlayerId, n: nat)
    requires Indexed(t) && n <= |LibraryOf(t, p)|
    ensures Indexed(MoveTopToBottom(t, p, n))
    ensures forall s: Place ::
      (At(MoveTopToBottom(t, p, n).zones, s) ==
       if s == Place(p, Library) then LibraryOf(t, p)[n..] + LibraryOf(t, p)[..n] else At(t.zones, s))
  {
    TopOfLibrary(t, p, n);
    var l := LibraryOf(t, p);
    var r := MoveTopToBottom(t, p, n);
    NoDupConcat(l[n..], l[..n]);
    forall s: Place ensures At(r.zones, s) == if s == Place(p, Library) then l[n..] + l[..n] else At(t.zones, s) {
      AtSetAt(t.zones, Place(p, Library), l[n..] + l[..n], s);
    }
  }

  /** Taking one card out and putting it at either end of a slot. */
  function Ended(slot: seq<CardId>, c: CardId, front: bool): seq<CardId> {
    if front then [c] + Without(slot, {c}) else Without(slot, {c}) + [c]
  }

  lemma OneCardSlots(t: Table, c: CardId, q: Place, front: bool, s: Place)
    ensures var zones := Take(t.zones, {c});
      At(SetAt(zones, q, if front then [c] + At(zones, q) else At(zones, q) + [c]), s)
      == if s == q then Ended(At(t.zones, s), c, front) else Without(At(t.zones, s), {c})
  {
    var zones := Take(t.zones, {c});
    AtTake(t.zones, {c}, s);
    AtTake(t.zones, {c}, q);
    AtSetAt(zones, q, if front then [c] + At(zones, q) else At(zones, q) + [c], s);
  }

  lemma OneCardRelocates(t: Table, r: Table, c: CardId, q: Place, front: bool)
    requires Indexed(t)
    requires forall s: Place :: At(r.zones, s) == if s == q then Ended(At(t.zones, s), c, front) else Without(At(t.zones, s), {c})
    requires r.loc == t.loc[c := q]
    ensures Relocates(t, r, {c}, q)
  {
    forall s: Place
      ensures forall x :: x in At(r.zones, s) <==> (x in At(t.zones, s) && x != c) || (s == q && x == c)
      ensures NoDup(At(r.zones, s))
    {
      EndedMembers(At(t.zones, s), c, front);
    }
  }

  lemma EndedMembers(slot: seq<CardId>, c: CardId, front: bool)
    requires NoDup(slot)
    ensures var left := Without(slot, {c}); NoDup(left) && forall x :: x in left <==> x in slot && x != c
    ensures var r := Ended(slot, c, front); NoDup(r) && forall x :: x in r <==> x in slot || x == c
  {
    var left := Without(slot, {c});
    WithoutMembers(slot, {c});
    WithoutNoDup(slot, {c});
    NoDupConcat([c], left);
    NoDupConcat(left, [c]);
  }

  lemma PutRelocates(t: Table, p: PlayerId, c: CardId, top: bool)
    requires Indexed(t)
    ensures Relocates(t, PutInLibrary(t, p, c, top), {c}, Place(p, Library))
    ensures Indexed(PutInLibrary(t, p, c, top))
  {
    var r := PutInLibrary(t, p, c, top);
    forall s: Place { OneCardSlots(t, c, Place(p, Library), top, s); }
    OneCardRelocates(t, r, c, Place(p, Library), top);
    RelocatingKeepsIndex(t, r, {c}, Place(p, Library));
  }

  lemma TokenSlots(t: Table, p: PlayerId, tag: nat, n: nat, marks: int, s: Place)
    ensures At(AddTokens(t, p, TokenIds(tag, n), marks).zones, s)
      == if s == Place(p, Battlefield) then At(t.zones, s) + TokenIds(tag, n) else At(t.zones, s)
  {
    var q := Place(p, Battlefield);
    AtSetAt(t.zones, q, At(t.zones, q) + TokenIds(tag, n), s);
  }

  lemma TokensRelocate(t: Table, p: PlayerId, tag: nat, n: nat, marks: int)
    requires Indexed(t) && forall c | c in TokenIds(tag, n) :: c !in t.loc
    ensures var r := AddTokens(t, p, TokenIds(tag, n), marks);
      && Relocates(t, r, SetOf(TokenIds(tag, n)), Place(p, Battlefield))
      && forall s: Place :: At(r.zones, s) ==
           if s == Place(p, Battlefield) then At(t.zones, s) + TokenIds(tag, n) else At(t.zones, s)
  {
    var ids := TokenIds(tag, n);
    var q := Place(p, Battlefield);
    var r := AddTokens(t, p, ids, marks);
    assert NoDup(ids);
    NoDupConcat(At(t.zones, q), ids);
    forall s: Place { TokenSlots(t, p, tag, n, marks, s); }
    forall c | c in ids ensures forall s: Place :: c !in At(t.zones, s) {}
  }

  // ------------------------------------------------------------ conservation

  /** The tokens a command makes disappear: those it moves off a battlefield. */
  function Gone(t: Table, c: TableCommand): set<CardId> {
    match c
    case MoveCards(_, _, ids, z, _, _, _) => Evaporating(t, ids, z)
    case MoveAll(p, source, z, _, _) => Evaporating(t, At(t.zones, Place(p, source)), z)
    case _ => {}
  }

  /** The tokens a command makes. */
  function Made(c: TableCommand, tag: nat): set<CardId> {
    match c
    case CreateTokens(_, quantity, _) => SetOf(TokenIds(tag, TokenCount(quantity)))
    case _ => {}
  }

  /** What one command may do to the set of cards and what it never touches. */
  ghost predicate Conserves(t: Table, r: Table, gone: set<CardId>, made: set<CardId>) {
    && r.players == t.players && t.zones.Keys <= r.zones.Keys
    && r.cards.Keys == t.cards.Keys - gone + made
    && (forall c | c in gone :: c in t.cards && t.cards[c].token)
    && (forall c | c in made :: c !in t.cards && r.cards[c].token)
    && (forall c | c in t.cards && c in r.cards :: r.cards[c].token == t.cards[c].token && r.cards[c].owner == t.cards[c].owner)
  }

  ghost predicate Keeps(t: Table, r: Table, gone: set<CardId>, made: set<CardId>) {
    WellFormed(r) && Conserves(t, r, gone, made)
  }

  lemma MovementKeeps(t: Table, ids: seq<CardId>, requested: PlayerId, z: Zone, position: Position)
    requires WellFormed(t) && CanMove(t, ids)
    ensures Keeps(t, MoveWithRules(t, ids, requested, z, position), Evaporating(t, ids, z), {})
  {
    MoveKeepsWellFormed(t, ids, requested, z, position);
    MoveSettles(t, ids, requested, z, position);
    MoveMarksCards(t, ids, requested, z, position);
  }

  /** A step that relocates cards and at most changes who controls them. */
  lemma RelocatingKeeps(t: Table, r: Table, moved: set<CardId>, q: Place)
    requires WellFormed(t) && Relocates(t, r, moved, q) && moved <= t.loc.Keys
    requires r.players == t.players && t.zones.Keys <= r.zones.Keys && r.cards.Keys == t.cards.Keys
    requires forall c | c in t.cards :: r.cards[c].token == t.cards[c].token && r.cards[c].owner == t.cards[c].owner
    ensures Keeps(t, r, {}, {})
  {
    RelocatingKeepsIndex(t, r, moved, q);
  }

  lemma DrawKeeps(t: Table, p: PlayerId, n: nat)
    requires WellFormed(t) && n <= |LibraryOf(t, p)|
    ensures Keeps(t, DrawMany(t, p, n), {}, {})
  {
    TopOfLibrary(t, p, n);
    MoveTopRelocates(t, p, n, Place(p, Hand));
    RelocatingKeeps(t, DrawMany(t, p, n), SetOf(LibraryOf(t, p)[..n]), Place(p, Hand));
  }

  lemma MoveTopKeeps(t: Table, p: PlayerId, n: nat, q: Place)
    requires WellFormed(t) && n <= |LibraryOf(t, p)| && q.zone != Library
    ensures Keeps(t, MoveTopTo(t, p, n, q), {}, {})
  {
    TopOfLibrary(t, p, n);
    MoveTopRelocates(t, p, n, q);
    RelocatingKeeps(t, MoveTopTo(t, p, n, q), SetOf(LibraryOf(t, p)[..n]), q);
  }

  lemma PutKeeps(t: Table, p: PlayerId, c: CardId, top: bool)
    requires WellFormed(t) && c in t.loc
    ensures Keeps(t, PutInLibrary(t, p, c, top), {}, {})
  {
    PutRelocates(t, p, c, top);
    RelocatingKeeps(t, PutInLibrary(t, p, c, top), {c}, Place(p, Library));
  }

  lemma TokensKeep(t: Table, p: PlayerId, tag: nat, n: nat, marks: int)
    requires WellFormed(t) && p in t.players
    requires forall c | c in TokenIds(tag, n) :: c !in t.loc
    ensures Keeps(t, AddTokens(t, p, TokenIds(tag, n), marks), {}, SetOf(TokenIds(tag, n)))
  {
    TokensRelocate(t, p, tag, n, marks);
    RelocatingKeepsIndex(t, AddTokens(t, p, TokenIds(tag, n), marks), SetOf(TokenIds(tag, n)), Place(p, Battlefield));
  }

  /** Everything a command keeps. */
  lemma ApplyKeeps(t: Table, c: TableCommand, tag: nat)
    requires WellFormed(t) && Apply(t, c, tag).Some?
    ensures Keeps(t, Apply(t, c, tag).value.0, Gone(t, c), Made(c, tag))
  {
    match c
    case MoveCards(p, from, ids, z, target, position, _) =>
      MovementKeeps(t, ids, OrElse(target, p), z, position);
    case MoveAll(p, source, z, target, position) =>
      MovementKeeps(t, At(t.zones, Place(p, source)), OrElse(target, p), z, position);
    case Draw(p, count) =>
      if count > 0 { DrawKeeps(t, p, count); }
    case MoveTop(p, count, z, target, position) =>
      if count > 0 && z == Library {
        ToBottomKeepsIndex(t, p, count);
      } else if count > 0 {
        MoveTopKeeps(t, p, count, Place(OrElse(target, p), z));
      }
    case Put(p, card, top) =>
      PutKeeps(t, p, card, top);
    case CreateTokens(p, quantity, marks) =>
      TokensKeep(t, p, tag, TokenCount(quantity), marks);
    case PlayTop(p, target, position) =>
      MovementKeeps(t, LibraryOf(t, p)[..1], OrElse(target, p), Battlefield, position);
      assert Evaporating(t, LibraryOf(t, p)[..1], Battlefield) == {};
  }

  // -------------------------------------------------------- tokens at home

  /** Tokens exist on a battlefield and nowhere else. */
  ghost predicate TokensAtHome(t: Table) {
    forall c | c in t.cards && c in t.loc :: t.cards[c].token ==> t.loc[c].zone == Battlefield
  }

  /** The one command that takes a token elsewhere: putting it into a library skips the
      evaporation every movement performs. */
  predicate ShelvesToken(t: Table, c: TableCommand) {
    c.Put? && c.card in t.cards && t.cards[c.card].token
  }

  lemma TokensStayHome(t: Table, c: TableCommand, tag: nat)
    requires WellFormed(t) && TokensAtHome(t) && Apply(t, c, tag).Some?
    ensures TokensAtHome(Apply(t, c, tag).value.0) <==> !ShelvesToken(t, c)
  {
    ApplyKeeps(t, c, tag);
    match c
    case MoveCards(p, from, ids, z, target, position, _) =>
      MovementLeavesTokensHome(t, ids, OrElse(target, p), z, position);
    case MoveAll(p, source, z, target, position) =>
      MovementLeavesTokensHome(t, At(t.zones, Place(p, source)), OrElse(target, p), z, position);
    case Draw(p, count) =>
      if count > 0 { TopOfLibrary(t, p, count); }
    case MoveTop(p, count, z, target, position) =>
      if count > 0 && z != Library { TopOfLibrary(t, p, count); }
    case Put(p, card, top) => PutShelves(t, p, card, top);
    case CreateTokens(p, quantity, marks) =>
    case PlayTop(p, target, position) =>
      MovementLeavesTokensHome(t, LibraryOf(t, p)[..1], OrElse(target, p), Battlefield, position);
  }

  lemma PutShelves(t: Table, p: PlayerId, card: CardId, top: bool)
    requires WellFormed(t) && TokensAtHome(t) && card in t.cards
    ensures TokensAtHome(PutInLibrary(t, p, card, top)) <==> !t.cards[card].token
  {
    var r := PutInLibrary(t, p, card, top);
    assert r.loc[card].zone == Library && r.cards[card].token == t.cards[card].token;
  }

  lemma MovementLeavesTokensHome(t: Table, ids: seq<CardId>, requested: PlayerId, z: Zone, position: Position)
    requires WellFormed(t) && TokensAtHome(t) && CanMove(t, ids)
    ensures TokensAtHome(MoveWithRules(t, ids, requested, z, position))
  {
    MoveSettles(t, ids, requested, z, position);
    MoveMarksCards(t, ids, requested, z, position);
  }

  // ------------------------------------------------------------ owner return

  /** A card that leaves the battlefield lands with its owner when the owner is known, reset
      and under the owner's control; what one player receives keeps the request order. */
  lemma LeaversGoHome(t: Table, ids: seq<CardId>, requested: PlayerId, z: Zone, position: Position, c: CardId)
    requires WellFormed(t) && CanMove(t, ids) && c in ids && t.loc[c].zone == Battlefield && z != Battlefield
    ensures var r := MoveWithRules(t, ids, requested, z, position);
      var home := t.cards[c].owner.Some? && (t.cards[c].owner.value in t.players || t.cards[c].owner.value in t.zones);
      if t.cards[c].token then c !in r.cards && c !in r.loc && forall q: Place :: c !in At(r.zones, q)
      else
        && c in r.cards && r.cards[c].marks == 0
        && c in r.loc && c in At(r.zones, r.loc[c]) && r.loc[c].zone == z
        && (home ==> r.loc[c].player == t.cards[c].owner.value && r.cards[c].controller == t.cards[c].owner)
        && (!home ==> r.loc[c].player == requested)
  {
    MovementKeeps(t, ids, requested, z, position);
    MoveSettles(t, ids, requested, z, position);
    MoveMarksCards(t, ids, requested, z, position);
  }

  /** What does not stay with one player: bound for another, or evaporating. */
  function Elsewhere(t: Table, ids: seq<CardId>, requested: PlayerId, z: Zone, d: PlayerId): set<CardId> {
    set c | c in ids && (c in Evaporating(t, ids, z) || Destination(t, c, requested, z) != d)
  }

  lemma KeptInOrder(t: Table, ids: seq<CardId>, requested: PlayerId, z: Zone, d: PlayerId)
    ensures Kept(t, ids, requested, z, d) == Without(ids, Elsewhere(t, ids, requested, z, d))
  {
    var dest := Destinations(t, ids, requested, z);
    var others := set c | c in ids && (c !in dest || dest[c] != d);
    forall c | c in ids ensures c in dest { assert c in SetOf(ids); }
    WithoutTwice(ids, others, Evaporating(t, ids, z));
    WithoutSame(ids, others + Evaporating(t, ids, z), Elsewhere(t, ids, requested, z, d));
  }

  /** What was placed can be read back from the slot. */
  lemma PlacedReadBack(stayed: seq<CardId>, kept: seq<CardId>, z: Zone, position: Position)
    requires forall c | c in kept :: c !in stayed
    ensures var slot := Placed(stayed, kept, z, position);
      var arrived := Without(slot, SetOf(stayed));
      && slot == (if GoesInFront(z, position) then arrived + stayed else stayed + arrived)
      && (if z == Library && GoesInFront(z, position) then Reverse(arrived) else arrived) == kept
  {
    ReverseMembers(kept);
    ReverseTwice(kept);
    if z == Library && GoesInFront(z, position) {
      JoinReadBack(stayed, Reverse(kept));
    } else {
      JoinReadBack(stayed, kept);
    }
  }

  lemma JoinReadBack(stayed: seq<CardId>, placed: seq<CardId>)
    requires forall c | c in placed :: c !in stayed
    ensures Without(placed + stayed, SetOf(stayed)) == placed
    ensures Without(stayed + placed, SetOf(stayed)) == placed
  {
    WithoutNone(placed, SetOf(stayed));
    WithoutAll(stayed, SetOf(stayed));
    WithoutConcat(placed, stayed, SetOf(stayed));
    WithoutConcat(stayed, placed, SetOf(stayed));
  }

  /** What arrives at a place is in request order there: reversed on top of a library,
      in front of any other zone when so asked, behind otherwise. */
  lemma ArrivalsKeepOrder(t: Table, ids: seq<CardId>, requested: PlayerId, z: Zone, position: Position, d: PlayerId)
    requires CanMove(t, ids)
    ensures var slot := At(MoveWithRules(t, ids, requested, z, position).zones, Place(d, z));
      var stayed := Without(At(t.zones, Place(d, z)), SetOf(ids));
      var arrived := Without(slot, SetOf(stayed));
      && slot == (if position == (if z == Library then Top else Bottom) then arrived + stayed else stayed + arrived)
      && (if z == Library && position == Top then Reverse(arrived) else arrived)
         == Without(ids, Elsewhere(t, ids, requested, z, d))
  {
    var q := Place(d, z);
    var r := MoveWithRules(t, ids, requested, z, position);
    MoveSettles(t, ids, requested, z, position);
    assert At(r.zones, q) == Settled(t, ids, requested, z, position, q);
    KeptInOrder(t, ids, requested, z, d);
    KeptMembers(t, ids, requested, z, d);
    WithoutMembers(At(t.zones, q), SetOf(ids));
    PlacedReadBack(Without(At(t.zones, q), SetOf(ids)), Kept(t, ids, requested, z, d), z, position);
  }

  /** Exactly one slot, spelled out for one card. */
  lemma ExactlyOneSlot(t: Table, c: CardId)
    requires WellFormed(t) && c in t.cards
    ensures exists i :: 0 <= i < |At(t.zones, t.loc[c])| && At(t.zones, t.loc[c])[i] == c
    ensures forall q: Place, i, j | 0 <= i < |At(t.zones, q)| && 0 <= j < |At(t.zones, t.loc[c])|
              && At(t.zones, q)[i] == c && At(t.zones, t.loc[c])[j] == c :: q == t.loc[c] && i == j
  {
    assert c in At(t.zones, t.loc[c]);
    forall q: Place, i, j | 0 <= i < |At(t.zones, q)| && 0 <= j < |At(t.zones, t.loc[c])|
              && At(t.zones, q)[i] == c && At(t.zones, t.loc[c])[j] == c
      ensures q == t.loc[c] && i == j
    {
      assert c in At(t.zones, q);
      assert NoDup(At(t.zones, q));
    }
  }
}
