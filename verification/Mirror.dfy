/**
  Zone counts as a client sees them: it knows nothing but the `zone.count.set` operations of
  each patch, and still its counts stay exact.
 */
module Mirror {
  import opened Common
  import opened Table
  import opened Slots
  import opened Movement
  import opened Conservation

  /** Both ends of every move, evaporating cards included. */
  function MoveEnds(t: Table, ids: seq<CardId>, requested: PlayerId, z: Zone): set<Place> {
    (set c | c in SetOf(ids) && c in t.loc :: t.loc[c])
    + (set c | c in SetOf(ids) :: Place(Destination(t, c, requested, z), z))
  }

  /** The places whose counts a command's patch carries. */
  function Touched(t: Table, c: TableCommand): set<Place> {
    match c
    case MoveCards(p, _, ids, z, target, _, _) => MoveEnds(t, ids, OrElse(target, p), z)
    case MoveAll(p, source, z, target, _) => MoveEnds(t, At(t.zones, Place(p, source)), OrElse(target, p), z)
    case Draw(p, _) => {Place(p, Library), Place(p, Hand)}
    case MoveTop(p, _, z, target, _) =>
      {Place(p, Library)} + if z == Library then {} else {Place(OrElse(target, p), z)}
    case Put(p, card, _) => {Place(p, Library)} + if card in t.loc then {t.loc[card]} else {}
    case CreateTokens(p, _, _) => {Place(p, Battlefield)}
    case PlayTop(p, target, _) =>
      if LibraryOf(t, p) == [] then {} else MoveEnds(t, LibraryOf(t, p)[..1], OrElse(target, p), Battlefield)
  }

  /** One patch on the client's side; a place it has no count for is empty. */
  function Announce(counts: map<Place, int>, r: Table, touched: set<Place>): map<Place, int> {
    map q | q in counts.Keys + touched :: if q in touched then |At(r.zones, q)| else counts[q]
  }

  function CountOf(counts: map<Place, int>, q: Place): int {
    if q in counts then counts[q] else 0
  }

  ghost predicate Exact(counts: map<Place, int>, t: Table) {
    forall q: Place :: CountOf(counts, q) == |At(t.zones, q)|
  }

  /** A place no count was sent for holds exactly what it held before. */
  lemma UntouchedUnchanged(t: Table, c: TableCommand, tag: nat, q: Place)
    requires WellFormed(t) && Apply(t, c, tag).Some? && q !in Touched(t, c)
    ensures At(Apply(t, c, tag).value.0.zones, q) == At(t.zones, q)
  {
    match c
    case MoveCards(p, from, ids, z, target, position, _) =>
      MoveLeavesOthers(t, ids, OrElse(target, p), z, position, q);
    case MoveAll(p, source, z, target, position) =>
      MoveLeavesOthers(t, At(t.zones, Place(p, source)), OrElse(target, p), z, position, q);
    case Draw(_, _) => LibraryLeavesOthers(t, c, tag, q);
    case MoveTop(_, _, _, _, _) => LibraryLeavesOthers(t, c, tag, q);
    case Put(p, card, top) => PutLeavesOthers(t, p, card, top, q);
    case CreateTokens(p, quantity, marks) => TokenSlots(t, p, tag, TokenCount(quantity), marks, q);
    case PlayTop(p, target, position) =>
      MoveLeavesOthers(t, LibraryOf(t, p)[..1], OrElse(target, p), Battlefield, position, q);
  }

  lemma LibraryLeavesOthers(t: Table, c: TableCommand, tag: nat, q: Place)
    requires (c.Draw? || c.MoveTop?) && Apply(t, c, tag).Some? && q !in Touched(t, c)
    ensures At(Apply(t, c, tag).value.0.zones, q) == At(t.zones, q)
  {
    match c
    case Draw(p, count) => if count > 0 { MoveTopSlots(t, p, count, Place(p, Hand)); }
    case MoveTop(p, count, z, target, position) =>
      if count > 0 && z == Library { AtSetAt(t.zones, Place(p, Library), LibraryOf(t, p)[count..] + LibraryOf(t, p)[..count], q); }
      else if count > 0 { MoveTopSlots(t, p, count, Place(OrElse(target, p), z)); }
  }

  lemma PutLeavesOthers(t: Table, p: PlayerId, card: CardId, top: bool, q: Place)
    requires Indexed(t) && card in t.loc && q != Place(p, Library) && q != t.loc[card]
    ensures At(PutInLibrary(t, p, card, top).zones, q) == At(t.zones, q)
  {
    OneCardSlots(t, card, Place(p, Library), top, q);
    assert card !in At(t.zones, q);
    WithoutNone(At(t.zones, q), {card});
  }

  lemma NothingArrives(t: Table, ids: seq<CardId>, requested: PlayerId, z: Zone, d: PlayerId)
    requires Place(d, z) !in MoveEnds(t, ids, requested, z)
    ensures Kept(t, ids, requested, z, d) == []
  {
    KeptMembers(t, ids, requested, z, d);
    forall c | c in SetOf(ids) ensures Destination(t, c, requested, z) != d {
      assert Place(Destination(t, c, requested, z), z) in MoveEnds(t, ids, requested, z);
    }
    assert forall c :: c !in Kept(t, ids, requested, z, d) by {
      forall c | c in ids ensures c in SetOf(ids) {}
    }
    EmptyOrNot(Kept(t, ids, requested, z, d));
  }

  lemma MoveLeavesOthers(t: Table, ids: seq<CardId>, requested: PlayerId, z: Zone, position: Position, q: Place)
    requires WellFormed(t) && CanMove(t, ids) && q !in MoveEnds(t, ids, requested, z)
    ensures At(MoveWithRules(t, ids, requested, z, position).zones, q) == At(t.zones, q)
  {
    var r := MoveWithRules(t, ids, requested, z, position);
    MoveSettles(t, ids, requested, z, position);
    assert At(r.zones, q) == Settled(t, ids, requested, z, position, q);
    StaysWhole(t, ids, requested, z, q);
    if q.zone == z { NothingArrives(t, ids, requested, z, q.player); }
    PlacedMembers(At(t.zones, q), [], z, position);
  }

  lemma StaysWhole(t: Table, ids: seq<CardId>, requested: PlayerId, z: Zone, q: Place)
    requires Indexed(t) && q !in MoveEnds(t, ids, requested, z)
    ensures Without(At(t.zones, q), SetOf(ids)) == At(t.zones, q)
  {
    forall c | c in At(t.zones, q) ensures c !in SetOf(ids) {
      assert c in t.loc && t.loc[c] == q;
    }
    WithoutNone(At(t.zones, q), SetOf(ids));
  }

  /** A client with exact counts has exact counts after the patch. */
  lemma AnnouncedCountsExact(t: Table, c: TableCommand, tag: nat, counts: map<Place, int>)
    requires WellFormed(t) && Apply(t, c, tag).Some? && Exact(counts, t)
    ensures Exact(Announce(counts, Apply(t, c, tag).value.0, Touched(t, c)), Apply(t, c, tag).value.0)
  {
    var r := Apply(t, c, tag).value.0;
    forall q: Place ensures CountOf(Announce(counts, r, Touched(t, c)), q) == |At(r.zones, q)| {
      if q !in Touched(t, c) {
        UntouchedUnchanged(t, c, tag, q);
        assert CountOf(counts, q) == |At(t.zones, q)|;
      }
    }
  }
}
