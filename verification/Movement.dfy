/**
  What a whole movement does to every place at once, although the code works batch by batch:
  the batches, the battlefield-exit reset and the evaporation of tokens together.
 */
module Movement {
  import opened Common
  import opened Table
  import opened Slots

  // ---------------------------------------------------------------- batches

  /** The players the cards go to. */
  function Targets(ids: seq<CardId>, dest: map<CardId, PlayerId>): set<PlayerId> {
    set c | c in SetOf(ids) && c in dest :: dest[c]
  }

  function Controlled(cards: map<CardId, Card>, ids: seq<CardId>, dest: map<CardId, PlayerId>, z: Zone): map<CardId, Card> {
    map c | c in cards ::
      if c in ids && c in dest && (z == Battlefield || z == Hand) then cards[c].(controller := Some(dest[c]))
      else cards[c]
  }

  function Located(loc: map<CardId, Place>, ids: seq<CardId>, dest: map<CardId, PlayerId>, z: Zone): map<CardId, Place>
    requires SetOf(ids) <= dest.Keys
  {
    map c | c in loc.Keys + SetOf(ids) :: if c in SetOf(ids) then Place(dest[c], z) else loc[c]
  }

  /** The contents of every place once the cards of `ids` are where `dest` says. */
  function Arrived(t: Table, ids: seq<CardId>, dest: map<CardId, PlayerId>, z: Zone, position: Position, q: Place): seq<CardId> {
    var left := Without(At(t.zones, q), SetOf(ids));
    if q.zone == z then Placed(left, Going(ids, dest, q.player), z, position) else left
  }

  ghost predicate Lands(t: Table, r: Table, ids: seq<CardId>, dest: map<CardId, PlayerId>, z: Zone, position: Position)
    requires SetOf(ids) <= dest.Keys
  {
    && r.players == t.players && r.casts == t.casts
    && r.zones.Keys == t.zones.Keys + Targets(ids, dest)
    && (forall q: Place :: At(r.zones, q) == Arrived(t, ids, dest, z, position, q))
    && r.cards == Controlled(t.cards, ids, dest, z)
    && r.loc == Located(t.loc, ids, dest, z)
  }

  lemma GoingMembers(ids: seq<CardId>, dest: map<CardId, PlayerId>, d: PlayerId)
    ensures forall c :: c in Going(ids, dest, d) <==> c in ids && c in dest && dest[c] == d
    ensures NoDup(ids) ==> NoDup(Going(ids, dest, d))
  {
    WithoutMembers(ids, set c | c in ids && (c !in dest || dest[c] != d));
    if NoDup(ids) { WithoutNoDup(ids, set c | c in ids && (c !in dest || dest[c] != d)); }
  }

  lemma StayingMembers(ids: seq<CardId>, dest: map<CardId, PlayerId>, d: PlayerId)
    ensures forall c :: c in Staying(ids, dest, d) <==> c in ids && !(c in dest && dest[c] == d)
    ensures SetOf(Staying(ids, dest, d)) <= SetOf(ids)
    ensures NoDup(ids) ==> NoDup(Staying(ids, dest, d))
  {
    WithoutMembers(ids, set c | c in ids && c in dest && dest[c] == d);
    if NoDup(ids) { WithoutNoDup(ids, set c | c in ids && c in dest && dest[c] == d); }
  }

  /** The later batches keep the request order of what they place. */
  lemma GoingOfStaying(ids: seq<CardId>, dest: map<CardId, PlayerId>, d: PlayerId, e: PlayerId)
    ensures Going(Staying(ids, dest, d), dest, e) == if e == d then [] else Going(ids, dest, e)
  {
    var staying := Staying(ids, dest, d);
    var moved := set c | c in ids && c in dest && dest[c] == d;
    var other := set c | c in staying && (c !in dest || dest[c] != e);
    StayingMembers(ids, dest, d);
    if e == d {
      WithoutAll(staying, other);
    } else {
      WithoutTwice(ids, moved, other);
      WithoutSame(ids, moved + other, set c | c in ids && (c !in dest || dest[c] != e));
    }
  }

  /** One batch. */
  lemma GroupLands(t: Table, ids: seq<CardId>, dest: map<CardId, PlayerId>, z: Zone, position: Position)
    requires ids != [] && SetOf(ids) <= dest.Keys
    ensures ids[0] in dest
    ensures var d := dest[ids[0]]; var g := Going(ids, dest, d);
      var r := MoveGroup(t, g, Place(d, z), position);
      && r.zones.Keys == t.zones.Keys + {d}
      && forall q: Place :: At(r.zones, q) ==
           if q == Place(d, z) then Placed(Without(At(t.zones, q), SetOf(g)), g, z, position)
           else Without(At(t.zones, q), SetOf(g))
  {
    assert ids[0] in SetOf(ids);
    var d := dest[ids[0]];
    var g := Going(ids, dest, d);
    var q0 := Place(d, z);
    var zones := Take(t.zones, SetOf(g));
    forall q: Place
      ensures At(MoveGroup(t, g, q0, position).zones, q) ==
        if q == q0 then Placed(Without(At(t.zones, q), SetOf(g)), g, z, position) else Without(At(t.zones, q), SetOf(g))
    {
      AtTake(t.zones, SetOf(g), q);
      AtSetAt(zones, q0, Placed(At(zones, q0), g, z, position), q);
    }
  }

  lemma GroupLedger(t: Table, ids: seq<CardId>, dest: map<CardId, PlayerId>, z: Zone, position: Position)
    requires ids != [] && SetOf(ids) <= dest.Keys
    ensures ids[0] in dest
    ensures var d := dest[ids[0]]; var g := Going(ids, dest, d); var rest := Staying(ids, dest, d);
      var t' := MoveGroup(t, g, Place(d, z), position);
      && SetOf(g) <= dest.Keys && SetOf(rest) <= dest.Keys
      && t'.players == t.players && t'.casts == t.casts
      && Controlled(t'.cards, rest, dest, z) == Controlled(t.cards, ids, dest, z)
      && Located(t'.loc, rest, dest, z) == Located(t.loc, ids, dest, z)
      && {d} + Targets(rest, dest) == Targets(ids, dest)
  {
    assert ids[0] in SetOf(ids);
    var d := dest[ids[0]];
    GoingMembers(ids, dest, d);
    StayingMembers(ids, dest, d);
    var g := Going(ids, dest, d);
    var rest := Staying(ids, dest, d);
    var t' := MoveGroup(t, g, Place(d, z), position);
    GroupEntries(t, g, d, dest, z, position);
    EntriesTwice(t.cards, t.loc, ids, g, rest, dest, z);
    TargetsSplit(ids, dest);
  }

  lemma GroupEntries(t: Table, g: seq<CardId>, d: PlayerId, dest: map<CardId, PlayerId>, z: Zone, position: Position)
    requires forall c | c in g :: c in dest && dest[c] == d
    ensures SetOf(g) <= dest.Keys
    ensures var t' := MoveGroup(t, g, Place(d, z), position);
      t'.cards == Controlled(t.cards, g, dest, z) && t'.loc == Located(t.loc, g, dest, z)
  {}

  lemma EntriesTwice(cards: map<CardId, Card>, loc: map<CardId, Place>, ids: seq<CardId>, g: seq<CardId>, rest: seq<CardId>,
                     dest: map<CardId, PlayerId>, z: Zone)
    requires SetOf(ids) <= dest.Keys && SetOf(g) <= dest.Keys && SetOf(rest) <= dest.Keys
    requires forall c :: c in ids <==> c in g || c in rest
    ensures Controlled(Controlled(cards, g, dest, z), rest, dest, z) == Controlled(cards, ids, dest, z)
    ensures Located(Located(loc, g, dest, z), rest, dest, z) == Located(loc, ids, dest, z)
  {}

  /** The first batch's target, and those of the rest. */
  lemma TargetsSplit(ids: seq<CardId>, dest: map<CardId, PlayerId>)
    requires ids != [] && SetOf(ids) <= dest.Keys
    ensures ids[0] in dest && {dest[ids[0]]} + Targets(Staying(ids, dest, dest[ids[0]]), dest) == Targets(ids, dest)
  {
    assert ids[0] in SetOf(ids);
    var d := dest[ids[0]];
    var rest := Staying(ids, dest, d);
    StayingMembers(ids, dest, d);
    forall p | p in Targets(ids, dest) ensures p in {d} + Targets(rest, dest) {
      var c :| c in SetOf(ids) && c in dest && dest[c] == p;
      assert p == d || c in SetOf(rest);
    }
  }

  lemma {:induction false} GroupsLand(t: Table, ids: seq<CardId>, dest: map<CardId, PlayerId>, z: Zone, position: Position)
    requires NoDup(ids) && SetOf(ids) <= dest.Keys
    ensures Lands(t, MoveGroups(t, ids, dest, z, position), ids, dest, z, position)
    decreases |ids|
  {
    if ids == [] {
      NobodyLands(t, dest, z, position);
    } else {
      assert ids[0] in SetOf(ids);
      var d := dest[ids[0]];
      var rest := Staying(ids, dest, d);
      var t' := MoveGroup(t, Going(ids, dest, d), Place(d, z), position);
      StayingMembers(ids, dest, d);
      GroupsLand(t', rest, dest, z, position);
      GroupLedger(t, ids, dest, z, position);
      FirstBatchLands(t, ids, dest, z, position, t', rest, MoveGroups(t', rest, dest, z, position));
    }
  }

  lemma FirstBatchLands(t: Table, ids: seq<CardId>, dest: map<CardId, PlayerId>, z: Zone, position: Position,
                        t': Table, rest: seq<CardId>, r: Table)
    requires ids != [] && SetOf(ids) <= dest.Keys && SetOf(rest) <= dest.Keys && ids[0] in dest
    requires t' == MoveGroup(t, Going(ids, dest, dest[ids[0]]), Place(dest[ids[0]], z), position)
    requires rest == Staying(ids, dest, dest[ids[0]])
    requires Lands(t', r, rest, dest, z, position)
    ensures Lands(t, r, ids, dest, z, position)
  {
    GroupLedger(t, ids, dest, z, position);
    GroupLands(t, ids, dest, z, position);
    forall q: Place ensures At(r.zones, q) == Arrived(t, ids, dest, z, position, q) {
      BatchThenRest(t, ids, dest, z, position, q);
    }
  }

  lemma NobodyLands(t: Table, dest: map<CardId, PlayerId>, z: Zone, position: Position)
    ensures Lands(t, t, [], dest, z, position)
  {
    assert Targets([], dest) == {};
    forall q: Place ensures At(t.zones, q) == Arrived(t, [], dest, z, position, q) {
      WithoutNone(At(t.zones, q), SetOf([]));
      PlacedMembers(At(t.zones, q), [], z, position);
      assert Going([], dest, q.player) == [];
    }
    assert t.cards == Controlled(t.cards, [], dest, z);
  }

  /** At each place the first batch followed by the others is the whole move. */
  lemma BatchThenRest(t: Table, ids: seq<CardId>, dest: map<CardId, PlayerId>, z: Zone, position: Position, q: Place)
    requires ids != [] && SetOf(ids) <= dest.Keys
    ensures ids[0] in dest
    ensures var d := dest[ids[0]];
      Arrived(MoveGroup(t, Going(ids, dest, d), Place(d, z), position), Staying(ids, dest, d), dest, z, position, q)
      == Arrived(t, ids, dest, z, position, q)
  {
    assert ids[0] in SetOf(ids);
    var d := dest[ids[0]];
    var g := Going(ids, dest, d);
    var rest := Staying(ids, dest, d);
    var slot := At(t.zones, q);
    GroupLands(t, ids, dest, z, position);
    GoingMembers(ids, dest, d);
    StayingMembers(ids, dest, d);
    GoingOfStaying(ids, dest, d, q.player);
    WithoutTwice(slot, SetOf(g), SetOf(rest));
    assert SetOf(g) + SetOf(rest) == SetOf(ids);
    if q == Place(d, z) { PlacedThenRest(slot, g, SetOf(rest), z, position); }
  }

  lemma PlacedThenRest(slot: seq<CardId>, g: seq<CardId>, rest: set<CardId>, z: Zone, position: Position)
    requires forall c | c in g :: c !in rest
    ensures Placed(Without(Placed(Without(slot, SetOf(g)), g, z, position), rest), [], z, position)
      == Placed(Without(slot, SetOf(g) + rest), g, z, position)
  {
    WithoutTwice(slot, SetOf(g), rest);
    PlacedWithout(Without(slot, SetOf(g)), g, z, position, rest);
    WithoutNone(g, rest);
    PlacedMembers(Placed(Without(slot, SetOf(g) + rest), g, z, position), [], z, position);
  }

  // ------------------------------------------------------ the whole movement

  /** The contents of every place after a movement, the zone rules included. */
  function Settled(t: Table, ids: seq<CardId>, requested: PlayerId, z: Zone, position: Position, q: Place): seq<CardId> {
    var left := Without(At(t.zones, q), SetOf(ids));
    if q.zone == z then Placed(left, Kept(t, ids, requested, z, q.player), z, position) else left
  }

  /** The surviving cards one player receives, in request order. */
  function Kept(t: Table, ids: seq<CardId>, requested: PlayerId, z: Zone, d: PlayerId): seq<CardId> {
    Without(Going(ids, Destinations(t, ids, requested, z), d), Evaporating(t, ids, z))
  }

  function SettledLoc(t: Table, ids: seq<CardId>, requested: PlayerId, z: Zone): map<CardId, Place> {
    map c | c in t.loc.Keys + SetOf(ids) && c !in Evaporating(t, ids, z) ::
      if c in SetOf(ids) then Place(Destination(t, c, requested, z), z) else t.loc[c]
  }

  ghost predicate Settles(t: Table, r: Table, ids: seq<CardId>, requested: PlayerId, z: Zone, position: Position) {
    && r.players == t.players
    && r.zones.Keys == t.zones.Keys + Targets(ids, Destinations(t, ids, requested, z))
    && (forall q: Place :: At(r.zones, q) == Settled(t, ids, requested, z, position, q))
    && r.loc == SettledLoc(t, ids, requested, z)
  }

  lemma SlotSettles(t: Table, moved: Table, ids: seq<CardId>, requested: PlayerId, z: Zone, position: Position, q: Place)
    requires Lands(t, moved, ids, Destinations(t, ids, requested, z), z, position)
    ensures At(Take(moved.zones, Evaporating(t, ids, z)), q) == Settled(t, ids, requested, z, position, q)
  {
    var gone := Evaporating(t, ids, z);
    var slot := At(t.zones, q);
    AtTake(moved.zones, gone, q);
    PlacedWithout(Without(slot, SetOf(ids)), Going(ids, Destinations(t, ids, requested, z), q.player), z, position, gone);
    WithoutTwice(slot, SetOf(ids), gone);
    assert SetOf(ids) + gone == SetOf(ids);
  }

  lemma RulesSettle(t: Table, moved: Table, ids: seq<CardId>, requested: PlayerId, z: Zone, position: Position)
    requires Lands(t, moved, ids, Destinations(t, ids, requested, z), z, position)
    ensures Settles(t, AfterMoves(t, moved, ids, z), ids, requested, z, position)
  {
    var gone := Evaporating(t, ids, z);
    var r := AfterMoves(t, moved, ids, z);
    forall q: Place ensures At(r.zones, q) == Settled(t, ids, requested, z, position, q) {
      SlotSettles(t, moved, ids, requested, z, position, q);
    }
    assert moved.loc - gone == SettledLoc(t, ids, requested, z);
  }

  lemma MoveSettles(t: Table, ids: seq<CardId>, requested: PlayerId, z: Zone, position: Position)
    requires NoDup(ids)
    ensures Settles(t, MoveWithRules(t, ids, requested, z, position), ids, requested, z, position)
  {
    var dest := Destinations(t, ids, requested, z);
    GroupsLand(t, ids, dest, z, position);
    RulesSettle(t, MoveGroups(t, ids, dest, z, position), ids, requested, z, position);
  }

  /** A card that moves without leaving the battlefield. */
  function Arriving(t: Table, c: CardId, requested: PlayerId, z: Zone): Card
    requires c in t.cards
  {
    t.cards[c].(controller := if z == Battlefield || z == Hand then Some(requested) else t.cards[c].controller,
                commander := t.cards[c].commander || IsCast(t, c, z))
  }

  /** What a movement does to the cards themselves. */
  ghost predicate Marks(t: Table, cards: map<CardId, Card>, ids: seq<CardId>, requested: PlayerId, z: Zone) {
    && cards.Keys == t.cards.Keys - Evaporating(t, ids, z)
    && forall c | c in cards ::
      && cards[c].token == t.cards[c].token && cards[c].owner == t.cards[c].owner
      && (c !in ids ==> cards[c] == t.cards[c])
      && (c in ids && Leaves(t, c, z) ==> cards[c].marks == 0 && cards[c].commander == t.cards[c].commander)
      && (c in ids && Leaves(t, c, z) && t.cards[c].owner.Some? ==> cards[c].controller == t.cards[c].owner)
      && (c in ids && Leaves(t, c, z) && t.cards[c].owner.None? ==>
            cards[c].controller == if z == Hand then Some(requested) else t.cards[c].controller)
      && (c in ids && !Leaves(t, c, z) ==> cards[c] == Arriving(t, c, requested, z))
  }

  lemma RuledMarks(t: Table, ids: seq<CardId>, requested: PlayerId, z: Zone)
    ensures Marks(t, RuledCards(t, Controlled(t.cards, ids, Destinations(t, ids, requested, z), z), ids, z), ids, requested, z)
  {
    var dest := Destinations(t, ids, requested, z);
    forall c | c in ids ensures c in dest { assert c in SetOf(ids); }
  }

  lemma MoveMarksCards(t: Table, ids: seq<CardId>, requested: PlayerId, z: Zone, position: Position)
    requires NoDup(ids)
    ensures Marks(t, MoveWithRules(t, ids, requested, z, position).cards, ids, requested, z)
  {
    GroupsLand(t, ids, Destinations(t, ids, requested, z), z, position);
    RuledMarks(t, ids, requested, z);
  }

  // ------------------------------------------------------------ well-formed

  /** Zones and the location index describe each other. */
  ghost predicate Indexed(t: Table) {
    && (forall c: CardId, q: Place :: c in At(t.zones, q) <==> c in t.loc && t.loc[c] == q)
    && (forall q: Place :: NoDup(At(t.zones, q)))
  }

  /** Each card is in exactly one slot, every player has zones, tokens have a known owner. */
  ghost predicate WellFormed(t: Table) {
    && t.loc.Keys == t.cards.Keys
    && t.players <= t.zones.Keys
    && Indexed(t)
    && (forall c | c in t.cards :: t.cards[c].token ==> OwnerKnown(t, c))
  }

  lemma KeptMembers(t: Table, ids: seq<CardId>, requested: PlayerId, z: Zone, d: PlayerId)
    ensures forall c :: c in Kept(t, ids, requested, z, d) <==>
      c in ids && c !in Evaporating(t, ids, z) && Destination(t, c, requested, z) == d
    ensures NoDup(ids) ==> NoDup(Kept(t, ids, requested, z, d))
  {
    var dest := Destinations(t, ids, requested, z);
    forall c | c in ids ensures c in dest { assert c in SetOf(ids); }
    GoingMembers(ids, dest, d);
    WithoutMembers(Going(ids, dest, d), Evaporating(t, ids, z));
    if NoDup(ids) { WithoutNoDup(Going(ids, dest, d), Evaporating(t, ids, z)); }
  }

  lemma SettlingKeepsIndex(t: Table, r: Table, ids: seq<CardId>, requested: PlayerId, z: Zone, position: Position)
    requires Indexed(t) && NoDup(ids)
    requires Settles(t, r, ids, requested, z, position)
    ensures Indexed(r)
  {
    forall q: Place
      ensures NoDup(At(r.zones, q)) && forall c :: c in At(r.zones, q) <==> c in r.loc && r.loc[c] == q
    {
      SettledSlotIndexed(t, r, ids, requested, z, position, q);
    }
  }

  lemma SettledSlotIndexed(t: Table, r: Table, ids: seq<CardId>, requested: PlayerId, z: Zone, position: Position, q: Place)
    requires Indexed(t) && NoDup(ids)
    requires Settles(t, r, ids, requested, z, position)
    ensures NoDup(At(r.zones, q)) && forall c :: c in At(r.zones, q) <==> c in r.loc && r.loc[c] == q
  {
    assert At(r.zones, q) == Settled(t, ids, requested, z, position, q);
    SettledNoDup(t, ids, requested, z, position, q);
    forall c ensures c in At(r.zones, q) <==> c in r.loc && r.loc[c] == q {
      SettledCard(t, ids, requested, z, position, c, q);
    }
  }

  lemma SettledNoDup(t: Table, ids: seq<CardId>, requested: PlayerId, z: Zone, position: Position, q: Place)
    requires NoDup(At(t.zones, q)) && NoDup(ids)
    ensures NoDup(Settled(t, ids, requested, z, position, q))
  {
    SettledMembers(t, ids, requested, z, position, q);
  }

  lemma SettledCard(t: Table, ids: seq<CardId>, requested: PlayerId, z: Zone, position: Position, c: CardId, q: Place)
    requires c in At(t.zones, q) <==> c in t.loc && t.loc[c] == q
    ensures var loc := SettledLoc(t, ids, requested, z);
      c in Settled(t, ids, requested, z, position, q) <==> c in loc && loc[c] == q
  {
    SettledMembers(t, ids, requested, z, position, q);
    SettledEntry(t, ids, requested, z, c, q);
  }

  /** Where the index has a card after a movement. */
  lemma SettledEntry(t: Table, ids: seq<CardId>, requested: PlayerId, z: Zone, c: CardId, q: Place)
    ensures var loc := SettledLoc(t, ids, requested, z);
      (c in loc && loc[c] == q) <==>
        || (c in t.loc && t.loc[c] == q && c !in ids)
        || (q.zone == z && c in ids && c !in Evaporating(t, ids, z) && Destination(t, c, requested, z) == q.player)
  {
    assert c in SetOf(ids) <==> c in ids;
    assert c in Evaporating(t, ids, z) ==> c in ids;
  }

  lemma SettledMembers(t: Table, ids: seq<CardId>, requested: PlayerId, z: Zone, position: Position, q: Place)
    ensures forall c :: c in Settled(t, ids, requested, z, position, q) <==>
      || (c in At(t.zones, q) && c !in ids)
      || (q.zone == z && c in ids && c !in Evaporating(t, ids, z) && Destination(t, c, requested, z) == q.player)
    ensures NoDup(At(t.zones, q)) && NoDup(ids) ==> NoDup(Settled(t, ids, requested, z, position, q))
  {
    var slot := At(t.zones, q);
    var kept := Kept(t, ids, requested, z, q.player);
    KeptMembers(t, ids, requested, z, q.player);
    WithoutMembers(slot, SetOf(ids));
    if NoDup(slot) { WithoutNoDup(slot, SetOf(ids)); }
    PlacedMembers(Without(slot, SetOf(ids)), kept, z, position);
  }

  lemma MoveKeepsWellFormed(t: Table, ids: seq<CardId>, requested: PlayerId, z: Zone, position: Position)
    requires WellFormed(t) && CanMove(t, ids)
    ensures WellFormed(MoveWithRules(t, ids, requested, z, position))
  {
    MoveSettles(t, ids, requested, z, position);
    SettlingKeepsIndex(t, MoveWithRules(t, ids, requested, z, position), ids, requested, z, position);
    MoveMarksCards(t, ids, requested, z, position);
  }
}
