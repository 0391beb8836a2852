/**
  A rejected command is rolled back too, because its applier may fail half-way: a movement
  whose later batch names a card twice, a token whose derived id is taken. Exactly when the
  table is then the one from before.
 */
module TableReject {
  import opened Common
  import opened Table
  import opened Slots
  import opened Movement
  import opened Conservation
  import opened TableUndo

  /** The batches before the first one that names a card twice; that batch fails after
      making sure its player has zones. */
  function HalfMoved(t: Table, ids: seq<CardId>, dest: map<CardId, PlayerId>, z: Zone, position: Position): Table
    requires SetOf(ids) <= dest.Keys
    decreases |ids|
  {
    if ids == [] then t
    else
      assert ids[0] in SetOf(ids);
      var d := dest[ids[0]];
      StayingMembers(ids, dest, d);
      if !NoDup(Going(ids, dest, d)) then t.(zones := t.zones[d := ZonesOf(t.zones, d)])
      else HalfMoved(MoveGroup(t, Going(ids, dest, d), Place(d, z), position), Staying(ids, dest, d), dest, z, position)
  }

  /** The players whose batches run before the failing one. */
  function Served(ids: seq<CardId>, dest: map<CardId, PlayerId>): set<PlayerId>
    requires SetOf(ids) <= dest.Keys
    decreases |ids|
  {
    if ids == [] then {}
    else
      assert ids[0] in SetOf(ids);
      var d := dest[ids[0]];
      StayingMembers(ids, dest, d);
      if !NoDup(Going(ids, dest, d)) then {} else {d} + Served(Staying(ids, dest, d), dest)
  }

  /** The checks `cards.moved` makes before it touches anything. */
  predicate PassesChecks(t: Table, c: TableCommand)
    requires c.MoveCards?
  {
    c.ids != [] && forall x | x in c.ids :: x in t.loc && (c.from.Some? ==> t.loc[x].zone == c.from.value)
  }

  /** What a failing applier leaves before the rollback. */
  function Leftover(t: Table, c: TableCommand, tag: nat): Table {
    match c
    case MoveCards(p, from, ids, z, target, position, _) =>
      if PassesChecks(t, c) then HalfMoved(t, ids, Destinations(t, ids, OrElse(target, p), z), z, position) else t
    case Put(p, card, top) =>
      if card in t.loc && card in t.cards then t.(zones := Take(t.zones, {card}), loc := t.loc - {card}) else t
    case CreateTokens(p, quantity, marks) =>
      if p in t.players then t.(cards := AddTokens(t, p, TokenIds(tag, TokenCount(quantity)), marks).cards) else t
    case _ => t
  }

  /** The table after a rejected command. */
  function Rejected(t: Table, c: TableCommand, tag: nat): Table {
    Undo(t, c, Leftover(t, c, tag))
  }

  /** The cards of the batches that run. */
  function ServedCards(ids: seq<CardId>, dest: map<CardId, PlayerId>): set<CardId>
    requires SetOf(ids) <= dest.Keys
  {
    set c | c in SetOf(ids) && dest[c] in Served(ids, dest)
  }

  /** Every batch that runs takes its cards from captured players to a captured one. */
  predicate ServesCaptured(t: Table, ids: seq<CardId>, dest: map<CardId, PlayerId>, players: set<PlayerId>)
    requires SetOf(ids) <= dest.Keys
  {
    Served(ids, dest) <= players && forall c | c in ServedCards(ids, dest) :: c in t.loc ==> t.loc[c].player in players
  }

  predicate Harmless(t: Table, c: TableCommand, tag: nat) {
    match c
    case MoveCards(p, from, ids, z, target, position, _) =>
      PassesChecks(t, c) ==> ServesCaptured(t, ids, Destinations(t, ids, OrElse(target, p), z), Captured(t, c))
    case CreateTokens(p, quantity, marks) =>
      p in t.players ==> forall x | x in TokenIds(tag, TokenCount(quantity)) ::
        (x in t.loc && t.loc[x].player == p) || (x in t.cards && t.cards[x] == Card(Some(p), Some(p), true, false, marks))
    case _ => true
  }

  // -------------------------------------------------------------- half-moved

  /** The cards of `moved` are at their destinations, all others and their entries where they
      were, and slots that neither lost nor won a card are the same. */
  ghost predicate Relocated(t: Table, r: Table, moved: set<CardId>, dest: map<CardId, PlayerId>, z: Zone, won: set<PlayerId>)
    requires moved <= dest.Keys
  {
    && r.players == t.players && r.casts == t.casts
    && (forall c | c in moved :: c in r.loc && r.loc[c] == Place(dest[c], z))
    && (forall c | c !in moved :: (c in r.cards <==> c in t.cards) && (c in t.cards ==> r.cards[c] == t.cards[c]))
    && (forall c | c !in moved :: (c in r.loc <==> c in t.loc) && (c in t.loc ==> r.loc[c] == t.loc[c]))
    && (forall q: Place | q.player !in won && (forall c | c in moved :: c !in At(t.zones, q)) :: At(r.zones, q) == At(t.zones, q))
  }

  ghost predicate HalfDone(t: Table, r: Table, ids: seq<CardId>, dest: map<CardId, PlayerId>, z: Zone)
    requires SetOf(ids) <= dest.Keys
  {
    && Served(ids, dest) <= Targets(ids, dest)
    && t.zones.Keys + Served(ids, dest) <= r.zones.Keys <= t.zones.Keys + Targets(ids, dest)
    && Indexed(r)
    && Relocated(t, r, ServedCards(ids, dest), dest, z, Served(ids, dest))
  }

  lemma {:induction false} HalfMovedLands(t: Table, ids: seq<CardId>, dest: map<CardId, PlayerId>, z: Zone, position: Position)
    requires Indexed(t) && SetOf(ids) <= dest.Keys
    ensures HalfDone(t, HalfMoved(t, ids, dest, z, position), ids, dest, z)
    decreases |ids|
  {
    if ids != [] {
      assert ids[0] in SetOf(ids);
      var d := dest[ids[0]];
      var g := Going(ids, dest, d);
      var rest := Staying(ids, dest, d);
      StayingMembers(ids, dest, d);
      if !NoDup(g) {
        FailingBatch(t, ids, dest, z, d);
      } else {
        var t' := MoveGroup(t, g, Place(d, z), position);
        var r := HalfMoved(t', rest, dest, z, position);
        BatchRelocates(t, ids, dest, z, position);
        HalfMovedLands(t', rest, dest, z, position);
        assert r == HalfMoved(t, ids, dest, z, position);
        BatchThenHalf(t, ids, dest, z, t', g, rest, r);
      }
    }
  }

  lemma FailingBatch(t: Table, ids: seq<CardId>, dest: map<CardId, PlayerId>, z: Zone, d: PlayerId)
    requires Indexed(t) && SetOf(ids) <= dest.Keys && ids != [] && ids[0] in dest && d == dest[ids[0]]
    requires Served(ids, dest) == {}
    ensures HalfDone(t, t.(zones := t.zones[d := ZonesOf(t.zones, d)]), ids, dest, z)
  {
    var r := t.(zones := t.zones[d := ZonesOf(t.zones, d)]);
    assert ids[0] in SetOf(ids) && d in Targets(ids, dest);
    assert forall q: Place :: At(r.zones, q) == At(t.zones, q);
  }

  /** The first batch, when it names no card twice. */
  lemma BatchRelocates(t: Table, ids: seq<CardId>, dest: map<CardId, PlayerId>, z: Zone, position: Position)
    requires Indexed(t) && SetOf(ids) <= dest.Keys && ids != [] && ids[0] in dest && NoDup(Going(ids, dest, dest[ids[0]]))
    ensures var d := dest[ids[0]]; var g := Going(ids, dest, d); var t' := MoveGroup(t, g, Place(d, z), position);
      && SetOf(g) <= dest.Keys && Indexed(t') && t'.zones.Keys == t.zones.Keys + {d}
      && Relocated(t, t', SetOf(g), dest, z, {d})
  {
    var d := dest[ids[0]];
    var g := Going(ids, dest, d);
    var t' := MoveGroup(t, g, Place(d, z), position);
    GoingMembers(ids, dest, d);
    GroupLands(t, ids, dest, z, position);
    BatchLoc(t, g, Place(d, z), position);
    BatchSlots(t, t', g, Place(d, z), position);
    RelocatingKeepsIndex(t, t', SetOf(g), Place(d, z));
    BatchEntries(t, t', g, dest, z, d);
  }

  lemma BatchLoc(t: Table, g: seq<CardId>, q0: Place, position: Position)
    ensures MoveGroup(t, g, q0, position).loc == map c | c in t.loc.Keys + SetOf(g) :: if c in SetOf(g) then q0 else t.loc[c]
  {}

  lemma BatchSlots(t: Table, t': Table, g: seq<CardId>, q0: Place, position: Position)
    requires (forall q: Place :: NoDup(At(t.zones, q))) && NoDup(g)
    requires t'.loc == map c | c in t.loc.Keys + SetOf(g) :: if c in SetOf(g) then q0 else t.loc[c]
    requires forall q: Place :: At(t'.zones, q) == if q == q0 then Placed(Without(At(t.zones, q), SetOf(g)), g, q0.zone, position)
                                                   else Without(At(t.zones, q), SetOf(g))
    ensures Relocates(t, t', SetOf(g), q0)
    ensures forall q: Place | q != q0 && (forall c | c in g :: c !in At(t.zones, q)) :: At(t'.zones, q) == At(t.zones, q)
  {
    forall q: Place
      ensures NoDup(At(t'.zones, q))
      ensures forall c :: c in At(t'.zones, q) <==> (c in At(t.zones, q) && c !in g) || (c in g && q == q0)
      ensures q != q0 && (forall c | c in g :: c !in At(t.zones, q)) ==> At(t'.zones, q) == At(t.zones, q)
    {
      FirstBatchSlot(t, t', g, q0, position, q);
    }
  }

  lemma BatchEntries(t: Table, t': Table, g: seq<CardId>, dest: map<CardId, PlayerId>, z: Zone, d: PlayerId)
    requires exists position :: t' == MoveGroup(t, g, Place(d, z), position)
    requires forall c | c in g :: c in dest && dest[c] == d
    requires forall q: Place | q != Place(d, z) && (forall c | c in g :: c !in At(t.zones, q)) :: At(t'.zones, q) == At(t.zones, q)
    ensures SetOf(g) <= dest.Keys && Relocated(t, t', SetOf(g), dest, z, {d})
  {
    forall q: Place | q.player !in {d} && (forall c | c in SetOf(g) :: c !in At(t.zones, q)) ensures At(t'.zones, q) == At(t.zones, q) {
      assert forall c | c in g :: c in SetOf(g);
    }
  }

  lemma FirstBatchSlot(t: Table, t': Table, g: seq<CardId>, q0: Place, position: Position, q: Place)
    requires NoDup(At(t.zones, q)) && NoDup(g)
    requires At(t'.zones, q) == if q == q0 then Placed(Without(At(t.zones, q), SetOf(g)), g, q0.zone, position)
                                else Without(At(t.zones, q), SetOf(g))
    ensures NoDup(At(t'.zones, q))
    ensures forall c :: c in At(t'.zones, q) <==> (c in At(t.zones, q) && c !in g) || (c in g && q == q0)
    ensures q != q0 && (forall c | c in g :: c !in At(t.zones, q)) ==> At(t'.zones, q) == At(t.zones, q)
  {
    WithoutMembers(At(t.zones, q), SetOf(g));
    WithoutNoDup(At(t.zones, q), SetOf(g));
    PlacedMembers(Without(At(t.zones, q), SetOf(g)), g, q0.zone, position);
    if q != q0 && forall c | c in g :: c !in At(t.zones, q) {
      WithoutNone(At(t.zones, q), SetOf(g));
    }
  }

  lemma BatchThenHalf(t: Table, ids: seq<CardId>, dest: map<CardId, PlayerId>, z: Zone,
                      t': Table, g: seq<CardId>, rest: seq<CardId>, r: Table)
    requires SetOf(ids) <= dest.Keys && ids != [] && ids[0] in dest && NoDup(g)
    requires var d := dest[ids[0]]; g == Going(ids, dest, d) && rest == Staying(ids, dest, d)
    requires SetOf(g) <= dest.Keys && SetOf(rest) <= dest.Keys
    requires t'.zones.Keys == t.zones.Keys + {dest[ids[0]]} && Relocated(t, t', SetOf(g), dest, z, {dest[ids[0]]})
    requires HalfDone(t', r, rest, dest, z)
    ensures HalfDone(t, r, ids, dest, z)
  {
    var d := dest[ids[0]];
    ServedSplit(ids, dest);
    TargetsSplit(ids, dest);
    RelocatedTwice(t, t', r, SetOf(g), ServedCards(rest, dest), dest, z, {d}, Served(rest, dest));
  }

  lemma ServedSplit(ids: seq<CardId>, dest: map<CardId, PlayerId>)
    requires SetOf(ids) <= dest.Keys && ids != [] && ids[0] in dest && NoDup(Going(ids, dest, dest[ids[0]]))
    ensures var d := dest[ids[0]]; var g, rest := Going(ids, dest, d), Staying(ids, dest, d);
      && SetOf(g) <= dest.Keys && SetOf(rest) <= dest.Keys
      && Served(ids, dest) == {d} + Served(rest, dest)
      && ServedCards(ids, dest) == SetOf(g) + ServedCards(rest, dest) && SetOf(g) !! ServedCards(rest, dest)
  {
    var d := dest[ids[0]];
    GoingMembers(ids, dest, d);
    StayingMembers(ids, dest, d);
    ServedFirst(ids, dest);
    ServedCardsSplit(ids, Going(ids, dest, d), Staying(ids, dest, d), dest, d);
  }

  lemma ServedFirst(ids: seq<CardId>, dest: map<CardId, PlayerId>)
    requires SetOf(ids) <= dest.Keys && ids != [] && ids[0] in dest && NoDup(Going(ids, dest, dest[ids[0]]))
    requires SetOf(Staying(ids, dest, dest[ids[0]])) <= dest.Keys
    ensures Served(ids, dest) == {dest[ids[0]]} + Served(Staying(ids, dest, dest[ids[0]]), dest)
  {}

  lemma ServedCardsSplit(ids: seq<CardId>, g: seq<CardId>, rest: seq<CardId>, dest: map<CardId, PlayerId>, d: PlayerId)
    requires SetOf(ids) <= dest.Keys && SetOf(g) <= dest.Keys && SetOf(rest) <= dest.Keys
    requires Served(ids, dest) == {d} + Served(rest, dest)
    requires forall c :: c in g <==> c in ids && c in dest && dest[c] == d
    requires forall c :: c in rest <==> c in ids && !(c in dest && dest[c] == d)
    ensures ServedCards(ids, dest) == SetOf(g) + ServedCards(rest, dest) && SetOf(g) !! ServedCards(rest, dest)
  {
    forall c ensures c in ServedCards(ids, dest) <==> c in SetOf(g) + ServedCards(rest, dest) {
      assert c in SetOf(ids) <==> c in ids;
    }
  }

  lemma RelocatedTwice(t: Table, t': Table, r: Table, a: set<CardId>, b: set<CardId>, dest: map<CardId, PlayerId>, z: Zone,
                       x: set<PlayerId>, y: set<PlayerId>)
    requires a <= dest.Keys && b <= dest.Keys && a !! b
    requires Indexed(r) && Relocated(t, t', a, dest, z, x) && Relocated(t', r, b, dest, z, y)
    ensures Relocated(t, r, a + b, dest, z, x + y)
  {
    forall q: Place | q.player !in x + y && (forall c | c in a + b :: c !in At(t.zones, q)) ensures At(r.zones, q) == At(t.zones, q) {
      assert forall c | c in a :: c !in At(t.zones, q);
      assert At(t'.zones, q) == At(t.zones, q);
      assert forall c | c in b :: c !in At(t'.zones, q);
    }
  }

  // --------------------------------------------------- which batches run

  /** A prefix of what is left of a list is what is left of a prefix. */
  lemma {:induction false} PrefixLeft(s: seq<CardId>, gone: set<CardId>, n: nat) returns (m: nat)
    requires n <= |Without(s, gone)|
    ensures m <= |s| && Without(s[..m], gone) == Without(s, gone)[..n]
  {
    if n == |Without(s, gone)| {
      m := |s|;
      assert s[..m] == s;
    } else {
      m := PrefixLeft(s[..|s| - 1], gone, n);
      assert s[..|s| - 1][..m] == s[..m];
    }
  }

  lemma {:induction false} LeftPrefix(s: seq<CardId>, gone: set<CardId>, m: nat) returns (n: nat)
    requires m <= |s|
    ensures n <= |Without(s, gone)| && Without(s[..m], gone) == Without(s, gone)[..n]
  {
    if m == |s| {
      n := |Without(s, gone)|;
      assert s[..m] == s;
    } else {
      n := LeftPrefix(s[..|s| - 1], gone, m);
      assert s[..|s| - 1][..m] == s[..m];
    }
  }

  /** All batches that start within the first `m` cards name no card twice. */
  ghost predicate CleanUpTo(ids: seq<CardId>, dest: map<CardId, PlayerId>, m: nat)
    requires m <= |ids|
  {
    forall c | c in ids[..m] && c in dest :: NoDup(Going(ids, dest, dest[c]))
  }

  ghost predicate StartsWithin(ids: seq<CardId>, dest: map<CardId, PlayerId>, d: PlayerId, m: nat)
    requires m <= |ids|
  {
    exists c :: c in ids[..m] && c in dest && dest[c] == d
  }

  /** A batch runs if and only if neither it nor any batch that starts before it names a card
      twice. */
  lemma {:induction false} ServedIff(ids: seq<CardId>, dest: map<CardId, PlayerId>, d: PlayerId)
    requires SetOf(ids) <= dest.Keys
    ensures d in Served(ids, dest) <==> exists m: nat :: m <= |ids| && CleanUpTo(ids, dest, m) && StartsWithin(ids, dest, d, m)
    decreases |ids|
  {
    if ids != [] {
      assert ids[0] in SetOf(ids);
      var first := dest[ids[0]];
      var rest := Staying(ids, dest, first);
      StayingMembers(ids, dest, first);
      ServedIff(rest, dest, d);
      if !NoDup(Going(ids, dest, first)) {
        forall m: nat | m <= |ids| && StartsWithin(ids, dest, d, m) ensures !CleanUpTo(ids, dest, m) {
          assert ids[..m][0] == ids[0];
        }
      } else if d == first {
        assert ids[..1] == [ids[0]] && ids[..1][0] in ids[..1];
        assert CleanUpTo(ids, dest, 1) && StartsWithin(ids, dest, d, 1);
      } else {
        ServedLater(ids, dest, d, first, rest);
      }
    } else {
      forall m: nat | m <= |ids| ensures !StartsWithin(ids, dest, d, m) {}
    }
  }

  lemma ServedLater(ids: seq<CardId>, dest: map<CardId, PlayerId>, d: PlayerId, first: PlayerId, rest: seq<CardId>)
    requires SetOf(ids) <= dest.Keys && rest == Staying(ids, dest, first) && d != first && NoDup(Going(ids, dest, first))
    ensures (exists m: nat :: m <= |ids| && CleanUpTo(ids, dest, m) && StartsWithin(ids, dest, d, m))
      <==> exists n: nat :: n <= |rest| && CleanUpTo(rest, dest, n) && StartsWithin(rest, dest, d, n)
  {
    var gone := set c | c in ids && c in dest && dest[c] == first;
    if m: nat :| m <= |ids| && CleanUpTo(ids, dest, m) && StartsWithin(ids, dest, d, m) {
      var n := LeftPrefix(ids, gone, m);
      SamePrefix(ids, dest, d, first, rest, gone, m, n);
      assert n <= |rest| && CleanUpTo(rest, dest, n) && StartsWithin(rest, dest, d, n);
    }
    if n: nat :| n <= |rest| && CleanUpTo(rest, dest, n) && StartsWithin(rest, dest, d, n) {
      var m := PrefixLeft(ids, gone, n);
      SamePrefix(ids, dest, d, first, rest, gone, m, n);
      assert m <= |ids| && CleanUpTo(ids, dest, m) && StartsWithin(ids, dest, d, m);
    }
  }

  lemma SamePrefix(ids: seq<CardId>, dest: map<CardId, PlayerId>, d: PlayerId, first: PlayerId, rest: seq<CardId>,
                   gone: set<CardId>, m: nat, n: nat)
    requires SetOf(ids) <= dest.Keys && rest == Without(ids, gone) && d != first && NoDup(Going(ids, dest, first))
    requires gone == (set c | c in ids && c in dest && dest[c] == first) && rest == Staying(ids, dest, first)
    requires m <= |ids| && n <= |rest| && Without(ids[..m], gone) == rest[..n]
    ensures CleanUpTo(ids, dest, m) <==> CleanUpTo(rest, dest, n)
    ensures StartsWithin(ids, dest, d, m) <==> StartsWithin(rest, dest, d, n)
  {
    WithoutMembers(ids[..m], gone);
    assert forall c :: c in rest[..n] <==> c in ids[..m] && c !in gone;
    forall c | c in ids[..m] && c in dest ensures c in gone <==> dest[c] == first { assert c in ids; }
    forall c | c in ids[..m] && c in dest && dest[c] != first ensures Going(rest, dest, dest[c]) == Going(ids, dest, dest[c]) {
      GoingOfStaying(ids, dest, first, dest[c]);
    }
  }

  // ------------------------------------------------------------ main theorem

  lemma HalfMoveUndo(t: Table, r: Table, ids: seq<CardId>, requested: PlayerId, z: Zone,
                     players: set<PlayerId>, cards: set<CardId>)
    requires WellFormed(t) && requested in players && (forall c | c in ids :: c in t.loc)
    requires forall c | c in ids && t.loc[c].player in players :: c in cards
    requires HalfDone(t, r, ids, Destinations(t, ids, requested, z), z)
    ensures Restore(t, r, players, cards) == t <==> ServesCaptured(t, ids, Destinations(t, ids, requested, z), players)
  {
    RestoreExact(t, r, players, cards);
    if ServesCaptured(t, ids, Destinations(t, ids, requested, z), players) {
      HalfMoveStays(t, r, ids, requested, z, players, cards);
    } else {
      var c := SomeEscape(t, ids, Destinations(t, ids, requested, z), players);
      HalfMoveEscapes(t, r, ids, requested, z, players, c);
    }
  }

  lemma HalfMoveStays(t: Table, r: Table, ids: seq<CardId>, requested: PlayerId, z: Zone,
                      players: set<PlayerId>, cards: set<CardId>)
    requires WellFormed(t) && requested in players && (forall c | c in ids :: c in t.loc)
    requires forall c | c in ids && t.loc[c].player in players :: c in cards
    requires HalfDone(t, r, ids, Destinations(t, ids, requested, z), z)
    requires ServesCaptured(t, ids, Destinations(t, ids, requested, z), players)
    ensures ChangesOnly(t, r, players, cards) && r.casts == t.casts
  {
    HalfMoveInside(t, r, ids, requested, z, players);
    forall c | c in ServedCards(ids, Destinations(t, ids, requested, z)) ensures c in cards { assert c in ids; }
  }

  lemma SomeEscape(t: Table, ids: seq<CardId>, dest: map<CardId, PlayerId>, players: set<PlayerId>) returns (c: CardId)
    requires SetOf(ids) <= dest.Keys && Served(ids, dest) <= Targets(ids, dest) && !ServesCaptured(t, ids, dest, players)
    ensures c in ServedCards(ids, dest) && (dest[c] !in players || (c in t.loc && t.loc[c].player !in players))
  {
    if d :| d in Served(ids, dest) && d !in players {
      assert d in Targets(ids, dest);
      c :| c in SetOf(ids) && c in dest && dest[c] == d;
    } else {
      c :| c in ServedCards(ids, dest) && c in t.loc && t.loc[c].player !in players;
    }
  }

  lemma HalfMoveInside(t: Table, r: Table, ids: seq<CardId>, requested: PlayerId, z: Zone, players: set<PlayerId>)
    requires WellFormed(t) && requested in players && (forall c | c in ids :: c in t.loc)
    requires HalfDone(t, r, ids, Destinations(t, ids, requested, z), z)
    requires ServesCaptured(t, ids, Destinations(t, ids, requested, z), players)
    ensures forall p | p !in players :: (p in r.zones <==> p in t.zones) && (p in t.zones ==> r.zones[p] == t.zones[p])
  {
    var dest := Destinations(t, ids, requested, z);
    forall d | d in Targets(ids, dest) ensures d == requested || d in t.zones {
      var c :| c in SetOf(ids) && c in dest && dest[c] == d;
    }
    forall p: PlayerId | p !in players
      ensures (p in r.zones <==> p in t.zones) && (p in t.zones ==> r.zones[p] == t.zones[p])
    {
      forall y: Zone ensures At(r.zones, Place(p, y)) == At(t.zones, Place(p, y)) {
        assert forall c | c in ServedCards(ids, dest) :: c !in At(t.zones, Place(p, y));
      }
      if p in t.zones { SameZones(r.zones, t.zones, p); }
    }
  }

  /** A card moved from or to a player outside the capture has left or entered that player's zones. */
  lemma HalfMoveEscapes(t: Table, r: Table, ids: seq<CardId>, requested: PlayerId, z: Zone, players: set<PlayerId>, c: CardId)
    requires WellFormed(t) && requested in players && (forall x | x in ids :: x in t.loc)
    requires HalfDone(t, r, ids, Destinations(t, ids, requested, z), z)
    requires c in ServedCards(ids, Destinations(t, ids, requested, z))
    requires Destinations(t, ids, requested, z)[c] !in players || t.loc[c].player !in players
    ensures exists p :: p !in players && (p in t.zones || p in r.zones) && (p in t.zones && p in r.zones ==> r.zones[p] != t.zones[p])
  {
    var dest := Destinations(t, ids, requested, z);
    var from, to := t.loc[c], Place(dest[c], z);
    assert c in ids && from != to;
    assert c in At(t.zones, from) && c !in At(r.zones, from);
    assert c in At(r.zones, to) && c !in At(t.zones, to);
  }

  lemma CardsReject(t: Table, c: TableCommand, tag: nat)
    requires WellFormed(t) && c.MoveCards? && Apply(t, c, tag).None?
    ensures Rejected(t, c, tag) == t <==> Harmless(t, c, tag)
  {
    var requested := OrElse(c.target, c.player);
    var dest := Destinations(t, c.ids, requested, c.to);
    if PassesChecks(t, c) {
      forall x | x in c.ids && t.loc[x].player in Captured(t, c) ensures x in CapturedCards(t, c) { CapturedHere(t, c, x); }
      HalfMovedLands(t, c.ids, dest, c.to, c.position);
      HalfMoveUndo(t, HalfMoved(t, c.ids, dest, c.to, c.position), c.ids, requested, c.to, Captured(t, c), CapturedCards(t, c));
    } else {
      RestoreExact(t, t, Captured(t, c), CapturedCards(t, c));
    }
  }

  lemma PutReject(t: Table, c: TableCommand, tag: nat)
    requires WellFormed(t) && c.Put? && Apply(t, c, tag).None?
    ensures Rejected(t, c, tag) == t
  {
    if c.card in t.loc && c.card in t.cards {
      TakenOutUndo(t, c, t.(zones := Take(t.zones, {c.card}), loc := t.loc - {c.card}));
    } else {
      RestoreExact(t, t, Captured(t, c), CapturedCards(t, c));
    }
  }

  lemma TakenOutUndo(t: Table, c: TableCommand, now: Table)
    requires WellFormed(t) && c.Put? && c.card in t.loc
    requires now == t.(zones := Take(t.zones, {c.card}), loc := t.loc - {c.card})
    ensures Undo(t, c, now) == t
  {
    forall s: Place ensures At(now.zones, s) == Without(At(t.zones, s), {c.card}) { AtTake(t.zones, {c.card}, s); }
    PutUndo(t, c.player, c.card, now, Captured(t, c), CapturedCards(t, c));
  }

  lemma TokensReject(t: Table, c: TableCommand, tag: nat)
    requires WellFormed(t) && c.CreateTokens? && Apply(t, c, tag).None?
    ensures Rejected(t, c, tag) == t <==> Harmless(t, c, tag)
  {
    var now := Leftover(t, c, tag);
    RestoreExact(t, now, Captured(t, c), CapturedCards(t, c));
    if c.player in t.players {
      var ids := TokenIds(tag, TokenCount(c.quantity));
      forall x | x in ids ensures x in CapturedCards(t, c) <==> x in t.loc && t.loc[x].player == c.player {
        CapturedHere(t, c, x);
      }
      CollisionUndo(t, now, c, ids);
    }
  }

  lemma CollisionUndo(t: Table, now: Table, c: TableCommand, ids: seq<CardId>)
    requires WellFormed(t) && c.CreateTokens?
    requires now == t.(cards := AddTokens(t, c.player, ids, c.marks).cards)
    requires forall x | x in ids :: x in CapturedCards(t, c) <==> x in t.loc && t.loc[x].player == c.player
    ensures ChangesOnly(t, now, Captured(t, c), CapturedCards(t, c)) <==>
      forall x | x in ids :: (x in t.loc && t.loc[x].player == c.player)
        || (x in t.cards && t.cards[x] == Card(Some(c.player), Some(c.player), true, false, c.marks))
  {
    assert forall x | x in ids :: x in now.cards && now.cards[x] == Card(Some(c.player), Some(c.player), true, false, c.marks);
    assert forall x | x !in ids :: (x in now.cards <==> x in t.cards) && (x in t.cards ==> now.cards[x] == t.cards[x]);
  }

  /** A rejected command leaves the table as it was if and only if it is harmless. */
  lemma RejectionExact(t: Table, c: TableCommand, tag: nat)
    requires WellFormed(t) && Apply(t, c, tag).None?
    ensures Rejected(t, c, tag) == t <==> Harmless(t, c, tag)
  {
    match c
    case MoveCards(_, _, _, _, _, _, _) => CardsReject(t, c, tag);
    case Put(_, _, _) => PutReject(t, c, tag);
    case CreateTokens(_, _, _) => TokensReject(t, c, tag);
    case _ => RestoreExact(t, t, Captured(t, c), CapturedCards(t, c));
  }

  lemma RestoreSlots(was: Table, now: Table, players: set<PlayerId>, cards: set<CardId>, q: Place)
    ensures At(Restore(was, now, players, cards).zones, q) == At(if q.player in players then was.zones else now.zones, q)
  {}

  lemma InTwoPlaces(t: Table, c: CardId, a: Place, b: Place)
    requires a != b && c in At(t.zones, a) && c in At(t.zones, b)
    ensures !Indexed(t)
  {
    if c in t.loc && t.loc[c] == a {
      assert c in At(t.zones, b) && !(c in t.loc && t.loc[c] == b);
    } else {
      assert c in At(t.zones, a) && !(c in t.loc && t.loc[c] == a);
    }
  }

  /** A card whose batch ran for a player outside the capture stays with that player. */
  lemma ServedStays(t: Table, c: TableCommand, tag: nat, x: CardId)
    requires WellFormed(t) && c.MoveCards? && PassesChecks(t, c) && x in c.ids
    requires var dest := Destinations(t, c.ids, OrElse(c.target, c.player), c.to);
      x in dest && dest[x] in Served(c.ids, dest) && dest[x] !in Captured(t, c)
    ensures x in At(Rejected(t, c, tag).zones, Place(Destinations(t, c.ids, OrElse(c.target, c.player), c.to)[x], c.to))
  {
    var dest := Destinations(t, c.ids, OrElse(c.target, c.player), c.to);
    HalfMovedLands(t, c.ids, dest, c.to, c.position);
    RestoreSlots(t, HalfMoved(t, c.ids, dest, c.to, c.position), Captured(t, c), CapturedCards(t, c), Place(dest[x], c.to));
  }

  /** A requested card is restored where it was if its player was captured. */
  lemma SourceRestored(t: Table, c: TableCommand, tag: nat, x: CardId)
    requires WellFormed(t) && c.MoveCards? && x in t.loc && t.loc[x].player in Captured(t, c)
    ensures x in At(Rejected(t, c, tag).zones, t.loc[x])
  {
    assert x in At(t.zones, t.loc[x]);
    RestoreSlots(t, Leftover(t, c, tag), Captured(t, c), CapturedCards(t, c), t.loc[x]);
  }

  /** Every card of a batch that runs moves between captured players, or between others. */
  predicate Balanced(t: Table, ids: seq<CardId>, dest: map<CardId, PlayerId>, players: set<PlayerId>)
    requires SetOf(ids) <= dest.Keys
  {
    forall c | c in ServedCards(ids, dest) && c in t.loc :: dest[c] in players <==> t.loc[c].player in players
  }

  /** A half-done restore keeps the index if and only if no moved card crosses the capture. */
  lemma RestoredIndex(t: Table, r: Table, moved: set<CardId>, dest: map<CardId, PlayerId>, z: Zone, won: set<PlayerId>,
                      players: set<PlayerId>, cards: set<CardId>)
    requires Indexed(t) && Indexed(r) && moved <= dest.Keys && moved <= t.loc.Keys && Relocated(t, r, moved, dest, z, won)
    requires forall c | c in t.loc :: c in cards <==> t.loc[c].player in players
    ensures Indexed(Restore(t, r, players, cards)) <==> forall c | c in moved :: dest[c] in players <==> t.loc[c].player in players
  {
    var back := Restore(t, r, players, cards);
    if c :| c in moved && !(dest[c] in players <==> t.loc[c].player in players) {
      CrossingBreaks(t, r, c, dest[c], z, players, cards);
    } else {
      forall q: Place
        ensures NoDup(At(back.zones, q))
        ensures forall c :: c in At(back.zones, q) <==> c in back.loc && back.loc[c] == q
      {
        RestoreSlots(t, r, players, cards, q);
        forall c ensures c in At(back.zones, q) <==> c in back.loc && back.loc[c] == q {
          RestoredEntry(t, r, moved, dest, z, won, players, cards, c, q);
        }
      }
    }
  }

  lemma RestoredEntry(t: Table, r: Table, moved: set<CardId>, dest: map<CardId, PlayerId>, z: Zone, won: set<PlayerId>,
                      players: set<PlayerId>, cards: set<CardId>, c: CardId, q: Place)
    requires Indexed(t) && Indexed(r) && moved <= dest.Keys && moved <= t.loc.Keys && Relocated(t, r, moved, dest, z, won)
    requires c in t.loc ==> (c in cards <==> t.loc[c].player in players)
    requires c in moved ==> (dest[c] in players <==> t.loc[c].player in players)
    ensures var back := Restore(t, r, players, cards);
      c in At(if q.player in players then t.zones else r.zones, q) <==> c in back.loc && back.loc[c] == q
  {
    assert c in At(t.zones, q) <==> c in t.loc && t.loc[c] == q;
    assert c in At(r.zones, q) <==> c in r.loc && r.loc[c] == q;
  }

  lemma CrossingBreaks(t: Table, r: Table, c: CardId, d: PlayerId, z: Zone, players: set<PlayerId>, cards: set<CardId>)
    requires Indexed(t) && Indexed(r) && c in t.loc && c in r.loc && r.loc[c] == Place(d, z)
    requires c in cards <==> t.loc[c].player in players
    requires !(d in players <==> t.loc[c].player in players)
    ensures !Indexed(Restore(t, r, players, cards))
  {
    var back := Restore(t, r, players, cards);
    var from, to := t.loc[c], Place(d, z);
    RestoreSlots(t, r, players, cards, from);
    RestoreSlots(t, r, players, cards, to);
    assert c in At(t.zones, from) && c !in At(t.zones, to) && c in At(r.zones, to);
    if from.player in players {
      InTwoPlaces(back, c, from, to);
    } else {
      assert c in back.loc && back.loc[c] == to && c !in At(back.zones, to);
    }
  }

  /** A rejected movement leaves a card in two places, or its entry pointing nowhere, if and only
      if a card of a batch that ran crossed the capture; with no card named singly, that is
      whenever it does harm at all. */
  lemma HarmfulRejectionMisplaces(t: Table, c: TableCommand, tag: nat)
    requires WellFormed(t) && c.MoveCards? && Apply(t, c, tag).None?
    ensures Indexed(Rejected(t, c, tag)) <==>
      (PassesChecks(t, c) ==> Balanced(t, c.ids, Destinations(t, c.ids, OrElse(c.target, c.player), c.to), Captured(t, c)))
    ensures c.named.None? ==> (Indexed(Rejected(t, c, tag)) <==> Harmless(t, c, tag))
  {
    if PassesChecks(t, c) {
      var dest := Destinations(t, c.ids, OrElse(c.target, c.player), c.to);
      HalfMovedIndex(t, c, tag, dest);
      if c.named.None? {
        HalfMovedLands(t, c.ids, dest, c.to, c.position);
        ListedBalance(t, c, dest);
      }
    } else {
      RestoreExact(t, t, Captured(t, c), CapturedCards(t, c));
    }
  }

  lemma HalfMovedIndex(t: Table, c: TableCommand, tag: nat, dest: map<CardId, PlayerId>)
    requires WellFormed(t) && c.MoveCards? && PassesChecks(t, c) && dest == Destinations(t, c.ids, OrElse(c.target, c.player), c.to)
    ensures Indexed(Rejected(t, c, tag)) <==> Balanced(t, c.ids, dest, Captured(t, c))
  {
    forall x | x in t.loc ensures x in CapturedCards(t, c) <==> t.loc[x].player in Captured(t, c) { CapturedHere(t, c, x); }
    HalfMovedLands(t, c.ids, dest, c.to, c.position);
    RestoredIndex(t, HalfMoved(t, c.ids, dest, c.to, c.position), ServedCards(c.ids, dest), dest, c.to, Served(c.ids, dest),
                  Captured(t, c), CapturedCards(t, c));
  }

  lemma ListedBalance(t: Table, c: TableCommand, dest: map<CardId, PlayerId>)
    requires c.MoveCards? && c.named.None? && SetOf(c.ids) <= dest.Keys && Served(c.ids, dest) <= Targets(c.ids, dest)
    requires forall x | x in c.ids :: x in t.loc
    ensures Balanced(t, c.ids, dest, Captured(t, c)) <==> ServesCaptured(t, c.ids, dest, Captured(t, c))
  {
    forall x | x in SetOf(c.ids) ensures t.loc[x].player in Captured(t, c) {}
    if !ServesCaptured(t, c.ids, dest, Captured(t, c)) {
      var x := SomeEscape(t, c.ids, dest, Captured(t, c));
    }
  }

  /** A harmful rejection shows in some place. */
  lemma HarmShows(t: Table, c: TableCommand, tag: nat) returns (q: Place)
    requires WellFormed(t) && c.MoveCards? && Apply(t, c, tag).None? && !Harmless(t, c, tag)
    ensures At(Rejected(t, c, tag).zones, q) != At(t.zones, q)
  {
    var requested := OrElse(c.target, c.player);
    var dest := Destinations(t, c.ids, requested, c.to);
    var r := HalfMoved(t, c.ids, dest, c.to, c.position);
    HalfMovedLands(t, c.ids, dest, c.to, c.position);
    var x := SomeEscape(t, c.ids, dest, Captured(t, c));
    var from, to := t.loc[x], Place(dest[x], c.to);
    assert x in c.ids && x in At(t.zones, from) && x in At(r.zones, to);
    q := if dest[x] in Captured(t, c) then from else to;
    RestoreSlots(t, r, Captured(t, c), CapturedCards(t, c), q);
    EscapeSlot(t, r, x, requested, c.to, q, from, to);
  }

  lemma EscapeSlot(t: Table, r: Table, x: CardId, requested: PlayerId, z: Zone, q: Place, from: Place, to: Place)
    requires Indexed(t) && Indexed(r) && x in t.loc && t.loc[x] == from && to == Place(Destination(t, x, requested, z), z)
    requires x in r.loc && r.loc[x] == to && (q == from || q == to) && q.player != requested
    ensures At(r.zones, q) != At(t.zones, q)
  {
    assert from != to;
    assert x in At(t.zones, from) && x !in At(t.zones, to) && x in At(r.zones, to) && x !in At(r.zones, from);
  }

  /** Player 1 controls card 0 of player 2 and holds card 1. */
  const BORROWED := Table({1, 2},
    map[1 := PlayerZones([], [Printed(1)], [Printed(0)], [], [], []), 2 := EMPTY],
    map[Printed(0) := Card(Some(2), Some(1), false, false, 0), Printed(1) := Card(Some(1), Some(1), false, false, 0)],
    map[Printed(0) := Place(1, Battlefield), Printed(1) := Place(1, Hand)],
    map[])

  const TWICE := MoveCards(1, None, [Printed(0), Printed(1), Printed(1)], Graveyard, None, Append, None)

  lemma BorrowedIsWellFormed()
    ensures WellFormed(BORROWED)
  {
    assert forall q: Place :: |At(BORROWED.zones, q)| <= 1;
  }

  lemma TwiceServes(dest: map<CardId, PlayerId>)
    requires dest == map[Printed(0) := 2, Printed(1) := 1]
    ensures SetOf(TWICE.ids) <= dest.Keys && 2 in Served(TWICE.ids, dest)
  {
    var ids := TWICE.ids;
    var a, b := [Printed(0)], [Printed(1), Printed(1)];
    assert ids == a + b && ids[0] == Printed(0);
    var others := set c | c in ids && (c !in dest || dest[c] != 2);
    assert Printed(0) !in others && Printed(1) in ids && Printed(1) in others;
    OnlyFirst(a, b, others);
    assert NoDup(Going(ids, dest, 2));
  }

  lemma OnlyFirst(a: seq<CardId>, b: seq<CardId>, others: set<CardId>)
    requires (forall c | c in a :: c !in others) && (forall c | c in b :: c in others)
    ensures Without(a + b, others) == a
  {
    WithoutConcat(a, b, others);
    WithoutNone(a, others);
    WithoutAll(b, others);
  }

  /** Why the request is refused only after the borrowed card went to its owner. */
  lemma TwiceEscapes()
    ensures WellFormed(BORROWED) && Apply(BORROWED, TWICE, 0).None? && PassesChecks(BORROWED, TWICE)
    ensures var dest := Destinations(BORROWED, TWICE.ids, 1, Graveyard);
      Printed(0) in TWICE.ids && Printed(0) in dest && dest[Printed(0)] == 2
      && 2 in Served(TWICE.ids, dest) && 2 !in Captured(BORROWED, TWICE)
  {
    var ids := TWICE.ids;
    var dest := Destinations(BORROWED, ids, 1, Graveyard);
    BorrowedIsWellFormed();
    assert ids[0] in ids && ids[1] in ids && ids[1] == ids[2];
    assert SetOf(ids) == {Printed(0), Printed(1)};
    assert dest == map[Printed(0) := 2, Printed(1) := 1];
    TwiceServes(dest);
  }

  /** Asking for the borrowed card and, twice, for the held one is refused; the borrowed
      card is then both on the battlefield and in its owner's graveyard. */
  lemma RefusedRequestDuplicatesCard()
    ensures WellFormed(BORROWED) && Apply(BORROWED, TWICE, 0).None? && !Indexed(Rejected(BORROWED, TWICE, 0))
    ensures Printed(0) in At(Rejected(BORROWED, TWICE, 0).zones, Place(2, Graveyard))
    ensures Printed(0) in At(Rejected(BORROWED, TWICE, 0).zones, Place(1, Battlefield))
  {
    TwiceEscapes();
    ServedStays(BORROWED, TWICE, 0, Printed(0));
    SourceRestored(BORROWED, TWICE, 0, Printed(0));
    InTwoPlaces(Rejected(BORROWED, TWICE, 0), Printed(0), Place(1, Battlefield), Place(2, Graveyard));
  }
}
