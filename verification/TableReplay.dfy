/**
  Whether replaying a table event gives the table its command gave. The event carries less
  than the command, so for three commands the answer depends on the table; the condition is
  exact and can be read off before the command runs.
 */
module TableReplay {
  import opened Common
  import opened Table
  import opened Slots
  import opened Movement
  import opened Conservation

  /** A card that goes where the command asks, not to its owner. */
  predicate Loose(t: Table, c: CardId, z: Zone) {
    !(Leaves(t, c, z) && OwnerKnown(t, c))
  }

  /** The event names one source zone for all its cards. */
  predicate SameSource(t: Table, ids: seq<CardId>) {
    ids != [] && forall c | c in ids :: c in t.loc && ids[0] in t.loc && t.loc[c].zone == t.loc[ids[0]].zone
  }

  /** The event names a target only when all cards went to the same player; otherwise
      replay takes the acting player, which must then not matter. */
  predicate TargetSurvives(t: Table, p: PlayerId, ids: seq<CardId>, requested: PlayerId, z: Zone) {
    requested == p || UniformTarget(t, ids, requested, z).Some? || forall c | c in ids :: !Loose(t, c, z)
  }

  /** Placing `ids` in front of `slot` and behind it is the same. */
  predicate OrderIrrelevant(slot: seq<CardId>, ids: seq<CardId>, z: Zone) {
    ids == [] || (slot == [] && (z == Library ==> |ids| <= 1))
  }

  /** A move-all event carries no position. */
  predicate PositionSurvives(t: Table, ids: seq<CardId>, requested: PlayerId, z: Zone, position: Position) {
    GoesInFront(z, position) ==>
      forall c | c in ids :: var d := Destination(t, c, requested, z);
        OrderIrrelevant(Without(At(t.zones, Place(d, z)), SetOf(ids)), Kept(t, ids, requested, z, d), z)
  }

  /** The commands whose event says enough. */
  predicate Replayable(t: Table, c: TableCommand) {
    match c
    case MoveCards(p, _, ids, z, target, _, _) => SameSource(t, ids) && TargetSurvives(t, p, ids, OrElse(target, p), z)
    case MoveAll(p, source, z, target, position) =>
      var ids := At(t.zones, Place(p, source));
      TargetSurvives(t, p, ids, OrElse(target, p), z) && PositionSurvives(t, ids, OrElse(target, p), z, position)
    case CreateTokens(_, quantity, marks) => TokenCount(quantity) == 1 && marks == 0
    case PlayTop(_, _, _) => false
    case _ => true
  }

  // ---------------------------------------------------------------- targets

  function ReplayTarget(t: Table, p: PlayerId, ids: seq<CardId>, requested: PlayerId, z: Zone): PlayerId {
    OrElse(UniformTarget(t, ids, requested, z), p)
  }

  lemma TargetMatters(t: Table, p: PlayerId, ids: seq<CardId>, requested: PlayerId, z: Zone)
    ensures TargetSurvives(t, p, ids, requested, z) <==>
      Destinations(t, ids, ReplayTarget(t, p, ids, requested, z), z) == Destinations(t, ids, requested, z)
  {
    var again := ReplayTarget(t, p, ids, requested, z);
    forall c | c in ids ensures c in SetOf(ids) {}
    if TargetSurvives(t, p, ids, requested, z) {
      forall c | c in SetOf(ids) ensures Destination(t, c, again, z) == Destination(t, c, requested, z) {}
    } else {
      var c :| c in ids && Loose(t, c, z);
      assert c in SetOf(ids);
      assert Destinations(t, ids, again, z)[c] == p && Destinations(t, ids, requested, z)[c] == requested;
    }
  }

  /** Under well-formedness a card sent to two different players ends in two different places. */
  lemma DestinationShows(t: Table, ids: seq<CardId>, a: PlayerId, b: PlayerId, z: Zone, x: Position, y: Position)
    requires WellFormed(t) && CanMove(t, ids)
    requires Destinations(t, ids, a, z) != Destinations(t, ids, b, z)
    ensures MoveWithRules(t, ids, a, z, x).loc != MoveWithRules(t, ids, b, z, y).loc
  {
    LocSettles(t, ids, a, z, x);
    LocSettles(t, ids, b, z, y);
    DestinationInLoc(t, ids, a, b, z);
  }

  lemma LocSettles(t: Table, ids: seq<CardId>, requested: PlayerId, z: Zone, position: Position)
    requires NoDup(ids)
    ensures MoveWithRules(t, ids, requested, z, position).loc == SettledLoc(t, ids, requested, z)
  {
    MoveSettles(t, ids, requested, z, position);
  }

  lemma DestinationInLoc(t: Table, ids: seq<CardId>, a: PlayerId, b: PlayerId, z: Zone)
    requires WellFormed(t) && CanMove(t, ids)
    requires Destinations(t, ids, a, z) != Destinations(t, ids, b, z)
    ensures SettledLoc(t, ids, a, z) != SettledLoc(t, ids, b, z)
  {
    var c :| c in SetOf(ids) && Destination(t, c, a, z) != Destination(t, c, b, z);
    assert c !in Evaporating(t, ids, z);
    assert SettledLoc(t, ids, a, z)[c].player != SettledLoc(t, ids, b, z)[c].player;
  }

  // --------------------------------------------------------------- positions

  lemma PlacedInFront(slot: seq<CardId>, ids: seq<CardId>, z: Zone, position: Position)
    requires GoesInFront(z, position) && NoDup(ids) && forall c | c in ids :: c !in slot
    ensures Placed(slot, ids, z, position) == slot + ids <==> OrderIrrelevant(slot, ids, z)
  {
    ReverseMembers(ids);
    var front := if z == Library then Reverse(ids) else ids;
    assert Placed(slot, ids, z, position) == front + slot;
    if ids != [] && slot != [] {
      assert front[0] in front && (front + slot)[0] == front[0] && (slot + ids)[0] == slot[0] && slot[0] in slot;
    } else if |ids| > 1 && z == Library {
      assert (front + slot)[0] == ids[|ids| - 1] && (slot + ids)[0] == ids[0];
    } else if |ids| == 1 {
      assert Reverse(ids) == [ids[0]] + Reverse([]);
    }
  }

  /** Contents after a movement depend on the position exactly where order matters. */
  lemma PositionMatters(t: Table, ids: seq<CardId>, requested: PlayerId, z: Zone, position: Position)
    requires WellFormed(t) && CanMove(t, ids)
    ensures PositionSurvives(t, ids, requested, z, position) <==>
      MoveWithRules(t, ids, requested, z, Append) == MoveWithRules(t, ids, requested, z, position)
  {
    if PositionSurvives(t, ids, requested, z, position) {
      PositionLost(t, ids, requested, z, position);
      LedgerIgnoresPosition(t, ids, requested, z, position);
    } else {
      var c :| c in ids && var d := Destination(t, c, requested, z);
        !OrderIrrelevant(Without(At(t.zones, Place(d, z)), SetOf(ids)), Kept(t, ids, requested, z, d), z);
      PositionShows(t, ids, requested, z, position, Place(Destination(t, c, requested, z), z));
    }
  }

  lemma PositionLost(t: Table, ids: seq<CardId>, requested: PlayerId, z: Zone, position: Position)
    requires CanMove(t, ids) && PositionSurvives(t, ids, requested, z, position)
    ensures MoveWithRules(t, ids, requested, z, Append).zones == MoveWithRules(t, ids, requested, z, position).zones
  {
    var a := MoveWithRules(t, ids, requested, z, Append);
    var b := MoveWithRules(t, ids, requested, z, position);
    MoveSettles(t, ids, requested, z, Append);
    MoveSettles(t, ids, requested, z, position);
    forall q: Place ensures At(a.zones, q) == At(b.zones, q) {
      SlotIgnoresPosition(t, ids, requested, z, position, q);
    }
    SameSlots(a.zones, b.zones);
  }

  lemma PositionShows(t: Table, ids: seq<CardId>, requested: PlayerId, z: Zone, position: Position, q: Place)
    requires CanMove(t, ids) && GoesInFront(z, position) && q.zone == z
    requires !OrderIrrelevant(Without(At(t.zones, q), SetOf(ids)), Kept(t, ids, requested, z, q.player), z)
    ensures MoveWithRules(t, ids, requested, z, Append).zones != MoveWithRules(t, ids, requested, z, position).zones
  {
    SettlesAt(t, ids, requested, z, Append, q);
    SettlesAt(t, ids, requested, z, position, q);
    KeptApart(t, ids, requested, z, q);
    PlacedInFront(Without(At(t.zones, q), SetOf(ids)), Kept(t, ids, requested, z, q.player), z, position);
  }

  lemma SettlesAt(t: Table, ids: seq<CardId>, requested: PlayerId, z: Zone, position: Position, q: Place)
    requires CanMove(t, ids)
    ensures At(MoveWithRules(t, ids, requested, z, position).zones, q) == Settled(t, ids, requested, z, position, q)
  {
    MoveSettles(t, ids, requested, z, position);
  }

  lemma KeptApart(t: Table, ids: seq<CardId>, requested: PlayerId, z: Zone, q: Place)
    requires NoDup(ids)
    ensures NoDup(Kept(t, ids, requested, z, q.player))
    ensures forall c | c in Kept(t, ids, requested, z, q.player) :: c !in Without(At(t.zones, q), SetOf(ids))
  {
    KeptMembers(t, ids, requested, z, q.player);
    WithoutMembers(At(t.zones, q), SetOf(ids));
  }

  lemma SlotIgnoresPosition(t: Table, ids: seq<CardId>, requested: PlayerId, z: Zone, position: Position, q: Place)
    requires CanMove(t, ids) && PositionSurvives(t, ids, requested, z, position)
    ensures Settled(t, ids, requested, z, Append, q) == Settled(t, ids, requested, z, position, q)
  {
    if q.zone == z && GoesInFront(z, position) {
      var kept := Kept(t, ids, requested, z, q.player);
      var slot := Without(At(t.zones, q), SetOf(ids));
      KeptMembers(t, ids, requested, z, q.player);
      if kept == [] {
        PlacedMembers(slot, kept, z, position);
      } else {
        assert kept[0] in kept;
        assert kept[0] in ids && Destination(t, kept[0], requested, z) == q.player;
        assert OrderIrrelevant(slot, kept, z);
        KeptApart(t, ids, requested, z, q);
        PlacedInFront(slot, kept, z, position);
      }
    }
  }

  lemma LedgerIgnoresPosition(t: Table, ids: seq<CardId>, requested: PlayerId, z: Zone, position: Position)
    requires NoDup(ids)
    ensures var a := MoveWithRules(t, ids, requested, z, Append);
      var b := MoveWithRules(t, ids, requested, z, position);
      a.players == b.players && a.cards == b.cards && a.loc == b.loc && a.casts == b.casts
  {
    var dest := Destinations(t, ids, requested, z);
    GroupsLand(t, ids, dest, z, Append);
    GroupsLand(t, ids, dest, z, position);
  }

  // ----------------------------------------------------------------- drawing

  /** A replayed draw moves card by card what the command moved as one block. */
  lemma {:induction false} DrawReplays(t: Table, p: PlayerId, n: nat)
    requires Indexed(t) && p in t.zones && n <= |LibraryOf(t, p)|
    ensures MoveEachToHand(t, p, LibraryOf(t, p)[..n]) == Some(if n == 0 then t else DrawMany(t, p, n))
  {
    if n > 0 {
      var l := LibraryOf(t, p);
      DrawReplays(t, p, n - 1);
      assert l[..n][..n - 1] == l[..n - 1];
      var before := if n == 1 then t else DrawMany(t, p, n - 1);
      assert l[n - 1] in l;
      DrawOneMore(t, p, n, before);
    }
  }

  lemma DrawOneMore(t: Table, p: PlayerId, n: nat, before: Table)
    requires Indexed(t) && p in t.zones && 0 < n <= |LibraryOf(t, p)|
    requires before == if n == 1 then t else DrawMany(t, p, n - 1)
    ensures LibraryOf(t, p)[n - 1] in before.loc
    ensures MoveToHand(before, p, LibraryOf(t, p)[n - 1]) == DrawMany(t, p, n)
  {
    OneMoreSlots(t, p, n, before);
    OneMoreLocated(t, p, n, before);
  }

  lemma OneMoreSlots(t: Table, p: PlayerId, n: nat, before: Table)
    requires Indexed(t) && p in t.zones && 0 < n <= |LibraryOf(t, p)|
    requires before == if n == 1 then t else DrawMany(t, p, n - 1)
    ensures MoveToHand(before, p, LibraryOf(t, p)[n - 1]).zones == DrawMany(t, p, n).zones
  {
    var one := MoveToHand(before, p, LibraryOf(t, p)[n - 1]).zones;
    var all := DrawMany(t, p, n).zones;
    forall q: Place ensures At(one, q) == At(all, q) {
      SlotsBefore(t, p, n, before, q);
      SlotAfterDraw(t, p, n, q);
      OneCardSlots(before, LibraryOf(t, p)[n - 1], Place(p, Hand), false, q);
      NextDrawn(t, p, n, q);
    }
    SameSlots(one, all);
  }

  lemma OneMoreLocated(t: Table, p: PlayerId, n: nat, before: Table)
    requires Indexed(t) && p in t.zones && 0 < n <= |LibraryOf(t, p)|
    requires before == if n == 1 then t else DrawMany(t, p, n - 1)
    ensures LibraryOf(t, p)[n - 1] in before.loc
    ensures before.loc[LibraryOf(t, p)[n - 1] := Place(p, Hand)] == DrawMany(t, p, n).loc
  {
    var l := LibraryOf(t, p);
    assert l[n - 1] in l;
    assert l[..n] == l[..n - 1] + [l[n - 1]];
    assert SetOf(l[..n]) == SetOf(l[..n - 1]) + {l[n - 1]};
  }

  /** The slots once `n` cards were drawn. */
  function Drawing(t: Table, p: PlayerId, n: nat, q: Place): seq<CardId>
    requires n <= |LibraryOf(t, p)|
  {
    if q == Place(p, Library) then LibraryOf(t, p)[n..]
    else if q == Place(p, Hand) then At(t.zones, q) + LibraryOf(t, p)[..n]
    else At(t.zones, q)
  }

  lemma SlotAfterDraw(t: Table, p: PlayerId, n: nat, q: Place)
    requires Indexed(t) && n <= |LibraryOf(t, p)|
    ensures At(DrawMany(t, p, n).zones, q) == Drawing(t, p, n, q)
  {
    MoveTopRelocates(t, p, n, Place(p, Hand));
  }

  lemma SlotsBefore(t: Table, p: PlayerId, n: nat, before: Table, q: Place)
    requires Indexed(t) && 0 < n <= |LibraryOf(t, p)|
    requires before == if n == 1 then t else DrawMany(t, p, n - 1)
    ensures At(before.zones, q) == Drawing(t, p, n - 1, q)
  {
    if n == 1 {
      assert At(t.zones, q) + LibraryOf(t, p)[..0] == At(t.zones, q);
    } else {
      SlotAfterDraw(t, p, n - 1, q);
    }
  }

  lemma NextDrawn(t: Table, p: PlayerId, n: nat, q: Place)
    requires Indexed(t) && 0 < n <= |LibraryOf(t, p)|
    ensures var c := LibraryOf(t, p)[n - 1];
      Drawing(t, p, n, q) == if q == Place(p, Hand) then Without(Drawing(t, p, n - 1, q), {c}) + [c]
                             else Without(Drawing(t, p, n - 1, q), {c})
  {
    var l := LibraryOf(t, p);
    if q == Place(p, Library) {
      assert NoDup(l);
      FirstOut(l, n - 1);
    } else {
      DrawnElsewhere(t, p, n, q);
      if q == Place(p, Hand) { assert At(t.zones, q) + l[..n] == At(t.zones, q) + l[..n - 1] + [l[n - 1]]; }
    }
  }

  lemma FirstOut(l: seq<CardId>, k: nat)
    requires NoDup(l) && k < |l|
    ensures Without(l[k..], {l[k]}) == l[k + 1..]
  {
    assert l[k..] == [l[k]] + l[k + 1..];
    WithoutConcat([l[k]], l[k + 1..], {l[k]});
    WithoutAll([l[k]], {l[k]});
    WithoutNone(l[k + 1..], {l[k]});
  }

  /** The card drawn next is still in the library only. */
  lemma DrawnElsewhere(t: Table, p: PlayerId, n: nat, q: Place)
    requires Indexed(t) && 0 < n <= |LibraryOf(t, p)| && q != Place(p, Library)
    ensures Without(Drawing(t, p, n - 1, q), {LibraryOf(t, p)[n - 1]}) == Drawing(t, p, n - 1, q)
  {
    var l := LibraryOf(t, p);
    var c := l[n - 1];
    assert c in l && NoDup(l);
    assert t.loc[c] == Place(p, Library);
    assert c !in At(t.zones, q);
    TopOfLibrary(t, p, n - 1);
    assert c in l[n - 1..];
    WithoutNone(Drawing(t, p, n - 1, q), {l[n - 1]});
  }

  // ------------------------------------------------------------ main theorem

  /** Replaying the event a command produced gives the command's own table if and only if
      the command is replayable. */
  lemma ReplayFaithful(t: Table, c: TableCommand, tag: nat)
    requires WellFormed(t) && Apply(t, c, tag).Some?
    ensures Replay(t, Apply(t, c, tag).value.1, tag) == Some(Apply(t, c, tag).value.0) <==> Replayable(t, c)
  {
    match c
    case MoveCards(p, from, ids, z, target, position, _) =>
      CardsReplay(t, c, tag);
    case MoveAll(p, source, z, target, position) =>
      MoveAllReplays(t, c, tag);
    case Draw(_, _) => LibraryReplays(t, c, tag);
    case MoveTop(_, _, _, _, _) => LibraryReplays(t, c, tag);
    case Put(_, _, _) => LibraryReplays(t, c, tag);
    case CreateTokens(p, quantity, marks) =>
      TokensReplay(t, c, tag);
    case PlayTop(_, _, _) => TopNeverReplays(t, c, tag);
  }

  lemma LibraryReplays(t: Table, c: TableCommand, tag: nat)
    requires WellFormed(t) && (c.Draw? || c.MoveTop? || c.Put?) && Apply(t, c, tag).Some?
    ensures Replay(t, Apply(t, c, tag).value.1, tag) == Some(Apply(t, c, tag).value.0)
  {
    match c
    case Draw(p, count) =>
      if count > 0 { DrawReplays(t, p, count); }
    case MoveTop(p, count, z, target, position) =>
      assert count > 0 ==> |LibraryOf(t, p)[..count]| == count;
    case Put(_, _, _) =>
  }

  /** A top card played face down cannot be replayed at all. */
  lemma TopNeverReplays(t: Table, c: TableCommand, tag: nat)
    requires c.PlayTop? && Apply(t, c, tag).Some?
    ensures Replay(t, Apply(t, c, tag).value.1, tag) == None
  {}

  /** The command's table and its event's, as two movements. */
  lemma CardsTwice(t: Table, c: TableCommand, tag: nat)
    requires c.MoveCards? && Apply(t, c, tag).Some?
    ensures CanMove(t, c.ids)
    ensures Apply(t, c, tag).value.0 == MoveWithRules(t, c.ids, OrElse(c.target, c.player), c.to, c.position)
    ensures var again := ReplayTarget(t, c.player, c.ids, OrElse(c.target, c.player), c.to);
      Replay(t, Apply(t, c, tag).value.1, tag)
      == if SameSource(t, c.ids) then Some(MoveWithRules(t, c.ids, again, c.to, c.position)) else None
  {}

  lemma CardsReplay(t: Table, c: TableCommand, tag: nat)
    requires WellFormed(t) && c.MoveCards? && Apply(t, c, tag).Some?
    ensures Replay(t, Apply(t, c, tag).value.1, tag) == Some(Apply(t, c, tag).value.0) <==> Replayable(t, c)
  {
    CardsTwice(t, c, tag);
    SameMovement(t, c.player, c.ids, OrElse(c.target, c.player), c.to, c.position, c.position);
  }

  /** Two movements to the player asked for and the player replay takes give the same table
      if and only if the target survives (for the same position). */
  lemma SameMovement(t: Table, p: PlayerId, ids: seq<CardId>, requested: PlayerId, z: Zone, x: Position, y: Position)
    requires WellFormed(t) && CanMove(t, ids)
    ensures var again := ReplayTarget(t, p, ids, requested, z);
      if TargetSurvives(t, p, ids, requested, z)
      then MoveWithRules(t, ids, again, z, y) == MoveWithRules(t, ids, requested, z, y)
      else MoveWithRules(t, ids, again, z, y) != MoveWithRules(t, ids, requested, z, x)
  {
    var again := ReplayTarget(t, p, ids, requested, z);
    TargetMatters(t, p, ids, requested, z);
    if !TargetSurvives(t, p, ids, requested, z) {
      DestinationShows(t, ids, requested, again, z, x, y);
    }
  }

  lemma MoveAllTwice(t: Table, c: TableCommand, tag: nat)
    requires c.MoveAll? && Apply(t, c, tag).Some?
    ensures var ids := At(t.zones, Place(c.player, c.source)); var requested := OrElse(c.target, c.player);
      && CanMove(t, ids)
      && Apply(t, c, tag).value.0 == MoveWithRules(t, ids, requested, c.to, c.position)
      && Replay(t, Apply(t, c, tag).value.1, tag)
         == Some(MoveWithRules(t, ids, ReplayTarget(t, c.player, ids, requested, c.to), c.to, Append))
  {}

  lemma MoveAllReplays(t: Table, c: TableCommand, tag: nat)
    requires WellFormed(t) && c.MoveAll? && Apply(t, c, tag).Some?
    ensures Replay(t, Apply(t, c, tag).value.1, tag) == Some(Apply(t, c, tag).value.0) <==> Replayable(t, c)
  {
    var ids := At(t.zones, Place(c.player, c.source));
    var requested := OrElse(c.target, c.player);
    MoveAllTwice(t, c, tag);
    SameMovement(t, c.player, ids, requested, c.to, c.position, Append);
    PositionMatters(t, ids, requested, c.to, c.position);
  }

  lemma TokensReplay(t: Table, c: TableCommand, tag: nat)
    requires WellFormed(t) && c.CreateTokens? && Apply(t, c, tag).Some?
    ensures Replay(t, Apply(t, c, tag).value.1, tag) == Some(Apply(t, c, tag).value.0) <==> Replayable(t, c)
  {
    var n := TokenCount(c.quantity);
    var live := AddTokens(t, c.player, TokenIds(tag, n), c.marks);
    var again := AddTokens(t, c.player, TokenIds(tag, 1), 0);
    var first := Minted(tag, 0);
    var last := Minted(tag, n - 1);
    assert TokenIds(tag, n)[0] == first && TokenIds(tag, n)[n - 1] == last;
    assert TokenIds(tag, 1) == [first];
    assert Replay(t, Apply(t, c, tag).value.1, tag) == Some(again);
    assert live.cards[first].marks == c.marks && again.cards[first].marks == 0;
    if n > 1 {
      assert last in live.cards && last !in again.cards;
    }
  }
}
