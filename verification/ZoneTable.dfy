/** The card table as the runtime keeps it: zones, cards and positions rewritten in place. */
module ZoneTable {
  import opened Common
  import opened Table
  import opened Slots
  import opened Movement
  import opened ZoneIndex
  import opened TableReject
  import opened MoveBatches
  import opened ZoneOps

  class CardTable {
    var players: set<PlayerId>
    var zones: map<PlayerId, PlayerZones>
    var cards: map<CardId, Card>
    var loc: Index
    var casts: map<CardId, nat>

    ghost function Abs(): Table
      reads this
    {
      Table(players, zones, cards, PlacesOf(loc), casts)
    }

    ghost predicate Valid()
      reads this
    {
      Exact(zones, loc) && loc.Keys == cards.Keys
    }

    constructor (t: Table)
      requires WellFormed(t)
      ensures Valid() && Abs() == t
    {
      players, zones, cards, casts := t.players, t.zones, t.cards, t.casts;
      new;
      loc := RebuildIndex(t);
    }
  
    // ------------------------------------------------------------ zone slots

    /** Takes `ids`, all of which are in `q`, out of the list and closes the gaps. */
    method RemoveGroup(q: Place, ids: seq<CardId>)
      requires Exact(zones, loc)
      requires forall c | c in ids :: c in loc && loc[c].place == q
      modifies this`zones, this`loc
      ensures zones == Cleared(old(zones), q, ids)
      ensures Exact(zones, loc)
      ensures PlacesOf(loc) == Departed(PlacesOf(old(loc)), ids)
    {
      var slot := At(zones, q);
      var removeAt := Indexes(loc, ids);
      RemovalIndexes(zones, loc, q, ids, removeAt);
      ExactNoDup(zones, loc, q);
      var next, rest := CloseGaps(loc, q, slot, removeAt, ids);
      RemovedFromSlot(zones, loc, q, ids, rest);
      loc := rest;
      zones := SetAt(zones, q, next);
    }

    /** Puts `ids`, none of which is anywhere, into `q` and renumbers its list. */
    method InsertMany(q: Place, ids: seq<CardId>, position: Position)
      requires Exact(zones, loc) && NoDup(ids)
      requires forall c | c in ids :: c !in loc
      modifies this`zones, this`loc
      ensures zones == SetAt(old(zones), q, Placed(At(old(zones), q), ids, q.zone, position))
      ensures Exact(zones, loc)
      ensures PlacesOf(loc) == Entered(PlacesOf(old(loc)), ids, q)
    {
      var slot := At(zones, q);
      var ordered := if q.zone == Library && position == Top then Reverse(ids) else ids;
      var insertAt := InsertIndex(slot, q.zone, position);
      var next := slot[..insertAt] + ordered + slot[insertAt..];
      InsertedIsPlaced(slot, ids, q.zone, position);
      SlotCards(zones, loc, q);
      PlacedMembers(slot, ids, q.zone, position);
      var all := IndexSlot(loc, q, next);
      PutIntoSlot(zones, loc, q, ids, next, all);
      loc := all;
      zones := SetAt(zones, q, next);
    }

    /** Takes every card out of wherever it is, slot by slot, and puts them all into one. */
    method MoveMany(ids: seq<CardId>, p: PlayerId, z: Zone, position: Position) returns (ok: bool, moves: seq<Move>)
      requires Valid()
      modifies this`zones, this`loc, this`cards
      ensures Valid()
      ensures ok <==> CanMove(old(Abs()), ids)
      ensures ok && ids == [] ==> Abs() == old(Abs())
      ensures ok && ids != [] ==> Abs() == MoveGroup(old(Abs()), ids, Place(p, z), position)
      ensures !ok ==> Abs() == old(Abs()).(zones := old(zones)[p := ZonesOf(old(zones), p)])
      ensures ok ==> moves == Journeys(ids, PlacesOf(old(loc)), Place(p, z))
    {
      moves := [];
      if ids == [] {
        return true, moves;
      }
      ghost var before := Abs();
      AddedEntry(zones, loc, p);
      zones := zones[p := ZonesOf(zones, p)];
      ok := Movable(ids, loc);
      if ok {
        moves := Journeys(ids, PlacesOf(loc), Place(p, z));
        Relocate(ids, Place(p, z), position);
        cards := TakeControl(cards, ids, p, z);
        IsMoveGroup(before, Abs(), ids, Place(p, z), position);
        assert loc.Keys == PlacesOf(loc).Keys && before.loc.Keys == before.cards.Keys;
      }
    }

    method Relocate(ids: seq<CardId>, q: Place, position: Position)
      requires Exact(zones, loc) && NoDup(ids)
      requires forall c | c in ids :: c in loc
      modifies this`zones, this`loc
      ensures Exact(zones, loc)
      ensures var taken := Take(old(zones), SetOf(ids));
        zones == SetAt(taken, q, Placed(At(taken, q), ids, q.zone, position))
      ensures PlacesOf(loc) == Entered(PlacesOf(old(loc)), ids, q)
    {
      var from := PlacesOf(loc);
      var groups := RemovalGroups(ids, from);
      GroupsApart(ids, from, groups);
      RemoveAll(from, groups);
      NowAbsent(loc, from, ids);
      InsertMany(q, ids, position);
      ThereAgain(from, ids, q);
    }

    method RemoveAll(from: map<CardId, Place>, groups: seq<Removal>)
      requires Exact(zones, loc) && from == PlacesOf(loc)
      requires forall k | 0 <= k < |groups| :: Apart(from, groups, k)
      modifies this`zones, this`loc
      ensures Exact(zones, loc)
      ensures zones == Take(old(zones), Emptied(groups, |groups|))
      ensures PlacesOf(loc) == from - Emptied(groups, |groups|)
    {
      TakenNone(zones);
      for k := 0 to |groups|
        invariant Exact(zones, loc)
        invariant Taken(old(zones), Emptied(groups, k), zones)
        invariant PlacesOf(loc) == from - Emptied(groups, k)
      {
        StillThere(loc, from, groups, k);
        TakenGroup(old(zones), old(loc), from, groups, k, zones);
        RemoveGroup(groups[k].place, groups[k].ids);
      }
      TakenIs(old(zones), Emptied(groups, |groups|), zones);
    }

    /** Takes one card out of its slot and renumbers what is left. */
    method RemoveCard(c: CardId)
      requires Exact(zones, loc) && c in loc
      modifies this`zones, this`loc
      ensures zones == Cleared(old(zones), old(loc)[c].place, [c])
      ensures Exact(zones, loc)
      ensures PlacesOf(loc) == Departed(PlacesOf(old(loc)), [c])
    {
      var q, i := loc[c].place, loc[c].index;
      var slot := At(zones, q);
      SlotOf(zones, loc, c);
      var next := slot[..i] + slot[i + 1..];
      var rest := IndexSlot(loc - {c}, q, next);
      RemovedFromSlot(zones, loc, q, [c], rest);
      loc := rest;
      zones := SetAt(zones, q, next);
    }

    /** Evaporation: the cards leave zones, index and the set of cards, one after the other. */
    method RemoveEach(gone: seq<CardId>)
      requires Valid() && NoDup(gone) && forall c | c in gone :: c in loc
      modifies this`zones, this`loc, this`cards
      ensures Valid()
      ensures zones == Take(old(zones), SetOf(gone))
      ensures cards == old(cards) - SetOf(gone)
      ensures PlacesOf(loc) == PlacesOf(old(loc)) - SetOf(gone)
    {
      ghost var from := PlacesOf(loc);
      ghost var left: set<CardId> := {};
      TakenNone(zones);
      for k := 0 to |gone|
        invariant Exact(zones, loc)
        invariant Taken(old(zones), left, zones)
        invariant PlacesOf(loc) == from - left
        invariant left == SetOf(gone[..k])
        invariant cards == old(cards) - left
      {
        NextGone(loc, from, gone, k);
        TakenOne(old(zones), old(loc), left, zones, gone[k]);
        RemoveCard(gone[k]);
        cards := cards - {gone[k]};
        left := left + {gone[k]};
      }
      TakenIs(old(zones), left, zones);
      assert gone[..|gone|] == gone;
      assert loc.Keys == PlacesOf(loc).Keys;
    }

    // ------------------------------------------------- movement with the rules

    /** Where a card goes: its owner, when it leaves the battlefield and the owner is known. */
    method DestinationOf(c: CardId, requested: PlayerId, z: Zone) returns (d: PlayerId)
      requires Valid() && c in loc
      ensures d == Destination(Abs(), c, requested, z)
    {
      d := requested;
      if loc[c].place.zone == Battlefield && z != Battlefield {
        var owner := cards[c].owner;
        if owner.Some? && (owner.value in players || owner.value in zones) {
          d := owner.value;
        }
      }
    }

    /** The grouping loop. */
    method GroupByPlayer(ids: seq<CardId>, requested: PlayerId, z: Zone) returns (batches: seq<Batch>)
      requires Valid() && forall c | c in ids :: c in loc
      ensures batches == Batches(ids, Destinations(Abs(), ids, requested, z))
    {
      batches := [];
      var byPlayer: map<PlayerId, nat> := map[];
      ghost var t := Abs();
      ghost var dest := Destinations(t, ids, requested, z);
      for i := 0 to |ids|
        invariant SetOf(ids[..i]) <= dest.Keys
        invariant batches == Batches(ids[..i], dest)
        invariant Numbered(batches, byPlayer)
      {
        var c := ids[i];
        NextBatch(ids, dest, i);
        var d := DestinationOf(c, requested, z);
        batches, byPlayer := AddCard(batches, byPlayer, d, c);
      }
      assert ids[..|ids|] == ids;
    }

    /** The batches one after the other, up to the first that fails. */
    method MoveInBatches(batches: seq<Batch>, z: Zone, position: Position, ghost ids: seq<CardId>, ghost dest: map<CardId, PlayerId>)
      returns (ok: bool, moves: seq<Move>)
      requires Valid() && SetOf(ids) <= dest.Keys && batches == Batches(ids, dest)
      requires forall c | c in ids :: c in loc
      modifies this`zones, this`loc, this`cards
      ensures Valid()
      ensures ok <==> NoDup(ids)
      ensures ok ==> Abs() == MoveGroups(old(Abs()), ids, dest, z, position)
      ensures !ok ==> Abs() == HalfMoved(old(Abs()), ids, dest, z, position)
      ensures ok ==> Travels(moves, old(Abs()).loc, SetOf(ids), dest, z)
    {
      moves := [];
      ghost var t := Abs();
      ghost var rest := ids;
      FirstInTurn(t, ids, dest, z, position);
      for k := 0 to |batches|
        invariant Valid() && InTurn(t, ids, Abs(), rest, dest, z, position)
        invariant SetOf(rest) <= dest.Keys
        invariant Batches(rest, dest) == batches[k..]
        invariant forall j | 0 <= j < k :: NoDup(batches[j].ids)
        invariant Travels(moves, t.loc, SetOf(ids) - SetOf(rest), dest, z)
      {
        ghost var now := Abs();
        NextInTurn(t, ids, now, rest, dest, z, position);
        assert batches[k] == batches[k..][0] && batches[k..][1..] == batches[k + 1..];
        var more;
        ok, more := MoveMany(batches[k].ids, batches[k].player, z, position);
        if !ok {
          return;
        }
        TravelsMore(moves, more, t, ids, now, rest, dest, z, position);
        moves := moves + more;
        rest := Staying(rest, dest, batches[k].player);
      }
      ok := true;
      LastInTurn(t, ids, Abs(), rest, dest, z, position);
      assert SetOf(ids) - SetOf(rest) == SetOf(ids);
    }

    /** Cards that left a battlefield lose what they gathered there. */
    method ResetExits(moves: seq<Move>)
      requires forall m | m in moves :: m.card in cards
      modifies this`cards
      ensures cards == AfterExits(old(cards), moves)
    {
      for i := 0 to |moves|
        invariant cards == AfterExits(old(cards), moves[..i])
      {
        assert moves[i] in moves && moves[..i + 1] == moves[..i] + [moves[i]];
        ghost var was := cards;
        if moves[i].to.zone != Battlefield && moves[i].from.zone == Battlefield {
          var card := cards[moves[i].card];
          cards := cards[moves[i].card := Reset(card)];
        }
        ExitsMore(old(cards), moves[..i], moves[i]);
      }
      assert moves[..|moves|] == moves;
    }

    /** The tokens among the cards that left a battlefield, in the order they moved. */
    method EvaporatingMoves(moves: seq<Move>) returns (gone: seq<CardId>)
      requires forall m | m in moves :: m.card in cards
      ensures ExitingTokens(gone, moves, cards)
      ensures (forall i, j | 0 <= i < j < |moves| :: moves[i].card != moves[j].card) ==> NoDup(gone)
    {
      gone := [];
      for i := 0 to |moves|
        invariant forall c | c in gone :: exists j :: 0 <= j < i && IsExit(moves[j]) && moves[j].card == c && c in cards && cards[c].token
        invariant forall j | 0 <= j < i && IsExit(moves[j]) && moves[j].card in cards && cards[moves[j].card].token :: moves[j].card in gone
        invariant (forall i, j | 0 <= i < j < |moves| :: moves[i].card != moves[j].card) ==> NoDup(gone)
      {
        assert moves[i] in moves;
        if IsExit(moves[i]) && cards[moves[i].card].token {
          gone := gone + [moves[i].card];
        }
      }
      forall c ensures c in gone <==> exists m :: m in moves && IsExit(m) && m.card == c && c in cards && cards[c].token {
        if m :| m in moves && IsExit(m) && m.card == c && c in cards && cards[c].token {
          var j :| 0 <= j < |moves| && moves[j] == m;
        }
      }
    }

    /** Every cast from its owner's command zone counts, and marks the card as a commander. */
    method CountCasts(moves: seq<Move>, gone: seq<CardId>)
      requires forall m | m in moves && m.card !in gone :: m.card in cards
      requires forall i, j | 0 <= i < j < |moves| :: moves[i].card != moves[j].card
      modifies this`cards, this`casts
      ensures cards == Commanders(old(cards), CastCards(old(cards), moves, gone))
      ensures casts == Counted(old(casts), CastCards(old(cards), moves, gone))
    {
      for i := 0 to |moves|
        invariant cards == Commanders(old(cards), CastCards(old(cards), moves[..i], gone))
        invariant casts == Counted(old(casts), CastCards(old(cards), moves[..i], gone))
      {
        var m := moves[i];
        assert m in moves && moves[..i + 1] == moves[..i] + [m];
        CastsMore(old(cards), old(casts), moves[..i], m, gone);
        if m.card !in gone && IsCastMove(cards[m.card], m) {
          cards := cards[m.card := cards[m.card].(commander := true)];
          casts := casts[m.card := (if m.card in casts then casts[m.card] else 0) + 1];
        }
      }
      assert moves[..|moves|] == moves;
    }

    /** A whole movement: batches, battlefield-exit reset, evaporation, commander casts. */
    method MoveManyWithRules(ids: seq<CardId>, requested: PlayerId, z: Zone, position: Position)
      returns (ok: bool, moves: seq<Move>)
      requires Valid() && forall c | c in ids :: c in loc
      modifies this`zones, this`loc, this`cards, this`casts
      ensures Valid()
      ensures ok <==> NoDup(ids)
      ensures ok ==> Abs() == MoveWithRules(old(Abs()), ids, requested, z, position)
      ensures ok ==> Travels(moves, old(Abs()).loc, SetOf(ids), Destinations(old(Abs()), ids, requested, z), z)
      ensures !ok ==> Abs() == HalfMoved(old(Abs()), ids, Destinations(old(Abs()), ids, requested, z), z, position)
    {
      ghost var t := Abs();
      ghost var dest := Destinations(t, ids, requested, z);
      var batches := GroupByPlayer(ids, requested, z);
      ok, moves := MoveInBatches(batches, z, position, ids, dest);
      if ok {
        TravelsRecorded(moves, t, ids, requested, z);
        LandedCards(t, cards, ids, dest, z, position);
        ApplyZoneRules(moves, t, ids, requested, z);
      }
    }

    /** Resets the cards that left a battlefield, and removes the tokens among them. */
    method RemoveExitingTokens(moves: seq<Move>, ghost t: Table, ghost ids: seq<CardId>, ghost requested: PlayerId, ghost z: Zone)
      returns (gone: seq<CardId>)
      requires Valid() && Recorded(moves, t, ids, requested, z)
      requires forall i, j | 0 <= i < j < |moves| :: moves[i].card != moves[j].card
      requires cards.Keys == t.cards.Keys && forall c | c in t.cards :: cards[c].token == t.cards[c].token
      modifies this`zones, this`loc, this`cards
      ensures Valid() && SetOf(gone) == Evaporating(t, ids, z)
      ensures zones == Take(old(zones), SetOf(gone))
      ensures cards == AfterExits(old(cards), moves) - SetOf(gone)
      ensures PlacesOf(loc) == PlacesOf(old(loc)) - SetOf(gone)
    {
      ResetExits(moves);
      gone := EvaporatingMoves(moves);
      GoneTokens(t, ids, requested, z, moves, cards, gone);
      assert forall c | c in gone :: c in SetOf(gone);
      RemoveEach(gone);
    }

    method ApplyZoneRules(moves: seq<Move>, ghost t: Table, ghost ids: seq<CardId>, ghost requested: PlayerId, ghost z: Zone)
      requires Valid() && Recorded(moves, t, ids, requested, z)
      requires forall i, j | 0 <= i < j < |moves| :: moves[i].card != moves[j].card
      requires cards.Keys == t.cards.Keys
      requires forall c | c in t.cards :: cards[c].owner == t.cards[c].owner && cards[c].token == t.cards[c].token
      modifies this`zones, this`loc, this`cards, this`casts
      ensures Valid()
      ensures Abs() == AfterMoves(t, old(Abs()), ids, z)
    {
      var gone := RemoveExitingTokens(moves, t, ids, requested, z);
      RulesApplied(t, old(cards), old(casts), ids, requested, z, moves, gone);
      CountCasts(moves, gone);
    }

    // --------------------------------------------------------------- commands

    /** `cards.moved`: checks first, then the movement; a movement that fails half-way leaves
        its finished batches behind for the rollback. */
    method MoveCards(c: TableCommand, tag: nat) returns (event: Option<TableEvent>)
      requires Valid() && c.MoveCards?
      modifies this`zones, this`loc, this`cards, this`casts
      ensures Valid() && Executed(old(Abs()), c, tag, Abs(), event)
    {
      var located := CheckLocated(c);
      if !located {
        return None;
      }
      var requested := if c.target.Some? then c.target.value else c.player;
      assert c.ids[0] in c.ids;
      var source := loc[c.ids[0]].place.zone;
      ghost var t := Abs();
      var ok, moves := MoveManyWithRules(c.ids, requested, c.to, c.position);
      if !ok {
        MoveCardsStopped(t, c, tag, Abs());
        return None;
      }
      UniformIsTarget(moves, t, c.ids, requested, c.to);
      MoveCardsExecuted(t, c, tag, Abs());
      var target := Uniform(moves);
      event := Some(Moved(c.player, source, c.ids, c.to, target, c.position));
    }

    method CheckLocated(c: TableCommand) returns (ok: bool)
      requires Valid() && c.MoveCards?
      ensures ok <==> PassesChecks(Abs(), c)
    {
      if c.ids == [] {
        return false;
      }
      for i := 0 to |c.ids|
        invariant forall x | x in c.ids[..i] :: x in loc && (c.from.Some? ==> loc[x].place.zone == c.from.value)
      {
        assert c.ids[..i + 1] == c.ids[..i] + [c.ids[i]];
        var x := c.ids[i];
        assert x in c.ids;
        if x !in loc || (c.from.Some? && loc[x].place.zone != c.from.value) {
          return false;
        }
      }
      assert c.ids[..|c.ids|] == c.ids;
      return true;
    }

    /** `zone.move_all`: the whole slot, as a movement. */
    method MoveAll(c: TableCommand, tag: nat) returns (event: Option<TableEvent>)
      requires Valid() && c.MoveAll?
      modifies this`zones, this`loc, this`cards, this`casts
      ensures Valid() && Executed(old(Abs()), c, tag, Abs(), event)
    {
      var ids := At(zones, Place(c.player, c.source));
      SlotCards(zones, loc, Place(c.player, c.source));
      var requested := if c.target.Some? then c.target.value else c.player;
      ghost var t := Abs();
      var ok, moves := MoveManyWithRules(ids, requested, c.to, c.position);
      UniformIsTarget(moves, t, ids, requested, c.to);
      var target := Uniform(moves);
      event := Some(MovedAll(c.player, c.source, c.to, target));
      MoveAllExecuted(t, c, tag, Abs());
    }

    /** The top `n` cards of a library to the end of another place. */
    method ShiftTop(p: PlayerId, n: nat, q: Place)
      requires Exact(zones, loc) && n <= |At(zones, Place(p, Library))| && q.zone != Library
      modifies this`zones, this`loc
      ensures Exact(zones, loc)
      ensures zones == Shifted(old(zones), Place(p, Library), n, q)
      ensures PlacesOf(loc) == Entered(PlacesOf(old(loc)), At(old(zones), Place(p, Library))[..n], q)
    {
      var from := Place(p, Library);
      var library := At(zones, from);
      TopKeys(zones, loc, from, n);
      var index := IndexSlot(loc, from, library[n..]);
      index := IndexFrom(index, q, |At(zones, q)|, library[..n]);
      ShiftedTop(zones, loc, from, n, q, index);
      zones := SetAt(zones, from, library[n..]);
      zones := SetAt(zones, q, At(zones, q) + library[..n]);
      loc := index;
    }

    /** `library.draw_many`. */
    method Draw(c: TableCommand, tag: nat) returns (event: Option<TableEvent>)
      requires Valid() && c.Draw?
      modifies this`zones, this`loc
      ensures Valid() && Executed(old(Abs()), c, tag, Abs(), event)
    {
      if c.count <= 0 {
        return Some(Drawn(c.player, []));
      }
      var library := At(zones, Place(c.player, Library));
      if c.player !in zones || |library| < c.count {
        return None;
      }
      ghost var t := Abs();
      TopKeys(zones, loc, Place(c.player, Library), c.count);
      ShiftedIsMoveTop(t, c.player, c.count, Place(c.player, Hand));
      ShiftTop(c.player, c.count, Place(c.player, Hand));
      assert loc.Keys == PlacesOf(loc).Keys;
      event := Some(Drawn(c.player, library[..c.count]));
    }

    /** `library.move_top`: to the bottom of the same library, or to the end of a zone. */
    method MoveTop(c: TableCommand, tag: nat) returns (event: Option<TableEvent>)
      requires Valid() && c.MoveTop?
      modifies this`zones, this`loc, this`cards
      ensures Valid() && Executed(old(Abs()), c, tag, Abs(), event)
    {
      var owner := if c.target.Some? && c.to != Library then c.target.value else c.player;
      if c.to == Library && c.position != Bottom {
        return None;
      }
      if c.count <= 0 {
        return Some(MovedTop(c.player, owner, c.to, []));
      }
      var library := At(zones, Place(c.player, Library));
      if c.player !in zones || |library| < c.count {
        return None;
      }
      ghost var t := Abs();
      TopKeys(zones, loc, Place(c.player, Library), c.count);
      if c.to == Library {
        var turned := library[c.count..] + library[..c.count];
        TurnedLibrary(zones, loc, Place(c.player, Library), c.count);
        var index := IndexSlot(loc, Place(c.player, Library), turned);
        TurnedIndex(zones, loc, Place(c.player, Library), c.count, index);
        loc := index;
        zones := SetAt(zones, Place(c.player, Library), turned);
      } else {
        ShiftedIsMoveTop(t, c.player, c.count, Place(owner, c.to));
        ShiftTop(c.player, c.count, Place(owner, c.to));
        cards := TakeControl(cards, library[..c.count], owner, c.to);
        assert loc.Keys == PlacesOf(loc).Keys;
      }
      event := Some(MovedTop(c.player, owner, c.to, library[..c.count]));
    }

    /** `library.put_top` and `library.put_bottom`: the card leaves its slot before the code
        finds out that the player has no zones, so a refused put needs the rollback. */
    method PutCard(c: TableCommand, tag: nat) returns (event: Option<TableEvent>)
      requires Valid() && c.Put?
      modifies this`zones, this`loc
      ensures Exact(zones, loc) && Executed(old(Abs()), c, tag, Abs(), event)
      ensures event.Some? ==> Valid()
    {
      if c.card !in loc || c.card !in cards {
        return None;
      }
      OneTaken(zones, loc, c.card);
      RemoveCard(c.card);
      NowAbsent(loc, PlacesOf(old(loc)), [c.card]);
      if c.player !in zones {
        return None;
      }
      PutAtEnd(Place(c.player, Library), c.card, c.top);
      BackAgain(PlacesOf(old(loc)), c.card, Place(c.player, Library), loc);
      event := Some(PutDown(c.player, c.card, c.top));
    }

    method PutAtEnd(q: Place, c: CardId, front: bool)
      requires Exact(zones, loc) && c !in loc
      modifies this`zones, this`loc
      ensures Exact(zones, loc)
      ensures zones == SetAt(old(zones), q, if front then [c] + At(old(zones), q) else At(old(zones), q) + [c])
      ensures PlacesOf(loc) == Entered(PlacesOf(old(loc)), [c], q)
    {
      var next := if front then [c] + At(zones, q) else At(zones, q) + [c];
      OneMore(zones, loc, q, c, next);
      var index := IndexSlot(loc, q, next);
      PutIntoSlot(zones, loc, q, [c], next, index);
      loc := index;
      zones := SetAt(zones, q, next);
    }

    /** `card.token.created`: the instances are written before their ids are checked, so a
        refused creation needs the rollback. */
    method CreateTokens(c: TableCommand, tag: nat) returns (event: Option<TableEvent>)
      requires Valid() && c.CreateTokens?
      modifies this`zones, this`loc, this`cards
      ensures Exact(zones, loc) && Executed(old(Abs()), c, tag, Abs(), event)
      ensures event.Some? ==> Valid()
    {
      if c.player !in players {
        return None;
      }
      var n := 1;
      if c.quantity.Some? {
        n := if c.quantity.value < 1 then 1 else if c.quantity.value > MAX_TOKENS then MAX_TOKENS else c.quantity.value;
      }
      var ids := TokenIds(tag, n);
      cards := WriteTokens(cards, c.player, ids, c.marks);
      var taken := AnyTaken(ids, loc);
      if taken {
        return None;
      }
      assert NoDup(ids);
      InsertMany(Place(c.player, Battlefield), ids, Append);
      assert loc.Keys == PlacesOf(loc).Keys;
      event := Some(TokensCreated(c.player));
    }

    /** `library.play_top_face_down`: a movement request for the top card. */
    method PlayTop(c: TableCommand, tag: nat) returns (event: Option<TableEvent>)
      requires Valid() && c.PlayTop?
      modifies this`zones, this`loc, this`cards, this`casts
      ensures Valid() && Executed(old(Abs()), c, tag, Abs(), event)
    {
      var library := At(zones, Place(c.player, Library));
      if c.player !in zones || library == [] {
        return None;
      }
      ghost var t := Abs();
      ExactIsIndexed(t, loc);
      var moved := MoveCards(PlayRequest(c, library[0]), tag);
      PlayTopExecuted(t, c, tag, Abs(), moved);
      event := Some(PlayedTop(c.player, moved.value.ids, moved.value.target, moved.value.position));
    }

    /** Every command of the table, by its applier. */
    method Execute(c: TableCommand, tag: nat) returns (event: Option<TableEvent>)
      requires Valid()
      modifies this`zones, this`loc, this`cards, this`casts
      ensures Exact(zones, loc) && Executed(old(Abs()), c, tag, Abs(), event)
      ensures event.Some? ==> Valid()
    {
      match c
      case MoveCards(_, _, _, _, _, _, _) => event := MoveCards(c, tag);
      case MoveAll(_, _, _, _, _) => event := MoveAll(c, tag);
      case Draw(_, _) => event := Draw(c, tag);
      case MoveTop(_, _, _, _, _) => event := MoveTop(c, tag);
      case Put(_, _, _) => event := PutCard(c, tag);
      case CreateTokens(_, _, _) => event := CreateTokens(c, tag);
      case PlayTop(_, _, _) => event := PlayTop(c, tag);
    }
  }
}
