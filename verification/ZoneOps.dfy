/**
  The slot operations behind the card table: index renumbering, grouping, journeys, and why
  each of them does to zones and index what the table's specification says.
 */
module ZoneOps {
  import opened Common
  import opened Table
  import opened Slots
  import opened Movement
  import opened ZoneIndex
  import opened TableReject
  import opened MoveBatches

  datatype Move = Move(card: CardId, from: Place, to: Place)

  /** Cards that leave one slot together. */
  datatype Removal = Removal(place: Place, ids: seq<CardId>)

  /** Cards appended to a list that already had `start` of them. */
  method IndexFrom(loc: Index, q: Place, start: nat, ids: seq<CardId>) returns (r: Index)
    requires NoDup(ids)
    ensures r.Keys == loc.Keys + SetOf(ids)
    ensures forall i | 0 <= i < |ids| :: r[ids[i]] == Slot(q, start + i)
    ensures forall c | c in loc && c !in ids :: r[c] == loc[c]
  {
    r := loc;
    for i := 0 to |ids|
      invariant r.Keys == loc.Keys + SetOf(ids[..i])
      invariant forall j | 0 <= j < i :: ids[j] in r && r[ids[j]] == Slot(q, start + j)
      invariant forall c | c in loc && c !in ids[..i] :: r[c] == loc[c]
    {
      r := r[ids[i] := Slot(q, start + i)];
      assert ids[..i + 1] == ids[..i] + [ids[i]];
    }
    assert ids[..|ids|] == ids;
  }

  function Shifted(zones: map<PlayerId, PlayerZones>, from: Place, n: nat, q: Place): map<PlayerId, PlayerZones>
    requires n <= |At(zones, from)|
  {
    var rest := SetAt(zones, from, At(zones, from)[n..]);
    SetAt(rest, q, At(rest, q) + At(zones, from)[..n])
  }

  lemma ShiftedIsMoveTop(t: Table, p: PlayerId, n: nat, q: Place)
    requires n <= |LibraryOf(t, p)|
    ensures MoveTopTo(t, p, n, q).zones == Shifted(t.zones, Place(p, Library), n, q)
    ensures MoveTopTo(t, p, n, q).loc == Entered(t.loc, LibraryOf(t, p)[..n], q)
  {}

  method InsertIndex(slot: seq<CardId>, z: Zone, position: Position) returns (at: nat)
    ensures at == if GoesInFront(z, position) then 0 else |slot|
  {
    at := |slot|;
    match position {
      case Top => if z == Library { at := 0; }
      case Bottom => if z != Library { at := 0; }
      case Append =>
    }
  }

  lemma InsertedIsPlaced(slot: seq<CardId>, ids: seq<CardId>, z: Zone, position: Position)
    ensures var at := if GoesInFront(z, position) then 0 else |slot|;
      var ordered := if z == Library && position == Top then Reverse(ids) else ids;
      slot[..at] + ordered + slot[at..] == Placed(slot, ids, z, position)
  {
    assert slot[..0] == [] && slot[0..] == slot && slot[..|slot|] == slot && slot[|slot|..] == [];
  }

  method WriteTokens(cards: map<CardId, Card>, p: PlayerId, ids: seq<CardId>, marks: int) returns (r: map<CardId, Card>)
    ensures r == WithTokens(cards, p, ids, marks)
  {
    r := cards;
    for i := 0 to |ids|
      invariant r == WithTokens(cards, p, ids[..i], marks)
    {
      r := r[ids[i] := Card(Some(p), Some(p), true, false, marks)];
      assert ids[..i + 1] == ids[..i] + [ids[i]];
    }
    assert ids[..|ids|] == ids;
  }

  method AnyTaken(ids: seq<CardId>, loc: Index) returns (taken: bool)
    ensures taken <==> exists c :: c in ids && c in loc
  {
    for i := 0 to |ids|
      invariant forall j | 0 <= j < i :: ids[j] !in loc
    {
      if ids[i] in loc {
        assert ids[i] in ids;
        return true;
      }
    }
    return false;
  }

  lemma TopKeys(zones: map<PlayerId, PlayerZones>, loc: Index, q: Place, n: nat)
    requires Exact(zones, loc) && n <= |At(zones, q)|
    ensures forall c | c in At(zones, q)[..n] :: c in loc && loc[c].place == q
    ensures NoDup(At(zones, q)[..n]) && NoDup(At(zones, q)[n..])
    ensures forall c | c in At(zones, q)[..n] :: c !in At(zones, q)[n..]
    ensures forall c :: c in At(zones, q) <==> c in At(zones, q)[..n] || c in At(zones, q)[n..]
  {
    SlotCards(zones, loc, q);
    var s := At(zones, q);
    assert s == s[..n] + s[n..];
    forall c | c in s[..n] ensures c !in s[n..] {
      var i :| 0 <= i < n && s[i] == c;
      forall j | 0 <= j < |s| - n ensures s[n..][j] != c { assert s[n + j] != s[i]; }
    }
  }

  lemma ShiftedTop(zones: map<PlayerId, PlayerZones>, loc: Index, from: Place, n: nat, q: Place, index: Index)
    requires Exact(zones, loc) && n <= |At(zones, from)| && q != from
    requires var top := At(zones, from)[..n]; var rest := At(zones, from)[n..]; var start := |At(zones, q)|;
      && index.Keys == loc.Keys + SetOf(rest) + SetOf(top)
      && (forall i | 0 <= i < |rest| :: index[rest[i]] == Slot(from, i))
      && (forall i | 0 <= i < n :: index[top[i]] == Slot(q, start + i))
      && (forall c | c in loc && c !in top && c !in rest :: index[c] == loc[c])
    ensures Exact(Shifted(zones, from, n, q), index)
    ensures PlacesOf(index) == Entered(PlacesOf(loc), At(zones, from)[..n], q)
  {
    var top, rest := At(zones, from)[..n], At(zones, from)[n..];
    TopKeys(zones, loc, from, n);
    var zones' := SetAt(zones, from, rest);
    var between := index - SetOf(top);
    SlotCards(zones, loc, from);
    assert forall c | c in rest :: c in loc && c !in top;
    assert between.Keys == loc.Keys - SetOf(top);
    Members(rest);
    ShiftedOut(zones, loc, from, n, between);
    AtSetAt(zones, from, rest, q);
    ShiftedIn(zones', between, q, top, index);
    ShiftedPlaces(zones, loc, from, n, q, index);
  }

  lemma ShiftedOut(zones: map<PlayerId, PlayerZones>, loc: Index, from: Place, n: nat, between: Index)
    requires Exact(zones, loc) && n <= |At(zones, from)|
    requires var top := At(zones, from)[..n]; var rest := At(zones, from)[n..];
      && between.Keys == loc.Keys - SetOf(top)
      && (forall i | 0 <= i < |rest| :: rest[i] in between && between[rest[i]] == Slot(from, i))
      && (forall c | c in loc && c !in top && c !in rest :: between[c] == loc[c])
    ensures Exact(SetAt(zones, from, At(zones, from)[n..]), between)
  {
    TopKeys(zones, loc, from, n);
    Members(At(zones, from)[n..]);
    SlotRewritten(zones, loc, from, At(zones, from)[n..], between);
  }

  lemma ShiftedIn(zones: map<PlayerId, PlayerZones>, between: Index, q: Place, top: seq<CardId>, index: Index)
    requires Exact(zones, between) && forall c | c in top :: c !in between
    requires index.Keys == between.Keys + SetOf(top)
    requires forall i | 0 <= i < |top| :: index[top[i]] == Slot(q, |At(zones, q)| + i)
    requires forall c | c in between :: index[c] == between[c]
    ensures Exact(SetAt(zones, q, At(zones, q) + top), index)
  {
    var slot := At(zones, q);
    var next := slot + top;
    Open(zones, between);
    Members(slot);
    Members(top);
    forall i | 0 <= i < |next| ensures next[i] in index && index[next[i]] == Slot(q, i) {
      if i >= |slot| { assert next[i] == top[i - |slot|]; }
    }
    SlotRewritten(zones, between, q, next, index);
  }

  lemma ShiftedPlaces(zones: map<PlayerId, PlayerZones>, loc: Index, from: Place, n: nat, q: Place, index: Index)
    requires Exact(zones, loc) && n <= |At(zones, from)|
    requires var top := At(zones, from)[..n]; var rest := At(zones, from)[n..]; var start := |At(zones, q)|;
      && index.Keys == loc.Keys + SetOf(rest) + SetOf(top)
      && (forall i | 0 <= i < |rest| :: index[rest[i]] == Slot(from, i))
      && (forall i | 0 <= i < n :: index[top[i]] == Slot(q, start + i))
      && (forall c | c in loc && c !in top && c !in rest :: index[c] == loc[c])
    ensures PlacesOf(index) == Entered(PlacesOf(loc), At(zones, from)[..n], q)
  {
    var top, rest := At(zones, from)[..n], At(zones, from)[n..];
    TopKeys(zones, loc, from, n);
    SlotCards(zones, loc, from);
    forall c | c in rest ensures c in loc && loc[c].place == from && index[c].place == from {
      var i :| 0 <= i < |rest| && rest[i] == c;
    }
    forall c | c in top ensures index[c].place == q {
      var i :| 0 <= i < n && top[i] == c;
    }
  }

  lemma TurnedLibrary(zones: map<PlayerId, PlayerZones>, loc: Index, q: Place, n: nat)
    requires Exact(zones, loc) && n <= |At(zones, q)|
    ensures NoDup(At(zones, q)[n..] + At(zones, q)[..n])
  {
    TopKeys(zones, loc, q, n);
    NoDupConcat(At(zones, q)[n..], At(zones, q)[..n]);
  }

  lemma TurnedIndex(zones: map<PlayerId, PlayerZones>, loc: Index, q: Place, n: nat, index: Index)
    requires Exact(zones, loc) && n <= |At(zones, q)|
    requires var turned := At(zones, q)[n..] + At(zones, q)[..n];
      && index.Keys == loc.Keys + SetOf(turned)
      && (forall i | 0 <= i < |turned| :: index[turned[i]] == Slot(q, i))
      && (forall c | c in loc && c !in turned :: index[c] == loc[c])
    ensures Exact(SetAt(zones, q, At(zones, q)[n..] + At(zones, q)[..n]), index)
    ensures PlacesOf(index) == PlacesOf(loc) && index.Keys == loc.Keys
  {
    var turned := At(zones, q)[n..] + At(zones, q)[..n];
    TopKeys(zones, loc, q, n);
    SlotCards(zones, loc, q);
    SlotPermuted(zones, loc, q, turned, index);
  }

  lemma SlotPermuted(zones: map<PlayerId, PlayerZones>, loc: Index, q: Place, next: seq<CardId>, index: Index)
    requires Exact(zones, loc)
    requires forall c | c in At(zones, q) :: c in loc && loc[c].place == q
    requires forall c :: c in next <==> c in At(zones, q)
    requires index.Keys == loc.Keys + SetOf(next)
    requires forall i | 0 <= i < |next| :: index[next[i]] == Slot(q, i)
    requires forall c | c in loc && c !in next :: index[c] == loc[c]
    ensures Exact(SetAt(zones, q, next), index)
    ensures PlacesOf(index) == PlacesOf(loc) && index.Keys == loc.Keys
  {
    Members(next);
    SlotRewritten(zones, loc, q, next, index);
    forall c | c in next ensures index[c].place == q {
      var i :| 0 <= i < |next| && next[i] == c;
    }
  }

  function WithTokens(cards: map<CardId, Card>, p: PlayerId, ids: seq<CardId>, marks: int): map<CardId, Card> {
    map c | c in cards.Keys + SetOf(ids) :: if c in ids then Card(Some(p), Some(p), true, false, marks) else cards[c]
  }

  lemma OneTaken(zones: map<PlayerId, PlayerZones>, loc: Index, c: CardId)
    requires Exact(zones, loc) && c in loc
    ensures Cleared(zones, loc[c].place, [c]) == Take(zones, {c})
  {
    TakenNone(zones);
    TakenOne(zones, loc, {}, zones, c);
    TakenIs(zones, {} + {c}, Cleared(zones, loc[c].place, [c]));
    assert {} + {c} == {c};
  }

  lemma BackAgain(from: map<CardId, Place>, c: CardId, q: Place, loc: Index)
    requires c in from && PlacesOf(loc) == Entered(Departed(from, [c]), [c], q)
    ensures PlacesOf(loc) == from[c := q] && loc.Keys == from.Keys
  {
    assert loc.Keys == PlacesOf(loc).Keys;
  }

  lemma OneMore(zones: map<PlayerId, PlayerZones>, loc: Index, q: Place, c: CardId, next: seq<CardId>)
    requires Exact(zones, loc) && c !in loc
    requires next == [c] + At(zones, q) || next == At(zones, q) + [c]
    ensures NoDup(next) && forall x :: x in next <==> x in At(zones, q) || x in [c]
  {
    SlotCards(zones, loc, q);
    NoDupConcat([c], At(zones, q));
    NoDupConcat(At(zones, q), [c]);
  }

  /** A command did to the table what it should, or failed and left what the rollback undoes. */
  ghost predicate Executed(t: Table, c: TableCommand, tag: nat, r: Table, event: Option<TableEvent>) {
    match Apply(t, c, tag)
    case None => event == None && r == Leftover(t, c, tag)
    case Some(pair) => event == Some(pair.1) && r == pair.0
  }

  lemma MoveCardsExecuted(t: Table, c: TableCommand, tag: nat, r: Table)
    requires c.MoveCards? && PassesChecks(t, c) && CanMove(t, c.ids)
    requires r == MoveWithRules(t, c.ids, OrElse(c.target, c.player), c.to, c.position)
    ensures c.ids[0] in t.loc
    ensures Executed(t, c, tag, r, Some(Moved(c.player, t.loc[c.ids[0]].zone, c.ids, c.to,
      UniformTarget(t, c.ids, OrElse(c.target, c.player), c.to), c.position)))
  {
    assert c.ids[0] in c.ids;
  }

  lemma MoveCardsStopped(t: Table, c: TableCommand, tag: nat, r: Table)
    requires c.MoveCards? && !NoDup(c.ids)
    requires r == if PassesChecks(t, c) then HalfMoved(t, c.ids, Destinations(t, c.ids, OrElse(c.target, c.player), c.to), c.to, c.position) else t
    ensures Executed(t, c, tag, r, None)
  {}

  /** The movement request a top card played face down is rewritten to. */
  function PlayRequest(c: TableCommand, top: CardId): TableCommand
    requires c.PlayTop?
  {
    MoveCards(c.player, Some(Library), [top], Battlefield, c.target, c.position, Some(top))
  }

  lemma PlayTopExecuted(t: Table, c: TableCommand, tag: nat, r: Table, event: Option<TableEvent>)
    requires c.PlayTop? && Indexed(t) && t.loc.Keys == t.cards.Keys && c.player in t.zones && LibraryOf(t, c.player) != []
    requires Executed(t, PlayRequest(c, LibraryOf(t, c.player)[0]), tag, r, event)
    ensures event.Some? && event.value.Moved?
    ensures Executed(t, c, tag, r, Some(PlayedTop(c.player, event.value.ids, event.value.target, event.value.position)))
  {
    var top := LibraryOf(t, c.player)[0];
    var ids := [top];
    assert top in At(t.zones, Place(c.player, Library));
    assert ids == LibraryOf(t, c.player)[..1] && CanMove(t, ids);
  }

  lemma MoveAllExecuted(t: Table, c: TableCommand, tag: nat, r: Table)
    requires c.MoveAll? && CanMove(t, At(t.zones, Place(c.player, c.source)))
    requires r == MoveWithRules(t, At(t.zones, Place(c.player, c.source)), OrElse(c.target, c.player), c.to, c.position)
    ensures Executed(t, c, tag, r, Some(MovedAll(c.player, c.source, c.to,
      UniformTarget(t, At(t.zones, Place(c.player, c.source)), OrElse(c.target, c.player), c.to))))
  {}

  lemma SlotCards(zones: map<PlayerId, PlayerZones>, loc: Index, q: Place)
    requires Exact(zones, loc)
    ensures NoDup(At(zones, q)) && forall c | c in At(zones, q) :: c in loc && loc[c].place == q
  {
    HeldWhereIndexed(zones, loc);
    ExactNoDup(zones, loc, q);
  }

  /** The player every card went to, if there is one. */
  method Uniform(moves: seq<Move>) returns (target: Option<PlayerId>)
    ensures target == if moves != [] && forall m | m in moves :: m.to.player == moves[0].to.player then Some(moves[0].to.player) else None
  {
    if moves == [] {
      return None;
    }
    for i := 0 to |moves|
      invariant forall j | 0 <= j < i :: moves[j].to.player == moves[0].to.player
    {
      if moves[i].to.player != moves[0].to.player {
        assert moves[i] in moves;
        return None;
      }
    }
    return Some(moves[0].to.player);
  }

  lemma UniformIsTarget(moves: seq<Move>, t: Table, ids: seq<CardId>, requested: PlayerId, z: Zone)
    requires Travels(moves, t.loc, SetOf(ids), Destinations(t, ids, requested, z), z)
    requires forall c | c in ids :: c in t.cards
    ensures UniformTarget(t, ids, requested, z)
      == if moves != [] && forall m | m in moves :: m.to.player == moves[0].to.player then Some(moves[0].to.player) else None
  {
    TravelsRecorded(moves, t, ids, requested, z);
    if ids != [] {
      assert ids[0] in ids;
      var first := Move(ids[0], t.loc[ids[0]], Place(Destination(t, ids[0], requested, z), z));
      assert first in moves;
      assert moves[0] in moves;
    }
  }

  /** A movement changes neither owners nor token flags. */
  lemma LandedCards(t: Table, cards: map<CardId, Card>, ids: seq<CardId>, dest: map<CardId, PlayerId>, z: Zone, position: Position)
    requires NoDup(ids) && SetOf(ids) <= dest.Keys && cards == MoveGroups(t, ids, dest, z, position).cards
    ensures cards.Keys == t.cards.Keys
    ensures forall c | c in t.cards :: cards[c].owner == t.cards[c].owner && cards[c].token == t.cards[c].token
  {
    GroupsLand(t, ids, dest, z, position);
  }

  lemma TravelsRecorded(moves: seq<Move>, t: Table, ids: seq<CardId>, requested: PlayerId, z: Zone)
    requires Travels(moves, t.loc, SetOf(ids), Destinations(t, ids, requested, z), z)
    requires forall c | c in ids :: c in t.cards
    ensures Recorded(moves, t, ids, requested, z)
  {
    forall m | m in moves ensures m.card in ids && m.card in t.loc
      && m == Move(m.card, t.loc[m.card], Place(Destination(t, m.card, requested, z), z))
    {
      var i :| 0 <= i < |moves| && moves[i] == m;
    }
    forall c | c in ids ensures c in t.loc && Move(c, t.loc[c], Place(Destination(t, c, requested, z), z)) in moves {
      assert c in SetOf(ids);
      var i :| 0 <= i < |moves| && moves[i].card == c;
      assert moves[i] in moves;
    }
  }

  /** What the journeys of a movement are, card by card. */
  ghost predicate Recorded(moves: seq<Move>, t: Table, ids: seq<CardId>, requested: PlayerId, z: Zone) {
    && (forall m | m in moves :: m.card in ids && m.card in t.loc && m.card in t.cards
          && m == Move(m.card, t.loc[m.card], Place(Destination(t, m.card, requested, z), z)))
    && (forall c | c in ids :: c in t.loc && c in t.cards
          && Move(c, t.loc[c], Place(Destination(t, c, requested, z), z)) in moves)
  }

  lemma RecordedExits(moves: seq<Move>, t: Table, ids: seq<CardId>, requested: PlayerId, z: Zone)
    requires Recorded(moves, t, ids, requested, z)
    ensures forall c :: c in ExitCards(moves) <==> c in ids && Leaves(t, c, z)
  {
    forall c ensures c in ExitCards(moves) <==> c in ids && Leaves(t, c, z) {
      if c in ids && Leaves(t, c, z) {
        var m := Move(c, t.loc[c], Place(Destination(t, c, requested, z), z));
        assert m in moves && IsExit(m);
      }
    }
  }

  /** The tokens among the cards that leave a battlefield. */
  ghost predicate ExitingTokens(gone: seq<CardId>, moves: seq<Move>, cards: map<CardId, Card>) {
    forall c :: c in gone <==> exists m :: m in moves && IsExit(m) && m.card == c && c in cards && cards[c].token
  }

  lemma GoneTokens(t: Table, ids: seq<CardId>, requested: PlayerId, z: Zone, moves: seq<Move>, cards: map<CardId, Card>, gone: seq<CardId>)
    requires Recorded(moves, t, ids, requested, z)
    requires cards.Keys == t.cards.Keys && forall c | c in cards :: cards[c].token == t.cards[c].token
    requires ExitingTokens(gone, moves, cards)
    ensures SetOf(gone) == Evaporating(t, ids, z)
  {
    RecordedExits(moves, t, ids, requested, z);
    forall c ensures c in SetOf(gone) <==> c in Evaporating(t, ids, z) {
      assert c in ExitCards(moves) <==> exists m :: m in moves && IsExit(m) && m.card == c;
    }
  }

  lemma RecordedCasts(moves: seq<Move>, t: Table, ids: seq<CardId>, requested: PlayerId, z: Zone, cards: map<CardId, Card>, gone: seq<CardId>)
    requires Recorded(moves, t, ids, requested, z) && SetOf(gone) == Evaporating(t, ids, z)
    requires cards.Keys == t.cards.Keys - SetOf(gone) && forall c | c in cards :: cards[c].owner == t.cards[c].owner
    ensures CastCards(cards, moves, gone) == set c | c in ids && IsCast(t, c, z)
  {
    forall c ensures c in CastCards(cards, moves, gone) <==> c in ids && IsCast(t, c, z) {
      if c in ids && IsCast(t, c, z) {
        var m := Move(c, t.loc[c], Place(Destination(t, c, requested, z), z));
        assert m in moves && c !in SetOf(gone) && IsCastMove(cards[c], m);
      }
      if c in CastCards(cards, moves, gone) {
        var m :| m in moves && m.card == c && m.card !in gone && m.card in cards && IsCastMove(cards[m.card], m);
      }
    }
  }

  /** Reset, evaporation and casts, one after the other, are what a movement does after its batches. */
  lemma RulesApplied(t: Table, cards: map<CardId, Card>, casts: map<CardId, nat>, ids: seq<CardId>, requested: PlayerId, z: Zone,
                     moves: seq<Move>, gone: seq<CardId>)
    requires Recorded(moves, t, ids, requested, z) && SetOf(gone) == Evaporating(t, ids, z)
    requires cards.Keys == t.cards.Keys && forall c | c in t.cards :: cards[c].owner == t.cards[c].owner
    ensures var kept := AfterExits(cards, moves) - SetOf(gone);
      && Commanders(kept, CastCards(kept, moves, gone)) == RuledCards(t, cards, ids, z)
      && Counted(casts, CastCards(kept, moves, gone)) == CountedCasts(t, casts, ids, z)
  {
    var kept := AfterExits(cards, moves) - SetOf(gone);
    RecordedExits(moves, t, ids, requested, z);
    RecordedCasts(moves, t, ids, requested, z, kept, gone);
    var ruled := RuledCards(t, cards, ids, z);
    var r := Commanders(kept, CastCards(kept, moves, gone));
    assert r.Keys == ruled.Keys;
    forall c | c in r ensures r[c] == ruled[c] {
      assert c in CastCards(kept, moves, gone) ==> !Leaves(t, c, z);
    }
  }

  predicate IsExit(m: Move) {
    m.from.zone == Battlefield && m.to.zone != Battlefield
  }

  function ExitCards(moves: seq<Move>): set<CardId> {
    set m | m in moves && IsExit(m) :: m.card
  }

  function AfterExits(cards: map<CardId, Card>, moves: seq<Move>): map<CardId, Card> {
    map c | c in cards :: if c in ExitCards(moves) then Reset(cards[c]) else cards[c]
  }

  lemma ExitsMore(cards: map<CardId, Card>, moves: seq<Move>, m: Move)
    requires m.card in cards
    ensures AfterExits(cards, moves + [m]) ==
      var was := AfterExits(cards, moves); if IsExit(m) then was[m.card := Reset(was[m.card])] else was
  {
    assert forall x :: x in moves + [m] <==> x in moves || x == m;
    assert ExitCards(moves + [m]) == ExitCards(moves) + if IsExit(m) then {m.card} else {};
  }

  predicate IsCastMove(card: Card, m: Move) {
    m.from.zone == Command && m.to.zone == Battlefield && OrElse(card.owner, m.from.player) == m.from.player
  }

  function CastCards(cards: map<CardId, Card>, moves: seq<Move>, gone: seq<CardId>): set<CardId> {
    set m | m in moves && m.card !in gone && m.card in cards && IsCastMove(cards[m.card], m) :: m.card
  }

  function Commanders(cards: map<CardId, Card>, cast: set<CardId>): map<CardId, Card> {
    map c | c in cards :: if c in cast then cards[c].(commander := true) else cards[c]
  }

  function Counted(casts: map<CardId, nat>, cast: set<CardId>): map<CardId, nat> {
    map c | c in casts.Keys + cast :: (if c in casts then casts[c] else 0) + if c in cast then 1 else 0
  }

  lemma CastsMore(cards: map<CardId, Card>, casts: map<CardId, nat>, moves: seq<Move>, m: Move, gone: seq<CardId>)
    requires forall x | x in moves :: x.card != m.card
    requires m.card !in gone ==> m.card in cards
    ensures var done := CastCards(cards, moves, gone); var after := CastCards(cards, moves + [m], gone);
      var was := Commanders(cards, done); var counts := Counted(casts, done);
      if m.card !in gone && IsCastMove(was[m.card], m) then
        && Commanders(cards, after) == was[m.card := was[m.card].(commander := true)]
        && Counted(casts, after) == counts[m.card := (if m.card in counts then counts[m.card] else 0) + 1]
      else after == done
  {
    assert forall x :: x in moves + [m] <==> x in moves || x == m;
    var done := CastCards(cards, moves, gone);
    assert m.card !in done;
    if m.card !in gone && IsCastMove(cards[m.card], m) {
      assert CastCards(cards, moves + [m], gone) == done + {m.card};
      assert Counted(casts, done + {m.card}) ==
        Counted(casts, done)[m.card := (if m.card in Counted(casts, done) then Counted(casts, done)[m.card] else 0) + 1];
    } else {
      assert CastCards(cards, moves + [m], gone) == done;
    }
  }

  /** The state between two batches: `rest` is still to move, and moving it completes the whole;
      locked like `Exact`. */
  ghost predicate InTurn(t: Table, ids: seq<CardId>, now: Table, rest: seq<CardId>, dest: map<CardId, PlayerId>, z: Zone, position: Position)
  {
    forall key: Key {:trigger Looked(t, now, rest, key)} :: Looked(t, now, rest, key) ==> Remaining(t, ids, now, rest, dest, z, position)
  }

  predicate Looked(t: Table, now: Table, rest: seq<CardId>, key: Key) {
    true
  }

  ghost predicate Remaining(t: Table, ids: seq<CardId>, now: Table, rest: seq<CardId>, dest: map<CardId, PlayerId>, z: Zone, position: Position)
  {
    && SetOf(ids) <= dest.Keys && SetOf(rest) <= SetOf(ids)
    && (NoDup(ids) ==> NoDup(rest))
    && (forall c | c in rest :: c in now.loc && c in now.cards && c in t.loc && now.loc[c] == t.loc[c])
    && MoveGroups(now, rest, dest, z, position) == MoveGroups(t, ids, dest, z, position)
    && HalfMoved(now, rest, dest, z, position) == HalfMoved(t, ids, dest, z, position)
  }

  lemma FirstInTurn(t: Table, ids: seq<CardId>, dest: map<CardId, PlayerId>, z: Zone, position: Position)
    requires SetOf(ids) <= dest.Keys && forall c | c in ids :: c in t.loc && c in t.cards
    ensures InTurn(t, ids, t, ids, dest, z, position)
    ensures Travels([], t.loc, SetOf(ids) - SetOf(ids), dest, z)
  {}

  lemma NextInTurn(t: Table, ids: seq<CardId>, now: Table, rest: seq<CardId>, dest: map<CardId, PlayerId>, z: Zone, position: Position)
    requires InTurn(t, ids, now, rest, dest, z, position)
    requires SetOf(ids) <= dest.Keys && SetOf(rest) <= dest.Keys && Batches(rest, dest) != []
    ensures rest != [] && ids != [] && rest[0] in dest
    ensures var d := dest[rest[0]]; var g := Going(rest, dest, d); var staying := Staying(rest, dest, d);
      && g != [] && Batches(rest, dest)[0] == Batch(d, g)
      && SetOf(staying) <= dest.Keys && Batches(rest, dest)[1..] == Batches(staying, dest)
      && (NoDup(g) ==> InTurn(t, ids, MoveGroup(now, g, Place(d, z), position), staying, dest, z, position))
      && (NoDup(g) <==> CanMove(now, g))
      && (!NoDup(g) ==> !NoDup(ids))
      && (!NoDup(g) ==> HalfMoved(t, ids, dest, z, position) == now.(zones := now.zones[d := ZonesOf(now.zones, d)]))
  {
    assert Looked(t, now, rest, Key);
    assert rest[0] in SetOf(rest) && rest[0] in SetOf(ids);
    var d := dest[rest[0]];
    var g := Going(rest, dest, d);
    var staying := Staying(rest, dest, d);
    GoingMembers(rest, dest, d);
    StayingMembers(rest, dest, d);
    assert rest[0] in g;
    FirstBatch(rest, dest, d, g, staying);
  }

  lemma LastInTurn(t: Table, ids: seq<CardId>, now: Table, rest: seq<CardId>, dest: map<CardId, PlayerId>, z: Zone, position: Position)
    requires InTurn(t, ids, now, rest, dest, z, position)
    requires SetOf(ids) <= dest.Keys && SetOf(rest) <= dest.Keys && Batches(rest, dest) == []
    requires forall k | 0 <= k < |Batches(ids, dest)| :: NoDup(Batches(ids, dest)[k].ids)
    ensures rest == [] && NoDup(ids) && now == MoveGroups(t, ids, dest, z, position)
  {
    assert Looked(t, now, rest, Key);
    DistinctBatches(ids, dest);
  }

  /** One journey for each card that has arrived. */
  ghost predicate Travels(moves: seq<Move>, from: map<CardId, Place>, arrived: set<CardId>, dest: map<CardId, PlayerId>, z: Zone) {
    && (forall i | 0 <= i < |moves| :: moves[i].card in arrived && moves[i].card in from && moves[i].card in dest
          && moves[i] == Move(moves[i].card, from[moves[i].card], Place(dest[moves[i].card], z)))
    && (forall c | c in arrived :: exists i :: 0 <= i < |moves| && moves[i].card == c)
    && (forall i, j | 0 <= i < j < |moves| :: moves[i].card != moves[j].card)
  }

  lemma TravelsMore(moves: seq<Move>, more: seq<Move>, t: Table, ids: seq<CardId>, now: Table, rest: seq<CardId>,
                    dest: map<CardId, PlayerId>, z: Zone, position: Position)
    requires InTurn(t, ids, now, rest, dest, z, position) && rest != [] && rest[0] in dest
    requires Travels(moves, t.loc, SetOf(ids) - SetOf(rest), dest, z)
    requires var g := Going(rest, dest, dest[rest[0]]);
      NoDup(g) && (forall c | c in g :: c in now.loc) && more == Journeys(g, now.loc, Place(dest[rest[0]], z))
    ensures Travels(moves + more, t.loc, SetOf(ids) - SetOf(Staying(rest, dest, dest[rest[0]])), dest, z)
  {
    var d := dest[rest[0]];
    var g := Going(rest, dest, d);
    GoingMembers(rest, dest, d);
    StayingMembers(rest, dest, d);
    assert Looked(t, now, rest, Key);
    JoinTravels(moves, more, t.loc, SetOf(ids) - SetOf(rest), g, now.loc, d, dest, z);
    assert SetOf(ids) - SetOf(rest) + SetOf(g) == SetOf(ids) - SetOf(Staying(rest, dest, d));
  }

  lemma JoinTravels(moves: seq<Move>, more: seq<Move>, from: map<CardId, Place>, arrived: set<CardId>, g: seq<CardId>,
                    at: map<CardId, Place>, d: PlayerId, dest: map<CardId, PlayerId>, z: Zone)
    requires Travels(moves, from, arrived, dest, z)
    requires forall c | c in g :: c in at && c in from && at[c] == from[c] && c in dest && dest[c] == d && c !in arrived
    requires NoDup(g) && more == Journeys(g, at, Place(d, z))
    ensures Travels(moves + more, from, arrived + SetOf(g), dest, z)
  {
    var all := moves + more;
    forall c | c in arrived + SetOf(g) ensures exists i :: 0 <= i < |all| && all[i].card == c {
      if c in g {
        var i :| 0 <= i < |g| && g[i] == c;
        assert all[|moves| + i].card == c;
      } else {
        var i :| 0 <= i < |moves| && moves[i].card == c;
        assert all[i].card == c;
      }
    }
    forall i, j | 0 <= i < j < |all| ensures all[i].card != all[j].card {
      assert i >= |moves| ==> all[i].card == g[i - |moves|];
      assert j >= |moves| ==> all[j].card == g[j - |moves|] && g[j - |moves|] in g;
    }
  }

  lemma NextBatch(ids: seq<CardId>, dest: map<CardId, PlayerId>, i: nat)
    requires i < |ids| && SetOf(ids) <= dest.Keys
    ensures ids[i] in dest && SetOf(ids[..i]) <= dest.Keys && SetOf(ids[..i + 1]) <= dest.Keys
    ensures Batches(ids[..i + 1], dest) == AddTo(Batches(ids[..i], dest), dest[ids[i]], ids[i])
  {
    assert ids[i] in SetOf(ids);
    assert forall c | c in ids[..i] :: c in SetOf(ids);
    BatchesMore(ids[..i], dest, ids[i]);
    assert ids[..i + 1] == ids[..i] + [ids[i]];
  }

  method AddCard(batches: seq<Batch>, byPlayer: map<PlayerId, nat>, d: PlayerId, c: CardId)
    returns (more: seq<Batch>, numbers: map<PlayerId, nat>)
    requires Numbered(batches, byPlayer)
    ensures more == AddTo(batches, d, c) && Numbered(more, numbers)
  {
    if d in byPlayer {
      var k := byPlayer[d];
      AddToAt(batches, d, c, k);
      more, numbers := batches[k := Batch(d, batches[k].ids + [c])], byPlayer;
    } else {
      AddToNone(batches, d, c);
      more, numbers := batches + [Batch(d, [c])], byPlayer[d := |batches|];
    }
  }

  ghost predicate Numbered(batches: seq<Batch>, byPlayer: map<PlayerId, nat>) {
    && (forall k | 0 <= k < |batches| :: batches[k].player in byPlayer && byPlayer[batches[k].player] == k)
    && (forall d | d in byPlayer :: byPlayer[d] < |batches| && batches[byPlayer[d]].player == d)
  }

  lemma NextGone(loc: Index, from: map<CardId, Place>, gone: seq<CardId>, k: nat)
    requires NoDup(gone) && k < |gone| && gone[k] in from && PlacesOf(loc) == from - SetOf(gone[..k])
    ensures gone[k] in loc && loc[gone[k]].place == from[gone[k]]
    ensures SetOf(gone[..k + 1]) == SetOf(gone[..k]) + {gone[k]}
    ensures Departed(from - SetOf(gone[..k]), [gone[k]]) == from - (SetOf(gone[..k]) + {gone[k]})
  {
    assert gone[..k + 1] == gone[..k] + [gone[k]];
    assert gone[k] in from - SetOf(gone[..k]);
  }

  lemma TakenIs(first: map<PlayerId, PlayerZones>, gone: set<CardId>, zones: map<PlayerId, PlayerZones>)
    requires Taken(first, gone, zones)
    ensures zones == Take(first, gone)
  {
    assert Told(first, gone, zones, Key);
  }

  predicate Told(first: map<PlayerId, PlayerZones>, gone: set<CardId>, zones: map<PlayerId, PlayerZones>, key: Key) {
    true
  }

  /** The zones without the cards `gone`; locked like `Exact`. */
  ghost predicate Taken(first: map<PlayerId, PlayerZones>, gone: set<CardId>, zones: map<PlayerId, PlayerZones>) {
    forall key: Key {:trigger Told(first, gone, zones, key)} :: Told(first, gone, zones, key) ==> zones == Take(first, gone)
  }

  lemma TakenNone(zones: map<PlayerId, PlayerZones>)
    ensures Taken(zones, {}, zones)
  {
    TakeNothing(zones);
  }

  lemma TakenOne(first: map<PlayerId, PlayerZones>, loc: Index, gone: set<CardId>, zones: map<PlayerId, PlayerZones>, c: CardId)
    requires Exact(first, loc) && Taken(first, gone, zones) && c in loc
    ensures Taken(first, gone + {c}, Cleared(zones, loc[c].place, [c]))
  {
    assert Told(first, gone, zones, Key);
    assert SetOf([c]) == {c};
    TakeSlot(first, loc, gone, loc[c].place, [c]);
  }
  /** The card is where the index says, once. */
  lemma SlotOf(zones: map<PlayerId, PlayerZones>, loc: Index, c: CardId)
    requires Exact(zones, loc) && c in loc
    ensures var slot := At(zones, loc[c].place); var i := loc[c].index;
      && i < |slot| && slot[i] == c && NoDup(slot)
      && slot[..i] + slot[i + 1..] == Without(slot, SetOf([c]))
  {
    Open(zones, loc);
    ExactNoDup(zones, loc, loc[c].place);
    WithoutAt(At(zones, loc[c].place), loc[c].index);
  }

  lemma {:induction false} WithoutAt(slot: seq<CardId>, i: nat)
    requires i < |slot| && NoDup(slot)
    ensures slot[..i] + slot[i + 1..] == Without(slot, SetOf([slot[i]]))
  {
    var n := |slot| - 1;
    if i == n {
      assert forall j | 0 <= j < n :: slot[..n][j] != slot[n];
      WithoutNone(slot[..n], SetOf([slot[n]]));
    } else {
      WithoutAt(slot[..n], i);
      assert slot[..n][..i] == slot[..i];
      assert slot[i + 1..] == slot[..n][i + 1..] + [slot[n]];
    }
  }

  /** The cards of the first `k` slots. */
  ghost function Emptied(groups: seq<Removal>, k: nat): set<CardId>
    requires k <= |groups|
  {
    if k == 0 then {} else Emptied(groups, k - 1) + SetOf(groups[k - 1].ids)
  }

  ghost predicate Apart(from: map<CardId, Place>, groups: seq<Removal>, k: nat)
    requires k < |groups|
  {
    groups[k].ids != []
    && forall c | c in groups[k].ids :: c in from && from[c] == groups[k].place && c !in Emptied(groups, k)
  }

  lemma GroupsApart(ids: seq<CardId>, from: map<CardId, Place>, groups: seq<Removal>)
    requires Grouped(ids, from, groups) && forall c | c in ids :: c in from
    ensures forall k | 0 <= k < |groups| :: Apart(from, groups, k)
    ensures Emptied(groups, |groups|) == SetOf(ids)
  {
    forall k | 0 <= k < |groups| ensures Apart(from, groups, k) {
      GroupMembers(ids, from, groups, k);
      forall c | c in groups[k].ids ensures c !in Emptied(groups, k) { EmptiedMembers(ids, from, groups, k, c); }
    }
    forall c ensures c in Emptied(groups, |groups|) <==> c in ids {
      EmptiedMembers(ids, from, groups, |groups|, c);
    }
  }

  lemma {:induction false} EmptiedMembers(ids: seq<CardId>, from: map<CardId, Place>, groups: seq<Removal>, k: nat, c: CardId)
    requires Grouped(ids, from, groups) && k <= |groups|
    ensures c in Emptied(groups, k) <==> c in ids && c in from && exists j :: 0 <= j < k && groups[j].place == from[c]
  {
    if k > 0 {
      EmptiedMembers(ids, from, groups, k - 1, c);
      GroupMembers(ids, from, groups, k - 1);
    }
  }

  // ---------------------------------------------------------------- movement

  function Journeys(ids: seq<CardId>, from: map<CardId, Place>, q: Place): seq<Move>
    requires forall c | c in ids :: c in from
  {
    seq(|ids|, i requires 0 <= i < |ids| => Move(ids[i], from[ids[i]], q))
  }

  /** The checks before anything moves. */
  method Movable(ids: seq<CardId>, loc: Index) returns (ok: bool)
    ensures ok <==> NoDup(ids) && forall c | c in ids :: c in loc
  {
    var seen: set<CardId> := {};
    for i := 0 to |ids|
      invariant seen == SetOf(ids[..i])
      invariant NoDup(ids[..i]) && forall c | c in ids[..i] :: c in loc
    {
      assert ids[i] in ids;
      if ids[i] in seen {
        var j :| 0 <= j < i && ids[j] == ids[i];
        return false;
      }
      if ids[i] !in loc {
        return false;
      }
      seen := seen + {ids[i]};
      assert ids[..i + 1] == ids[..i] + [ids[i]];
    }
    assert ids[..|ids|] == ids;
    return true;
  }

  /** Each place once, in order of first appearance, with its cards in request order. */
  ghost predicate Grouped(ids: seq<CardId>, from: map<CardId, Place>, groups: seq<Removal>) {
    && (forall j, k :: 0 <= j < k < |groups| ==> groups[j].place != groups[k].place)
    && (forall k | 0 <= k < |groups| :: groups[k].ids != [] && groups[k].ids == FromPlace(ids, from, groups[k].place))
    && (forall c | c in ids && c in from :: Has(groups, from[c]))
  }

  ghost predicate Has(groups: seq<Removal>, q: Place) {
    exists k :: 0 <= k < |groups| && groups[k].place == q
  }

  function FromPlace(ids: seq<CardId>, from: map<CardId, Place>, q: Place): seq<CardId> {
    Without(ids, set c | c in ids && (c !in from || from[c] != q))
  }

  lemma FromPlaceMore(ids: seq<CardId>, from: map<CardId, Place>, c: CardId, q: Place)
    ensures FromPlace(ids + [c], from, q) == FromPlace(ids, from, q) + if c in from && from[c] == q then [c] else []
  {
    var all := ids + [c];
    var others := set x | x in all && (x !in from || from[x] != q);
    assert all[..|all| - 1] == ids;
    WithoutSame(ids, others, set x | x in ids && (x !in from || from[x] != q));
  }

  lemma GroupGrows(ids: seq<CardId>, from: map<CardId, Place>, groups: seq<Removal>, c: CardId, k: nat)
    requires Grouped(ids, from, groups) && c in from && k < |groups| && groups[k].place == from[c]
    ensures Grouped(ids + [c], from, groups[k := groups[k].(ids := groups[k].ids + [c])])
  {
    var more := groups[k := groups[k].(ids := groups[k].ids + [c])];
    forall j | 0 <= j < |groups| { FromPlaceMore(ids, from, c, groups[j].place); }
    forall q | Has(groups, q) ensures Has(more, q) {
      var j :| 0 <= j < |groups| && groups[j].place == q;
      assert more[j].place == q;
    }
  }

  lemma GroupStarts(ids: seq<CardId>, from: map<CardId, Place>, groups: seq<Removal>, c: CardId)
    requires Grouped(ids, from, groups) && c in from && forall k | 0 <= k < |groups| :: groups[k].place != from[c]
    ensures Grouped(ids + [c], from, groups + [Removal(from[c], [c])])
  {
    var more := groups + [Removal(from[c], [c])];
    forall j | 0 <= j < |groups| { FromPlaceMore(ids, from, c, groups[j].place); }
    FromPlaceMore(ids, from, c, from[c]);
    assert forall x | x in ids && x in from :: from[x] != from[c];
    NotSeen(ids, from, from[c]);
    forall q | Has(groups, q) || q == from[c] ensures Has(more, q) {
      if Has(groups, q) {
        var j :| 0 <= j < |groups| && groups[j].place == q;
        assert more[j].place == q;
      } else {
        assert more[|groups|].place == q;
      }
    }
  }

  method RemovalGroups(ids: seq<CardId>, from: map<CardId, Place>) returns (groups: seq<Removal>)
    requires forall c | c in ids :: c in from
    ensures Grouped(ids, from, groups)
  {
    groups := [];
    var byPlace: map<Place, nat> := map[];
    for i := 0 to |ids|
      invariant Grouped(ids[..i], from, groups)
      invariant forall k | 0 <= k < |groups| :: groups[k].place in byPlace
      invariant forall q | q in byPlace :: byPlace[q] < |groups| && groups[byPlace[q]].place == q
    {
      var c := ids[i];
      var q := from[c];
      assert ids[..i + 1] == ids[..i] + [c];
      if q in byPlace {
        var k := byPlace[q];
        GroupGrows(ids[..i], from, groups, c, k);
        groups := groups[k := groups[k].(ids := groups[k].ids + [c])];
      } else {
        GroupStarts(ids[..i], from, groups, c);
        byPlace := byPlace[q := |groups|];
        groups := groups + [Removal(q, [c])];
      }
    }
    assert ids[..|ids|] == ids;
  }

  lemma NotSeen(ids: seq<CardId>, from: map<CardId, Place>, q: Place)
    requires forall c | c in ids && c in from :: from[c] != q
    ensures FromPlace(ids, from, q) == []
  {
    WithoutAll(ids, set c | c in ids && (c !in from || from[c] != q));
  }

  lemma GroupMembers(ids: seq<CardId>, from: map<CardId, Place>, groups: seq<Removal>, k: nat)
    requires k < |groups| && Grouped(ids, from, groups)
    ensures forall c :: c in groups[k].ids <==> c in ids && c in from && from[c] == groups[k].place
  {
    WithoutMembers(ids, set c | c in ids && (c !in from || from[c] != groups[k].place));
  }

  lemma TakeNothing(zones: map<PlayerId, PlayerZones>)
    ensures Take(zones, {}) == zones
  {
    forall q: Place ensures At(Take(zones, {}), q) == At(zones, q) {
      AtTake(zones, {}, q);
      WithoutNone(At(zones, q), {});
    }
    SameSlots(Take(zones, {}), zones);
  }

  lemma NowAbsent(loc: Index, from: map<CardId, Place>, ids: seq<CardId>)
    requires PlacesOf(loc) == Departed(from, ids)
    ensures forall c | c in ids :: c !in loc
  {
    forall c | c in ids ensures c !in loc {
      assert c !in Departed(from, ids);
      assert c in loc ==> c in PlacesOf(loc);
    }
  }

  lemma ThereAgain(from: map<CardId, Place>, ids: seq<CardId>, q: Place)
    ensures Entered(Departed(from, ids), ids, q) == Entered(from, ids, q)
  {}

  lemma StillThere(loc: Index, from: map<CardId, Place>, groups: seq<Removal>, k: nat)
    requires k < |groups| && Apart(from, groups, k)
    requires PlacesOf(loc) == from - Emptied(groups, k)
    ensures forall c | c in groups[k].ids :: c in loc && loc[c].place == groups[k].place
    ensures Departed(from - Emptied(groups, k), groups[k].ids) == from - Emptied(groups, k + 1)
  {
    forall c | c in groups[k].ids ensures c in loc && loc[c].place == groups[k].place {
      assert c in from - Emptied(groups, k);
    }
  }

  lemma TakenGroup(first: map<PlayerId, PlayerZones>, loc: Index, from: map<CardId, Place>, groups: seq<Removal>, k: nat,
                   zones: map<PlayerId, PlayerZones>)
    requires Exact(first, loc) && from == PlacesOf(loc) && k < |groups| && Apart(from, groups, k)
    requires Taken(first, Emptied(groups, k), zones)
    ensures Taken(first, Emptied(groups, k + 1), Cleared(zones, groups[k].place, groups[k].ids))
  {
    TakenIs(first, Emptied(groups, k), zones);
    TakeSlot(first, loc, Emptied(groups, k), groups[k].place, groups[k].ids);
  }

  /** Emptying one slot of the cards it holds is taking them from everywhere. */
  lemma TakeSlot(zones: map<PlayerId, PlayerZones>, loc: Index, gone: set<CardId>, q: Place, ids: seq<CardId>)
    requires Exact(zones, loc) && ids != [] && forall c | c in ids :: c in PlacesOf(loc) && PlacesOf(loc)[c] == q
    ensures SetAt(Take(zones, gone), q, Without(At(Take(zones, gone), q), SetOf(ids))) == Take(zones, gone + SetOf(ids))
  {
    var one := SetAt(Take(zones, gone), q, Without(At(Take(zones, gone), q), SetOf(ids)));
    var all := Take(zones, gone + SetOf(ids));
    HeldWhereIndexed(zones, loc);
    assert ids[0] in ids && ids[0] in At(zones, q);
    forall r: Place ensures At(one, r) == At(all, r) {
      AtSetAt(Take(zones, gone), q, Without(At(Take(zones, gone), q), SetOf(ids)), r);
      AtTake(zones, gone, r);
      AtTake(zones, gone + SetOf(ids), r);
      if r == q {
        WithoutTwice(At(zones, q), gone, SetOf(ids));
      } else {
        WithoutSame(At(zones, r), gone, gone + SetOf(ids));
      }
    }
    SameSlots(one, all);
  }

  /** Making sure a player has zones changes no slot. */
  lemma AddedEntry(zones: map<PlayerId, PlayerZones>, loc: Index, p: PlayerId)
    requires Exact(zones, loc)
    ensures Exact(zones[p := ZonesOf(zones, p)], loc)
  {
    var more := zones[p := ZonesOf(zones, p)];
    Open(zones, loc);
    forall q: Place ensures At(more, q) == At(zones, q) {}
    forall q: Place, i | 0 <= i < |At(more, q)| ensures At(more, q)[i] in loc && loc[At(more, q)[i]] == Slot(q, i) {
      assert At(more, q) == At(zones, q);
    }
    assert Mutual(more, loc);
  }

  /** Emptying every slot involved, then filling one, is one batch. */
  lemma IsMoveGroup(t: Table, r: Table, ids: seq<CardId>, q: Place, position: Position)
    requires r.players == t.players && r.casts == t.casts
    requires var taken := Take(t.zones[q.player := ZonesOf(t.zones, q.player)], SetOf(ids));
      r.zones == SetAt(taken, q, Placed(At(taken, q), ids, q.zone, position))
    requires r.loc == Entered(t.loc, ids, q)
    requires r.cards == map c | c in t.cards :: if c in ids && (q.zone == Battlefield || q.zone == Hand) then t.cards[c].(controller := Some(q.player)) else t.cards[c]
    ensures r == MoveGroup(t, ids, q, position)
  {
    MovedSlots(t.zones, ids, q, position);
  }

  lemma MovedSlots(zones: map<PlayerId, PlayerZones>, ids: seq<CardId>, q: Place, position: Position)
    ensures var added := Take(zones[q.player := ZonesOf(zones, q.player)], SetOf(ids)); var taken := Take(zones, SetOf(ids));
      SetAt(added, q, Placed(At(added, q), ids, q.zone, position)) == SetAt(taken, q, Placed(At(taken, q), ids, q.zone, position))
  {
    var entry := zones[q.player := ZonesOf(zones, q.player)];
    var added := Take(entry, SetOf(ids));
    var taken := Take(zones, SetOf(ids));
    forall r: Place ensures At(added, r) == At(taken, r) {
      AtTake(entry, SetOf(ids), r);
      AtTake(zones, SetOf(ids), r);
    }
    var a := SetAt(added, q, Placed(At(added, q), ids, q.zone, position));
    var b := SetAt(taken, q, Placed(At(taken, q), ids, q.zone, position));
    forall r: Place ensures At(a, r) == At(b, r) {
      AtSetAt(added, q, Placed(At(added, q), ids, q.zone, position), r);
      AtSetAt(taken, q, Placed(At(taken, q), ids, q.zone, position), r);
    }
    SameSlots(a, b);
  }

  /** Cards that reach a battlefield or a hand change controller. */
  method TakeControl(cards: map<CardId, Card>, ids: seq<CardId>, p: PlayerId, z: Zone) returns (r: map<CardId, Card>)
    requires forall c | c in ids :: c in cards
    ensures r == map c | c in cards :: if c in ids && (z == Battlefield || z == Hand) then cards[c].(controller := Some(p)) else cards[c]
  {
    r := cards;
    for i := 0 to |ids|
      invariant r == map c | c in cards ::
        if c in ids[..i] && (z == Battlefield || z == Hand) then cards[c].(controller := Some(p)) else cards[c]
    {
      if z == Battlefield || z == Hand {
        r := r[ids[i] := r[ids[i]].(controller := Some(p))];
      }
      assert ids[..i + 1] == ids[..i] + [ids[i]];
    }
    assert ids[..|ids|] == ids;
  }

  function Cleared(zones: map<PlayerId, PlayerZones>, q: Place, ids: seq<CardId>): map<PlayerId, PlayerZones> {
    SetAt(zones, q, Without(At(zones, q), SetOf(ids)))
  }

  function Departed(where: map<CardId, Place>, ids: seq<CardId>): map<CardId, Place> {
    where - SetOf(ids)
  }

  function Entered(where: map<CardId, Place>, ids: seq<CardId>, q: Place): map<CardId, Place> {
    map c | c in where.Keys + SetOf(ids) :: if c in ids then q else where[c]
  }

  method Indexes(loc: Index, ids: seq<CardId>) returns (at: set<nat>)
    requires forall c | c in ids :: c in loc
    ensures at == set c | c in ids && c in loc :: loc[c].index
  {
    at := {};
    for i := 0 to |ids|
      invariant at == set c | c in ids[..i] && c in loc :: loc[c].index
    {
      at := at + {loc[ids[i]].index};
      assert ids[..i + 1] == ids[..i] + [ids[i]];
    }
    assert ids[..|ids|] == ids;
  }

  /** The list without the given positions, every remaining card renumbered. */
  method CloseGaps(loc: Index, q: Place, slot: seq<CardId>, removeAt: set<nat>, ghost ids: seq<CardId>)
    returns (next: seq<CardId>, rest: Index)
    requires NoDup(slot)
    requires forall i | 0 <= i < |slot| :: i in removeAt <==> slot[i] in ids
    ensures next == Without(slot, SetOf(ids))
    ensures forall j | 0 <= j < |next| :: next[j] in rest && rest[next[j]] == Slot(q, j)
    ensures forall c | c in slot && c in ids :: c !in rest
    ensures forall c | c !in slot :: (c in rest <==> c in loc) && (c in rest ==> rest[c] == loc[c])
  {
    next, rest := [], loc;
    for i := 0 to |slot|
      invariant next == Without(slot[..i], SetOf(ids))
      invariant forall j | 0 <= j < |next| :: next[j] in slot[..i] && next[j] in rest && rest[next[j]] == Slot(q, j)
      invariant forall c | c in slot[..i] && c in ids :: c !in rest
      invariant forall c | c !in slot[..i] :: (c in rest <==> c in loc) && (c in rest ==> rest[c] == loc[c])
    {
      assert slot[..i + 1] == slot[..i] + [slot[i]] && slot[..i + 1][..i] == slot[..i];
      assert slot[i] !in slot[..i];
      if i in removeAt {
        rest := rest - {slot[i]};
      } else {
        rest := rest[slot[i] := Slot(q, |next|)];
        next := next + [slot[i]];
      }
    }
    assert slot[..|slot|] == slot;
  }

  lemma RemovedFromSlot(zones: map<PlayerId, PlayerZones>, loc: Index, q: Place, ids: seq<CardId>, rest: Index)
    requires Exact(zones, loc)
    requires forall c | c in ids :: c in loc && loc[c].place == q
    requires var next := Without(At(zones, q), SetOf(ids));
      forall j | 0 <= j < |next| :: next[j] in rest && rest[next[j]] == Slot(q, j)
    requires forall c | c in At(zones, q) && c in ids :: c !in rest
    requires forall c | c !in At(zones, q) :: (c in rest <==> c in loc) && (c in rest ==> rest[c] == loc[c])
    ensures Exact(SetAt(zones, q, Without(At(zones, q), SetOf(ids))), rest)
    ensures PlacesOf(rest) == Departed(PlacesOf(loc), ids)
  {
    var next := Without(At(zones, q), SetOf(ids));
    WithoutMembers(At(zones, q), SetOf(ids));
    Members(next);
    SlotRewritten(zones, loc, q, next, rest);
    HeldWhereIndexed(zones, loc);
    DepartedPlaces(zones, loc, q, ids, rest, next);
  }

  lemma Members(s: seq<CardId>)
    ensures forall i | 0 <= i < |s| :: s[i] in s
  {}

  lemma DepartedPlaces(zones: map<PlayerId, PlayerZones>, loc: Index, q: Place, ids: seq<CardId>, rest: Index, next: seq<CardId>)
    requires forall c | c in ids :: c in loc && loc[c].place == q
    requires forall c :: c in At(zones, q) <==> c in loc && loc[c].place == q
    requires forall c :: c in next <==> c in At(zones, q) && c !in ids
    requires forall j | 0 <= j < |next| :: next[j] in rest && rest[next[j]] == Slot(q, j)
    requires forall c | c in At(zones, q) && c in ids :: c !in rest
    requires forall c | c !in At(zones, q) :: (c in rest <==> c in loc) && (c in rest ==> rest[c] == loc[c])
    ensures PlacesOf(rest) == Departed(PlacesOf(loc), ids)
  {
    forall c | c in next ensures c in rest && rest[c].place == q {
      var j :| 0 <= j < |next| && next[j] == c;
    }
    assert forall c :: c in rest <==> c in loc && c !in ids;
  }

  lemma PutIntoSlot(zones: map<PlayerId, PlayerZones>, loc: Index, q: Place, ids: seq<CardId>, next: seq<CardId>, all: Index)
    requires Exact(zones, loc)
    requires forall c | c in ids :: c !in loc
    requires forall c :: c in next <==> c in At(zones, q) || c in ids
    requires all.Keys == loc.Keys + SetOf(next)
    requires forall i | 0 <= i < |next| :: all[next[i]] == Slot(q, i)
    requires forall c | c in loc && c !in next :: all[c] == loc[c]
    ensures Exact(SetAt(zones, q, next), all)
    ensures PlacesOf(all) == Entered(PlacesOf(loc), ids, q)
  {
    Members(next);
    SlotRewritten(zones, loc, q, next, all);
    HeldWhereIndexed(zones, loc);
    EnteredPlaces(zones, loc, q, ids, next, all);
  }

  lemma EnteredPlaces(zones: map<PlayerId, PlayerZones>, loc: Index, q: Place, ids: seq<CardId>, next: seq<CardId>, all: Index)
    requires forall c :: c in At(zones, q) <==> c in loc && loc[c].place == q
    requires forall c :: c in next <==> c in At(zones, q) || c in ids
    requires all.Keys == loc.Keys + SetOf(next)
    requires forall i | 0 <= i < |next| :: all[next[i]] == Slot(q, i)
    requires forall c | c in loc && c !in next :: all[c] == loc[c]
    ensures PlacesOf(all) == Entered(PlacesOf(loc), ids, q)
  {
    forall c | c in next ensures all[c].place == q {
      var j :| 0 <= j < |next| && next[j] == c;
    }
    assert forall c :: c in all <==> c in loc || c in ids;
  }

  lemma ExactNoDup(zones: map<PlayerId, PlayerZones>, loc: Index, q: Place)
    requires Exact(zones, loc)
    ensures NoDup(At(zones, q))
  {
    Open(zones, loc);
    forall i, j | 0 <= i < j < |At(zones, q)| ensures At(zones, q)[i] != At(zones, q)[j] {
      assert loc[At(zones, q)[i]].index == i;
    }
  }

  lemma RemovalIndexes(zones: map<PlayerId, PlayerZones>, loc: Index, q: Place, ids: seq<CardId>, removeAt: set<nat>)
    requires Exact(zones, loc)
    requires forall c | c in ids :: c in loc && loc[c].place == q
    requires removeAt == set c | c in ids && c in loc :: loc[c].index
    ensures forall i | 0 <= i < |At(zones, q)| :: i in removeAt <==> At(zones, q)[i] in ids
  {
    Open(zones, loc);
    forall i | 0 <= i < |At(zones, q)| ensures i in removeAt <==> At(zones, q)[i] in ids {
      assert loc[At(zones, q)[i]].index == i;
      if i in removeAt {
        var c :| c in ids && c in loc && loc[c].index == i;
        assert At(zones, loc[c].place)[loc[c].index] == c;
      }
    }
  }
}
