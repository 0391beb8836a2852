/**
  Runs of table commands as the actor plays them: applied and appended, applied and undone
  because the append failed, or refused and rolled back. Undoing and refusing do not always
  leave the table as it was; what holds over a run holds exactly as long as they spare it.
 */
module TableRuns {
  import opened Common
  import opened Table
  import opened Slots
  import opened Movement
  import opened Conservation
  import opened Mirror
  import opened TableUndo
  import opened TableReject

  /** One command, and whether its event could be appended. */
  datatype Order = Order(command: TableCommand, tag: nat, appended: bool)

  predicate Sent(t: Table, o: Order) {
    o.appended && Apply(t, o.command, o.tag).Some?
  }

  /** The table after one command, whatever became of it. */
  function Play(t: Table, o: Order): Table {
    match Apply(t, o.command, o.tag)
    case None => Rejected(t, o.command, o.tag)
    case Some(pair) => if o.appended then pair.0 else Undo(t, o.command, pair.0)
  }

  function PlayAll(t: Table, orders: seq<Order>): Table {
    if orders == [] then t else Play(PlayAll(t, orders[..|orders| - 1]), orders[|orders| - 1])
  }

  // -------------------------------------------------------------- one order

  /** An order that sent nothing must have changed nothing anybody counts on: the table is
      well formed, with the same cards, owners and kinds, and the same cards in every place. */
  ghost predicate Kept(t: Table, r: Table) {
    && WellFormed(r) && r.players == t.players && r.cards.Keys == t.cards.Keys
    && (forall c | c in t.cards && c in r.cards :: r.cards[c].token == t.cards[c].token && r.cards[c].owner == t.cards[c].owner)
    && (forall q: Place :: At(r.zones, q) == At(t.zones, q))
  }

  /** Ids that a creation may write over without harm: its player's own cards, which the
      rollback restores, and that player's tokens elsewhere. */
  predicate Overwritable(t: Table, p: PlayerId, x: CardId) {
    x in t.loc && (t.loc[x].player == p || (x in t.cards && t.cards[x].token && t.cards[x].owner == Some(p)))
  }

  /** No card comes from a player outside the capture, and no surviving one goes to such a player. */
  predicate StaysCaptured(t: Table, ids: seq<CardId>, requested: PlayerId, z: Zone, players: set<PlayerId>) {
    forall c | c in ids ::
      && (c in t.loc ==> t.loc[c].player in players)
      && (c in Evaporating(t, ids, z) || Destination(t, c, requested, z) in players)
  }

  /** Refusing or undoing the command spares the table. */
  predicate Spared(t: Table, o: Order) {
    match o.command
    case MoveCards(p, from, ids, z, target, position, _) =>
      if Apply(t, o.command, o.tag).None? then
        PassesChecks(t, o.command) ==>
          ServesCaptured(t, ids, Destinations(t, ids, OrElse(target, p), z), Captured(t, o.command))
      else o.appended || StaysCaptured(t, ids, OrElse(target, p), z, Captured(t, o.command))
    case MoveAll(p, source, z, target, position) =>
      o.appended || StaysCaptured(t, At(t.zones, Place(p, source)), OrElse(target, p), z, Captured(t, o.command))
    case CreateTokens(p, quantity, marks) =>
      if Apply(t, o.command, o.tag).None? then
        p in t.players ==> forall x | x in TokenIds(o.tag, TokenCount(quantity)) :: Overwritable(t, p, x)
      else o.appended
    case _ => true
  }

  lemma KeptItself(t: Table)
    requires WellFormed(t)
    ensures Kept(t, t)
  {}

  /** Restoring when nothing outside the capture changed gives back all but the cast counts. */
  lemma RestoreInside(t: Table, now: Table, players: set<PlayerId>, cards: set<CardId>)
    requires ChangesOnly(t, now, players, cards)
    ensures Restore(t, now, players, cards) == t.(casts := now.casts)
  {
    var back := Restore(t, now, players, cards);
    assert back.zones == t.zones && back.cards == t.cards && back.loc == t.loc;
  }

  lemma UndoneMovement(t: Table, ids: seq<CardId>, requested: PlayerId, z: Zone, position: Position,
                       players: set<PlayerId>, cards: set<CardId>)
    requires WellFormed(t) && CanMove(t, ids) && requested in players
    requires forall c | c in ids :: t.loc[c].player in players ==> c in cards
    ensures Kept(t, Restore(t, MoveWithRules(t, ids, requested, z, position), players, cards))
      <==> StaysCaptured(t, ids, requested, z, players)
  {
    if StaysCaptured(t, ids, requested, z, players) {
      CapturedKept(t, ids, requested, z, position, players, cards);
    } else if c :| c in ids && t.loc[c].player !in players {
      MovementLeaves(t, ids, requested, z, position, c);
      RestoreSlots(t, MoveWithRules(t, ids, requested, z, position), players, cards, t.loc[c]);
    } else {
      var c :| c in ids && c !in Evaporating(t, ids, z) && Destination(t, c, requested, z) !in players;
      EscapedTwice(t, ids, requested, z, position, players, cards, c);
    }
  }

  lemma CapturedKept(t: Table, ids: seq<CardId>, requested: PlayerId, z: Zone, position: Position,
                     players: set<PlayerId>, cards: set<CardId>)
    requires WellFormed(t) && CanMove(t, ids) && requested in players && StaysCaptured(t, ids, requested, z, players)
    requires forall c | c in ids :: t.loc[c].player in players ==> c in cards
    ensures Kept(t, Restore(t, MoveWithRules(t, ids, requested, z, position), players, cards))
  {
    var now := MoveWithRules(t, ids, requested, z, position);
    MovementStaysInside(t, ids, requested, z, position, players, cards);
    RestoreInside(t, now, players, cards);
    CastsAside(t, now.casts);
  }

  lemma CastsAside(t: Table, casts: map<CardId, nat>)
    requires WellFormed(t)
    ensures Kept(t, t.(casts := casts))
  {}

  /** The escaped card is in its new place and, restored, in its old one. */
  lemma EscapedTwice(t: Table, ids: seq<CardId>, requested: PlayerId, z: Zone, position: Position,
                     players: set<PlayerId>, cards: set<CardId>, c: CardId)
    requires WellFormed(t) && CanMove(t, ids) && c in ids && c !in Evaporating(t, ids, z)
    requires t.loc[c].player in players && Destination(t, c, requested, z) !in players
    ensures !Indexed(Restore(t, MoveWithRules(t, ids, requested, z, position), players, cards))
  {
    var now := MoveWithRules(t, ids, requested, z, position);
    var q := Place(Destination(t, c, requested, z), z);
    MoveSettles(t, ids, requested, z, position);
    SettledMembers(t, ids, requested, z, position, q);
    assert At(now.zones, q) == Settled(t, ids, requested, z, position, q);
    assert c in At(t.zones, t.loc[c]);
    RestoreSlots(t, now, players, cards, q);
    RestoreSlots(t, now, players, cards, t.loc[c]);
    InTwoPlaces(Restore(t, now, players, cards), c, t.loc[c], q);
  }

  /** A card that came from a player outside the capture to one inside is in no place. */
  lemma CrossedIsLost(t: Table, ids: seq<CardId>, requested: PlayerId, z: Zone, position: Position,
                      players: set<PlayerId>, cards: set<CardId>, c: CardId)
    requires WellFormed(t) && CanMove(t, ids) && c in ids && requested in players && c !in Evaporating(t, ids, z)
    requires t.loc[c].player !in players && Destination(t, c, requested, z) in players
    ensures forall q: Place :: c !in At(Restore(t, MoveWithRules(t, ids, requested, z, position), players, cards).zones, q)
  {
    var now := MoveWithRules(t, ids, requested, z, position);
    MoveKeepsWellFormed(t, ids, requested, z, position);
    MoveSettles(t, ids, requested, z, position);
    SettledEntry(t, ids, requested, z, c, Place(Destination(t, c, requested, z), z));
    forall q: Place ensures c !in At(Restore(t, now, players, cards).zones, q) {
      RestoreSlots(t, now, players, cards, q);
      CrossedSlot(t, now, players, c, q);
    }
  }

  lemma CrossedSlot(t: Table, now: Table, players: set<PlayerId>, c: CardId, q: Place)
    requires Indexed(t) && Indexed(now) && c in t.loc && c in now.loc
    requires t.loc[c].player !in players && now.loc[c].player in players
    ensures c !in At(if q.player in players then t.zones else now.zones, q)
  {
    assert c in At(t.zones, q) <==> t.loc[c] == q;
    assert c in At(now.zones, q) <==> now.loc[c] == q;
  }

  lemma UndoneMoves(t: Table, o: Order)
    requires WellFormed(t) && (o.command.MoveCards? || o.command.MoveAll?) && Apply(t, o.command, o.tag).Some? && !o.appended
    ensures Kept(t, Play(t, o)) <==> Spared(t, o)
  {
    var c := o.command;
    var ids := if c.MoveCards? then c.ids else At(t.zones, Place(c.player, c.source));
    forall x | x in ids ensures t.loc[x].player in Captured(t, c) ==> x in CapturedCards(t, c) { CapturedHere(t, c, x); }
    UndoneMovement(t, ids, OrElse(c.target, c.player), c.to, c.position, Captured(t, c), CapturedCards(t, c));
  }

  /** The index entries of undone tokens point into a slot that was restored. */
  lemma UndoneTokens(t: Table, o: Order)
    requires WellFormed(t) && o.command.CreateTokens? && Apply(t, o.command, o.tag).Some? && !o.appended
    ensures !Kept(t, Play(t, o))
  {
    var first := Minted(o.tag, 0);
    assert TokenIds(o.tag, TokenCount(o.command.quantity))[0] == first;
    CapturedHere(t, o.command, first);
    assert first in Play(t, o).cards && first !in t.cards;
  }

  lemma RefusedTokens(t: Table, o: Order)
    requires WellFormed(t) && o.command.CreateTokens? && Apply(t, o.command, o.tag).None?
    ensures Kept(t, Play(t, o)) <==> Spared(t, o)
  {
    var c := o.command;
    var now := Leftover(t, c, o.tag);
    var r := Restore(t, now, Captured(t, c), CapturedCards(t, c));
    if c.player !in t.players {
      RestoreExact(t, t, Captured(t, c), CapturedCards(t, c));
    } else {
      var ids := TokenIds(o.tag, TokenCount(c.quantity));
      forall x | x in ids ensures x in CapturedCards(t, c) <==> x in t.loc && t.loc[x].player == c.player {
        CapturedHere(t, c, x);
      }
      OverwrittenCards(t, now, r, c, ids);
    }
  }

  lemma OverwrittenCards(t: Table, now: Table, r: Table, c: TableCommand, ids: seq<CardId>)
    requires WellFormed(t) && c.CreateTokens? && c.player in t.players
    requires now == t.(cards := AddTokens(t, c.player, ids, c.marks).cards)
    requires r == Restore(t, now, Captured(t, c), CapturedCards(t, c))
    requires forall x | x in ids :: x in CapturedCards(t, c) <==> x in t.loc && t.loc[x].player == c.player
    ensures Kept(t, r) <==> forall x | x in ids :: Overwritable(t, c.player, x)
  {
    var made := Card(Some(c.player), Some(c.player), true, false, c.marks);
    var written := set x | x in ids && x !in CapturedCards(t, c);
    assert now.cards == WrittenOver(t.cards, SetOf(ids), made) by {
      assert forall x :: x in ids <==> x in SetOf(ids);
    }
    RestoredBut(t, now, Captured(t, c), CapturedCards(t, c), SetOf(ids), made);
    assert SetOf(ids) - CapturedCards(t, c) == written;
    if forall x | x in ids :: Overwritable(t, c.player, x) {
      WrittenKept(t, r, written, made);
    } else {
      var x :| x in ids && !Overwritable(t, c.player, x);
      WrittenLost(t, r, written, made, x);
    }
  }

  function WrittenOver(cards: map<CardId, Card>, written: set<CardId>, made: Card): map<CardId, Card> {
    map x | x in cards.Keys + written :: if x in written then made else cards[x]
  }

  lemma RestoredBut(t: Table, now: Table, players: set<PlayerId>, cards: set<CardId>, ids: set<CardId>, made: Card)
    requires now == t.(cards := WrittenOver(t.cards, ids, made)) && forall x | x in cards :: x in t.cards || x !in ids
    ensures Restore(t, now, players, cards) == t.(cards := WrittenOver(t.cards, ids - cards, made))
  {
    var r := Restore(t, now, players, cards);
    assert r.zones == t.zones && r.loc == t.loc;
    assert r.cards == WrittenOver(t.cards, ids - cards, made);
  }

  lemma WrittenKept(t: Table, r: Table, written: set<CardId>, made: Card)
    requires WellFormed(t) && r == t.(cards := WrittenOver(t.cards, written, made))
    requires made.token && made.owner.Some? && made.owner.value in t.players
    requires forall x | x in written :: x in t.cards && t.cards[x].token && t.cards[x].owner == made.owner
    ensures Kept(t, r)
  {
    assert r.cards.Keys == t.cards.Keys;
    assert Indexed(r);
  }

  lemma WrittenLost(t: Table, r: Table, written: set<CardId>, made: Card, x: CardId)
    requires r == t.(cards := WrittenOver(t.cards, written, made)) && x in written && made.token
    requires x !in t.cards || !t.cards[x].token || t.cards[x].owner != made.owner
    ensures !Kept(t, r)
  {
    assert x in r.cards && r.cards[x] == made;
  }

  lemma RefusedMoves(t: Table, o: Order)
    requires WellFormed(t) && o.command.MoveCards? && Apply(t, o.command, o.tag).None?
    ensures Kept(t, Play(t, o)) <==> Spared(t, o)
  {
    RejectionExact(t, o.command, o.tag);
    if Spared(t, o) {
      KeptItself(t);
    } else {
      var q := HarmShows(t, o.command, o.tag);
    }
  }

  /** An order that sends nothing leaves the table as everybody counts on it, if and only if it
      spares the table. */
  lemma UnsentKept(t: Table, o: Order)
    requires WellFormed(t) && !Sent(t, o)
    ensures Kept(t, Play(t, o)) <==> Spared(t, o)
  {
    var refused := Apply(t, o.command, o.tag).None?;
    match o.command
    case MoveCards(_, _, _, _, _, _, _) => if refused { RefusedMoves(t, o); } else { UndoneMoves(t, o); }
    case MoveAll(_, _, _, _, _) => if refused { WholeZoneMoves(t, o); } else { UndoneMoves(t, o); }
    case CreateTokens(_, _, _) => if refused { RefusedTokens(t, o); } else { UndoneTokens(t, o); }
    case _ =>
      KeptItself(t);
      if refused { RejectionExact(t, o.command, o.tag); } else { UndoExact(t, o.command, o.tag); }
  }

  /** Moving a whole zone is never refused. */
  lemma WholeZoneMoves(t: Table, o: Order)
    requires WellFormed(t) && o.command.MoveAll?
    ensures Apply(t, o.command, o.tag).Some?
  {
    var q := Place(o.command.player, o.command.source);
    assert NoDup(At(t.zones, q));
    assert forall c | c in At(t.zones, q) :: c in t.loc;
  }

  /** The order keeps the table well formed, the cards that are no tokens, and, for a client
      that counts along, its counts: if and only if it spares the table. */
  lemma OrderKeeps(t: Table, o: Order, counts: map<Place, int>)
    requires WellFormed(t) && Exact(counts, t)
    ensures Spared(t, o) ==> WellFormed(Play(t, o)) && SameOrdinary(t, Play(t, o)) && Exact(Followed(counts, t, o), Play(t, o))
    ensures !Spared(t, o) ==> !Sent(t, o) && !Kept(t, Play(t, o))
  {
    if Sent(t, o) {
      SentKeeps(t, o, counts);
    } else {
      UnsentKept(t, o);
      if Spared(t, o) { UnsentCounts(t, Play(t, o), counts); }
    }
  }

  lemma SentKeeps(t: Table, o: Order, counts: map<Place, int>)
    requires WellFormed(t) && Exact(counts, t) && Sent(t, o)
    ensures WellFormed(Play(t, o)) && SameOrdinary(t, Play(t, o)) && Exact(Followed(counts, t, o), Play(t, o)) && Spared(t, o)
  {
    ApplyKeeps(t, o.command, o.tag);
    ConservesOrdinary(t, Play(t, o), Gone(t, o.command), Made(o.command, o.tag));
    AnnouncedCountsExact(t, o.command, o.tag, counts);
  }

  lemma ConservesOrdinary(t: Table, r: Table, gone: set<CardId>, made: set<CardId>)
    requires Conserves(t, r, gone, made)
    ensures SameOrdinary(t, r)
  {}

  lemma UnsentCounts(t: Table, r: Table, counts: map<Place, int>)
    requires Exact(counts, t) && Kept(t, r)
    ensures SameOrdinary(t, r) && Exact(counts, r)
  {
    forall q: Place ensures CountOf(counts, q) == |At(r.zones, q)| { assert At(r.zones, q) == At(t.zones, q); }
  }

  function Ordinary(t: Table): set<CardId> {
    set c | c in t.cards && !t.cards[c].token
  }

  ghost predicate SameOrdinary(t: Table, r: Table) {
    && (forall c :: c in Ordinary(r) <==> c in Ordinary(t))
    && (forall c | c in Ordinary(t) :: c in r.cards && r.cards[c].owner == t.cards[c].owner)
  }

  /** The counts of a client: only an order that was sent brings a patch. */
  function Followed(counts: map<Place, int>, t: Table, o: Order): map<Place, int> {
    if Sent(t, o) then Announce(counts, Play(t, o), Touched(t, o.command)) else counts
  }

  // -------------------------------------------------------------------- runs

  /** Every refused or undone order of the run spares the table it meets. */
  ghost predicate AllSpared(t: Table, orders: seq<Order>) {
    forall i | 0 <= i < |orders| :: Spared(PlayAll(t, orders[..i]), orders[i])
  }

  lemma SparedPrefix(t: Table, orders: seq<Order>)
    requires orders != [] && AllSpared(t, orders)
    ensures AllSpared(t, orders[..|orders| - 1])
  {
    var n := |orders| - 1;
    forall i | 0 <= i < n ensures Spared(PlayAll(t, orders[..n][..i]), orders[..n][i]) {
      assert orders[..n][..i] == orders[..i];
    }
  }

  function FollowAll(counts: map<Place, int>, t: Table, orders: seq<Order>): map<Place, int> {
    if orders == [] then counts
    else
      var n := |orders| - 1;
      Followed(FollowAll(counts, t, orders[..n]), PlayAll(t, orders[..n]), orders[n])
  }

  /** Over any run that spares the table, every card is in exactly one slot, its location entry
      names that slot, the cards that are not tokens are the ones the game began with, owners
      included, and a client that only applies counts has exact counts. */
  lemma {:induction false} RunConserves(t: Table, orders: seq<Order>, counts: map<Place, int>)
    requires WellFormed(t) && Exact(counts, t) && AllSpared(t, orders)
    ensures WellFormed(PlayAll(t, orders)) && SameOrdinary(t, PlayAll(t, orders))
    ensures Exact(FollowAll(counts, t, orders), PlayAll(t, orders))
  {
    if orders != [] {
      var n := |orders| - 1;
      SparedPrefix(t, orders);
      RunConserves(t, orders[..n], counts);
      assert orders[..n] == orders[..n];
      OrderKeeps(PlayAll(t, orders[..n]), orders[n], FollowAll(counts, t, orders[..n]));
    }
  }

  /** The first order that does not spare the table breaks it. */
  lemma FirstHarmBreaks(t: Table, orders: seq<Order>, o: Order)
    requires WellFormed(t) && AllSpared(t, orders) && !Spared(PlayAll(t, orders), o)
    ensures !Sent(PlayAll(t, orders), o) && !Kept(PlayAll(t, orders), PlayAll(t, orders + [o]))
  {
    var counts: map<Place, int> := CountsOf(t);
    ExactCounts(t);
    RunConserves(t, orders, counts);
    OrderKeeps(PlayAll(t, orders), o, FollowAll(counts, t, orders));
    assert (orders + [o])[..|orders|] == orders;
  }

  function CountsOf(t: Table): map<Place, int> {
    map q | q in (set p, z: Zone | p in t.zones.Keys :: Place(p, z)) :: |At(t.zones, q)|
  }

  lemma ExactCounts(t: Table)
    ensures Exact(CountsOf(t), t)
  {
    forall q: Place ensures CountOf(CountsOf(t), q) == |At(t.zones, q)| {
      if q.player in t.zones { assert q == Place(q.player, q.zone); }
    }
  }

  ghost predicate NeverShelves(t: Table, orders: seq<Order>) {
    forall i | 0 <= i < |orders| && Sent(PlayAll(t, orders[..i]), orders[i]) ::
      !ShelvesToken(PlayAll(t, orders[..i]), orders[i].command)
  }

  /** If besides no token is put into a library, tokens stay on battlefields over the run. */
  lemma {:induction false} RunKeepsTokensHome(t: Table, orders: seq<Order>)
    requires WellFormed(t) && TokensAtHome(t) && AllSpared(t, orders) && NeverShelves(t, orders)
    ensures TokensAtHome(PlayAll(t, orders))
  {
    if orders != [] {
      var n := |orders| - 1;
      var before := PlayAll(t, orders[..n]);
      SparedPrefix(t, orders);
      forall i | 0 <= i < n && Sent(PlayAll(t, orders[..n][..i]), orders[..n][i])
        ensures !ShelvesToken(PlayAll(t, orders[..n][..i]), orders[..n][i].command)
      {
        assert orders[..n][..i] == orders[..i];
      }
      RunKeepsTokensHome(t, orders[..n]);
      ExactCounts(t);
      RunConserves(t, orders[..n], CountsOf(t));
      if Sent(before, orders[n]) {
        TokensStayHome(before, orders[n].command, orders[n].tag);
      } else {
        UnsentKept(before, orders[n]);
        KeptTokensHome(before, Play(before, orders[n]));
      }
    }
  }

  lemma KeptTokensHome(t: Table, r: Table)
    requires WellFormed(t) && TokensAtHome(t) && Kept(t, r)
    ensures TokensAtHome(r)
  {
    forall c | c in r.cards && c in r.loc && r.cards[c].token ensures r.loc[c].zone == Battlefield {
      assert c in At(r.zones, r.loc[c]);
      assert c in At(t.zones, r.loc[c]);
    }
  }

  // ----------------------------------------------------------------- witness

  lemma WrongCount(counts: map<Place, int>, t: Table, r: Table, q: Place)
    requires Exact(counts, t) && |At(r.zones, q)| != |At(t.zones, q)|
    ensures !Exact(counts, r)
  {
    assert CountOf(counts, q) == |At(t.zones, q)|;
  }

  /** The refused request for a borrowed card and, twice, a held one: the table is no longer
      well formed, and a client's exact counts are wrong although no patch was sent. */
  lemma RefusalBreaksMirror(counts: map<Place, int>)
    requires Exact(counts, BORROWED)
    ensures var o := Order(TWICE, 0, true);
      && WellFormed(BORROWED) && !Sent(BORROWED, o) && Followed(counts, BORROWED, o) == counts
      && !WellFormed(Play(BORROWED, o)) && !Exact(counts, Play(BORROWED, o))
  {
    RefusedRequestDuplicatesCard();
    GraveyardGrows(Rejected(BORROWED, TWICE, 0), counts);
  }

  lemma GraveyardGrows(r: Table, counts: map<Place, int>)
    requires Exact(counts, BORROWED) && Printed(0) in At(r.zones, Place(2, Graveyard))
    ensures !Exact(counts, r)
  {
    assert At(BORROWED.zones, Place(2, Graveyard)) == [];
    WrongCount(counts, BORROWED, r, Place(2, Graveyard));
  }
}
