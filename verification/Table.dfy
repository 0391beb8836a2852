/**
  The card table as a value: zones, cards and the location index, what every movement,
  library and token command does to them, and what replaying its event does.
 */
module Table {
  import opened Common

  /** `Minted` ids are derived from the tag that sanitising leaves of a client action id. */
  datatype CardId = Printed(n: nat) | Minted(tag: nat, index: nat)

  datatype Zone = Library | Hand | Battlefield | Graveyard | Exile | Command

  datatype Place = Place(player: PlayerId, zone: Zone)

  datatype Position = Append | Top | Bottom

  datatype PlayerZones = PlayerZones(
    library: seq<CardId>, hand: seq<CardId>, battlefield: seq<CardId>,
    graveyard: seq<CardId>, exile: seq<CardId>, command: seq<CardId>)

  /** `marks` is the state a card gathers on the battlefield (tapped, rotation, counters,
      changed stats, face); 0 is the state after a reset. */
  datatype Card = Card(owner: Option<PlayerId>, controller: Option<PlayerId>, token: bool, commander: bool, marks: int)

  datatype Table = Table(
    players: set<PlayerId>,
    zones: map<PlayerId, PlayerZones>,
    cards: map<CardId, Card>,
    loc: map<CardId, Place>,
    casts: map<CardId, nat>)

  /** `named` is a single card a movement request may name beside its list; the movement does
      not look at it, the rollback does. `PlayTop` puts the top of a library face down onto a
      battlefield. */
  datatype TableCommand =
    | MoveCards(player: PlayerId, from: Option<Zone>, ids: seq<CardId>, to: Zone, target: Option<PlayerId>, position: Position,
                named: Option<CardId>)
    | MoveAll(player: PlayerId, source: Zone, to: Zone, target: Option<PlayerId>, position: Position)
    | Draw(player: PlayerId, count: int)
    | MoveTop(player: PlayerId, count: int, to: Zone, target: Option<PlayerId>, position: Position)
    | Put(player: PlayerId, card: CardId, top: bool)
    | CreateTokens(player: PlayerId, quantity: Option<int>, marks: int)
    | PlayTop(player: PlayerId, target: Option<PlayerId>, position: Position)

  /** The fields of each event's payload that replay reads. */
  datatype TableEvent =
    | Moved(player: PlayerId, source: Zone, ids: seq<CardId>, to: Zone, target: Option<PlayerId>, position: Position)
    | MovedAll(player: PlayerId, source: Zone, to: Zone, target: Option<PlayerId>)
    | Drawn(player: PlayerId, ids: seq<CardId>)
    | MovedTop(player: PlayerId, owner: PlayerId, to: Zone, ids: seq<CardId>)
    | PutDown(player: PlayerId, card: CardId, top: bool)
    | TokensCreated(player: PlayerId)
    | PlayedTop(player: PlayerId, ids: seq<CardId>, target: Option<PlayerId>, position: Position)

  const EMPTY := PlayerZones([], [], [], [], [], [])
  const MAX_TOKENS := 20

  // ------------------------------------------------------------------ slots

  function Pick(pz: PlayerZones, z: Zone): seq<CardId> {
    match z
    case Library => pz.library
    case Hand => pz.hand
    case Battlefield => pz.battlefield
    case Graveyard => pz.graveyard
    case Exile => pz.exile
    case Command => pz.command
  }

  function Replace(pz: PlayerZones, z: Zone, ids: seq<CardId>): PlayerZones {
    match z
    case Library => pz.(library := ids)
    case Hand => pz.(hand := ids)
    case Battlefield => pz.(battlefield := ids)
    case Graveyard => pz.(graveyard := ids)
    case Exile => pz.(exile := ids)
    case Command => pz.(command := ids)
  }

  function ZonesOf(zones: map<PlayerId, PlayerZones>, p: PlayerId): PlayerZones {
    if p in zones then zones[p] else EMPTY
  }

  function At(zones: map<PlayerId, PlayerZones>, q: Place): seq<CardId> {
    Pick(ZonesOf(zones, q.player), q.zone)
  }

  function SetAt(zones: map<PlayerId, PlayerZones>, q: Place, ids: seq<CardId>): map<PlayerId, PlayerZones> {
    zones[q.player := Replace(ZonesOf(zones, q.player), q.zone, ids)]
  }

  function Without(s: seq<CardId>, gone: set<CardId>): seq<CardId> {
    if s == [] then []
    else Without(s[..|s| - 1], gone) + if s[|s| - 1] in gone then [] else [s[|s| - 1]]
  }

  function Reverse(s: seq<CardId>): seq<CardId> {
    if s == [] then [] else [s[|s| - 1]] + Reverse(s[..|s| - 1])
  }

  function Take(zones: map<PlayerId, PlayerZones>, gone: set<CardId>): map<PlayerId, PlayerZones> {
    map p | p in zones ::
      PlayerZones(Without(zones[p].library, gone), Without(zones[p].hand, gone), Without(zones[p].battlefield, gone),
                  Without(zones[p].graveyard, gone), Without(zones[p].exile, gone), Without(zones[p].command, gone))
  }

  /** Cards go to the end of a zone; on request they go to the front of a library, the last
      one chosen uppermost, or to the front of any other zone in order. */
  function Placed(slot: seq<CardId>, ids: seq<CardId>, z: Zone, position: Position): seq<CardId> {
    if !GoesInFront(z, position) then slot + ids
    else if z == Library then Reverse(ids) + slot
    else ids + slot
  }

  predicate GoesInFront(z: Zone, position: Position) {
    position == if z == Library then Top else Bottom
  }

  function OrElse(o: Option<PlayerId>, default: PlayerId): PlayerId {
    match o case Some(p) => p case None => default
  }

  // --------------------------------------------------------------- movement

  /** One batch to one place, as `ZoneOps.MoveMany` does it. */
  function MoveGroup(t: Table, ids: seq<CardId>, q: Place, position: Position): Table {
    var zones := Take(t.zones, SetOf(ids));
    t.(zones := SetAt(zones, q, Placed(At(zones, q), ids, q.zone, position)),
       cards := map c | c in t.cards ::
         if c in ids && (q.zone == Battlefield || q.zone == Hand) then t.cards[c].(controller := Some(q.player))
         else t.cards[c],
       loc := map c | c in t.loc.Keys + SetOf(ids) :: if c in ids then q else t.loc[c])
  }

  predicate Known(t: Table, p: PlayerId) {
    p in t.players || p in t.zones
  }

  predicate Leaves(t: Table, c: CardId, z: Zone) {
    c in t.loc && t.loc[c].zone == Battlefield && z != Battlefield
  }

  predicate OwnerKnown(t: Table, c: CardId) {
    c in t.cards && t.cards[c].owner.Some? && Known(t, t.cards[c].owner.value)
  }

  /** A card leaving the battlefield goes to its owner when the owner is known. */
  function Destination(t: Table, c: CardId, requested: PlayerId, z: Zone): PlayerId {
    if Leaves(t, c, z) && OwnerKnown(t, c) then t.cards[c].owner.value else requested
  }

  function Destinations(t: Table, ids: seq<CardId>, requested: PlayerId, z: Zone): map<CardId, PlayerId> {
    map c | c in SetOf(ids) :: Destination(t, c, requested, z)
  }

  function Going(ids: seq<CardId>, dest: map<CardId, PlayerId>, d: PlayerId): seq<CardId> {
    Without(ids, set c | c in ids && (c !in dest || dest[c] != d))
  }

  function Staying(ids: seq<CardId>, dest: map<CardId, PlayerId>, d: PlayerId): (r: seq<CardId>)
    ensures ids != [] && ids[0] in dest && dest[ids[0]] == d ==> |r| < |ids|
  {
    var gone := set c | c in ids && c in dest && dest[c] == d;
    WithoutShorter(ids, gone);
    Without(ids, gone)
  }

  lemma {:induction false} WithoutShorter(s: seq<CardId>, gone: set<CardId>)
    ensures |Without(s, gone)| <= |s|
    ensures s != [] && s[0] in gone ==> |Without(s, gone)| < |s|
  {
    if s != [] {
      WithoutShorter(s[..|s| - 1], gone);
      if |s| > 1 { assert s[..|s| - 1][0] == s[0]; }
    }
  }

  /** The batches, one per destination player in order of first appearance. */
  function MoveGroups(t: Table, ids: seq<CardId>, dest: map<CardId, PlayerId>, z: Zone, position: Position): Table
    requires SetOf(ids) <= dest.Keys
    decreases |ids|
  {
    if ids == [] then t
    else
      assert ids[0] in SetOf(ids);
      var d := dest[ids[0]];
      var rest := Staying(ids, dest, d);
      WithoutMembers(ids, set c | c in ids && c in dest && dest[c] == d);
      MoveGroups(MoveGroup(t, Going(ids, dest, d), Place(d, z), position), rest, dest, z, position)
  }

  lemma {:induction false} WithoutMembers(s: seq<CardId>, gone: set<CardId>)
    ensures forall c :: c in Without(s, gone) <==> c in s && c !in gone
    ensures SetOf(Without(s, gone)) <= SetOf(s)
  {
    if s != [] {
      var n := |s| - 1;
      WithoutMembers(s[..n], gone);
      assert s == s[..n] + [s[n]];
      assert forall c :: c in s <==> c in s[..n] || c == s[n];
    }
  }

  /** Tokens that leave the battlefield. */
  function Evaporating(t: Table, ids: seq<CardId>, z: Zone): set<CardId> {
    set c | c in ids && Leaves(t, c, z) && c in t.cards && t.cards[c].token
  }

  predicate IsCast(t: Table, c: CardId, z: Zone) {
    c in t.loc && c in t.cards && t.loc[c].zone == Command && z == Battlefield
    && OrElse(t.cards[c].owner, t.loc[c].player) == t.loc[c].player
  }

  function Reset(c: Card): Card {
    c.(controller := if c.owner.Some? then c.owner else c.controller, marks := 0)
  }

  function RuledCards(t: Table, cards: map<CardId, Card>, ids: seq<CardId>, z: Zone): map<CardId, Card> {
    map c | c in cards && c !in Evaporating(t, ids, z) ::
      if c in ids && Leaves(t, c, z) then Reset(cards[c])
      else if c in ids && IsCast(t, c, z) then cards[c].(commander := true)
      else cards[c]
  }

  function CountedCasts(t: Table, casts: map<CardId, nat>, ids: seq<CardId>, z: Zone): map<CardId, nat> {
    var cast := set c | c in ids && IsCast(t, c, z);
    map c | c in casts.Keys + cast :: (if c in casts then casts[c] else 0) + if c in cast then 1 else 0
  }

  /** Battlefield-exit reset, evaporation and commander casts, after the batches. */
  function AfterMoves(t: Table, moved: Table, ids: seq<CardId>, z: Zone): Table {
    var gone := Evaporating(t, ids, z);
    moved.(zones := Take(moved.zones, gone),
           cards := RuledCards(t, moved.cards, ids, z),
           loc := moved.loc - gone,
           casts := CountedCasts(t, moved.casts, ids, z))
  }

  predicate CanMove(t: Table, ids: seq<CardId>) {
    NoDup(ids) && forall c | c in ids :: c in t.loc && c in t.cards
  }

  function MoveWithRules(t: Table, ids: seq<CardId>, requested: PlayerId, z: Zone, position: Position): Table {
    AfterMoves(t, MoveGroups(t, ids, Destinations(t, ids, requested, z), z, position), ids, z)
  }

  /** The common destination, if there is one. */
  function UniformTarget(t: Table, ids: seq<CardId>, requested: PlayerId, z: Zone): Option<PlayerId> {
    if ids == [] then None
    else
      var d := Destination(t, ids[0], requested, z);
      if forall c | c in ids :: Destination(t, c, requested, z) == d then Some(d) else None
  }

  // ---------------------------------------------------------------- library

  function LibraryOf(t: Table, p: PlayerId): seq<CardId> {
    At(t.zones, Place(p, Library))
  }

  function MoveTopTo(t: Table, p: PlayerId, n: nat, q: Place): Table
    requires n <= |LibraryOf(t, p)|
  {
    var moved := LibraryOf(t, p)[..n];
    var zones := SetAt(t.zones, Place(p, Library), LibraryOf(t, p)[n..]);
    t.(zones := SetAt(zones, q, At(zones, q) + moved),
       cards := map c | c in t.cards ::
         if c in moved && (q.zone == Battlefield || q.zone == Hand) then t.cards[c].(controller := Some(q.player))
         else t.cards[c],
       loc := map c | c in t.loc.Keys + SetOf(moved) :: if c in moved then q else t.loc[c])
  }

  /** Drawing leaves the controller as it was. */
  function DrawMany(t: Table, p: PlayerId, n: nat): Table
    requires n <= |LibraryOf(t, p)|
  {
    MoveTopTo(t, p, n, Place(p, Hand)).(cards := t.cards)
  }

  function MoveTopToBottom(t: Table, p: PlayerId, n: nat): Table
    requires n <= |LibraryOf(t, p)|
  {
    t.(zones := SetAt(t.zones, Place(p, Library), LibraryOf(t, p)[n..] + LibraryOf(t, p)[..n]))
  }

  function PutInLibrary(t: Table, p: PlayerId, c: CardId, top: bool): Table {
    var zones := Take(t.zones, {c});
    var q := Place(p, Library);
    t.(zones := SetAt(zones, q, if top then [c] + At(zones, q) else At(zones, q) + [c]), loc := t.loc[c := q])
  }

  /** `MoveInstance` to the end of a hand, the step a replayed draw repeats. */
  function MoveToHand(t: Table, p: PlayerId, c: CardId): Table {
    var zones := Take(t.zones, {c});
    var q := Place(p, Hand);
    t.(zones := SetAt(zones, q, At(zones, q) + [c]), loc := t.loc[c := q])
  }

  function MoveEachToHand(t: Table, p: PlayerId, ids: seq<CardId>): Option<Table> {
    if ids == [] then Some(t)
    else
      match MoveEachToHand(t, p, ids[..|ids| - 1])
      case None => None
      case Some(t') => if ids[|ids| - 1] in t'.loc then Some(MoveToHand(t', p, ids[|ids| - 1])) else None
  }

  // ----------------------------------------------------------------- tokens

  function TokenCount(quantity: Option<int>): nat {
    match quantity
    case None => 1
    case Some(n) => if n < 1 then 1 else if n > MAX_TOKENS then MAX_TOKENS else n
  }

  function TokenIds(tag: nat, n: nat): seq<CardId> {
    seq(n, i requires 0 <= i < n => Minted(tag, i))
  }

  function AddTokens(t: Table, p: PlayerId, ids: seq<CardId>, marks: int): Table {
    var q := Place(p, Battlefield);
    t.(zones := SetAt(t.zones, q, At(t.zones, q) + ids),
       cards := map c | c in t.cards.Keys + SetOf(ids) ::
         if c in ids then Card(Some(p), Some(p), true, false, marks) else t.cards[c],
       loc := map c | c in t.loc.Keys + SetOf(ids) :: if c in ids then q else t.loc[c])
  }

  // --------------------------------------------------------------- commands

  /** The new table and the event, or nothing when the command is rejected. */
  function Apply(t: Table, c: TableCommand, tag: nat): Option<(Table, TableEvent)> {
    match c
    case MoveCards(p, from, ids, z, target, position, _) =>
      var requested := OrElse(target, p);
      if ids == [] || !CanMove(t, ids) || (from.Some? && exists c :: c in ids && t.loc[c].zone != from.value) then None
      else Some((MoveWithRules(t, ids, requested, z, position),
                 Moved(p, t.loc[ids[0]].zone, ids, z, UniformTarget(t, ids, requested, z), position)))
    case MoveAll(p, source, z, target, position) =>
      var requested := OrElse(target, p);
      var ids := At(t.zones, Place(p, source));
      if !CanMove(t, ids) then None
      else Some((MoveWithRules(t, ids, requested, z, position),
                 MovedAll(p, source, z, UniformTarget(t, ids, requested, z))))
    case Draw(p, count) =>
      if count <= 0 then Some((t, Drawn(p, [])))
      else if p !in t.zones || |LibraryOf(t, p)| < count then None
      else Some((DrawMany(t, p, count), Drawn(p, LibraryOf(t, p)[..count])))
    case MoveTop(p, count, z, target, position) =>
      var owner := if z == Library then p else OrElse(target, p);
      if z == Library && position != Bottom then None
      else if count <= 0 then Some((t, MovedTop(p, owner, z, [])))
      else if p !in t.zones || |LibraryOf(t, p)| < count then None
      else Some((if z == Library then MoveTopToBottom(t, p, count) else MoveTopTo(t, p, count, Place(owner, z)),
                 MovedTop(p, owner, z, LibraryOf(t, p)[..count])))
    case Put(p, card, top) =>
      if card !in t.loc || card !in t.cards || p !in t.zones then None
      else Some((PutInLibrary(t, p, card, top), PutDown(p, card, top)))
    case CreateTokens(p, quantity, marks) =>
      var ids := TokenIds(tag, TokenCount(quantity));
      if p !in t.players || exists c :: c in ids && c in t.loc then None
      else Some((AddTokens(t, p, ids, marks), TokensCreated(p)))
    case PlayTop(p, target, position) =>
      if p !in t.zones || LibraryOf(t, p) == [] || !CanMove(t, LibraryOf(t, p)[..1])
         || t.loc[LibraryOf(t, p)[0]].zone != Library then None
      else
        var ids := LibraryOf(t, p)[..1];
        Some((MoveWithRules(t, ids, OrElse(target, p), Battlefield, position),
              PlayedTop(p, ids, UniformTarget(t, ids, OrElse(target, p), Battlefield), position)))
  }

  /** Replaying an event: movement and token events go through the same applier with the
      event's payload, library events through the operations they name; the one for a top card
      played face down is of a kind that replay does not know. */
  function Replay(t: Table, e: TableEvent, tag: nat): Option<Table> {
    match e
    case Moved(p, source, ids, z, target, position) =>
      Result(Apply(t, MoveCards(p, Some(source), ids, z, target, position, if ids == [] then None else Some(ids[0])), tag))
    case MovedAll(p, source, z, target) => Result(Apply(t, MoveAll(p, source, z, target, Append), tag))
    case Drawn(p, ids) => MoveEachToHand(t, p, ids)
    case MovedTop(p, owner, z, ids) =>
      Result(Apply(t, MoveTop(p, |ids|, z, Some(owner), Bottom), tag))
    case PutDown(p, card, top) => Result(Apply(t, Put(p, card, top), tag))
    case TokensCreated(p) => Result(Apply(t, CreateTokens(p, None, 0), tag))
    case PlayedTop(_, _, _, _) => None
  }

  function Result(r: Option<(Table, TableEvent)>): Option<Table> {
    match r case None => None case Some(pair) => Some(pair.0)
  }
}
