/**
  The location index with slot positions, and what it means for it to be exact: it is the
  index a recovery would rebuild from the zones alone.
 */
module ZoneIndex {
  import opened Common
  import opened Table
  import opened Slots
  import opened Movement

  /** A location: the place and the position in its list. */
  datatype Slot = Slot(place: Place, index: nat)

  type Index = map<CardId, Slot>

  ghost predicate Mutual(zones: map<PlayerId, PlayerZones>, loc: Index) {
    && (forall q: Place, i :: 0 <= i < |At(zones, q)| ==> At(zones, q)[i] in loc && loc[At(zones, q)[i]] == Slot(q, i))
    && (forall c | c in loc :: loc[c].index < |At(zones, loc[c].place)| && At(zones, loc[c].place)[loc[c].index] == c)
  }

  // A definition behind a lock. `Exact` means `Mutual`, but says so under a quantifier over the
  // one value `Key`, triggered by the always true `Turned`; the solver unfolds `Mutual` and its
  // quantifiers over all places only where a proof mentions `Turned`, as `Open` does.
  // `InTurn` with `Looked`, and `Taken` with `Told`, in ZoneOps are locked the same way.
  datatype Key = Key

  predicate Turned(zones: map<PlayerId, PlayerZones>, loc: Index, key: Key) {
    true
  }

  /** The index is exact. Proofs that only pass this fact on need not look inside; those that
      do call `Open`. */
  ghost predicate Exact(zones: map<PlayerId, PlayerZones>, loc: Index) {
    forall key: Key {:trigger Turned(zones, loc, key)} :: Turned(zones, loc, key) ==> Mutual(zones, loc)
  }

  lemma Open(zones: map<PlayerId, PlayerZones>, loc: Index)
    requires Exact(zones, loc)
    ensures Mutual(zones, loc)
  {
    assert Turned(zones, loc, Key);
  }

  function PlacesOf(loc: Index): map<CardId, Place> {
    map c | c in loc :: loc[c].place
  }

  /** There is at most one exact index. */
  lemma ExactIsUnique(zones: map<PlayerId, PlayerZones>, a: Index, b: Index)
    requires Exact(zones, a) && Exact(zones, b)
    ensures a == b
  {
    Open(zones, a);
    Open(zones, b);
    forall c | c in a ensures c in b && b[c] == a[c] {
      assert At(zones, a[c].place)[a[c].index] == c;
    }
    forall c | c in b ensures c in a {
      assert At(zones, b[c].place)[b[c].index] == c;
    }
  }

  lemma HeldWhereIndexed(zones: map<PlayerId, PlayerZones>, loc: Index)
    requires Exact(zones, loc)
    ensures forall c: CardId, q: Place :: c in At(zones, q) <==> c in loc && loc[c].place == q
  {
    Open(zones, loc);
    forall c: CardId, q: Place ensures c in At(zones, q) <==> c in loc && loc[c].place == q {
      if c in loc && loc[c].place == q {
        assert At(zones, q)[loc[c].index] == c;
      }
      if c in At(zones, q) {
        var i :| 0 <= i < |At(zones, q)| && At(zones, q)[i] == c;
      }
    }
  }

  lemma ExactIsIndexed(t: Table, loc: Index)
    requires Exact(t.zones, loc) && t.loc == PlacesOf(loc)
    ensures Indexed(t)
  {
    HeldWhereIndexed(t.zones, loc);
    Open(t.zones, loc);
    forall q: Place ensures NoDup(At(t.zones, q)) {
      forall i, j | 0 <= i < j < |At(t.zones, q)| ensures At(t.zones, q)[i] != At(t.zones, q)[j] {
        assert loc[At(t.zones, q)[i]].index == i;
      }
    }
  }

  /** Rewriting one slot: the index is exact again when the cards of the new slot point
      into it, the cards that left it are gone, and nothing else changed. */
  lemma SlotRewritten(zones: map<PlayerId, PlayerZones>, loc: Index, q: Place, next: seq<CardId>, loc': Index)
    requires Exact(zones, loc)
    requires forall i | 0 <= i < |next| :: next[i] in loc' && loc'[next[i]] == Slot(q, i)
    requires forall i | 0 <= i < |next| :: next[i] in At(zones, q) || next[i] !in loc
    requires forall c | c in At(zones, q) && c !in next :: c !in loc'
    requires forall c | c !in At(zones, q) && c !in next :: (c in loc' <==> c in loc) && (c in loc ==> loc'[c] == loc[c])
    ensures Exact(SetAt(zones, q, next), loc')
  {
    var zones' := SetAt(zones, q, next);
    Open(zones, loc);
    forall r: Place ensures At(zones', r) == if r == q then next else At(zones, r) {
      AtSetAt(zones, q, next, r);
    }
    HeldWhereIndexed(zones, loc);
    forall r: Place, i | 0 <= i < |At(zones', r)|
      ensures At(zones', r)[i] in loc' && loc'[At(zones', r)[i]] == Slot(r, i)
    {
      if r != q {
        var c := At(zones, r)[i];
        assert loc[c] == Slot(r, i);
        assert c !in At(zones, q) && c !in next;
      }
    }
    forall c | c in loc'
      ensures loc'[c].index < |At(zones', loc'[c].place)| && At(zones', loc'[c].place)[loc'[c].index] == c
    {
      if c in next {
        var i :| 0 <= i < |next| && next[i] == c;
      } else {
        assert c !in At(zones, q) && c in loc && loc[c].place != q;
      }
    }
    assert Mutual(zones', loc');
  }

  /** One slot of the rebuilt index. */
  method IndexSlot(loc: Index, q: Place, ids: seq<CardId>) returns (r: Index)
    requires NoDup(ids)
    ensures r.Keys == loc.Keys + SetOf(ids)
    ensures forall i | 0 <= i < |ids| :: r[ids[i]] == Slot(q, i)
    ensures forall c | c in loc && c !in ids :: r[c] == loc[c]
  {
    r := loc;
    for i := 0 to |ids|
      invariant r.Keys == loc.Keys + SetOf(ids[..i])
      invariant forall j | 0 <= j < i :: ids[j] in r && r[ids[j]] == Slot(q, j)
      invariant forall c | c in loc && c !in ids[..i] :: r[c] == loc[c]
    {
      r := r[ids[i] := Slot(q, i)];
      assert ids[..i + 1] == ids[..i] + [ids[i]];
    }
    assert ids[..|ids|] == ids;
  }

  const ZONES := [Library, Hand, Battlefield, Graveyard, Exile, Command]

  /** The index restricted to the places visited so far. */
  ghost predicate ExactOn(t: Table, loc: Index, done: set<Place>) {
    && (forall q: Place, i :: q in done && 0 <= i < |At(t.zones, q)| ==>
          At(t.zones, q)[i] in loc && loc[At(t.zones, q)[i]] == Slot(q, i))
    && (forall c | c in loc :: loc[c].place in done
          && loc[c].index < |At(t.zones, loc[c].place)| && At(t.zones, loc[c].place)[loc[c].index] == c)
  }

  /** The six zones of one player. */
  method IndexPlayer(t: Table, p: PlayerId, before: Index, ghost done: set<Place>)
    returns (loc: Index, ghost reached: set<Place>)
    requires Indexed(t) && ExactOn(t, before, done)
    ensures ExactOn(t, loc, reached)
    ensures forall q: Place :: q in reached <==> q in done || q.player == p
  {
    loc, reached := before, done;
    for n := 0 to 6
      invariant forall q: Place :: q in reached <==> q in done || (q.player == p && q.zone in ZONES[..n])
      invariant ExactOn(t, loc, reached)
    {
      var q := Place(p, ZONES[n]);
      ghost var was := loc;
      loc := IndexSlot(loc, q, At(t.zones, q));
      SlotIndexed(t, was, loc, reached, q);
      reached := reached + {q};
      assert ZONES[..n + 1] == ZONES[..n] + [ZONES[n]];
    }
    AllZones();
  }

  /** Recovery forgets the index and rebuilds it from the zones: the result is exact, so on a
      table whose index was exact it is the same index. */
  method RebuildIndex(t: Table) returns (loc: Index)
    requires Indexed(t)
    ensures Exact(t.zones, loc) && PlacesOf(loc) == t.loc
  {
    loc := map[];
    var players: set<PlayerId> := {};
    ghost var done: set<Place> := {};
    while t.zones.Keys - players != {}
      invariant players <= t.zones.Keys
      invariant forall q: Place :: q in done <==> q.player in players
      invariant ExactOn(t, loc, done)
      decreases t.zones.Keys - players
    {
      var p :| p in t.zones.Keys - players;
      loc, done := IndexPlayer(t, p, loc, done);
      players := players + {p};
    }
    assert forall p | p in t.zones :: p in players by {
      forall p | p in t.zones ensures p in players { assert p !in t.zones.Keys - players; }
    }
    EverySlotIndexed(t, loc, done);
  }

  lemma EverySlotIndexed(t: Table, loc: Index, done: set<Place>)
    requires Indexed(t) && ExactOn(t, loc, done)
    requires forall q: Place :: q in done <==> q.player in t.zones
    ensures Exact(t.zones, loc) && PlacesOf(loc) == t.loc
  {
    assert forall q: Place :: q.player !in t.zones ==> At(t.zones, q) == [];
    assert Mutual(t.zones, loc);
    HeldWhereIndexed(t.zones, loc);
    assert forall c :: c in t.loc ==> c in At(t.zones, t.loc[c]);
    assert forall c :: c in loc ==> c in At(t.zones, loc[c].place);
  }

  lemma AllZones()
    ensures forall z: Zone :: z in ZONES[..6]
  {
    assert ZONES[..6] == ZONES;
    forall z: Zone ensures z in ZONES {
      assert z == ZONES[match z case Library => 0 case Hand => 1 case Battlefield => 2 case Graveyard => 3 case Exile => 4 case Command => 5];
    }
  }

  lemma SlotIndexed(t: Table, loc: Index, loc': Index, done: set<Place>, q: Place)
    requires Indexed(t) && ExactOn(t, loc, done)
    requires loc'.Keys == loc.Keys + SetOf(At(t.zones, q))
    requires forall i | 0 <= i < |At(t.zones, q)| :: loc'[At(t.zones, q)[i]] == Slot(q, i)
    requires forall c | c in loc && c !in At(t.zones, q) :: loc'[c] == loc[c]
    ensures ExactOn(t, loc', done + {q})
  {
    forall r: Place, i | r in done + {q} && 0 <= i < |At(t.zones, r)|
      ensures At(t.zones, r)[i] in loc' && loc'[At(t.zones, r)[i]] == Slot(r, i)
    {
      var c := At(t.zones, r)[i];
      assert c in At(t.zones, r);
      assert t.loc[c] == r;
      assert r != q ==> c !in At(t.zones, q);
    }
    forall c | c in loc'
      ensures loc'[c].place in done + {q}
        && loc'[c].index < |At(t.zones, loc'[c].place)| && At(t.zones, loc'[c].place)[loc'[c].index] == c
    {
      if c in At(t.zones, q) {
        var i :| 0 <= i < |At(t.zones, q)| && At(t.zones, q)[i] == c;
      }
    }
  }
}
