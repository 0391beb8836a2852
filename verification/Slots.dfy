/** Facts about zone contents: filtering, placing, and zone maps determined by their slots. */
module Slots {
  import opened Common
  import opened Table

  lemma {:induction false} WithoutConcat(a: seq<CardId>, b: seq<CardId>, gone: set<CardId>)
    ensures Without(a + b, gone) == Without(a, gone) + Without(b, gone)
  {
    if b == [] {
      assert a + b == a;
    } else {
      var n := |b| - 1;
      WithoutConcat(a, b[..n], gone);
      assert (a + b)[..|a + b| - 1] == a + b[..n];
    }
  }

  lemma {:induction false} WithoutNone(s: seq<CardId>, gone: set<CardId>)
    requires forall c | c in s :: c !in gone
    ensures Without(s, gone) == s
  {
    if s != [] { WithoutNone(s[..|s| - 1], gone); }
  }

  lemma {:induction false} WithoutAll(s: seq<CardId>, gone: set<CardId>)
    requires forall c | c in s :: c in gone
    ensures Without(s, gone) == []
  {
    if s != [] { WithoutAll(s[..|s| - 1], gone); }
  }

  lemma {:induction false} WithoutTwice(s: seq<CardId>, a: set<CardId>, b: set<CardId>)
    ensures Without(Without(s, a), b) == Without(s, a + b)
  {
    if s != [] {
      var n := |s| - 1;
      WithoutTwice(s[..n], a, b);
      WithoutConcat(Without(s[..n], a), if s[n] in a then [] else [s[n]], b);
      assert [s[n]][..0] == [];
      assert Without([s[n]], b) == if s[n] in b then [] else [s[n]];
    }
  }

  /** Only what occurs in the list matters. */
  lemma {:induction false} WithoutSame(s: seq<CardId>, a: set<CardId>, b: set<CardId>)
    requires forall c | c in s :: c in a <==> c in b
    ensures Without(s, a) == Without(s, b)
  {
    if s != [] { WithoutSame(s[..|s| - 1], a, b); }
  }

  lemma {:induction false} WithoutNoDup(s: seq<CardId>, gone: set<CardId>)
    requires NoDup(s)
    ensures NoDup(Without(s, gone))
  {
    if s != [] {
      var n := |s| - 1;
      WithoutNoDup(s[..n], gone);
      WithoutMembers(s[..n], gone);
      assert s[n] !in s[..n];
    }
  }

  lemma {:induction false} ReverseMembers(s: seq<CardId>)
    ensures |Reverse(s)| == |s| && SetOf(Reverse(s)) == SetOf(s)
    ensures forall c :: c in Reverse(s) <==> c in s
    ensures NoDup(s) ==> NoDup(Reverse(s))
  {
    if s != [] {
      var n := |s| - 1;
      ReverseMembers(s[..n]);
      assert s == s[..n] + [s[n]];
      assert forall c :: c in s <==> c in s[..n] || c == s[n];
      if NoDup(s) { assert s[n] !in Reverse(s[..n]); }
    }
  }

  lemma {:induction false} WithoutReverse(s: seq<CardId>, gone: set<CardId>)
    ensures Without(Reverse(s), gone) == Reverse(Without(s, gone))
  {
    if s != [] {
      var n := |s| - 1;
      WithoutReverse(s[..n], gone);
      WithoutConcat([s[n]], Reverse(s[..n]), gone);
      assert [s[n]][..0] == [];
      assert Without([s[n]], gone) == if s[n] in gone then [] else [s[n]];
      var w := Without(s, gone);
      if s[n] in gone {
        assert w == Without(s[..n], gone);
      } else {
        assert w[..|w| - 1] == Without(s[..n], gone);
        assert Reverse(w) == [s[n]] + Reverse(w[..|w| - 1]);
      }
    }
  }

  lemma {:induction false} ReverseTwice(s: seq<CardId>)
    ensures Reverse(Reverse(s)) == s
  {
    if s != [] {
      var n := |s| - 1;
      ReverseTwice(s[..n]);
      ReverseConcat([s[n]], Reverse(s[..n]));
    }
  }

  lemma {:induction false} ReverseConcat(a: seq<CardId>, b: seq<CardId>)
    ensures Reverse(a + b) == Reverse(b) + Reverse(a)
  {
    if b == [] {
      assert a + b == a;
    } else {
      var n := |b| - 1;
      ReverseConcat(a, b[..n]);
      assert (a + b)[..|a + b| - 1] == a + b[..n];
    }
  }

  lemma PlacedWithout(slot: seq<CardId>, ids: seq<CardId>, z: Zone, position: Position, gone: set<CardId>)
    ensures Without(Placed(slot, ids, z, position), gone)
            == Placed(Without(slot, gone), Without(ids, gone), z, position)
  {
    WithoutReverse(ids, gone);
    WithoutConcat(Reverse(ids), slot, gone);
    WithoutConcat(ids, slot, gone);
    WithoutConcat(slot, ids, gone);
  }

  lemma NoDupConcat(a: seq<CardId>, b: seq<CardId>)
    ensures forall c :: c in a + b <==> c in a || c in b
    ensures NoDup(a) && NoDup(b) && (forall c | c in a :: c !in b) ==> NoDup(a + b)
  {
    if NoDup(a) && NoDup(b) && forall c | c in a :: c !in b {
      var s := a + b;
      forall i, j | 0 <= i < j < |s| ensures s[i] != s[j] {
        assert i < |a| ==> s[i] in a;
        assert j >= |a| ==> s[j] == b[j - |a|];
        assert i >= |a| ==> s[i] == b[i - |a|];
      }
    }
  }

  lemma PlacedMembers(slot: seq<CardId>, ids: seq<CardId>, z: Zone, position: Position)
    ensures forall c :: c in Placed(slot, ids, z, position) <==> c in slot || c in ids
    ensures |Placed(slot, ids, z, position)| == |slot| + |ids|
    ensures NoDup(slot) && NoDup(ids) && (forall c | c in ids :: c !in slot) ==> NoDup(Placed(slot, ids, z, position))
    ensures ids == [] ==> Placed(slot, ids, z, position) == slot
  {
    ReverseMembers(ids);
    NoDupConcat(slot, ids);
    NoDupConcat(ids, slot);
    NoDupConcat(Reverse(ids), slot);
    var all := Placed(slot, ids, z, position);
    assert all == slot + ids || all == ids + slot || all == Reverse(ids) + slot;
    assert ids == [] ==> Reverse(ids) + slot == slot && ids + slot == slot && slot + ids == slot;
  }

  lemma PickReplace(pz: PlayerZones, z: Zone, y: Zone, ids: seq<CardId>)
    ensures Pick(Replace(pz, z, ids), y) == if y == z then ids else Pick(pz, y)
  {}

  lemma AtSetAt(zones: map<PlayerId, PlayerZones>, q: Place, ids: seq<CardId>, r: Place)
    ensures At(SetAt(zones, q, ids), r) == if r == q then ids else At(zones, r)
  {
    PickReplace(ZonesOf(zones, q.player), q.zone, r.zone, ids);
  }

  lemma AtTake(zones: map<PlayerId, PlayerZones>, gone: set<CardId>, r: Place)
    ensures At(Take(zones, gone), r) == Without(At(zones, r), gone)
  {}

  /** Zone maps over the same players with the same slots are the same. */
  lemma SameSlots(a: map<PlayerId, PlayerZones>, b: map<PlayerId, PlayerZones>)
    requires a.Keys == b.Keys
    requires forall q: Place :: At(a, q) == At(b, q)
    ensures a == b
  {
    forall p | p in a ensures a[p] == b[p] {
      assert At(a, Place(p, Library)) == At(b, Place(p, Library));
      assert At(a, Place(p, Hand)) == At(b, Place(p, Hand));
      assert At(a, Place(p, Battlefield)) == At(b, Place(p, Battlefield));
      assert At(a, Place(p, Graveyard)) == At(b, Place(p, Graveyard));
      assert At(a, Place(p, Exile)) == At(b, Place(p, Exile));
      assert At(a, Place(p, Command)) == At(b, Place(p, Command));
    }
  }

  lemma EmptyOrNot(s: seq<CardId>)
    ensures s == [] || exists c :: c in s
  {
    if s != [] { assert s[0] in s; }
  }
}
