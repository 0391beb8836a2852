/** Patch operations gathered while a command runs, and the envelopes they are sent in. */
module Patches {
  import opened Common

  /** In the order their names sort: groups before players; public is kept apart. */
  datatype Visibility = Public | ToGroup(mask: nat) | ToPlayer(player: PlayerId)

  /** `Change` stands for any operation with its data. */
  datatype PatchOp = VersionAdvance | Change(data: nat)

  datatype Envelope = Envelope(version: nat, visibility: Visibility, ops: seq<PatchOp>, ack: ActionId)

  datatype Emission = Emission(visibility: Visibility, op: PatchOp)

  /** The operations emitted for one audience, in order. */
  function For(emitted: seq<Emission>, v: Visibility): seq<PatchOp> {
    if emitted == [] then []
    else
      var n := |emitted| - 1;
      For(emitted[..n], v) + if emitted[n].visibility == v then [emitted[n].op] else []
  }

  predicate Addressed(emitted: seq<Emission>, v: Visibility) {
    exists e :: e in emitted && e.visibility == v
  }

  lemma {:induction false} ForNonEmpty(emitted: seq<Emission>, v: Visibility)
    ensures For(emitted, v) != [] <==> Addressed(emitted, v)
  {
    if emitted != [] {
      var n := |emitted| - 1;
      ForNonEmpty(emitted[..n], v);
      assert emitted == emitted[..n] + [emitted[n]];
      if e :| e in emitted && e.visibility == v { assert e in emitted[..n] || e == emitted[n]; }
      if e :| e in emitted[..n] && e.visibility == v { assert e in emitted; }
      if emitted[n].visibility == v { assert emitted[n] in emitted; }
    }
  }

  function Groups(emitted: seq<Emission>): set<nat> {
    set e | e in emitted && e.visibility.ToGroup? :: e.visibility.mask
  }

  function Players(emitted: seq<Emission>): set<PlayerId> {
    set e | e in emitted && e.visibility.ToPlayer? :: e.visibility.player
  }

  function ToGroups(masks: seq<nat>): seq<Visibility> {
    seq(|masks|, i requires 0 <= i < |masks| => ToGroup(masks[i]))
  }

  function ToPlayers(ids: seq<PlayerId>): seq<Visibility> {
    seq(|ids|, i requires 0 <= i < |ids| => ToPlayer(ids[i]))
  }

  /** The private audiences in sorting order. */
  function Audiences(emitted: seq<Emission>): seq<Visibility> {
    ToGroups(SortedIds(Groups(emitted))) + ToPlayers(SortedIds(Players(emitted)))
  }

  function PublicOps(emitted: seq<Emission>): seq<PatchOp> {
    if For(emitted, Public) == [] then [VersionAdvance] else For(emitted, Public)
  }

  /** One envelope for each audience. */
  function Addressings(emitted: seq<Emission>, audiences: seq<Visibility>, version: nat, ack: ActionId): seq<Envelope> {
    if audiences == [] then []
    else
      var n := |audiences| - 1;
      Addressings(emitted, audiences[..n], version, ack) + [Envelope(version, audiences[n], For(emitted, audiences[n]), ack)]
  }

  /** The envelopes of one command: private ones sorted by audience, then the public one,
      which carries a bare version advance when nothing public happened. */
  function EnvelopesOf(emitted: seq<Emission>, version: nat, ack: ActionId): seq<Envelope> {
    Addressings(emitted, Audiences(emitted), version, ack) + [Envelope(version, Public, PublicOps(emitted), ack)]
  }

  class PatchEmitter {
    var opsByVisibility: map<Visibility, seq<PatchOp>>
    ghost var emitted: seq<Emission>

    ghost predicate Valid()
      reads this
    {
      && (forall v :: v in opsByVisibility <==> Addressed(emitted, v))
      && (forall v | v in opsByVisibility :: opsByVisibility[v] == For(emitted, v))
    }

    constructor ()
      ensures Valid() && emitted == []
    {
      opsByVisibility := map[];
      emitted := [];
    }

    method AddOp(v: Visibility, op: PatchOp)
      requires Valid()
      modifies this
      ensures Valid() && emitted == old(emitted) + [Emission(v, op)]
    {
      Addressing(emitted, v, op);
      opsByVisibility := opsByVisibility[v := (if v in opsByVisibility then opsByVisibility[v] else []) + [op]];
      emitted := emitted + [Emission(v, op)];
    }

    method Envelopes(version: nat, ack: ActionId) returns (envelopes: seq<Envelope>)
      requires Valid()
      ensures envelopes == EnvelopesOf(emitted, version, ack)
    {
      var audiences := PrivateAudiences(opsByVisibility.Keys);
      AudiencesSorted(emitted, opsByVisibility.Keys, audiences);
      envelopes := PrivateEnvelopes(opsByVisibility, audiences, version, ack, emitted);
      PublicAddressed(emitted);
      var publicOps := if Public in opsByVisibility then opsByVisibility[Public] else [VersionAdvance];
      envelopes := envelopes + [Envelope(version, Public, publicOps, ack)];
    }
  }

  function PrivateAudiences(keys: set<Visibility>): seq<Visibility> {
    ToGroups(SortedIds(set v | v in keys && v.ToGroup? :: v.mask))
    + ToPlayers(SortedIds(set v | v in keys && v.ToPlayer? :: v.player))
  }

  method PrivateEnvelopes(ops: map<Visibility, seq<PatchOp>>, audiences: seq<Visibility>, version: nat, ack: ActionId,
                          ghost emitted: seq<Emission>) returns (envelopes: seq<Envelope>)
    requires forall v | v in audiences :: v in ops && ops[v] == For(emitted, v)
    ensures envelopes == Addressings(emitted, audiences, version, ack)
  {
    envelopes := [];
    for i := 0 to |audiences|
      invariant envelopes == Addressings(emitted, audiences[..i], version, ack)
    {
      assert audiences[i] in audiences;
      assert audiences[..i + 1][..i] == audiences[..i];
      envelopes := envelopes + [Envelope(version, audiences[i], ops[audiences[i]], ack)];
    }
    assert audiences[..|audiences|] == audiences;
  }

  lemma AudiencesSorted(emitted: seq<Emission>, keys: set<Visibility>, audiences: seq<Visibility>)
    requires forall v :: v in keys <==> Addressed(emitted, v)
    requires audiences == PrivateAudiences(keys)
    ensures audiences == Audiences(emitted)
    ensures forall v | v in audiences :: v in keys
  {
    SameAudiences(emitted, keys, set v | v in keys && v.ToGroup? :: v.mask, set v | v in keys && v.ToPlayer? :: v.player);
    AudiencesMembers(emitted);
  }

  lemma PublicAddressed(emitted: seq<Emission>)
    ensures For(emitted, Public) == [] <==> !Addressed(emitted, Public)
  {
    ForNonEmpty(emitted, Public);
  }

  lemma Addressing(emitted: seq<Emission>, v: Visibility, op: PatchOp)
    ensures forall w :: Addressed(emitted + [Emission(v, op)], w) <==> Addressed(emitted, w) || w == v
    ensures forall w :: For(emitted + [Emission(v, op)], w) == For(emitted, w) + if w == v then [op] else []
    ensures !Addressed(emitted, v) ==> For(emitted, v) == []
  {
    var all := emitted + [Emission(v, op)];
    assert all[..|all| - 1] == emitted;
    ForNonEmpty(emitted, v);
    forall w ensures Addressed(all, w) <==> Addressed(emitted, w) || w == v {
      if w == v { assert all[|emitted|] in all; }
      if e :| e in emitted && e.visibility == w { assert e in all; }
    }
  }

  lemma SameAudiences(emitted: seq<Emission>, keys: set<Visibility>, masks: set<nat>, players: set<PlayerId>)
    requires forall v :: v in keys <==> Addressed(emitted, v)
    requires masks == set v | v in keys && v.ToGroup? :: v.mask
    requires players == set v | v in keys && v.ToPlayer? :: v.player
    ensures masks == Groups(emitted) && players == Players(emitted)
  {
    forall m ensures m in masks <==> m in Groups(emitted) {
      if m in masks { assert Addressed(emitted, ToGroup(m)); }
      if m in Groups(emitted) { assert Addressed(emitted, ToGroup(m)) && ToGroup(m) in keys; }
    }
    forall p ensures p in players <==> p in Players(emitted) {
      if p in players { assert Addressed(emitted, ToPlayer(p)); }
      if p in Players(emitted) { assert Addressed(emitted, ToPlayer(p)) && ToPlayer(p) in keys; }
    }
  }

  /** The private audiences are exactly those addressed, each once. */
  lemma AudiencesMembers(emitted: seq<Emission>)
    ensures forall v :: v in Audiences(emitted) <==> v != Public && Addressed(emitted, v)
    ensures forall i, j | 0 <= i < j < |Audiences(emitted)| :: SortsBefore(Audiences(emitted)[i], Audiences(emitted)[j])
  {
    var masks, ids := SortedIds(Groups(emitted)), SortedIds(Players(emitted));
    var audiences := Audiences(emitted);
    forall v ensures v in audiences <==> v != Public && Addressed(emitted, v) {
      match v
      case Public =>
      case ToGroup(m) =>
        assert m in Groups(emitted) <==> m in SetOf(masks);
        if m in masks {
          var i :| 0 <= i < |masks| && masks[i] == m;
          assert audiences[i] == v;
        }
      case ToPlayer(p) =>
        assert p in Players(emitted) <==> p in SetOf(ids);
        if p in ids {
          var i :| 0 <= i < |ids| && ids[i] == p;
          assert audiences[|masks| + i] == v;
        }
    }
  }

  predicate Sees(viewer: PlayerId, groups: set<nat>, v: Visibility) {
    match v
    case Public => true
    case ToPlayer(p) => p == viewer
    case ToGroup(m) => m in groups
  }

  function Visible(envelopes: seq<Envelope>, viewer: PlayerId, groups: set<nat>): seq<Envelope> {
    if envelopes == [] then []
    else
      var n := |envelopes| - 1;
      Visible(envelopes[..n], viewer, groups) + if Sees(viewer, groups, envelopes[n].visibility) then [envelopes[n]] else []
  }

  lemma {:induction false} VisibleConcat(a: seq<Envelope>, b: seq<Envelope>, viewer: PlayerId, groups: set<nat>)
    ensures Visible(a + b, viewer, groups) == Visible(a, viewer, groups) + Visible(b, viewer, groups)
  {
    if b == [] {
      assert a + b == a;
    } else {
      var n := |b| - 1;
      VisibleConcat(a, b[..n], viewer, groups);
      assert (a + b)[..|a + b| - 1] == a + b[..n];
    }
  }

  /** Groups before players, each by number, and public last. */
  predicate SortsBefore(v: Visibility, w: Visibility) {
    match v
    case Public => false
    case ToGroup(m) => (match w case ToGroup(n) => m < n case _ => true)
    case ToPlayer(p) => (match w case ToPlayer(q) => p < q case ToGroup(_) => false case Public => true)
  }

  /** The envelopes of one version: one public envelope, the last; one for each private
      audience, sorted; each with that audience's operations in the order they were emitted. */
  ghost predicate Complete(envelopes: seq<Envelope>, emitted: seq<Emission>, version: nat, ack: ActionId) {
    && envelopes != [] && envelopes[|envelopes| - 1].visibility == Public
    && (forall i | 0 <= i < |envelopes| :: envelopes[i].version == version && envelopes[i].ack == ack && envelopes[i].ops != [])
    && (forall i, j | 0 <= i < j < |envelopes| :: SortsBefore(envelopes[i].visibility, envelopes[j].visibility))
    && (forall v | Addressed(emitted, v) :: exists i :: 0 <= i < |envelopes| && envelopes[i].visibility == v)
    && (forall i | 0 <= i < |envelopes| :: envelopes[i].ops == For(emitted, envelopes[i].visibility)
          || (envelopes[i].visibility == Public && !Addressed(emitted, Public) && envelopes[i].ops == [VersionAdvance]))
  }

  lemma EnvelopesComplete(emitted: seq<Emission>, version: nat, ack: ActionId)
    ensures Complete(EnvelopesOf(emitted, version, ack), emitted, version, ack)
  {
    var audiences := Audiences(emitted);
    AudiencesMembers(emitted);
    ForNonEmpty(emitted, Public);
    AddressingsAt(emitted, audiences, version, ack);
    AllAddressed(emitted, audiences);
    CompleteFrom(emitted, audiences, EnvelopesOf(emitted, version, ack), version, ack);
  }

  lemma AllAddressed(emitted: seq<Emission>, audiences: seq<Visibility>)
    requires forall v :: v in audiences <==> v != Public && Addressed(emitted, v)
    ensures forall i | 0 <= i < |audiences| :: audiences[i] != Public && For(emitted, audiences[i]) != []
  {
    forall i | 0 <= i < |audiences| ensures audiences[i] != Public && For(emitted, audiences[i]) != [] {
      assert audiences[i] in audiences;
      ForNonEmpty(emitted, audiences[i]);
    }
  }

  lemma {:induction false} AddressingsAt(emitted: seq<Emission>, audiences: seq<Visibility>, version: nat, ack: ActionId)
    ensures var r := Addressings(emitted, audiences, version, ack);
      |r| == |audiences| && forall i | 0 <= i < |r| :: r[i] == Envelope(version, audiences[i], For(emitted, audiences[i]), ack)
  {
    if audiences != [] { AddressingsAt(emitted, audiences[..|audiences| - 1], version, ack); }
  }

  lemma CompleteFrom(emitted: seq<Emission>, audiences: seq<Visibility>, envelopes: seq<Envelope>, version: nat, ack: ActionId)
    requires forall v :: v in audiences <==> v != Public && Addressed(emitted, v)
    requires forall i, j | 0 <= i < j < |audiences| :: SortsBefore(audiences[i], audiences[j])
    requires forall i | 0 <= i < |audiences| :: audiences[i] != Public && For(emitted, audiences[i]) != []
    requires For(emitted, Public) != [] <==> Addressed(emitted, Public)
    requires |envelopes| == |audiences| + 1 && envelopes[|audiences|] == Envelope(version, Public, PublicOps(emitted), ack)
    requires forall i | 0 <= i < |audiences| :: envelopes[i] == Envelope(version, audiences[i], For(emitted, audiences[i]), ack)
    ensures Complete(envelopes, emitted, version, ack)
  {
    AudiencesReached(emitted, audiences, envelopes);
    forall i, j | 0 <= i < j < |envelopes| ensures SortsBefore(envelopes[i].visibility, envelopes[j].visibility) {
      if j < |audiences| { assert SortsBefore(audiences[i], audiences[j]); }
    }
  }

  lemma AudiencesReached(emitted: seq<Emission>, audiences: seq<Visibility>, envelopes: seq<Envelope>)
    requires forall v :: v in audiences <==> v != Public && Addressed(emitted, v)
    requires |envelopes| == |audiences| + 1 && envelopes[|audiences|].visibility == Public
    requires forall i | 0 <= i < |audiences| :: envelopes[i].visibility == audiences[i]
    ensures forall v | Addressed(emitted, v) :: exists i :: 0 <= i < |envelopes| && envelopes[i].visibility == v
  {
    forall v | Addressed(emitted, v) ensures exists i :: 0 <= i < |envelopes| && envelopes[i].visibility == v {
      if v == Public {
        assert envelopes[|audiences|].visibility == v;
      } else {
        var i :| 0 <= i < |audiences| && audiences[i] == v;
        assert envelopes[i].visibility == v;
      }
    }
  }
}
