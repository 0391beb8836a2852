/** The batches of a movement as the grouping loop builds them, first appearance first. */
module MoveBatches {
  import opened Common
  import opened Table
  import opened Slots
  import opened Movement
  import opened TableReject

  datatype Batch = Batch(player: PlayerId, ids: seq<CardId>)

  function Batches(ids: seq<CardId>, dest: map<CardId, PlayerId>): seq<Batch>
    requires SetOf(ids) <= dest.Keys
    decreases |ids|
  {
    if ids == [] then []
    else
      assert ids[0] in SetOf(ids);
      var d := dest[ids[0]];
      StayingMembers(ids, dest, d);
      [Batch(d, Going(ids, dest, d))] + Batches(Staying(ids, dest, d), dest)
  }

  /** One more card: at the end of its player's batch, or in a batch of its own. */
  function AddTo(batches: seq<Batch>, d: PlayerId, c: CardId): seq<Batch> {
    if batches == [] then [Batch(d, [c])]
    else if batches[0].player == d then [Batch(d, batches[0].ids + [c])] + batches[1..]
    else [batches[0]] + AddTo(batches[1..], d, c)
  }

  lemma {:induction false} AddToAt(batches: seq<Batch>, d: PlayerId, c: CardId, k: nat)
    requires k < |batches| && batches[k].player == d && forall j | 0 <= j < k :: batches[j].player != d
    ensures AddTo(batches, d, c) == batches[k := Batch(d, batches[k].ids + [c])]
  {
    if k > 0 { AddToAt(batches[1..], d, c, k - 1); }
  }

  lemma {:induction false} AddToNone(batches: seq<Batch>, d: PlayerId, c: CardId)
    requires forall j | 0 <= j < |batches| :: batches[j].player != d
    ensures AddTo(batches, d, c) == batches + [Batch(d, [c])]
  {
    if batches != [] { AddToNone(batches[1..], d, c); }
  }

  lemma GoingMore(ids: seq<CardId>, dest: map<CardId, PlayerId>, c: CardId, d: PlayerId)
    requires c in dest
    ensures Going(ids + [c], dest, d) == Going(ids, dest, d) + if dest[c] == d then [c] else []
    ensures Staying(ids + [c], dest, d) == Staying(ids, dest, d) + if dest[c] == d then [] else [c]
  {
    var all := ids + [c];
    var others := set x | x in all && (x !in dest || dest[x] != d);
    var own := set x | x in all && x in dest && dest[x] == d;
    assert all[..|all| - 1] == ids;
    WithoutSame(ids, others, set x | x in ids && (x !in dest || dest[x] != d));
    WithoutSame(ids, own, set x | x in ids && x in dest && dest[x] == d);
  }

  /** One step of `Batches`. */
  lemma FirstBatch(ids: seq<CardId>, dest: map<CardId, PlayerId>, d: PlayerId, going: seq<CardId>, staying: seq<CardId>)
    requires ids != [] && SetOf(ids) <= dest.Keys && ids[0] in dest && dest[ids[0]] == d
    requires going == Going(ids, dest, d) && staying == Staying(ids, dest, d)
    ensures |staying| < |ids| && SetOf(staying) <= dest.Keys
    ensures Batches(ids, dest) == [Batch(d, going)] + Batches(staying, dest)
  {
    StayingMembers(ids, dest, d);
  }

  lemma {:induction false} BatchesMore(ids: seq<CardId>, dest: map<CardId, PlayerId>, c: CardId)
    requires SetOf(ids) <= dest.Keys && c in dest
    ensures SetOf(ids + [c]) <= dest.Keys
    ensures Batches(ids + [c], dest) == AddTo(Batches(ids, dest), dest[c], c)
    decreases |ids|
  {
    var all := ids + [c];
    assert SetOf(all) == SetOf(ids) + {c};
    assert all[0] in SetOf(all);
    var d := dest[all[0]];
    var going, staying := Going(ids, dest, d), Staying(ids, dest, d);
    GoingMore(ids, dest, c, d);
    if ids == [] {
      assert going == [] && staying == [] && [] + [c] == [c];
      FirstBatch(all, dest, d, [c], []);
    } else {
      assert ids[0] in SetOf(ids);
      FirstBatch(ids, dest, d, going, staying);
      if dest[c] == d {
        FirstBatch(all, dest, d, going + [c], staying);
      } else {
        FirstBatch(all, dest, d, going, staying + [c]);
        BatchesMore(staying, dest, c);
      }
    }
  }

  lemma {:induction false} SplitNoDup(s: seq<CardId>, a: set<CardId>, b: set<CardId>)
    requires NoDup(Without(s, a)) && NoDup(Without(s, b))
    requires forall c | c in s :: c !in a || c !in b
    ensures NoDup(s)
  {
    if s != [] {
      var n := |s| - 1;
      assert Without(s, a)[..|Without(s[..n], a)|] == Without(s[..n], a);
      assert Without(s, b)[..|Without(s[..n], b)|] == Without(s[..n], b);
      PrefixNoDup(Without(s, a), |Without(s[..n], a)|);
      PrefixNoDup(Without(s, b), |Without(s[..n], b)|);
      SplitNoDup(s[..n], a, b);
      WithoutMembers(s[..n], a);
      WithoutMembers(s[..n], b);
      var x := if s[n] in a then b else a;
      var w := Without(s[..n], x);
      assert Without(s, x) == w + [s[n]];
      LastApart(w, s[n]);
    }
  }

  lemma LastApart(s: seq<CardId>, c: CardId)
    requires NoDup(s + [c])
    ensures c !in s
  {
    forall i | 0 <= i < |s| ensures s[i] != c {
      assert (s + [c])[i] == s[i] && (s + [c])[|s|] == c;
    }
  }

  lemma PrefixNoDup(s: seq<CardId>, n: nat)
    requires NoDup(s) && n <= |s|
    ensures NoDup(s[..n])
  {}

  /** If no batch names a card twice, the request does not. */
  lemma {:induction false} DistinctBatches(ids: seq<CardId>, dest: map<CardId, PlayerId>)
    requires SetOf(ids) <= dest.Keys
    requires forall k | 0 <= k < |Batches(ids, dest)| :: NoDup(Batches(ids, dest)[k].ids)
    ensures NoDup(ids)
    decreases |ids|
  {
    if ids != [] {
      assert ids[0] in SetOf(ids);
      var d := dest[ids[0]];
      StayingMembers(ids, dest, d);
      var rest := Staying(ids, dest, d);
      assert Batches(ids, dest)[0].ids == Going(ids, dest, d);
      forall k | 0 <= k < |Batches(rest, dest)| ensures NoDup(Batches(rest, dest)[k].ids) {
        assert Batches(rest, dest)[k] == Batches(ids, dest)[k + 1];
      }
      DistinctBatches(rest, dest);
      SplitNoDup(ids, set c | c in ids && (c !in dest || dest[c] != d), set c | c in ids && c in dest && dest[c] == d);
    }
  }
}
