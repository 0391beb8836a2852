/**
  Windows onto the top card of a library: who may look, and the bit mask that says so.
  A mask is the set of its bit positions.
 */
module Reveals {
  import opened Common

  type Mask = set<nat>

  datatype Window = Window(count: int, epoch: int, viewers: seq<PlayerId>, mask: Mask)

  /** The bit that stands for everybody when a reveal names nobody. */
  const FALLBACK: Mask := {0}

  /** The recipients of a request: names, and a mask given outright, which wins when present. */
  datatype Recipients = Recipients(viewers: seq<PlayerId>, explicit: Mask)

  function MaskOf(bits: map<PlayerId, nat>, viewers: seq<PlayerId>): Mask {
    set v | v in viewers && v in bits :: bits[v]
  }

  function TargetMask(bits: map<PlayerId, nat>, r: Recipients): Mask {
    if r.explicit != {} then r.explicit else MaskOf(bits, r.viewers)
  }

  function Merged(existing: seq<PlayerId>, requested: seq<PlayerId>): seq<PlayerId> {
    if requested == [] then Deduplicated(existing)
    else
      var n := |requested| - 1;
      var before := Merged(existing, requested[..n]);
      if requested[n] in before then before else before + [requested[n]]
  }

  function Deduplicated(s: seq<PlayerId>): seq<PlayerId> {
    if s == [] then []
    else
      var n := |s| - 1;
      var before := Deduplicated(s[..n]);
      if s[n] in before then before else before + [s[n]]
  }

  function Remaining(viewers: seq<PlayerId>, removed: seq<PlayerId>): seq<PlayerId> {
    if viewers == [] then []
    else
      var n := |viewers| - 1;
      Remaining(viewers[..n], removed) + if viewers[n] in removed then [] else [viewers[n]]
  }

  /** An existing window is extended only for the same count and the same order of the library. */
  predicate Extends(w: Option<Window>, count: int, epoch: int) {
    w.Some? && w.value.epoch == epoch && w.value.count == count
  }

  function Reveal(bits: map<PlayerId, nat>, w: Option<Window>, count: int, epoch: int, r: Recipients): Window {
    var mask := if TargetMask(bits, r) == {} then FALLBACK else TargetMask(bits, r);
    if Extends(w, count, epoch) then Window(count, epoch, Merged(w.value.viewers, r.viewers), mask + w.value.mask)
    else Window(count, epoch, r.viewers, mask)
  }

  /** The bits a stop takes away: those of its targets, a stale remainder that belongs to no
      viewer, and everything when the targets cannot be told apart in the mask. */
  function Removal(bits: map<PlayerId, nat>, w: Window, r: Recipients): Mask {
    var direct := (w.mask * TargetMask(bits, r)) + (w.mask - MaskOf(bits, w.viewers));
    if direct != {} then direct
    else
      var named := MaskOf(bits, r.viewers) * w.mask;
      if named != {} then named
      else if exists v :: v in w.viewers && v in r.viewers then w.mask
      else {}
  }

  /** Stopping for some recipients, or for all when none are given. */
  function Stop(bits: map<PlayerId, nat>, w: Window, r: Option<Recipients>, epoch: int): Option<Window> {
    var removed := if r.Some? then Removal(bits, w, r.value) else w.mask;
    var left := w.mask - removed;
    if left == {} then None
    else Some(Window(w.count, epoch, if r.Some? then Remaining(w.viewers, r.value.viewers) else w.viewers, left))
  }

  // -------------------------------------------------------------- invariant

  ghost predicate DistinctBits(bits: map<PlayerId, nat>) {
    forall p, q | p in bits && q in bits && p != q :: bits[p] != bits[q]
  }

  /** Every viewer has a bit, the mask is exactly their bits, and somebody is looking. */
  ghost predicate Honest(bits: map<PlayerId, nat>, w: Window) {
    && w.viewers != [] && (forall v | v in w.viewers :: v in bits)
    && w.mask == MaskOf(bits, w.viewers)
  }

  lemma {:induction false} DeduplicatedMembers(s: seq<PlayerId>)
    ensures forall v :: v in Deduplicated(s) <==> v in s
  {
    if s != [] {
      var n := |s| - 1;
      DeduplicatedMembers(s[..n]);
      assert s == s[..n] + [s[n]];
    }
  }

  /** Every name once, in the order in which names first appear: what was there stays in front
      of whatever comes later. */
  lemma {:induction false} DeduplicatedInOrder(s: seq<PlayerId>, more: seq<PlayerId>)
    ensures NoDup(Deduplicated(s))
    ensures Deduplicated(s) <= Deduplicated(s + more)
  {
    if more == [] {
      assert s + more == s;
      if s != [] { DeduplicatedInOrder(s[..|s| - 1], []); }
    } else {
      var n := |more| - 1;
      DeduplicatedInOrder(s, more[..n]);
      assert (s + more)[..|s + more| - 1] == s + more[..n];
    }
  }

  /** A reveal that extends a window names its viewers first, then the new ones. */
  lemma {:induction false} MergedIsDeduplicated(existing: seq<PlayerId>, requested: seq<PlayerId>)
    ensures Merged(existing, requested) == Deduplicated(existing + requested)
  {
    if requested == [] {
      assert existing + requested == existing;
    } else {
      var n := |requested| - 1;
      MergedIsDeduplicated(existing, requested[..n]);
      assert (existing + requested)[..|existing + requested| - 1] == existing + requested[..n];
    }
  }

  /** Those who remain keep their order. */
  lemma {:induction false} RemainingInOrder(a: seq<PlayerId>, b: seq<PlayerId>, removed: seq<PlayerId>)
    ensures Remaining(a + b, removed) == Remaining(a, removed) + Remaining(b, removed)
    ensures |Remaining(b, removed)| <= |b|
  {
    if b == [] {
      assert a + b == a;
    } else {
      var n := |b| - 1;
      RemainingInOrder(a, b[..n], removed);
      assert (a + b)[..|a + b| - 1] == a + b[..n];
    }
  }

  lemma {:induction false} MergedMembers(existing: seq<PlayerId>, requested: seq<PlayerId>)
    ensures forall v :: v in Merged(existing, requested) <==> v in existing || v in requested
  {
    if requested == [] {
      DeduplicatedMembers(existing);
    } else {
      var n := |requested| - 1;
      MergedMembers(existing, requested[..n]);
      assert requested == requested[..n] + [requested[n]];
    }
  }

  lemma {:induction false} RemainingMembers(viewers: seq<PlayerId>, removed: seq<PlayerId>)
    ensures forall v :: v in Remaining(viewers, removed) <==> v in viewers && v !in removed
  {
    if viewers != [] {
      var n := |viewers| - 1;
      RemainingMembers(viewers[..n], removed);
      assert viewers == viewers[..n] + [viewers[n]];
    }
  }

  /** A reveal by names keeps the window honest if and only if every named viewer has a bit
      and somebody is named, or the window it extends already holds the fallback bit. */
  lemma RevealHonestIff(bits: map<PlayerId, nat>, w: Option<Window>, count: int, epoch: int, viewers: seq<PlayerId>)
    requires w.Some? ==> Honest(bits, w.value)
    ensures Honest(bits, Reveal(bits, w, count, epoch, Recipients(viewers, {}))) <==>
      && (forall v | v in viewers :: v in bits)
      && (viewers != [] || (w.Some? && w.value.epoch == epoch && w.value.count == count && 0 in w.value.mask))
  {
    var r := Reveal(bits, w, count, epoch, Recipients(viewers, {}));
    if Extends(w, count, epoch) { MergedMembers(w.value.viewers, viewers); }
    var mask := MaskOf(bits, viewers);
    if viewers != [] && forall v | v in viewers :: v in bits {
      assert bits[viewers[0]] in mask;
    }
    if viewers == [] {
      assert mask == {};
      assert 0 in r.mask;
    }
    if w.Some? && w.value.viewers != [] { assert w.value.viewers[0] in w.value.viewers; }
  }

  /** A reveal lets exactly the named viewers join those already looking. */
  lemma RevealAdds(bits: map<PlayerId, nat>, w: Option<Window>, count: int, epoch: int, r: Recipients)
    ensures forall v :: v in Reveal(bits, w, count, epoch, r).viewers <==>
      v in r.viewers || (w.Some? && w.value.epoch == epoch && w.value.count == count && v in w.value.viewers)
  {
    if Extends(w, count, epoch) { MergedMembers(w.value.viewers, r.viewers); }
  }

  /** A stop by names removes exactly the named viewers and their bits, closes the window
      exactly when nobody remains, and keeps it honest otherwise. */
  lemma StopRemovesExactly(bits: map<PlayerId, nat>, w: Window, viewers: seq<PlayerId>, epoch: int)
    requires DistinctBits(bits) && Honest(bits, w)
    ensures var w' := Stop(bits, w, Some(Recipients(viewers, {})), epoch);
      && (w'.None? <==> forall v | v in w.viewers :: v in viewers)
      && (w'.Some? ==> Honest(bits, w'.value) && w'.value.count == w.count
                       && w'.value.epoch == epoch && forall v :: v in w'.value.viewers <==> v in w.viewers && v !in viewers)
  {
    var r := Recipients(viewers, {});
    var removed := Removal(bits, w, r);
    var remaining := Remaining(w.viewers, viewers);
    RemainingMembers(w.viewers, viewers);
    assert w.mask - MaskOf(bits, w.viewers) == {};
    NobodyShared(bits, w, viewers);
    assert removed == w.mask * MaskOf(bits, viewers);
    assert w.mask - removed == MaskOf(bits, remaining) by {
      forall b ensures b in w.mask - removed <==> b in MaskOf(bits, remaining) {
        if b in w.mask {
          var v :| v in w.viewers && v in bits && bits[v] == b;
          assert b in MaskOf(bits, viewers) <==> v in viewers;
        }
      }
    }
    if v :| v in w.viewers && v !in viewers {
      assert v in remaining && bits[v] in MaskOf(bits, remaining);
    }
    if remaining != [] { assert remaining[0] in remaining && bits[remaining[0]] in MaskOf(bits, remaining); }
  }

  /** A stop for everybody closes the window, whatever it holds. */
  lemma StopForAllCloses(bits: map<PlayerId, nat>, w: Window, epoch: int)
    ensures Stop(bits, w, None, epoch) == None
  {}

  /** Who is meant: the bits given outright, or else those of the named viewers. */
  predicate Meant(bits: map<PlayerId, nat>, r: Recipients, b: nat) {
    if r.explicit != {} then b in r.explicit else exists v :: v in r.viewers && v in bits && bits[v] == b
  }

  /** A bit of the window that belongs to none of its viewers. */
  predicate Stale(bits: map<PlayerId, nat>, w: Window, b: nat) {
    b in w.mask && !(exists v :: v in w.viewers && v in bits && bits[v] == b)
  }

  /** A stop for some, on any window, honest or not: no bit that is meant and none that belongs
      to nobody is left; every other bit is, unless that takes nothing away although a viewer
      was named: then the named viewers' own bits go, and without those the window closes. */
  lemma StopLeaves(bits: map<PlayerId, nat>, w: Window, r: Recipients, epoch: int)
    ensures var left := (match Stop(bits, w, Some(r), epoch) case None => {} case Some(w') => w'.mask);
      && (forall b | b in left :: b in w.mask && !Meant(bits, r, b) && !Stale(bits, w, b))
      && ((exists b :: b in w.mask && (Meant(bits, r, b) || Stale(bits, w, b))) ==>
            forall b | b in w.mask && !Meant(bits, r, b) && !Stale(bits, w, b) :: b in left)
      && (!(exists b :: b in w.mask && (Meant(bits, r, b) || Stale(bits, w, b))) ==>
            left == if w.mask * MaskOf(bits, r.viewers) != {} then w.mask - MaskOf(bits, r.viewers)
                    else if exists v :: v in w.viewers && v in r.viewers then {} else w.mask)
  {
    var direct := (w.mask * TargetMask(bits, r)) + (w.mask - MaskOf(bits, w.viewers));
    assert forall b :: b in TargetMask(bits, r) <==> Meant(bits, r, b);
    assert forall b :: b in w.mask - MaskOf(bits, w.viewers) <==> Stale(bits, w, b);
    assert forall b :: b in direct <==> b in w.mask && (Meant(bits, r, b) || Stale(bits, w, b));
  }

  /** The bits of a revealed window: those meant, or the fallback bit when nobody is, and those
      of the window it extends. */
  lemma RevealBits(bits: map<PlayerId, nat>, w: Option<Window>, count: int, epoch: int, r: Recipients)
    ensures var w' := Reveal(bits, w, count, epoch, r);
      && w'.count == count && w'.epoch == epoch
      && forall b :: b in w'.mask <==>
           || Meant(bits, r, b)
           || (b == 0 && !exists x :: Meant(bits, r, x))
           || (w.Some? && w.value.epoch == epoch && w.value.count == count && b in w.value.mask)
  {
    assert forall b :: b in TargetMask(bits, r) <==> Meant(bits, r, b);
    if x :| Meant(bits, r, x) { assert x in TargetMask(bits, r); }
  }

  /** Without a shared bit there is no shared viewer. */
  lemma NobodyShared(bits: map<PlayerId, nat>, w: Window, viewers: seq<PlayerId>)
    requires Honest(bits, w)
    ensures w.mask * MaskOf(bits, viewers) == {} ==> !exists v :: v in w.viewers && v in viewers
  {
    if v :| v in w.viewers && v in viewers {
      assert bits[v] in w.mask * MaskOf(bits, viewers);
    }
  }

  // -------------------------------------------------------------------- runs

  datatype Request = Show(count: int, epoch: int, viewers: seq<PlayerId>) | Hide(viewers: seq<PlayerId>, epoch: int) | HideAll(epoch: int)

  function Step(bits: map<PlayerId, nat>, w: Option<Window>, q: Request): Option<Window> {
    match q
    case Show(count, epoch, viewers) => Some(Reveal(bits, w, count, epoch, Recipients(viewers, {})))
    case Hide(viewers, epoch) => if w.None? then None else Stop(bits, w.value, Some(Recipients(viewers, {})), epoch)
    case HideAll(epoch) => if w.None? then None else Stop(bits, w.value, None, epoch)
  }

  function Run(bits: map<PlayerId, nat>, qs: seq<Request>): Option<Window> {
    if qs == [] then None else Step(bits, Run(bits, qs[..|qs| - 1]), qs[|qs| - 1])
  }

  /** Who should be looking after one request: a reveal under an unchanged order and count
      adds, any other starts afresh. */
  function Audience(was: set<PlayerId>, w: Option<Window>, q: Request): set<PlayerId> {
    match q
    case Show(count, epoch, viewers) =>
      SetOf(viewers) + if w.Some? && w.value.epoch == epoch && w.value.count == count then was else {}
    case Hide(viewers, _) => was - SetOf(viewers)
    case HideAll(_) => {}
  }

  function AudienceOf(bits: map<PlayerId, nat>, qs: seq<Request>): set<PlayerId> {
    if qs == [] then {}
    else
      var n := |qs| - 1;
      Audience(AudienceOf(bits, qs[..n]), Run(bits, qs[..n]), qs[n])
  }

  /** The window shows exactly this audience. */
  ghost predicate Shows(bits: map<PlayerId, nat>, w: Option<Window>, audience: set<PlayerId>) {
    match w
    case None => audience == {}
    case Some(window) => audience != {} && Honest(bits, window) && forall v :: v in window.viewers <==> v in audience
  }

  lemma ShowStep(bits: map<PlayerId, nat>, w: Option<Window>, was: set<PlayerId>, q: Request)
    requires Shows(bits, w, was) && q.Show? && q.viewers != [] && forall v | v in q.viewers :: v in bits
    ensures Shows(bits, Step(bits, w, q), Audience(was, w, q))
  {
    RevealHonestIff(bits, w, q.count, q.epoch, q.viewers);
    RevealAdds(bits, w, q.count, q.epoch, Recipients(q.viewers, {}));
    assert q.viewers[0] in SetOf(q.viewers);
  }

  lemma HideStep(bits: map<PlayerId, nat>, w: Option<Window>, was: set<PlayerId>, q: Request)
    requires DistinctBits(bits) && Shows(bits, w, was) && q.Hide?
    ensures Shows(bits, Step(bits, w, q), Audience(was, w, q))
  {
    if w.Some? {
      StopRemovesExactly(bits, w.value, q.viewers, q.epoch);
      var left := Audience(was, w, q);
      if v :| v in w.value.viewers && v !in q.viewers { assert v in left; }
      assert forall v | v in left :: v in w.value.viewers && v !in q.viewers;
    }
  }

  /** Over any run of reveals and stops by names of known players, the window is open exactly
      when somebody should be looking, its viewers are exactly those, and its mask is theirs. */
  lemma {:induction false} RunShowsAudience(bits: map<PlayerId, nat>, qs: seq<Request>)
    requires DistinctBits(bits)
    requires forall i | 0 <= i < |qs| && qs[i].Show? :: qs[i].viewers != [] && forall v | v in qs[i].viewers :: v in bits
    ensures Shows(bits, Run(bits, qs), AudienceOf(bits, qs))
  {
    if qs != [] {
      var n := |qs| - 1;
      RunShowsAudience(bits, qs[..n]);
      match qs[n]
      case Show(_, _, _) => ShowStep(bits, Run(bits, qs[..n]), AudienceOf(bits, qs[..n]), qs[n]);
      case Hide(_, _) => HideStep(bits, Run(bits, qs[..n]), AudienceOf(bits, qs[..n]), qs[n]);
      case HideAll(_) =>
    }
  }
}
