/** The reveal windows of all libraries, rewritten in place. */
module RevealTable {
  import opened Common
  import opened Reveals

  class LibraryReveals {
    var bits: map<PlayerId, nat>
    var windows: map<PlayerId, Window>

    constructor (bits: map<PlayerId, nat>)
      ensures this.bits == bits && windows == map[]
    {
      this.bits := bits;
      windows := map[];
    }

    ghost function WindowOf(p: PlayerId): Option<Window>
      reads this
    {
      if p in windows then Some(windows[p]) else None
    }

    method RevealTop(p: PlayerId, count: int, epoch: int, r: Recipients)
      modifies this`windows
      ensures windows == old(windows)[p := Reveal(bits, old(WindowOf(p)), count, epoch, r)]
    {
      var mask := r.explicit;
      if mask == {} {
        mask := ViewerMask(bits, r.viewers);
      }
      if mask == {} {
        mask := FALLBACK;
      }
      var viewers := r.viewers;
      if p in windows && windows[p].epoch == epoch && windows[p].count == count {
        mask := mask + windows[p].mask;
        viewers := MergeViewers(windows[p].viewers, viewers);
      }
      windows := windows[p := Window(count, epoch, viewers, mask)];
    }

    method StopRevealing(p: PlayerId, r: Option<Recipients>, epoch: int)
      modifies this`windows
      ensures windows == match old(WindowOf(p))
        case None => old(windows)
        case Some(w) =>
          match Stop(bits, w, r, epoch) case None => old(windows) - {p} case Some(w') => old(windows)[p := w']
      ensures r.None? ==> p !in windows
      ensures forall q | q != p :: WindowOf(q) == old(WindowOf(q))
    {
      if p !in windows {
        return;
      }
      var w := windows[p];
      var removed := w.mask;
      var remaining := w.viewers;
      if r.Some? {
        var target := r.value.explicit;
        var named := ViewerMask(bits, r.value.viewers);
        if target == {} {
          target := named;
        }
        var audience := ViewerMask(bits, w.viewers);
        removed := (w.mask * target) + (w.mask - audience);
        if removed == {} {
          removed := named * w.mask;
          if removed == {} {
            var any := AnyViewer(w.viewers, r.value.viewers);
            if any {
              removed := w.mask;
            }
          }
        }
        remaining := WithoutViewers(w.viewers, r.value.viewers);
      }
      var left := w.mask - removed;
      if left == {} {
        windows := windows - {p};
      } else {
        windows := windows[p := Window(w.count, epoch, remaining, left)];
      }
    }
  }

  method ViewerMask(bits: map<PlayerId, nat>, viewers: seq<PlayerId>) returns (mask: Mask)
    ensures mask == MaskOf(bits, viewers)
  {
    mask := {};
    for i := 0 to |viewers|
      invariant mask == MaskOf(bits, viewers[..i])
    {
      if viewers[i] in bits {
        mask := mask + {bits[viewers[i]]};
      }
      assert viewers[..i + 1] == viewers[..i] + [viewers[i]];
    }
    assert viewers[..|viewers|] == viewers;
  }

  method MergeViewers(existing: seq<PlayerId>, requested: seq<PlayerId>) returns (viewers: seq<PlayerId>)
    ensures viewers == Merged(existing, requested)
  {
    viewers := [];
    var seen: set<PlayerId> := {};
    for i := 0 to |existing|
      invariant viewers == Deduplicated(existing[..i])
      invariant seen == SetOf(viewers)
    {
      assert existing[..i + 1][..i] == existing[..i];
      if existing[i] !in seen {
        seen := seen + {existing[i]};
        viewers := viewers + [existing[i]];
      }
    }
    assert existing[..|existing|] == existing;
    for i := 0 to |requested|
      invariant viewers == Merged(existing, requested[..i])
      invariant seen == SetOf(viewers)
    {
      assert requested[..i + 1][..i] == requested[..i];
      if requested[i] !in seen {
        seen := seen + {requested[i]};
        viewers := viewers + [requested[i]];
      }
    }
    assert requested[..|requested|] == requested;
  }

  method WithoutViewers(viewers: seq<PlayerId>, removed: seq<PlayerId>) returns (left: seq<PlayerId>)
    ensures left == Remaining(viewers, removed)
  {
    left := [];
    for i := 0 to |viewers|
      invariant left == Remaining(viewers[..i], removed)
    {
      assert viewers[..i + 1][..i] == viewers[..i];
      if viewers[i] !in removed {
        left := left + [viewers[i]];
      }
    }
    assert viewers[..|viewers|] == viewers;
  }

  method AnyViewer(viewers: seq<PlayerId>, candidates: seq<PlayerId>) returns (any: bool)
    ensures any <==> exists v :: v in viewers && v in candidates
  {
    for i := 0 to |viewers|
      invariant forall j | 0 <= j < i :: viewers[j] !in candidates
    {
      if viewers[i] in candidates {
        assert viewers[i] in viewers;
        return true;
      }
    }
    return false;
  }
}
