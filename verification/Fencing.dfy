/**
  Ownership of a game: the lease row, the fencing token that grows when an expired lease is
  taken over, and the append that checks owner and token in one statement with the insert.
 */
module Fencing {
  import opened Common

  /** A lease as its holder remembers it. */
  datatype Lease = Lease(owner: nat, token: nat)

  /** The one row of the lease table; `era` counts the leases issued before it. */
  datatype Row = NoRow | Row(lease: Lease, expires: int, era: nat)

  /** `ttl` is how long a lease lasts, `issued` are all leases ever issued, `log` the eras of
      the holders that appended. */
  datatype Ownership = Ownership(ttl: int, row: Row, issued: seq<Lease>, log: seq<nat>)

  datatype Step =
    | Acquire(owner: nat, now: int)
    | Renew(era: nat, now: int)
    | Release(era: nat)
    | Revoke
    | Append(era: nat, now: int)

  function Issue(o: Ownership, lease: Lease, now: int): Ownership {
    o.(row := Row(lease, now + o.ttl, |o.issued|), issued := o.issued + [lease])
  }

  /** The holder of the lease of that era is still what the row says. */
  predicate Holds(o: Ownership, era: nat) {
    era < |o.issued| && o.row.Row? && o.row.lease == o.issued[era]
  }

  function Next(o: Ownership, step: Step): Ownership {
    match step
    case Acquire(owner, now) =>
      if o.row.NoRow? then Issue(o, Lease(owner, 1), now)
      else if o.row.lease.owner == owner && now < o.row.expires then o.(row := o.row.(expires := now + o.ttl))
      else if now < o.row.expires then o
      else Issue(o, Lease(owner, o.row.lease.token + 1), now)
    case Renew(era, now) =>
      if Holds(o, era) && now < o.row.expires then o.(row := o.row.(expires := now + o.ttl)) else o
    case Release(era) => if Holds(o, era) then o.(row := NoRow) else o
    case Revoke => o.(row := NoRow)
    case Append(era, now) =>
      if Holds(o, era) && now < o.row.expires then o.(log := o.log + [era]) else o
  }

  function Run(ttl: int, steps: seq<Step>): Ownership {
    if steps == [] then Ownership(ttl, NoRow, [], []) else Next(Run(ttl, steps[..|steps| - 1]), steps[|steps| - 1])
  }

  // -------------------------------------------------------------- invariants

  /** The row is the last lease issued; only issued leases appended. */
  ghost predicate Inv(o: Ownership) {
    && (o.row.Row? ==> |o.issued| > 0 && o.row.era == |o.issued| - 1 && o.row.lease == o.issued[|o.issued| - 1])
    && (forall i | 0 <= i < |o.log| :: o.log[i] < |o.issued|)
    && (forall i | 0 <= i < |o.issued| :: o.issued[i].token >= 1)
  }

  lemma {:induction false} RunInv(ttl: int, steps: seq<Step>)
    ensures Inv(Run(ttl, steps))
  {
    if steps != [] { RunInv(ttl, steps[..|steps| - 1]); }
  }

  ghost predicate Growing(issued: seq<Lease>) {
    forall i, j | 0 <= i < j < |issued| :: issued[i].token < issued[j].token
  }

  ghost predicate Sorted(log: seq<nat>) {
    forall i, j | 0 <= i < j < |log| :: log[i] <= log[j]
  }

  /** An append by a superseded holder goes through if and only if its very owner and token
      were issued again. */
  lemma StaleAppendIff(ttl: int, steps: seq<Step>, era: nat, now: int)
    requires var o := Run(ttl, steps); o.row.Row? && now < o.row.expires && era < |o.issued| && era != o.row.era
    ensures Run(ttl, steps).row.era < |Run(ttl, steps).issued|
    ensures var o := Run(ttl, steps);
      Next(o, Append(era, now)) != o <==> o.issued[era] == o.issued[o.row.era]
  {
    RunInv(ttl, steps);
  }

  /** While a lease is valid it excludes everybody else: another owner acquires nothing, and
      whoever appends holds that very owner and token, before it expires. */
  lemma ValidLeaseExcludes(ttl: int, steps: seq<Step>, other: nat, era: nat, now: int)
    requires var o := Run(ttl, steps); o.row.Row? && now < o.row.expires && other != o.row.lease.owner
    ensures var o := Run(ttl, steps); Next(o, Acquire(other, now)) == o
    ensures var o := Run(ttl, steps); forall later: int :: Next(o, Append(era, later)) != o ==>
      later < o.row.expires && era < |o.issued| && o.issued[era] == o.issued[|o.issued| - 1]
  {
    RunInv(ttl, steps);
  }

  /** Acquiring gives the lease for another full term exactly unless somebody else's is still
      valid; a new lease, with the next token, is issued exactly when there was none or it had
      expired. */
  lemma AcquireGives(o: Ownership, owner: nat, now: int)
    requires o.ttl > 0
    ensures var o' := Next(o, Acquire(owner, now));
      && ((o'.row.Row? && o'.row.lease.owner == owner && now < o'.row.expires)
          <==> !(o.row.Row? && o.row.lease.owner != owner && now < o.row.expires))
      && (o'.row.Row? && o'.row.lease.owner == owner && now < o'.row.expires ==> o'.row.expires == now + o.ttl)
      && o'.log == o.log
      && if o.row.Row? && now < o.row.expires then o'.issued == o.issued && o'.row.Row? && o'.row.lease == o.row.lease
         else o'.issued == o.issued + [Lease(owner, if o.row.Row? then o.row.lease.token + 1 else 1)]
  {}

  /** Renewing extends a valid lease that is still one's own, and nothing else; releasing ends
      one's own, valid or not. */
  lemma RenewAndRelease(o: Ownership, era: nat, now: int)
    ensures var mine := era < |o.issued| && o.row.Row? && o.row.lease == o.issued[era];
      && Next(o, Renew(era, now)) == (if mine && now < o.row.expires then o.(row := o.row.(expires := now + o.ttl)) else o)
      && Next(o, Release(era)) == (if mine then o.(row := NoRow) else o)
  {}

  /** As long as no owner gets the same token twice, no event of a superseded lease follows
      one of its successor, although ownership is checked earlier and may be lost in between. */
  lemma {:induction false} NoSupersededAppend(ttl: int, steps: seq<Step>)
    requires NoDup(Run(ttl, steps).issued)
    ensures Sorted(Run(ttl, steps).log)
  {
    if steps != [] {
      var before := Run(ttl, steps[..|steps| - 1]);
      IssuedGrows(before, steps[|steps| - 1]);
      forall i, j | 0 <= i < j < |before.issued| ensures before.issued[i] != before.issued[j] {
        assert Run(ttl, steps).issued[i] == before.issued[i] && Run(ttl, steps).issued[j] == before.issued[j];
      }
      NoSupersededAppend(ttl, steps[..|steps| - 1]);
      RunInv(ttl, steps[..|steps| - 1]);
    }
  }

  lemma IssuedGrows(o: Ownership, step: Step)
    ensures |o.issued| <= |Next(o, step).issued| && Next(o, step).issued[..|o.issued|] == o.issued
  {}

  // ------------------------------------------------------------------ tokens

  /** Acquiring starts over when the row is gone although leases were issued. */
  predicate StartsOver(o: Ownership, step: Step) {
    step.Acquire? && o.row.NoRow? && o.issued != []
  }

  /** Tokens keep growing over a step if and only if it does not start over. */
  lemma TokensGrowIff(o: Ownership, step: Step)
    requires Inv(o) && Growing(o.issued)
    ensures Growing(Next(o, step).issued) <==> !StartsOver(o, step)
  {
    var o' := Next(o, step);
    if StartsOver(o, step) {
      assert o'.issued[|o.issued|].token == 1 && o.issued[0].token >= 1;
      assert o'.issued[0] == o.issued[0];
    }
  }

  ghost predicate NeverStartsOver(ttl: int, steps: seq<Step>) {
    forall i | 0 <= i < |steps| :: !StartsOver(Run(ttl, steps[..i]), steps[i])
  }

  lemma {:induction false} TokensGrow(ttl: int, steps: seq<Step>)
    requires NeverStartsOver(ttl, steps)
    ensures Growing(Run(ttl, steps).issued)
  {
    if steps != [] {
      var n := |steps| - 1;
      assert NeverStartsOver(ttl, steps[..n]) by {
        forall i | 0 <= i < n ensures !StartsOver(Run(ttl, steps[..n][..i]), steps[..n][i]) {
          assert steps[..n][..i] == steps[..i];
        }
      }
      TokensGrow(ttl, steps[..n]);
      RunInv(ttl, steps[..n]);
      TokensGrowIff(Run(ttl, steps[..n]), steps[n]);
    }
  }

  /** The tokens of the events, in log order. */
  ghost predicate TokensSorted(o: Ownership) {
    forall i, j | 0 <= i < j < |o.log| && o.log[i] < |o.issued| && o.log[j] < |o.issued| ::
      o.issued[o.log[i]].token <= o.issued[o.log[j]].token
  }

  /** With growing tokens the tokens along the log never decrease. */
  lemma LogTokensNeverDecrease(ttl: int, steps: seq<Step>)
    requires NeverStartsOver(ttl, steps)
    ensures TokensSorted(Run(ttl, steps)) && Sorted(Run(ttl, steps).log)
  {
    TokensGrow(ttl, steps);
    RunInv(ttl, steps);
    GrowingIsDistinct(Run(ttl, steps).issued);
    NoSupersededAppend(ttl, steps);
    TokensFollowEras(Run(ttl, steps));
  }

  lemma GrowingIsDistinct(issued: seq<Lease>)
    requires Growing(issued)
    ensures NoDup(issued)
  {
    forall i, j | 0 <= i < j < |issued| ensures issued[i] != issued[j] { assert issued[i].token < issued[j].token; }
  }

  lemma TokensFollowEras(o: Ownership)
    requires Growing(o.issued) && Sorted(o.log)
    ensures TokensSorted(o)
  {
    forall i, j | 0 <= i < j < |o.log| && o.log[i] < |o.issued| && o.log[j] < |o.issued|
      ensures o.issued[o.log[i]].token <= o.issued[o.log[j]].token
    {
      assert o.log[i] <= o.log[j];
    }
  }

  /** Without releases and revocations tokens grow and superseded owners are shut out. */
  lemma NoDeletionNoRestart(ttl: int, steps: seq<Step>)
    requires forall i | 0 <= i < |steps| :: !steps[i].Release? && !steps[i].Revoke?
    ensures NeverStartsOver(ttl, steps)
  {
    forall i | 0 <= i < |steps| ensures !StartsOver(Run(ttl, steps[..i]), steps[i]) {
      RowStays(ttl, steps[..i]);
    }
  }

  /** The row is missing only before the first lease. */
  lemma {:induction false} RowStays(ttl: int, steps: seq<Step>)
    requires forall i | 0 <= i < |steps| :: !steps[i].Release? && !steps[i].Revoke?
    ensures Run(ttl, steps).row.NoRow? ==> Run(ttl, steps).issued == []
  {
    if steps != [] { RowStays(ttl, steps[..|steps| - 1]); }
  }

  // --------------------------------------------------------------- witnesses

  lemma OneMore(ttl: int, steps: seq<Step>, step: Step)
    ensures Run(ttl, steps + [step]) == Next(Run(ttl, steps), step)
  {
    var all := steps + [step];
    assert all[..|all| - 1] == steps;
  }

  lemma TakenOver(ttl: int, steps: seq<Step>)
    requires ttl > 0 && steps == [Acquire(1, 0), Acquire(2, ttl), Append(1, ttl)]
    ensures Run(ttl, steps) == Ownership(ttl, Row(Lease(2, 2), 2 * ttl, 1), [Lease(1, 1), Lease(2, 2)], [1])
  {
    var s1 := [] + [Acquire(1, 0)];
    var s2 := s1 + [Acquire(2, ttl)];
    OneMore(ttl, [], Acquire(1, 0));
    OneMore(ttl, s1, Acquire(2, ttl));
    OneMore(ttl, s2, Append(1, ttl));
    assert steps == s2 + [Append(1, ttl)];
  }

  lemma Anew(ttl: int, steps: seq<Step>)
    requires ttl > 0 && Run(ttl, steps) == Ownership(ttl, Row(Lease(2, 2), 2 * ttl, 1), [Lease(1, 1), Lease(2, 2)], [1])
    ensures Run(ttl, steps + [Release(1)] + [Acquire(3, ttl)] + [Append(2, ttl)])
      == Ownership(ttl, Row(Lease(3, 1), 2 * ttl, 2), [Lease(1, 1), Lease(2, 2), Lease(3, 1)], [1, 2])
  {
    OneMore(ttl, steps, Release(1));
    OneMore(ttl, steps + [Release(1)], Acquire(3, ttl));
    OneMore(ttl, steps + [Release(1)] + [Acquire(3, ttl)], Append(2, ttl));
  }

  /** Taken over, released and acquired anew: the token falls from 2 to 1 along the log. */
  lemma TokensCanFall(ttl: int)
    requires ttl > 0
    ensures exists steps :: !TokensSorted(Run(ttl, steps))
  {
    var steps := [Acquire(1, 0), Acquire(2, ttl), Append(1, ttl)];
    TakenOver(ttl, steps);
    Anew(ttl, steps);
    var o := Run(ttl, steps + [Release(1)] + [Acquire(3, ttl)] + [Append(2, ttl)]);
    assert o.issued[o.log[0]].token > o.issued[o.log[1]].token;
  }

  /** Revoked, lent to another owner and issued again: the first holder's old lease appends
      after the owner that superseded it. */
  lemma SupersededCanAppend(ttl: int)
    requires ttl > 0
    ensures exists steps :: !Sorted(Run(ttl, steps).log)
  {
    var s1 := [] + [Acquire(1, 0)];
    var s2 := s1 + [Revoke];
    var s3 := s2 + [Acquire(2, 0)];
    var s4 := s3 + [Append(1, 0)];
    var s5 := s4 + [Release(1)];
    var s6 := s5 + [Acquire(1, 0)];
    OneMore(ttl, [], Acquire(1, 0));
    OneMore(ttl, s1, Revoke);
    OneMore(ttl, s2, Acquire(2, 0));
    OneMore(ttl, s3, Append(1, 0));
    OneMore(ttl, s4, Release(1));
    OneMore(ttl, s5, Acquire(1, 0));
    OneMore(ttl, s6, Append(0, 0));
    var o := Run(ttl, s6 + [Append(0, 0)]);
    assert o.log == [1, 0];
    assert o.log[0] > o.log[1];
  }
}
