/**
  The protocol and the leases together: every append of an actor is made in the name of one
  lease, and the store checks that lease in the statement that inserts the event. Any actor
  may use any lease at any time; what keeps the log in order is that check alone.
 */
module Joint {
  import opened Common
  import opened Machine
  import opened Receipts
  import opened Actor
  import P = Protocol
  import F = Fencing
  import opened Safety

  /** `eras` says of each event of the log in the name of which lease it was appended; messages
      from outside have none. */
  datatype Joint = Joint(system: P.System, own: F.Ownership, eras: seq<Option<nat>>)

  datatype Step =
    | Leasing(lease: F.Step)
    | Acting(act: P.Step)
    | CommitBy(id: nat, era: nat, now: int, fault: Fault)

  /** The append's statement finds the lease in the row, and unexpired. */
  predicate Guarded(own: F.Ownership, era: nat, now: int) {
    F.Holds(own, era) && now < own.row.expires
  }

  function ActorStep(own: F.Ownership, step: Step): Option<P.Step> {
    match step
    case Leasing(_) => None
    case Acting(s) => if s.DoCommit? then None else Some(s)
    case CommitBy(id, era, now, fault) => Some(P.DoCommit(id, Guarded(own, era, now), fault))
  }

  /** Leases see of an actor's commit only an event that is really inserted. */
  function LeaseStep(rules: Rules, init: Game, j: Joint, step: Step): Option<F.Step> {
    match step
    case Leasing(s) => if s.Append? then None else Some(s)
    case Acting(_) => None
    case CommitBy(_, era, now, _) => if |Moved(rules, init, j, step).log| > |j.system.log| then Some(F.Append(era, now)) else None
  }

  function Moved(rules: Rules, init: Game, j: Joint, step: Step): P.System {
    match ActorStep(j.own, step) case Some(s) => P.Next(rules, init, j.system, s) case None => j.system
  }

  function Next(rules: Rules, init: Game, j: Joint, step: Step): Joint {
    var system := Moved(rules, init, j, step);
    var own := match LeaseStep(rules, init, j, step) case Some(s) => F.Next(j.own, s) case None => j.own;
    var name := if step.CommitBy? then Some(step.era) else None;
    Joint(system, own, if |system.log| > |j.system.log| then j.eras + [name] else j.eras)
  }

  function Run(rules: Rules, init: Game, ttl: int, steps: seq<Step>): Joint {
    if steps == [] then Joint(P.Initial(), F.Ownership(ttl, F.NoRow, [], []), [])
    else Next(rules, init, Run(rules, init, ttl, steps[..|steps| - 1]), steps[|steps| - 1])
  }

  // -------------------------------------------------------------- projections

  function ActorSteps(rules: Rules, init: Game, ttl: int, steps: seq<Step>): seq<P.Step> {
    if steps == [] then []
    else
      var n := |steps| - 1;
      var before := ActorSteps(rules, init, ttl, steps[..n]);
      match ActorStep(Run(rules, init, ttl, steps[..n]).own, steps[n]) case Some(s) => before + [s] case None => before
  }

  function LeaseSteps(rules: Rules, init: Game, ttl: int, steps: seq<Step>): seq<F.Step> {
    if steps == [] then []
    else
      var n := |steps| - 1;
      var before := LeaseSteps(rules, init, ttl, steps[..n]);
      match LeaseStep(rules, init, Run(rules, init, ttl, steps[..n]), steps[n]) case Some(s) => before + [s] case None => before
  }

  lemma ActorNext(rules: Rules, init: Game, steps: seq<P.Step>, s: P.Step)
    ensures P.Run(rules, init, steps + [s]) == P.Next(rules, init, P.Run(rules, init, steps), s)
  {
    var all := steps + [s];
    assert all[..|all| - 1] == steps;
  }

  /** A joint run is a run of the protocol and a run of the leases: whatever holds of all of
      those holds here. */
  lemma {:induction false} RunProjects(rules: Rules, init: Game, ttl: int, steps: seq<Step>)
    ensures var j := Run(rules, init, ttl, steps);
      && j.system == P.Run(rules, init, ActorSteps(rules, init, ttl, steps))
      && j.own == F.Run(ttl, LeaseSteps(rules, init, ttl, steps))
  {
    if steps != [] {
      var n := |steps| - 1;
      var before := Run(rules, init, ttl, steps[..n]);
      RunProjects(rules, init, ttl, steps[..n]);
      var s := ActorStep(before.own, steps[n]);
      if s.Some? { ActorNext(rules, init, ActorSteps(rules, init, ttl, steps[..n]), s.value); }
      var f := LeaseStep(rules, init, before, steps[n]);
      if f.Some? { F.OneMore(ttl, LeaseSteps(rules, init, ttl, steps[..n]), f.value); }
    }
  }

  // ----------------------------------------------------------- the joint log

  function Named(eras: seq<Option<nat>>): seq<nat> {
    if eras == [] then []
    else
      var n := |eras| - 1;
      Named(eras[..n]) + match eras[n] case Some(era) => [era] case None => []
  }

  lemma NamedMore(eras: seq<Option<nat>>, name: Option<nat>)
    ensures Named(eras + [name]) == Named(eras) + match name case Some(era) => [era] case None => []
  {
    assert (eras + [name])[..|eras|] == eras;
  }

  /** The eras run along the log, and those of the actors' events are what the leases logged. */
  ghost predicate Parallel(j: Joint) {
    |j.eras| == |j.system.log| && Named(j.eras) == j.own.log
  }

  lemma NoShrink(rules: Rules, init: Game, s: P.System, step: P.Step)
    requires Inv(s)
    ensures var s' := P.Next(rules, init, s, step);
      && |s.log| <= |s'.log| <= |s.log| + 1
      && (|s'.log| > |s.log| && step.DoCommit? ==> step.held)
      && (|s'.log| > |s.log| && !step.DoCommit? ==> step.External?)
  {
    match step
    case DoCommit(id, held, fault) =>
      if P.AtStage(s, id, Committing) {
        var a, r := s.agents[id].actor, s.agents[id].task.request;
        HeldCommits(a, r, a.rules.exec(a.game, r.command, r.now, a.version + 1), s.log, held, fault);
      }
    case _ =>
  }

  lemma HeldCommits(a: Actor, r: Request, e: Execution, log: seq<Stored>, held: bool, fault: Fault)
    ensures CommitOf(a, r, e, log, held, fault).1.Some? ==> held
  {}

  lemma StepParallel(rules: Rules, init: Game, j: Joint, step: Step)
    requires Inv(j.system) && Parallel(j)
    ensures Parallel(Next(rules, init, j, step))
  {
    var system := Moved(rules, init, j, step);
    match step
    case Leasing(_) =>
    case Acting(act) => if !act.DoCommit? { NoShrink(rules, init, j.system, act); } NamedMore(j.eras, None);
    case CommitBy(id, era, now, fault) =>
      NoShrink(rules, init, j.system, P.DoCommit(id, Guarded(j.own, era, now), fault));
      CommitParallel(j, system, era, now);
  }

  lemma CommitParallel(j: Joint, system: P.System, era: nat, now: int)
    requires Parallel(j) && |j.system.log| <= |system.log| <= |j.system.log| + 1
    requires |system.log| > |j.system.log| ==> Guarded(j.own, era, now)
    ensures Parallel(
      if |system.log| > |j.system.log| then Joint(system, F.Next(j.own, F.Append(era, now)), j.eras + [Some(era)])
      else Joint(system, j.own, j.eras))
  {
    NamedMore(j.eras, Some(era));
  }

  lemma {:induction false} RunParallel(rules: Rules, init: Game, ttl: int, steps: seq<Step>)
    ensures Parallel(Run(rules, init, ttl, steps))
  {
    if steps != [] {
      var n := |steps| - 1;
      RunParallel(rules, init, ttl, steps[..n]);
      RunProjects(rules, init, ttl, steps[..n]);
      RunOk(rules, init, ActorSteps(rules, init, ttl, steps[..n]));
      StepParallel(rules, init, Run(rules, init, ttl, steps[..n]), steps[n]);
    }
  }

  lemma {:induction false} NamedHas(eras: seq<Option<nat>>, i: nat)
    requires i < |eras| && eras[i].Some?
    ensures eras[i].value in Named(eras)
  {
    var n := |eras| - 1;
    if i < n { NamedHas(eras[..n], i); }
  }

  lemma {:induction false} NamedKeepsOrder(eras: seq<Option<nat>>, i: nat, j: nat)
    requires F.Sorted(Named(eras)) && i < j < |eras| && eras[i].Some? && eras[j].Some?
    ensures eras[i].value <= eras[j].value
  {
    var n := |eras| - 1;
    var shorter := Named(eras[..n]);
    assert forall k | 0 <= k < |shorter| :: Named(eras)[k] == shorter[k];
    if j < n {
      NamedKeepsOrder(eras[..n], i, j);
    } else {
      NamedHas(eras[..n], i);
      var k :| 0 <= k < |shorter| && shorter[k] == eras[i].value;
      assert Named(eras)[|shorter|] == eras[j].value;
    }
  }

  /** The actors' events come in the order of the leases they were appended under. */
  ghost predicate ErasInOrder(j: Joint) {
    forall i, k | 0 <= i < k < |j.eras| && j.eras[i].Some? && j.eras[k].Some? :: j.eras[i].value <= j.eras[k].value
  }

  /** Each was appended under an issued lease, and the tokens never decrease. */
  ghost predicate TokensInOrder(j: Joint) {
    && (forall i | 0 <= i < |j.eras| && j.eras[i].Some? :: j.eras[i].value < |j.own.issued|)
    && (forall i, k | 0 <= i < k < |j.eras| && j.eras[i].Some? && j.eras[k].Some? ::
          j.own.issued[j.eras[i].value].token <= j.own.issued[j.eras[k].value].token)
  }

  lemma OrderFromNames(j: Joint)
    requires F.Sorted(Named(j.eras))
    ensures ErasInOrder(j)
  {
    forall i, k | 0 <= i < k < |j.eras| && j.eras[i].Some? && j.eras[k].Some? ensures j.eras[i].value <= j.eras[k].value {
      NamedKeepsOrder(j.eras, i, k);
    }
  }

  lemma TokensFromEras(j: Joint)
    requires Parallel(j) && F.Inv(j.own) && F.Growing(j.own.issued) && ErasInOrder(j)
    ensures TokensInOrder(j)
  {
    forall i | 0 <= i < |j.eras| && j.eras[i].Some? ensures j.eras[i].value < |j.own.issued| {
      NamedHas(j.eras, i);
      var k :| 0 <= k < |j.own.log| && j.own.log[k] == j.eras[i].value;
    }
  }

  /** Along the one real log, whoever appended and however stages, leases, crashes and restarts
      interleave, the actors' events come in the order of their leases, as long as no owner gets
      the same token twice. */
  lemma LogFollowsLeases(rules: Rules, init: Game, ttl: int, steps: seq<Step>)
    requires NoDup(Run(rules, init, ttl, steps).own.issued)
    ensures var j := Run(rules, init, ttl, steps); |j.eras| == |j.system.log| && ErasInOrder(j)
  {
    RunParallel(rules, init, ttl, steps);
    RunProjects(rules, init, ttl, steps);
    F.NoSupersededAppend(ttl, LeaseSteps(rules, init, ttl, steps));
    OrderFromNames(Run(rules, init, ttl, steps));
  }

  /** And their fencing tokens never decrease, as long as no lease starts over. */
  lemma LogTokensInOrder(rules: Rules, init: Game, ttl: int, steps: seq<Step>)
    requires F.NeverStartsOver(ttl, LeaseSteps(rules, init, ttl, steps))
    ensures TokensInOrder(Run(rules, init, ttl, steps))
  {
    var leases := LeaseSteps(rules, init, ttl, steps);
    RunParallel(rules, init, ttl, steps);
    RunProjects(rules, init, ttl, steps);
    F.TokensGrow(ttl, leases);
    F.GrowingIsDistinct(F.Run(ttl, leases).issued);
    F.RunInv(ttl, leases);
    LogFollowsLeases(rules, init, ttl, steps);
    TokensFromEras(Run(rules, init, ttl, steps));
  }
}
