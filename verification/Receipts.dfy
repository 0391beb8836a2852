/**
  Stored events and the patch receipt each one carries, and the reconnect that answers a
  client from receipts instead of from memory.
 */
module Receipts {
  import opened Common
  import opened Patches
  import opened Machine

  /** `author` and `action` may be absent in events written from outside. */
  datatype Event = Event(version: nat, body: Body, author: Option<PlayerId>, action: Option<ActionId>)

  datatype Receipt = Absent | Unreadable | Holding(patches: seq<Envelope>)

  datatype Stored = Stored(event: Event, receipt: Receipt)

  datatype Reading = NoReceipt | BadReceipt | Read(patches: seq<Envelope>)

  predicate ValidEnvelope(p: Envelope) {
    p.version >= 1 && p.ops != []
  }

  function Attach(e: Event, patches: seq<Envelope>): Stored {
    Stored(e, Holding(patches))
  }

  function Strip(s: Stored): Event {
    s.event
  }

  function ReadReceipt(s: Stored): Reading {
    match s.receipt
    case Absent => NoReceipt
    case Unreadable => BadReceipt
    case Holding(patches) =>
      if patches == [] || exists p :: p in patches && !ValidEnvelope(p) then BadReceipt else Read(patches)
  }

  /** A receipt reads back as what was attached, if and only if the actor may append it. */
  lemma ReceiptRoundTrip(e: Event, patches: seq<Envelope>)
    ensures Strip(Attach(e, patches)) == e
    ensures ReadReceipt(Attach(e, patches)) == Read(patches) <==> patches != [] && forall p | p in patches :: p.version >= 1 && p.ops != []
  {}

  /** What an emitter hands out can always be read back. */
  lemma EmittedReadsBack(e: Event, emitted: seq<Emission>, ack: ActionId)
    requires e.version >= 1
    ensures ReadReceipt(Attach(e, EnvelopesOf(emitted, e.version, ack))) == Read(EnvelopesOf(emitted, e.version, ack))
  {
    var envelopes := EnvelopesOf(emitted, e.version, ack);
    EnvelopesComplete(emitted, e.version, ack);
    forall p | p in envelopes ensures ValidEnvelope(p) {
      var i :| 0 <= i < |envelopes| && envelopes[i] == p;
    }
  }

  // -------------------------------------------------------------------- log

  /** What the store returns for the events after a version. */
  function After(log: seq<Stored>, v: int): seq<Stored> {
    if log == [] then []
    else
      var n := |log| - 1;
      After(log[..n], v) + if log[n].event.version > v then [log[n]] else []
  }

  ghost predicate Contiguous(log: seq<Stored>) {
    forall i | 0 <= i < |log| :: log[i].event.version == i + 1
  }

  lemma {:induction false} AfterContiguous(log: seq<Stored>, v: nat)
    requires Contiguous(log)
    ensures After(log, v) == if v <= |log| then log[v..] else []
  {
    if log != [] {
      var n := |log| - 1;
      AfterContiguous(log[..n], v);
      assert log[n].event.version == n + 1;
      if v <= n { SliceLast(log, v); }
    }
  }

  lemma SliceLast<T>(s: seq<T>, v: nat)
    requires v < |s|
    ensures s[v..] == s[..|s| - 1][v..] + [s[|s| - 1]]
  {}

  // -------------------------------------------------------------- reconnect

  datatype Resync = RetentionExceeded | VersionGap | ReceiptMissing | ReceiptMismatch | ReceiptUnreadable

  datatype ReconnectReply = Replay(patches: seq<Envelope>) | MustResync(reason: Resync)

  /** The patches of stored events in order: what connected clients were sent. */
  function Live(events: seq<Stored>): seq<Envelope> {
    if events == [] then []
    else
      var n := |events| - 1;
      Live(events[..n]) + match ReadReceipt(events[n]) case Read(patches) => patches case _ => []
  }

  predicate Replayable(s: Stored, version: nat) {
    && s.event.version == version
    && ReadReceipt(s).Read?
    && forall p | p in ReadReceipt(s).patches :: p.version == version
  }

  /** The `i`-th event after `last` continues the versions and can be sent. */
  predicate Fits(events: seq<Stored>, last: nat, i: nat)
    requires i < |events|
  {
    Replayable(events[i], last + 1 + i)
  }

  ghost predicate AllFit(events: seq<Stored>, last: nat) {
    forall i | 0 <= i < |events| :: Fits(events, last, i)
  }

  /** It has the next version, a receipt that can be read, and nothing in it but patches of
      that version. */
  lemma FitsIff(events: seq<Stored>, last: nat, i: nat)
    requires i < |events|
    ensures Fits(events, last, i) <==>
      && events[i].event.version == last + 1 + i && events[i].receipt.Holding? && events[i].receipt.patches != []
      && forall p | p in events[i].receipt.patches :: p.version == last + 1 + i && p.ops != []
  {}

  /** The checks on one event, in order. */
  method CheckEvent(s: Stored, version: nat) returns (problem: Option<Resync>)
    ensures problem.None? <==> Replayable(s, version)
    ensures problem == Some(VersionGap) <==> s.event.version != version
    ensures problem == Some(ReceiptMissing) <==> s.event.version == version && s.receipt == Absent
  {
    if s.event.version != version {
      return Some(VersionGap);
    }
    var reading := ReadReceipt(s);
    if reading.NoReceipt? {
      return Some(ReceiptMissing);
    }
    if reading.BadReceipt? {
      return Some(ReceiptUnreadable);
    }
    for j := 0 to |reading.patches|
      invariant forall k | 0 <= k < j :: reading.patches[k].version == version
    {
      if reading.patches[j].version != version {
        assert reading.patches[j] in reading.patches;
        return Some(ReceiptMismatch);
      }
    }
    return None;
  }

  /** Answers a client that last applied `last` from the store; a limit of 0 is none. */
  method DurablePatchesSince(log: seq<Stored>, last: nat, limit: nat) returns (reply: ReconnectReply)
    ensures reply.Replay? <==> (limit > 0 ==> |After(log, last)| <= limit) && AllFit(After(log, last), last)
    ensures reply.Replay? ==> reply.patches == Live(After(log, last))
    ensures reply == MustResync(ReceiptMissing) ==> exists s :: s in After(log, last) && s.receipt == Absent
  {
    var events := After(log, last);
    if limit > 0 && |events| > limit {
      return MustResync(RetentionExceeded);
    }
    var patches: seq<Envelope> := [];
    for i := 0 to |events|
      invariant forall j | 0 <= j < i :: Fits(events, last, j)
      invariant patches == Live(events[..i])
    {
      var problem := CheckEvent(events[i], last + 1 + i);
      if problem.Some? {
        assert events[i] in events && !Fits(events, last, i);
        return MustResync(problem.value);
      }
      assert Fits(events, last, i);
      assert events[..i + 1][..i] == events[..i];
      patches := patches + ReadReceipt(events[i]).patches;
    }
    assert events[..|events|] == events;
    reply := Replay(patches);
  }

  /** The log as actors write it: every event's receipt holds what its command emitted. */
  ghost predicate Receipted(events: seq<Stored>, emissions: seq<seq<Emission>>) {
    && |emissions| == |events|
    && forall i | 0 <= i < |events| :: events[i].event.action.Some? && events[i].event.version >= 1
         && events[i] == Attach(events[i].event, EnvelopesOf(emissions[i], events[i].event.version, events[i].event.action.value))
  }

  /** What one viewer was sent live, command by command. */
  function LiveTo(events: seq<Stored>, emissions: seq<seq<Emission>>, viewer: PlayerId, groups: set<nat>): seq<Envelope>
    requires |emissions| == |events| && forall i | 0 <= i < |events| :: events[i].event.action.Some?
  {
    if events == [] then []
    else
      var n := |events| - 1;
      LiveTo(events[..n], emissions[..n], viewer, groups)
      + Visible(EnvelopesOf(emissions[n], events[n].event.version, events[n].event.action.value), viewer, groups)
  }

  lemma {:induction false} LiveIsLiveTo(events: seq<Stored>, emissions: seq<seq<Emission>>, viewer: PlayerId, groups: set<nat>)
    requires Receipted(events, emissions)
    ensures Visible(Live(events), viewer, groups) == LiveTo(events, emissions, viewer, groups)
  {
    if events != [] {
      var n := |events| - 1;
      LiveIsLiveTo(events[..n], emissions[..n], viewer, groups);
      EmittedReadsBack(events[n].event, emissions[n], events[n].event.action.value);
      VisibleConcat(Live(events[..n]), EnvelopesOf(emissions[n], events[n].event.version, events[n].event.action.value), viewer, groups);
    }
  }

  lemma {:induction false} VisiblePublic(envelopes: seq<Envelope>, viewer: PlayerId, groups: set<nat>, i: nat)
    requires i < |envelopes| && envelopes[i].visibility == Public
    ensures envelopes[i] in Visible(envelopes, viewer, groups)
  {
    var n := |envelopes| - 1;
    if i < n { VisiblePublic(envelopes[..n], viewer, groups, i); }
  }

  /** A viewer is shown what is public and what is addressed to them or to a group of theirs. */
  lemma {:induction false} VisibleMembers(envelopes: seq<Envelope>, viewer: PlayerId, groups: set<nat>)
    ensures forall p :: p in Visible(envelopes, viewer, groups) <==>
      p in envelopes && (p.visibility == Public || p.visibility == ToPlayer(viewer) || exists m :: m in groups && p.visibility == ToGroup(m))
  {
    if envelopes != [] {
      var n := |envelopes| - 1;
      VisibleMembers(envelopes[..n], viewer, groups);
      assert envelopes == envelopes[..n] + [envelopes[n]];
    }
  }

  ghost predicate Covers(patches: seq<Envelope>, v: int) {
    exists p :: p in patches && p.version == v
  }

  lemma CoversConcat(a: seq<Envelope>, b: seq<Envelope>, v: int)
    ensures Covers(a + b, v) <==> Covers(a, v) || Covers(b, v)
  {
    if p :| p in a && p.version == v { assert p in a + b; }
    if p :| p in b && p.version == v { assert p in a + b; }
  }

  /** One command's envelopes reach every viewer at its version and at no other. */
  lemma CommandCovers(emitted: seq<Emission>, version: nat, ack: ActionId, viewer: PlayerId, groups: set<nat>, v: int)
    ensures Covers(Visible(EnvelopesOf(emitted, version, ack), viewer, groups), v) <==> v == version
  {
    var envelopes := EnvelopesOf(emitted, version, ack);
    EnvelopesComplete(emitted, version, ack);
    VisiblePublic(envelopes, viewer, groups, |envelopes| - 1);
    VisibleMembers(envelopes, viewer, groups);
    if p :| p in Visible(envelopes, viewer, groups) && p.version == v {
      var i :| 0 <= i < |envelopes| && envelopes[i] == p;
    }
  }

  lemma {:induction false} LiveToCovers(events: seq<Stored>, emissions: seq<seq<Emission>>, viewer: PlayerId, groups: set<nat>, v: int)
    requires Receipted(events, emissions)
    ensures Covers(LiveTo(events, emissions, viewer, groups), v) <==> HasVersion(events, v)
  {
    if events != [] {
      var n := |events| - 1;
      var last := EnvelopesOf(emissions[n], events[n].event.version, events[n].event.action.value);
      LiveToCovers(events[..n], emissions[..n], viewer, groups, v);
      CommandCovers(emissions[n], events[n].event.version, events[n].event.action.value, viewer, groups, v);
      CoversConcat(LiveTo(events[..n], emissions[..n], viewer, groups), Visible(last, viewer, groups), v);
      HasVersionSplit(events, v);
    }
  }

  ghost predicate HasVersion(events: seq<Stored>, v: int) {
    exists i :: 0 <= i < |events| && events[i].event.version == v
  }

  lemma HasVersionSplit(events: seq<Stored>, v: int)
    requires events != []
    ensures var n := |events| - 1; HasVersion(events, v) <==> HasVersion(events[..n], v) || events[n].event.version == v
  {
    var n := |events| - 1;
    if i :| 0 <= i < n && events[..n][i].event.version == v { assert events[i].event.version == v; }
    if i :| 0 <= i < n && events[i].event.version == v { assert events[..n][i].event.version == v; }
  }

  lemma GapCovered(events: seq<Stored>, emissions: seq<seq<Emission>>, last: nat, viewer: PlayerId, groups: set<nat>, v: int)
    requires Receipted(events, emissions) && forall i | 0 <= i < |events| :: events[i].event.version == last + 1 + i
    ensures Covers(LiveTo(events, emissions, viewer, groups), v) <==> last < v <= last + |events|
  {
    LiveToCovers(events, emissions, viewer, groups, v);
    if last < v <= last + |events| { assert events[v - last - 1].event.version == v; }
    if HasVersion(events, v) { var i :| 0 <= i < |events| && events[i].event.version == v; }
  }

  /** A reconnect over receipted events is answered, gives any viewer exactly the live
      stream, and covers every version of the gap and no other. */
  lemma ReconnectIsLive(log: seq<Stored>, emissions: seq<seq<Emission>>, last: nat, viewer: PlayerId, groups: set<nat>)
    requires Contiguous(log) && last <= |log| && Receipted(log[last..], emissions)
    ensures After(log, last) == log[last..]
    ensures AllFit(After(log, last), last)
    ensures Visible(Live(After(log, last)), viewer, groups) == LiveTo(log[last..], emissions, viewer, groups)
    ensures forall v: int :: Covers(Visible(Live(After(log, last)), viewer, groups), v) <==> last < v <= |log|
    ensures forall p | p in Visible(Live(After(log, last)), viewer, groups) ::
      p.visibility == Public || p.visibility == ToPlayer(viewer) || exists m :: m in groups && p.visibility == ToGroup(m)
  {
    var events := log[last..];
    VisibleMembers(Live(After(log, last)), viewer, groups);
    AfterContiguous(log, last);
    LiveIsLiveTo(events, emissions, viewer, groups);
    forall i | 0 <= i < |events| ensures Fits(events, last, i) {
      ReceiptReplayable(events[i], emissions[i]);
    }
    forall v: int ensures Covers(LiveTo(events, emissions, viewer, groups), v) <==> last < v <= |log| {
      GapCovered(events, emissions, last, viewer, groups, v);
    }
  }

  lemma ReceiptReplayable(s: Stored, emitted: seq<Emission>)
    requires s.event.action.Some? && s.event.version >= 1
    requires s == Attach(s.event, EnvelopesOf(emitted, s.event.version, s.event.action.value))
    ensures Replayable(s, s.event.version)
  {
    var envelopes := EnvelopesOf(emitted, s.event.version, s.event.action.value);
    EmittedReadsBack(s.event, emitted, s.event.action.value);
    EnvelopesComplete(emitted, s.event.version, s.event.action.value);
    forall p | p in envelopes ensures p.version == s.event.version {
      var i :| 0 <= i < |envelopes| && envelopes[i] == p;
    }
  }
}
