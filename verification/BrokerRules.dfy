/**
 The rules of the operation broker: one systemd command per request id, recorded
 in a write-once journal before and after the command is issued.
 */
module BrokerRules {
  import opened Journal

  datatype Schedule = Scheduled | Paused

  datatype Execution = Succeeded | ExecutionFailed | NotObserved

  /** A stable observation of one timer and its service. */
  datatype Live = Live(schedule: Schedule, execution: Execution, startMonotonic: nat)

  /** An observation that failed, or showed an unverified or busy unit, yields nothing. */
  datatype Observation = Unverified | Observed(live: Live)

  /** The root-owned snapshot the request was made against. */
  datatype Snapshot = NoSnapshot | Snapshot(schedule: Schedule, execution: Execution, current: bool, currentUnderGate: bool)

  datatype Command = DisableNow | EnableNow | StartService

  function CommandFor(action: Action): Command {
    match action
    case Pause => DisableNow
    case Resume => EnableNow
    case RunOnce => StartService
  }

  /** A command that was issued: it may have had an effect whatever was answered. */
  datatype Issued = Issued(
    op: Operation, command: Command, boot: nat, startedBefore: nat, answered: bool, after: Observation)

  /**
   What the environment supplies to one call of `apply`.  The machine may reboot
   under a checkpointed process, so the boot identity may move forward before and
   after the command is issued.
   */
  datatype BrokerIo = BrokerIo(
    authority: bool,              // effects enabled, privileged, and the journal lock is free
    snapshot: Snapshot,
    gateHeld: bool,
    before: Observation,
    workflowQuiescent: bool,
    bootBeforeReadable: bool,
    pending: StoreFate,
    request: StoreFate,
    drift: nat,
    answered: bool,
    after: Observation,
    laterDrift: nat,
    bootAfterReadable: bool,
    result: StoreFate,
    cleanup: UnlinkFate,
    gateReleases: bool)

  datatype BrokerReply = BrokerRefused | BrokerRaised | BrokerCompleted | BrokerEnded

  predicate StateAllows(action: Action, schedule: Schedule, execution: Execution) {
    match action
    case Pause => schedule == Scheduled
    case Resume => schedule == Paused
    case RunOnce => schedule == Paused && execution != ExecutionFailed
  }

  /** The fixed snapshot checks, made before the lock and again under the gate. */
  predicate Preflight(op: Operation, snapshot: Snapshot) {
    && snapshot.Snapshot?
    && snapshot.current
    && StateAllows(op.action, snapshot.schedule, snapshot.execution)
  }

  predicate JournalFree(seen: Listing, id: Id) {
    Marker !in seen && Request(id) !in seen && Result(id) !in seen
  }

  /** Everything that must hold before the first journal record. */
  predicate Admitted(seen: Listing, op: Operation, io: BrokerIo) {
    && io.authority
    && Preflight(op, io.snapshot)
    && JournalFree(seen, op.id)
    && io.gateHeld
    && io.before.Observed?
    && io.before.live.schedule == io.snapshot.schedule
    && io.before.live.execution == io.snapshot.execution
    && io.snapshot.currentUnderGate
    && StateAllows(op.action, io.before.live.schedule, io.before.live.execution)
    && (op.action == RunOnce ==> io.workflowQuiescent)
    && io.bootBeforeReadable
  }

  /** The observation after the command shows what the action was meant to bring about. */
  predicate Shows(op: Operation, before: nat, after: Observation) {
    && after.Observed?
    && match op.action
       case Pause => after.live.schedule == Paused
       case Resume => after.live.schedule == Scheduled
       case RunOnce =>
         after.live.schedule == Paused && after.live.execution == Succeeded && after.live.startMonotonic > before
  }

  predicate Confirms(op: Operation, io: BrokerIo) {
    && io.answered
    && io.before.Observed?
    && Shows(op, io.before.live.startMonotonic, io.after)
    && io.bootAfterReadable
    && io.drift + io.laterDrift == 0
  }

  function Entry(op: Operation, startedAt: nat, io: BrokerIo, boot: nat): Record
    requires io.before.Observed?
  {
    Started(op, startedAt, io.before.live.startMonotonic, boot)
  }

  function Stop(p: Progress): BrokerReply {
    if p.Dies? then BrokerEnded else BrokerRaised
  }

  datatype BrokerStep = BrokerStep(volume: Volume, issued: seq<Issued>, boot: nat, reply: BrokerReply)

  /** The outcome record and, when the effect is confirmed, the end of the pending marker. */
  function Conclude(v: Volume, op: Operation, confirmed: bool, io: BrokerIo): (Volume, BrokerReply) {
    var verdict := if confirmed then Completed else Indeterminate;
    var (v1, p1) := StoreNew(v, Result(op.id), Settled(op, verdict), io.result);
    if !p1.Goes? then (v1, Stop(p1))
    else if !confirmed then (v1, BrokerRaised)
    else
      var (v2, p2) := Unlink(v1, Marker, io.cleanup);
      if !p2.Goes? then (v2, Stop(p2))
      else (v2, if io.gateReleases then BrokerCompleted else BrokerRaised)
  }

  /** The pending marker first, then the request record: both durable before any command. */
  function Prepare(v: Volume, op: Operation, entry: Record, io: BrokerIo): (Volume, Progress) {
    var (v1, p1) := StoreNew(v, Marker, entry, io.pending);
    if p1.Goes? then StoreNew(v1, Request(op.id), entry, io.request) else (v1, p1)
  }

  function IssuedUnder(op: Operation, boot: nat, io: BrokerIo): Issued
    requires io.before.Observed?
  {
    Issued(op, CommandFor(op.action), boot + io.drift, io.before.live.startMonotonic, io.answered, io.after)
  }

  /** One call of `apply`, from the journal `v` under boot `boot`. */
  function ApplyOperation(v: Volume, op: Operation, now: nat, boot: nat, io: BrokerIo): BrokerStep {
    if !Admitted(v.seen, op, io) then BrokerStep(v, [], boot, BrokerRefused)
    else
      var (v1, p1) := Prepare(v, op, Entry(op, now, io, boot), io);
      if !p1.Goes? then BrokerStep(v1, [], boot, Stop(p1))
      else
        var (v2, reply) := Conclude(v1, op, Confirms(op, io), io);
        BrokerStep(v2, [IssuedUnder(op, boot, io)], boot + io.drift + io.laterDrift, reply)
  }

  /* ---- the broker's journal invariant ---- */

  /** The journal durably records that the command for `op` had its confirmed effect. */
  predicate Concluded(v: Volume, op: Operation) {
    Holds(v, Result(op.id), Settled(op, Completed))
  }

  /** The pending marker durably names `op`: nothing else may be issued. */
  predicate Pends(v: Volume, op: Operation) {
    && Stable(v, Marker)
    && v.seen[Marker].Complete?
    && v.seen[Marker].rec.Started?
    && v.seen[Marker].rec.op == op
  }

  /** What a command must have reported for its request to count as completed. */
  predicate EffectShown(call: Issued) {
    && call.command == CommandFor(call.op.action)
    && call.answered
    && Shows(call.op, call.startedBefore, call.after)
  }

  ghost predicate OncePerId(issued: seq<Issued>) {
    forall i, j :: 0 <= i < |issued| && 0 <= j < |issued| && issued[i].op.id == issued[j].op.id ==> i == j
  }

  ghost predicate Recorded(v: Volume, issued: seq<Issued>) {
    forall i :: 0 <= i < |issued| ==>
      Stable(v, Request(issued[i].op.id)) && (Concluded(v, issued[i].op) || Pends(v, issued[i].op))
  }

  ghost predicate ShownFor(issued: seq<Issued>, op: Operation) {
    exists i :: 0 <= i < |issued| && issued[i].op == op && EffectShown(issued[i])
  }

  /** A completed result, durable or only visible, is backed by a command whose effect was shown. */
  ghost predicate Backed(listing: Listing, issued: seq<Issued>) {
    forall id :: Result(id) in listing && !listing[Result(id)].Torn? ==>
      var rec := listing[Result(id)].rec;
      && rec.Settled?
      && rec.op.id == id
      && (rec.verdict == Completed ==> ShownFor(issued, rec.op))
  }

  ghost predicate BrokerInvariant(v: Volume, issued: seq<Issued>) {
    && DurableIsSeen(v)
    && OncePerId(issued)
    && Recorded(v, issued)
    && Backed(v.seen, issued)
    && Backed(v.durable, issued)
  }

  lemma BackedGrows(listing: Listing, issued: seq<Issued>, call: Issued)
    requires Backed(listing, issued)
    ensures Backed(listing, issued + [call])
  {
    forall op | ShownFor(issued, op)
      ensures ShownFor(issued + [call], op)
    {
      var i :| 0 <= i < |issued| && issued[i].op == op && EffectShown(issued[i]);
      assert (issued + [call])[i] == issued[i];
    }
  }

  /** A store under a name no issued command relies on keeps the invariant. */
  lemma StoreKeepsInvariant(v: Volume, issued: seq<Issued>, n: Name, r: Record, fate: StoreFate)
    requires BrokerInvariant(v, issued)
    requires n == Marker ==> Marker !in v.seen
    requires n.Result? ==> r.Settled? && r.op.id == n.id && (r.verdict == Completed ==> ShownFor(issued, r.op))
    ensures BrokerInvariant(StoreNew(v, n, r, fate).0, issued)
  {
    StoreIsWriteOnce(v, n, r, fate);
  }

  lemma UnlinkKeepsInvariant(v: Volume, issued: seq<Issued>, fate: UnlinkFate)
    requires BrokerInvariant(v, issued)
    requires forall i :: 0 <= i < |issued| ==> Concluded(v, issued[i].op)
    ensures BrokerInvariant(Unlink(v, Marker, fate).0, issued)
  {
    UnlinkIsWriteOnce(v, fate);
  }

  /** Issuing a command whose two records are durable keeps the invariant. */
  lemma IssueKeepsInvariant(v: Volume, issued: seq<Issued>, call: Issued)
    requires BrokerInvariant(v, issued)
    requires Stable(v, Request(call.op.id)) && Pends(v, call.op)
    requires forall i :: 0 <= i < |issued| ==> issued[i].op.id != call.op.id
    ensures BrokerInvariant(v, issued + [call])
  {
    BackedGrows(v.seen, issued, call);
    BackedGrows(v.durable, issued, call);
  }

  lemma ConcludeKeepsInvariant(v: Volume, issued: seq<Issued>, call: Issued, confirmed: bool, io: BrokerIo)
    requires BrokerInvariant(v, issued + [call])
    requires forall i :: 0 <= i < |issued| ==> Concluded(v, issued[i].op)
    requires confirmed ==> EffectShown(call)
    ensures
      var v' := Conclude(v, call.op, confirmed, io).0;
      BrokerInvariant(v', issued + [call]) && WriteOnce(v, v')
  {
    var all := issued + [call];
    assert all[|issued|] == call;
    var op := call.op;
    var verdict := if confirmed then Completed else Indeterminate;
    StoreKeepsInvariant(v, all, Result(op.id), Settled(op, verdict), io.result);
    StoreIsWriteOnce(v, Result(op.id), Settled(op, verdict), io.result);
    var (v1, p1) := StoreNew(v, Result(op.id), Settled(op, verdict), io.result);
    if p1.Goes? && confirmed {
      forall i | 0 <= i < |all|
        ensures Concluded(v1, all[i].op)
      {
        assert i < |issued| ==> all[i] == issued[i];
      }
      UnlinkKeepsInvariant(v1, all, io.cleanup);
      UnlinkIsWriteOnce(v1, io.cleanup);
    }
  }

  lemma PrepareKeepsInvariant(v: Volume, issued: seq<Issued>, op: Operation, entry: Record, io: BrokerIo)
    requires BrokerInvariant(v, issued)
    requires Marker !in v.seen
    requires entry.Started? && entry.op == op
    ensures
      var (w, p) := Prepare(v, op, entry, io);
      && BrokerInvariant(w, issued)
      && WriteOnce(v, w)
      && (p.Goes? ==> Pends(w, op) && Stable(w, Request(op.id)) && Request(op.id) !in v.seen)
      && (forall i :: 0 <= i < |issued| ==> Concluded(w, issued[i].op))
  {
    StoreKeepsInvariant(v, issued, Marker, entry, io.pending);
    StoreIsWriteOnce(v, Marker, entry, io.pending);
    var (v1, p1) := StoreNew(v, Marker, entry, io.pending);
    if p1.Goes? {
      StoreKeepsInvariant(v1, issued, Request(op.id), entry, io.request);
      StoreIsWriteOnce(v1, Request(op.id), entry, io.request);
      WriteOnceTransitive(v, v1, StoreNew(v1, Request(op.id), entry, io.request).0);
    }
  }

  /** One call keeps the invariant, whatever fails and wherever the process ends. */
  lemma ApplyKeepsInvariant(v: Volume, issued: seq<Issued>, op: Operation, now: nat, boot: nat, io: BrokerIo)
    requires BrokerInvariant(v, issued)
    ensures
      var step := ApplyOperation(v, op, now, boot, io);
      && BrokerInvariant(step.volume, issued + step.issued)
      && WriteOnce(v, step.volume)
  {
    assert issued + [] == issued;
    if Admitted(v.seen, op, io) {
      var entry := Entry(op, now, io, boot);
      PrepareKeepsInvariant(v, issued, op, entry, io);
      var (v1, p1) := Prepare(v, op, entry, io);
      if p1.Goes? {
        var call := IssuedUnder(op, boot, io);
        IssueKeepsInvariant(v1, issued, call);
        ConcludeKeepsInvariant(v1, issued, call, Confirms(op, io), io);
        WriteOnceTransitive(v, v1, Conclude(v1, op, Confirms(op, io), io).0);
      }
    }
  }

  /** A power loss keeps the invariant: everything it relies on was synced. */
  lemma PowerLossKeepsInvariant(v: Volume, w: Volume, issued: seq<Issued>)
    requires BrokerInvariant(v, issued)
    requires LosesTo(v, w)
    ensures BrokerInvariant(w, issued)
  {
  }

  /**
   The broker is fail-stop: every command but the last has a durable completed
   result, and while the last has none the pending marker names it, so that no
   further command is issued.
   */
  lemma BrokerIsFailStop(v: Volume, issued: seq<Issued>, op: Operation, now: nat, boot: nat, io: BrokerIo)
    requires BrokerInvariant(v, issued)
    requires issued != []
    requires !Concluded(v, issued[|issued| - 1].op)
    ensures Pends(v, issued[|issued| - 1].op)
    ensures forall i :: 0 <= i < |issued| - 1 ==> Concluded(v, issued[i].op)
    ensures ApplyOperation(v, op, now, boot, io).issued == []
  {
    var last := issued[|issued| - 1];
    assert Pends(v, last.op);
    forall i | 0 <= i < |issued| - 1
      ensures Concluded(v, issued[i].op)
    {
      assert issued[i].op.id == last.op.id ==> i == |issued| - 1;
    }
  }

  /** When `apply` reports completion, the journal durably records it. */
  lemma CompletedIsConcluded(v: Volume, op: Operation, now: nat, boot: nat, io: BrokerIo)
    ensures
      var step := ApplyOperation(v, op, now, boot, io);
      step.reply == BrokerCompleted ==> Concluded(step.volume, op)
  {
  }

  lemma PendingRefuses(v: Volume, op: Operation, now: nat, boot: nat, io: BrokerIo)
    requires Marker in v.seen
    ensures ApplyOperation(v, op, now, boot, io) == BrokerStep(v, [], boot, BrokerRefused)
  {
  }

  /** When every record is stored and the effect is confirmed, the journal says so, whether or not the caller learns it. */
  lemma ConfirmedIsConcluded(v: Volume, op: Operation, now: nat, boot: nat, io: BrokerIo)
    requires Admitted(v.seen, op, io) && Confirms(op, io)
    requires io.pending == Stored && io.request == Stored && io.result == Stored
    ensures
      var step := ApplyOperation(v, op, now, boot, io);
      && Concluded(step.volume, op)
      && (io.cleanup == Unlinked && io.gateReleases ==> step.reply == BrokerCompleted)
      && (io.cleanup.UnlinkRaises? ==> step.reply == BrokerRaised)
  {
    var entry := Entry(op, now, io, boot);
    StoreAddsBoth(v, op, entry);
    var v2 := Prepare(v, op, entry, io).0;
    var v3 := StoreNew(v2, Result(op.id), Settled(op, Completed), Stored).0;
    assert Concluded(v3, op) && Marker in v3.seen;
  }

  lemma StoreAddsBoth(v: Volume, op: Operation, entry: Record)
    requires JournalFree(v.seen, op.id)
    ensures
      var (v1, p1) := StoreNew(v, Marker, entry, Stored);
      var (v2, p2) := StoreNew(v1, Request(op.id), entry, Stored);
      p1.Goes? && p2.Goes? && Marker in v2.seen && Result(op.id) !in v2.seen
  {
  }
}
