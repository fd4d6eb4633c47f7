/**
 That the broker asks for the right thing: what its commands make of a host that obeys
 them, and under what guard each command and each StartUnit request was ever sent.
 */
module BrokerEffects {
  import opened Journal
  import opened BrokerRules
  import opened SystemdAdmission
  import opened ControlPlane

  /** What a command makes of a host that obeys it; a started service runs to success at `ranAt`. */
  function Obeyed(command: Command, live: Live, ranAt: nat): Live {
    match command
    case DisableNow => live.(schedule := Paused)
    case EnableNow => live.(schedule := Scheduled)
    case StartService => live.(execution := Succeeded, startMonotonic := ranAt)
  }

  predicate ObeyedBy(call: Issued, before: Live, ranAt: nat) {
    call.after == Observed(Obeyed(call.command, before, ranAt))
  }

  /** Nothing goes wrong but, perhaps, the effect itself. */
  predicate Undisturbed(io: BrokerIo) {
    && io.pending == Stored && io.request == Stored && io.result == Stored && io.cleanup == Unlinked
    && io.answered && io.bootAfterReadable && io.drift + io.laterDrift == 0 && io.gateReleases
  }

  /**
   An admitted operation on a host that obeys: exactly one command is issued, what it makes
   of the host is what is wanted, and completion is recorded and reported.
   */
  lemma ObeyedIsCompleted(v: Volume, op: Operation, now: nat, boot: nat, io: BrokerIo, ranAt: nat)
    requires Admitted(v.seen, op, io) && Undisturbed(io) && ranAt > io.before.live.startMonotonic
    requires forall call :: call in ApplyOperation(v, op, now, boot, io).issued ==> ObeyedBy(call, io.before.live, ranAt)
    ensures
      var step := ApplyOperation(v, op, now, boot, io);
      && |step.issued| == 1 && step.issued[0].op == op
      && step.reply == BrokerCompleted && Concluded(step.volume, op)
  {
    var entry := Entry(op, now, io, boot);
    StoreAddsBoth(v, op, entry);
    var step := ApplyOperation(v, op, now, boot, io);
    assert step.issued == [IssuedUnder(op, boot, io)];
    assert step.issued[0] in step.issued;
    assert Confirms(op, io);
    ConfirmedIsConcluded(v, op, now, boot, io);
  }

  /** What is reported completed is a change that was observed under one boot: what was so before is never taken for an effect. */
  lemma CompletedIsAChange(v: Volume, op: Operation, now: nat, boot: nat, io: BrokerIo)
    requires ApplyOperation(v, op, now, boot, io).reply == BrokerCompleted
    ensures io.answered && io.bootAfterReadable && ApplyOperation(v, op, now, boot, io).boot == boot
    ensures io.before.Observed? && io.after.Observed?
    ensures op.action == Pause ==> io.before.live.schedule == Scheduled && io.after.live.schedule == Paused
    ensures op.action == Resume ==> io.before.live.schedule == Paused && io.after.live.schedule == Scheduled
    ensures op.action == RunOnce ==>
      && io.before.live.schedule == Paused == io.after.live.schedule
      && io.after.live.execution == Succeeded && io.after.live.startMonotonic > io.before.live.startMonotonic
  {
  }

  /** Wherever a request counts as completed, the command issued for it is one that makes what was observed. */
  lemma ShownIsWhatTheCommandMakes(call: Issued, before: Live)
    requires EffectShown(call)
    requires call.op.action == RunOnce ==> before.schedule == Paused
    ensures
      var made := Obeyed(call.command, before, call.after.live.startMonotonic);
      && made.schedule == call.after.live.schedule
      && (call.op.action == RunOnce ==>
            made.execution == call.after.live.execution && made.startMonotonic > call.startedBefore)
  {
  }

  lemma IssuedShape(v: Volume, op: Operation, now: nat, boot: nat, io: BrokerIo)
    requires ApplyOperation(v, op, now, boot, io).issued != []
    ensures Admitted(v.seen, op, io)
    ensures
      var (v1, p1) := Prepare(v, op, Started(op, now, io.before.live.startMonotonic, boot), io);
      var step := ApplyOperation(v, op, now, boot, io);
      && p1.Goes?
      && step.volume == Conclude(v1, op, Confirms(op, io), io).0
      && step.issued == [Issued(
           op, CommandFor(op.action), boot + io.drift, io.before.live.startMonotonic, io.answered, io.after)]
  {
  }

  lemma PreparedHolds(v: Volume, op: Operation, entry: Record, io: BrokerIo)
    requires Prepare(v, op, entry, io).1.Goes? && JournalFree(v.seen, op.id)
    ensures
      var w := Prepare(v, op, entry, io).0;
      Holds(w, Marker, entry) && Holds(w, Request(op.id), entry) && Result(op.id) !in w.seen
  {
  }

  lemma ConcludeHolds(v: Volume, op: Operation, entry: Record, confirmed: bool, io: BrokerIo)
    requires Holds(v, Marker, entry) && Holds(v, Request(op.id), entry) && Result(op.id) !in v.seen
    ensures
      var w := Conclude(v, op, confirmed, io).0;
      && Holds(w, Request(op.id), entry)
      && (Marker in w.seen ==> Holds(w, Marker, entry))
      && (io.result == Stored ==> Holds(w, Result(op.id), Settled(op, if confirmed then Completed else Indeterminate)))
      && (!confirmed ==> Marker in w.seen)
  {
  }

  /**
   Before the command the journal durably says what was about to be done, when, under which
   boot and what the service's last start was; the marker says the same for as long as it is there.
   */
  lemma RecordsSayWhatWasSeen(v: Volume, op: Operation, now: nat, boot: nat, io: BrokerIo)
    requires ApplyOperation(v, op, now, boot, io).issued != []
    ensures
      var step := ApplyOperation(v, op, now, boot, io);
      && io.before.Observed?
      && var entry := Started(op, now, io.before.live.startMonotonic, boot);
      && |step.issued| == 1 && step.issued[0].op == op && step.issued[0].boot == boot + io.drift
      && step.issued[0].startedBefore == entry.monotonic && step.issued[0].after == io.after
      && Holds(step.volume, Request(op.id), entry)
      && (Marker in step.volume.seen ==> Holds(step.volume, Marker, entry))
  {
    IssuedShape(v, op, now, boot, io);
    var entry := Started(op, now, io.before.live.startMonotonic, boot);
    PreparedHolds(v, op, entry, io);
    ConcludeHolds(Prepare(v, op, entry, io).0, op, entry, Confirms(op, io), io);
  }

  /**
   No command goes without an outcome on record, unless storing it failed: what was not
   confirmed is recorded as unknown, and the marker stays.
   */
  lemma OutcomeIsRecorded(v: Volume, op: Operation, now: nat, boot: nat, io: BrokerIo)
    requires ApplyOperation(v, op, now, boot, io).issued != [] && io.result == Stored
    ensures
      var step := ApplyOperation(v, op, now, boot, io);
      || Concluded(step.volume, op)
      || (Holds(step.volume, Result(op.id), Settled(op, Indeterminate)) && Pends(step.volume, op)
          && step.reply == BrokerRaised)
  {
    IssuedShape(v, op, now, boot, io);
    var entry := Started(op, now, io.before.live.startMonotonic, boot);
    PreparedHolds(v, op, entry, io);
    ConcludeHolds(Prepare(v, op, entry, io).0, op, entry, Confirms(op, io), io);
  }

  /* ---- the guard of every command ever issued ---- */

  /** The maintenance gate is held, the snapshot is current under it, and the units are in a state the action is for. */
  predicate CommandGuard(op: Operation, io: BrokerIo) {
    && io.authority && io.gateHeld
    && io.snapshot.Snapshot? && io.snapshot.current && io.snapshot.currentUnderGate
    && io.before.Observed?
    && io.before.live.schedule == io.snapshot.schedule && io.before.live.execution == io.snapshot.execution
    && io.bootBeforeReadable
    && match op.action
       case Pause => io.before.live.schedule == Scheduled
       case Resume => io.before.live.schedule == Paused
       case RunOnce =>
         io.before.live.schedule == Paused && io.before.live.execution != ExecutionFailed && io.workflowQuiescent
  }

  /** Whatever the action, a command is issued only under its guard. */
  lemma ApplyIsGuarded(v: Volume, op: Operation, now: nat, boot: nat, io: BrokerIo)
    ensures ApplyOperation(v, op, now, boot, io).issued != [] ==> CommandGuard(op, io)
  {
  }

  predicate StartGuard(io: DispatchIo) {
    && io.authority && io.gateHeld && io.chainIdle && io.bootBeforeReadable
    && io.snapshot.Snapshot? && io.snapshot.current
    && io.live.Observed?
    && io.live.live.schedule == io.snapshot.schedule && io.live.live.execution == io.snapshot.execution
    && io.live.live.schedule == Paused && io.live.live.execution != ExecutionFailed
  }

  lemma StepGuards(w: World, e: Event)
    ensures Next(w, e).issued == w.issued || (
      && e.Executes? && w.hand.Holding? && CommandGuard(w.hand.op, e.brokerIo)
      && exists call: Issued :: call.op == w.hand.op && Next(w, e).issued == w.issued + [call])
    ensures Next(w, e).started == w.started || (
      && e.Executes? && w.hand.Holding? && w.hand.op.action == RunOnce && StartGuard(e.dispatchIo)
      && exists start: StartRequest :: start.id == w.hand.op.id && start.service == w.hand.op.service
           && Next(w, e).started == w.started + [start])
  {
    if e.Executes? && w.hand.Holding? && e.snapshotReadable {
      var op := w.hand.op;
      if op.action == RunOnce {
        var step := Dispatch(op, w.boot, e.dispatchIo);
        assert step.started == [] || step.started == [step.started[0]];
        assert w.started + [] == w.started;
      } else {
        var step := ApplyOperation(w.broker, op, e.now, w.boot, e.brokerIo);
        assert step.issued == [] || step.issued == [step.issued[0]];
        assert w.issued + [] == w.issued;
      }
    }
  }

  /** The event that issued the i-th command, with its guard. */
  ghost predicate IssuedBy(events: seq<Event>, i: nat, k: nat) {
    && k < |events| && events[k].Executes? && i < |Run(events).issued|
    && CommandGuard(Run(events).issued[i].op, events[k].brokerIo)
  }

  ghost predicate StartedBy(events: seq<Event>, i: nat, k: nat) {
    && k < |events| && events[k].Executes? && i < |Run(events).started|
    && StartGuard(events[k].dispatchIo)
  }

  lemma IssuedEarlier(events: seq<Event>, i: nat, k: nat)
    requires events != [] && IssuedBy(events[..|events| - 1], i, k)
    requires Run(events[..|events| - 1]).issued <= Run(events).issued
    ensures IssuedBy(events, i, k)
  {
  }

  lemma StartedEarlier(events: seq<Event>, i: nat, k: nat)
    requires events != [] && StartedBy(events[..|events| - 1], i, k)
    requires Run(events[..|events| - 1]).started <= Run(events).started
    ensures StartedBy(events, i, k)
  {
  }

  lemma LastStep(events: seq<Event>)
    requires events != []
    ensures Run(events) == Next(Run(events[..|events| - 1]), events[|events| - 1])
  {
  }

  /** Over every history, every command was issued under its guard. */
  lemma {:induction false} EveryCommandGuarded(events: seq<Event>, i: nat)
    requires i < |Run(events).issued|
    ensures exists k :: IssuedBy(events, i, k)
  {
    if events != [] {
      var n := |events| - 1;
      var w, e := Run(events[..n]), events[n];
      LastStep(events);
      StepGuards(w, e);
      if i < |w.issued| {
        EveryCommandGuarded(events[..n], i);
        var k :| IssuedBy(events[..n], i, k);
        IssuedEarlier(events, i, k);
      } else {
        assert IssuedBy(events, i, n);
      }
    }
  }

  /** Over every history, every StartUnit request was sent with the gate held, the chain idle and the timer paused. */
  lemma {:induction false} EveryStartGuarded(events: seq<Event>, i: nat)
    requires i < |Run(events).started|
    ensures exists k :: StartedBy(events, i, k)
  {
    if events != [] {
      var n := |events| - 1;
      var w, e := Run(events[..n]), events[n];
      LastStep(events);
      StepGuards(w, e);
      if i < |w.started| {
        EveryStartGuarded(events[..n], i);
        var k :| StartedBy(events[..n], i, k);
        StartedEarlier(events, i, k);
      } else {
        assert StartedBy(events, i, n);
      }
    }
  }
}
