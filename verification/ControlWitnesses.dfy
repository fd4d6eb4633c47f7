/**
 Concrete histories showing that the conditions of the general results are needed.
 */
module ControlWitnesses {
  import opened Journal
  import opened QueueRules
  import opened BrokerRules
  import opened SystemdAdmission
  import opened ControlPlane
  import opened JournalHistory
  import opened ControlBridge
  import opened OperatorRuntime

  const Working := Io(true, Stored, Stored, Unlinked)
  const On := Config(true, true)
  const PauseZero := Operation(0, 0, Pause)
  const Request0 := Accepted(PauseZero, 0)

  const CleanBroker := BrokerIo(
    true, Snapshot(Scheduled, Succeeded, true, true), true, Observed(Live(Scheduled, Succeeded, 0)), true, true,
    Stored, Stored, 0, true, Observed(Live(Paused, Succeeded, 0)), 0, true, Stored, Unlinked, true)

  const NoDispatch := DispatchIo(false, NoSnapshot, false, Unverified, false, false, 0, NoJob, 0, false, false)

  lemma RunOne(events: seq<Event>, e: Event)
    ensures Run(events + [e]) == Next(Run(events), e)
  {
    assert (events + [e])[..|events|] == events;
  }

  /** The journal after a request was stored and claimed; `durable` is what of the request record was synced. */
  function ClaimedJournal(synced: bool): Volume {
    var base := map[Marker := Complete(Request0), Processing(0) := Complete(Claimed(PauseZero))];
    var seen := base[Request(0) := Complete(Request0)];
    Volume(seen, if synced then seen else base)
  }

  function IntakeIo(synced: bool): Io {
    Working.(second := if synced then Stored else StoreRaises(AllBytes))
  }

  function Intake(synced: bool): seq<Event> {
    [Submits(On, Wellformed(PauseZero), 0, IntakeIo(synced))]
  }

  lemma FirstEvent(e: Event)
    ensures Run([e]) == Next(Genesis, e)
  {
    RunOne([], e);
    assert [] + [e] == [e];
  }

  lemma AfterIntake(synced: bool)
    ensures
      var w := Run(Intake(synced));
      && w.queue.seen == map[Marker := Complete(Request0), Request(0) := Complete(Request0)]
      && w.queue.durable == (if synced then w.queue.seen else map[Marker := Complete(Request0)])
      && w.hand == Idle && w.broker == EmptyVolume && w.issued == [] && w.boot == 0 && w.ops == map[]
  {
    FirstEvent(Intake(synced)[0]);
    SubmitEvent(Genesis, On, PauseZero, IntakeIo(synced));
    FirstSubmission(PauseZero, synced, On);
  }

  lemma SubmitEvent(w: World, cfg: Config, op: Operation, io: Io)
    requires w.hand.Idle?
    ensures Next(w, Submits(cfg, Wellformed(op), 0, io))
      == w.(queue := Submit(w.queue, cfg, Wellformed(op), 0, io).0)
  {
  }

  lemma FirstSubmission(op: Operation, synced: bool, cfg: Config)
    requires cfg.enabled && (op.action == RunOnce ==> cfg.allowRunOnce)
    ensures
      var q := Submit(EmptyVolume, cfg, Wellformed(op), 0, IntakeIo(synced)).0;
      && q.seen == map[Marker := Complete(Accepted(op, 0)), Request(op.id) := Complete(Accepted(op, 0))]
      && q.durable == if synced then q.seen else map[Marker := Complete(Accepted(op, 0))]
  {
    assert ScanPasses(EmptyVolume.seen);
  }

  lemma AfterClaim(synced: bool)
    ensures
      var w := Run(Intake(synced) + [Claims(On, Working)]);
      && w.queue == ClaimedJournal(synced)
      && w.hand == Holding(PauseZero) && w.broker == EmptyVolume && w.issued == [] && w.boot == 0
  {
    AfterIntake(synced);
    RunOne(Intake(synced), Claims(On, Working));
    ClaimsPause(Run(Intake(synced)), synced);
  }

  lemma ClaimsPause(w: World, synced: bool)
    requires w.queue.seen == map[Marker := Complete(Request0), Request(0) := Complete(Request0)]
    requires w.queue.durable == (if synced then w.queue.seen else map[Marker := Complete(Request0)])
    requires w.hand == Idle
    ensures
      var x := Next(w, Claims(On, Working));
      && x.queue == ClaimedJournal(synced) && x.hand == Holding(PauseZero)
      && x.broker == w.broker && x.issued == w.issued && x.boot == w.boot
  {
  }

  function Execution(io: BrokerIo): Event {
    Executes(true, 0, io, NoDispatch)
  }

  function Through(synced: bool, io: BrokerIo): seq<Event> {
    Intake(synced) + [Claims(On, Working)] + [Execution(io)]
  }

  /** From an empty journal the broker concludes a pause; the fate of the cleanup decides whether it can also say so. */
  lemma BrokerConcludes(v: Volume, op: Operation, boot: nat, io: BrokerIo)
    requires v.seen == map[] && op.action == Pause
    requires io == CleanBroker.(cleanup := io.cleanup)
    requires io.cleanup == Unlinked || io.cleanup == UnlinkRaises(false)
    ensures
      var step := ApplyOperation(v, op, 0, boot, io);
      && Concluded(step.volume, op)
      && step.reply == if io.cleanup == Unlinked then BrokerCompleted else BrokerRaised
  {
    assert Admitted(v.seen, op, io);
    assert Confirms(op, io);
    ConfirmedIsConcluded(v, op, 0, boot, io);
  }

  lemma AfterExecution(synced: bool, cleanup: UnlinkFate)
    requires cleanup == Unlinked || cleanup == UnlinkRaises(false)
    ensures
      var w := Run(Through(synced, CleanBroker.(cleanup := cleanup)));
      && w.queue == ClaimedJournal(synced)
      && w.hand == Returned(PauseZero, if cleanup == Unlinked then Confirmed else Failed)
      && Concluded(w.broker, PauseZero)
  {
    AfterClaim(synced);
    var io := CleanBroker.(cleanup := cleanup);
    var before := Intake(synced) + [Claims(On, Working)];
    RunOne(before, Execution(io));
    ExecutionReturns(Run(before), cleanup);
  }

  lemma ExecutionReturns(w: World, cleanup: UnlinkFate)
    requires cleanup == Unlinked || cleanup == UnlinkRaises(false)
    requires w.hand == Holding(PauseZero) && w.broker == EmptyVolume && w.boot == 0
    ensures
      var x := Next(w, Execution(CleanBroker.(cleanup := cleanup)));
      && x.queue == w.queue
      && x.hand == Returned(PauseZero, if cleanup == Unlinked then Confirmed else Failed)
      && Concluded(x.broker, PauseZero)
  {
    var e := Execution(CleanBroker.(cleanup := cleanup));
    BrokerConcludes(w.broker, PauseZero, w.boot, e.brokerIo);
    ExecuteLeavesQueue(w, e);
    PauseRunsBroker(w, e);
  }

  lemma PauseRunsBroker(w: World, e: Event)
    requires e.Executes? && e.snapshotReadable && w.hand == Holding(PauseZero)
    ensures
      var x := Next(w, e);
      var step := ApplyOperation(w.broker, PauseZero, e.now, w.boot, e.brokerIo);
      && x.broker == step.volume
      && (step.reply == BrokerCompleted ==> x.hand == Returned(PauseZero, Confirmed))
      && (step.reply == BrokerRaised ==> x.hand == Returned(PauseZero, Failed))
  {
  }

  /** Settling the claimed pause, with the result record's own fate. */
  lemma SettlesPause(synced: bool, verdict: Verdict, first: StoreFate)
    requires verdict == Completed || verdict == Indeterminate
    requires first == Stored || first == StoreRaises(AllBytes)
    ensures
      var w := Settle(ClaimedJournal(synced), On, PauseZero, verdict, Working.(first := first)).0;
      var seen := ClaimedJournal(synced).seen[Result(0) := Complete(Settled(PauseZero, verdict))];
      && w.seen == (if first == Stored && verdict == Completed then seen - {Marker} else seen)
      && (first != Stored ==> w.durable == ClaimedJournal(synced).durable)
      && (first == Stored && verdict == Completed ==>
            w.durable == ClaimedJournal(synced).durable[Result(0) := Complete(Settled(PauseZero, verdict))] - {Marker})
  {
    assert Settleable(ClaimedJournal(synced).seen, PauseZero);
  }

  /**
   Without the condition of `CompletedReceiptExactlyWhen` the converse of
   `CompletedMeansEffect` fails: a confirmed pause whose broker marker cannot be removed is
   receipted as indeterminate.
   */
  lemma BrokerMaySucceedAlone()
    ensures exists events: seq<Event> ::
      && Faithful(events)
      && Concluded(Run(events).broker, PauseZero)
      && ReceiptOf(Run(events).queue.seen, 0) == Receipt(ReceiptIndeterminate)
  {
    var before := Through(true, CleanBroker.(cleanup := UnlinkRaises(false)));
    AfterExecution(true, UnlinkRaises(false));
    RunOne(before, Settles(On, Working));
    var events := before + [Settles(On, Working)];
    SettlesUnknown(Run(before));
    QuietBefore(before, Settles(On, Working));
    NoPowerLossIsFaithful(events);
  }

  lemma QuietBefore(before: seq<Event>, e: Event)
    requires NoPowerLoss(before) && !e.PowerFails?
    ensures NoPowerLoss(before + [e])
  {
  }

  lemma SettlesUnknown(w: World)
    requires w.queue == ClaimedJournal(true) && w.hand == Returned(PauseZero, Failed)
    ensures
      var x := Next(w, Settles(On, Working));
      x.broker == w.broker && ReceiptOf(x.queue.seen, 0) == Receipt(ReceiptIndeterminate)
  {
    SettlesPause(true, Indeterminate, Stored);
  }

  lemma ReceiptsOfPause()
    ensures ReceiptOf(ClaimedJournal(true).seen, 0) == Receipt(ReceiptProcessing)
    ensures ReceiptOf(ClaimedJournal(true).seen[Result(0) := Complete(Settled(PauseZero, Completed))], 0)
         == Receipt(ReceiptCompletedPending)
  {
  }

  /**
   A receipt can move backward: a result whose fsync failed is announced, and a power
   loss then takes it away.
   */
  lemma LostResultReverts()
    ensures exists events: seq<Event> ::
      && NoPowerLoss(events)
      && ReceiptOf(Run(events).queue.seen, 0) == Receipt(ReceiptCompletedPending)
      && exists q: Volume :: LosesTo(Run(events).queue, q) && ReceiptOf(q.seen, 0) == Receipt(ReceiptProcessing)
  {
    var unsynced := Working.(first := StoreRaises(AllBytes));
    var before := Through(true, CleanBroker);
    var events := before + [Settles(On, unsynced)];
    var w := AfterSettling(true, StoreRaises(AllBytes));
    ReceiptsOfPause();
    DurableViewIsLoss(w);
    assert w.durable == ClaimedJournal(true).seen;
  }

  /** The queue's journal once the confirmed pause was settled. */
  lemma AfterSettling(synced: bool, first: StoreFate) returns (w: Volume)
    requires first == Stored || first == StoreRaises(AllBytes)
    ensures w == Run(Through(synced, CleanBroker) + [Settles(On, Working.(first := first))]).queue
    ensures w == Settle(ClaimedJournal(synced), On, PauseZero, Completed, Working.(first := first)).0
    ensures NoPowerLoss(Through(synced, CleanBroker) + [Settles(On, Working.(first := first))])
    ensures
      var seen := ClaimedJournal(synced).seen[Result(0) := Complete(Settled(PauseZero, Completed))];
      && w.seen == (if first == Stored then seen - {Marker} else seen)
      && w.durable ==
         if first == Stored
         then ClaimedJournal(synced).durable[Result(0) := Complete(Settled(PauseZero, Completed))] - {Marker}
         else ClaimedJournal(synced).durable
  {
    var before := Through(synced, CleanBroker);
    var e := Settles(On, Working.(first := first));
    AfterCleanExecution(synced);
    RunOne(before, e);
    SettlesConfirmed(Run(before), synced, first);
    SettlesPause(synced, Completed, first);
    QuietAfterExecution(synced, e);
    w := Run(before + [e]).queue;
  }

  lemma AfterCleanExecution(synced: bool)
    ensures
      var w := Run(Through(synced, CleanBroker));
      w.queue == ClaimedJournal(synced) && w.hand == Returned(PauseZero, Confirmed)
  {
    assert CleanBroker.(cleanup := Unlinked) == CleanBroker;
    AfterExecution(synced, Unlinked);
  }

  lemma SettlesConfirmed(w: World, synced: bool, first: StoreFate)
    requires w.queue == ClaimedJournal(synced) && w.hand == Returned(PauseZero, Confirmed)
    ensures Next(w, Settles(On, Working.(first := first))).queue
         == Settle(ClaimedJournal(synced), On, PauseZero, Completed, Working.(first := first)).0
  {
    SettleEvent(w, Settles(On, Working.(first := first)));
  }

  lemma QuietAfterExecution(synced: bool, e: Event)
    requires !e.PowerFails?
    ensures NoPowerLoss(Through(synced, CleanBroker) + [e])
  {
  }

  lemma SettleEvent(w: World, e: Event)
    requires e.Settles? && w.hand == Returned(PauseZero, Confirmed)
    ensures Next(w, e).queue == Settle(w.queue, e.cfg, PauseZero, Completed, e.io).0
  {
  }

  /** The journal of the settled pause, with its marker. */
  const SettledJournal := ClaimedJournal(true).seen[Result(0) := Complete(Settled(PauseZero, Completed))]

  /** Settling it when the removal of the marker takes effect but its directory sync fails. */
  lemma SettlesUnsynced(w: World)
    requires w.queue == ClaimedJournal(true) && w.hand == Returned(PauseZero, Confirmed)
    ensures
      var x := Next(w, Settles(On, Working.(cleanup := UnlinkRaises(true))));
      x.queue == Volume(SettledJournal - {Marker}, SettledJournal)
  {
    assert Settleable(ClaimedJournal(true).seen, PauseZero);
  }

  lemma ReceiptsWithAndWithoutMarker()
    ensures ReceiptOf(SettledJournal - {Marker}, 0) == Receipt(ReceiptCompleted)
    ensures ReceiptOf(SettledJournal, 0) == Receipt(ReceiptCompletedPending)
  {
  }

  lemma AfterUnsyncedSettling() returns (events: seq<Event>)
    ensures NoPowerLoss(events) && Run(events).queue == Volume(SettledJournal - {Marker}, SettledJournal)
  {
    var before := Through(true, CleanBroker);
    var settle := Settles(On, Working.(cleanup := UnlinkRaises(true)));
    events := before + [settle];
    AfterCleanExecution(true);
    RunOne(before, settle);
    SettlesUnsynced(Run(before));
    QuietAfterExecution(true, settle);
  }

  /** The loss after which each directory is what was on stable storage. */
  lemma EverythingUnsyncedIsLost(events: seq<Event>) returns (loss: Event)
    ensures
      var w := Run(events);
      Run(events + [loss]).queue == Volume(w.queue.durable, w.queue.durable)
  {
    var w := Run(events);
    loss := PowerFails(Volume(w.queue.durable, w.queue.durable), Volume(w.broker.durable, w.broker.durable));
    DurableViewIsLoss(w.queue);
    DurableViewIsLoss(w.broker);
    RunOne(events, loss);
  }

  /**
   A power loss that takes no record can still move a receipt back: a marker whose removal
   was not synced comes back, and a completed pause waits for cleanup again.
   */
  lemma MarkerComesBack()
    ensures exists events: seq<Event>, loss: Event ::
      && NoPowerLoss(events) && Faithful(events + [loss])
      && ReceiptOf(Run(events).queue.seen, 0) == Receipt(ReceiptCompleted)
      && ReceiptOf(Run(events + [loss]).queue.seen, 0) == Receipt(ReceiptCompletedPending)
  {
    var events := AfterUnsyncedSettling();
    var loss := EverythingUnsyncedIsLost(events);
    NoPowerLossIsFaithful(events);
    FaithfulOneMore(events, loss);
    ReceiptsWithAndWithoutMarker();
  }

  lemma FaithfulOneMore(events: seq<Event>, e: Event)
    requires Faithful(events) && KeepsRecords(Run(events).queue, Run(events + [e]).queue)
    ensures Faithful(events + [e])
  {
    assert (events + [e])[..|events|] == events;
  }

  /**
   The two guards can disagree: a request whose record was never synced is executed and
   settled, a power loss takes the record away, and without any active marker the scan
   then refuses every new request.
   */
  lemma LostRequestWedges()
    ensures exists events: seq<Event> ::
      && NoPowerLoss(events)
      && exists q: Volume :: LosesTo(Run(events).queue, q) && Marker !in q.seen && !HistorySettled(q.seen)
  {
    var w := AfterSettling(false, Stored);
    DurableViewIsLoss(w);
    assert Processing(0) in w.durable && Request(0) !in w.durable && Marker !in w.durable;
    assert !HistorySettled(w.durable);
    assert Working.(first := Stored) == Working;
  }

  /**
   A pass that paused a timer, found the lock busy at settlement and left the worker looking
   healthy: the request is executed and open, and the flag is clear.
   */
  lemma BusySettlementGoesUnnoticed()
    ensures exists events: seq<Event>, execution: Event, settle: Io ::
      && execution.Executes? && Run(events).hand.Idle? && AllClosed(Run(events))
      && Concluded(WorkOnce(Run(events), On, Working, execution, settle).broker, PauseZero)
      && !AllClosed(WorkOnce(Run(events), On, Working, execution, settle))
      && FailureAfter(NoFailure, PassReply(Run(events), On, Working, execution, settle)) == NoFailure
  {
    var events, execution, settle := Intake(true), Execution(CleanBroker), Working.(lockFree := false);
    var w := Run(events);
    assert CleanBroker.(cleanup := Unlinked) == CleanBroker;
    AfterIntake(true);
    AfterClaim(true);
    AfterExecution(true, Unlinked);
    RunOne(events, Claims(On, Working));
    RunOne(events + [Claims(On, Working)], execution);
    ClaimShape(w, On, Working);
    var done := Next(Next(w, Claims(On, Working)), execution);
    BusySettlement(done, settle);
    RunKeepsInvariant(events);
    assert PassReply(w, On, Working, execution, settle) == Refused(Unavailable);
    UnnoticedExactlyWhenSettleWasBusy(w, On, Working, execution, settle);
    assert WorkOnce(w, On, Working, execution, settle) == Next(done, Settles(On, settle));
  }

  lemma BusySettlement(done: World, settle: Io)
    requires done.hand == Returned(PauseZero, Confirmed) && !settle.lockFree
    ensures Settle(done.queue, On, PauseZero, VerdictFor(PauseZero, Confirmed), settle) == (done.queue, Refused(Unavailable))
    ensures Next(done, Settles(On, settle)).broker == done.broker
  {
  }

  const RunZero := Operation(0, 0, RunOnce)

  /** The manager answers with job 7, and the boot cannot be read afterwards. */
  const UnreadableBoot := DispatchIo(
    true, Snapshot(Paused, Succeeded, true, true), true, Observed(Live(Paused, Succeeded, 0)), true, true,
    0, JobPath(7), 0, false, false)

  const ClaimedRun := map[
    Marker := Complete(Accepted(RunZero, 0)), Request(0) := Complete(Accepted(RunZero, 0)),
    Processing(0) := Complete(Claimed(RunZero))]

  /** A manual run, accepted and claimed. */
  function RunClaimed(): seq<Event> {
    [Submits(On, Wellformed(RunZero), 0, Working)] + [Claims(On, Working)]
  }

  lemma AfterRunClaimed()
    ensures
      var w := Run(RunClaimed());
      && w.queue == Volume(ClaimedRun, ClaimedRun) && w.hand == Holding(RunZero) && w.boot == 0 && w.started == []
  {
    var submit := Submits(On, Wellformed(RunZero), 0, Working);
    assert IntakeIo(true) == Working;
    FirstEvent(submit);
    SubmitEvent(Genesis, On, RunZero, Working);
    FirstSubmission(RunZero, true, On);
    RunOne([submit], Claims(On, Working));
  }

  const LostJob := Executes(true, 0, CleanBroker, UnreadableBoot)

  lemma LosesTheJob(w: World, e: Event)
    requires w.hand == Holding(RunZero) && w.boot == 0 && w.started == []
    requires e.Executes? && e.snapshotReadable
    requires Dispatch(RunZero, 0, e.dispatchIo) == DispatchStep([StartRequest(0, 0, 0, JobPath(7))], 0, false, Failed)
    ensures
      var x := Next(w, e);
      x.queue == w.queue && x.hand == Returned(RunZero, Failed) && x.started == [StartRequest(0, 0, 0, JobPath(7))]
  {
    DispatchShape(w, e);
  }

  lemma AfterLostJob()
    ensures
      var w := Run(RunClaimed() + [LostJob]);
      && w.queue == Volume(ClaimedRun, ClaimedRun) && w.hand == Returned(RunZero, Failed)
      && w.started == [StartRequest(0, 0, 0, JobPath(7))]
  {
    AfterRunClaimed();
    RunOne(RunClaimed(), LostJob);
    DispatchLosesJob();
    LosesTheJob(Run(RunClaimed()), LostJob);
  }

  /**
   Without the condition of `JobReceiptExactlyWhen` a job that was started is not receipted:
   the manager answered with it, and the receipt says the outcome is unknown.
   */
  lemma JobMayRunUnreceipted()
    ensures exists events: seq<Event> ::
      && NoPowerLoss(events)
      && StartRequest(0, 0, 0, JobPath(7)) in Run(events).started
      && ReceiptOf(Run(events).queue.seen, 0) == Receipt(ReceiptIndeterminate)
  {
    AfterLostJob();
    RunOne(RunClaimed() + [LostJob], Settles(On, Working));
    RunSettlesUnknown(Run(RunClaimed() + [LostJob]));
    var events := RunClaimed() + [LostJob] + [Settles(On, Working)];
    assert StartRequest(0, 0, 0, JobPath(7)) in Run(events).started;
    QuietRun();
  }

  lemma QuietRun()
    ensures NoPowerLoss(RunClaimed() + [LostJob] + [Settles(On, Working)])
  {
  }

  lemma DispatchLosesJob()
    ensures Dispatch(RunZero, 0, UnreadableBoot)
      == DispatchStep([StartRequest(0, 0, 0, JobPath(7))], 0, false, Failed)
  {
    assert DispatchAdmitted(RunZero, UnreadableBoot);
  }

  lemma RunSettlesUnknown(w: World)
    requires w.queue == Volume(ClaimedRun, ClaimedRun) && w.hand == Returned(RunZero, Failed)
    ensures
      var x := Next(w, Settles(On, Working));
      x.started == w.started && ReceiptOf(x.queue.seen, 0) == Receipt(ReceiptIndeterminate)
  {
    assert Settleable(w.queue.seen, RunZero);
  }
}
