/**
 When a confirmed effect, or a job that was started, is also receipted: the converse of
 what a receipt means, with its exact condition.
 */
module CompletionConverse {
  import opened Journal
  import opened QueueRules
  import opened QueueSections
  import opened BrokerRules
  import opened SystemdAdmission
  import opened ControlPlane
  import opened ControlBridge

  /** What the create left can be read back, synced or not. */
  predicate LeavesRecord(fate: StoreFate) {
    match fate
    case Stored => true
    case StoreRaises(left) => left.AllBytes? || left.AllButNewline?
    case StoreDies(left) => left.AllBytes? || left.AllButNewline?
  }

  predicate ReceiptsCompletion(seen: Listing, id: Id) {
    || ReceiptOf(seen, id) == Receipt(ReceiptCompleted)
    || ReceiptOf(seen, id) == Receipt(ReceiptCompletedPending)
  }

  /** The queue's journal while the worker holds `op`: in the slot, claimed, without an outcome. */
  predicate HoldsClaim(seen: Listing, op: Operation) {
    && Look(seen, Request(op.id)).Found?
    && Identifies(Look(seen, Request(op.id)).rec, op)
    && Look(seen, Marker) == Look(seen, Request(op.id))
    && Look(seen, Processing(op.id)) == Found(Claimed(op))
    && Result(op.id) !in seen
  }

  lemma GrantHoldsClaim(q: Volume, cfg: Config, io: Io)
    requires Claim(q, cfg, io).1.Granted?
    requires Look(q.seen, Marker).rec.op == Claim(q, cfg, io).1.op
    ensures HoldsClaim(Claim(q, cfg, io).0.seen, Claim(q, cfg, io).1.op)
    ensures cfg.enabled
  {
  }

  /** Settlement receipts completion exactly when it was confirmed, got the lock and left a readable result. */
  lemma SettledReceipt(q: Volume, cfg: Config, op: Operation, out: Outcome, io: Io)
    requires HoldsClaim(q.seen, op) && cfg.enabled && op.action != RunOnce
    requires out == Confirmed || out == Failed
    ensures ReceiptsCompletion(Settle(q, cfg, op, VerdictFor(op, out), io).0.seen, op.id) <==>
      out == Confirmed && io.lockFree && LeavesRecord(io.first)
  {
    assert Settleable(q.seen, op);
    if io.lockFree {
      SettledView(q, cfg, op, VerdictFor(op, out), io);
    }
  }

  /** After settlement only the result is new and at most the marker is gone. */
  lemma SettledView(q: Volume, cfg: Config, op: Operation, verdict: Verdict, io: Io)
    requires HoldsClaim(q.seen, op) && Settleable(q.seen, op) && ValidVerdict(verdict, op)
    requires cfg.enabled && io.lockFree
    ensures
      var w := Settle(q, cfg, op, verdict, io).0;
      && Look(w.seen, Request(op.id)) == Look(q.seen, Request(op.id))
      && Look(w.seen, Processing(op.id)) == Look(q.seen, Processing(op.id))
      && (Look(w.seen, Marker) == Look(q.seen, Marker) || Look(w.seen, Marker) == Missing)
      && (LeavesRecord(io.first) ==> Look(w.seen, Result(op.id)) == Found(Settled(op, verdict)))
      && (!LeavesRecord(io.first) ==> !Look(w.seen, Result(op.id)).Found?)
  {
  }

  lemma UnsettledShowsNothing(q: Volume, op: Operation)
    requires HoldsClaim(q.seen, op)
    ensures !ReceiptsCompletion(q.seen, op.id)
  {
  }

  /** A call that brought the durable completion about says so exactly when it could also clean up after itself. */
  lemma NewlyConcluded(v: Volume, op: Operation, now: nat, boot: nat, io: BrokerIo)
    requires DurableIsSeen(v)
    requires !Concluded(v, op) && Concluded(ApplyOperation(v, op, now, boot, io).volume, op)
    ensures ApplyOperation(v, op, now, boot, io).reply == BrokerCompleted <==>
      io.cleanup == Unlinked && io.gateReleases
  {
    assert Admitted(v.seen, op, io);
    var entry := Entry(op, now, io, boot);
    var (v1, p1) := Prepare(v, op, entry, io);
    PreparedShape(v, op, entry, io);
    if p1.Goes? {
      ConcludedShape(v1, op, Confirms(op, io), io);
    }
  }

  lemma PreparedShape(v: Volume, op: Operation, entry: Record, io: BrokerIo)
    requires DurableIsSeen(v) && JournalFree(v.seen, op.id)
    ensures
      var (w, p) := Prepare(v, op, entry, io);
      && !Concluded(w, op)
      && (p.Goes? ==> Marker in w.seen && Result(op.id) !in w.seen && Result(op.id) !in w.durable)
  {
  }

  lemma ConcludedShape(v: Volume, op: Operation, confirmed: bool, io: BrokerIo)
    requires Marker in v.seen && Result(op.id) !in v.seen && Result(op.id) !in v.durable
    ensures
      var (w, reply) := Conclude(v, op, confirmed, io);
      Concluded(w, op) ==> (reply == BrokerCompleted <==> io.cleanup == Unlinked && io.gateReleases)
  {
  }

  /** An operation about to be executed for the first time is not concluded yet. */
  lemma FreshIsNotConcluded(w: World, op: Operation)
    requires Invariant(w) && op.id !in w.ops
    ensures !Concluded(w.broker, op)
  {
    assert Concluded(w.broker, op) ==> ShownFor(w.issued, op);
  }

  lemma BrokerRan(held: World, e: Event, op: Operation)
    requires e.Executes? && held.hand == Holding(op) && op.action != RunOnce
    requires DurableIsSeen(held.broker)
    requires !Concluded(held.broker, op) && Concluded(Next(held, e).broker, op)
    ensures Next(held, e).queue == held.queue
    ensures Next(held, e).hand == Returned(op, Confirmed) <==> e.brokerIo.cleanup == Unlinked && e.brokerIo.gateReleases
    ensures Next(held, e).hand == Returned(op, Confirmed) || Next(held, e).hand == Returned(op, Failed) || Next(held, e).hand == Idle
  {
    assert e.snapshotReadable;
    NewlyConcluded(held.broker, op, e.now, held.boot, e.brokerIo);
  }

  lemma SettlingLeavesBroker(w: World, cfg: Config, io: Io)
    ensures
      var x := Next(w, Settles(cfg, io));
      && x.broker == w.broker && x.started == w.started
      && (w.hand.Idle? ==> x == w)
      && (w.hand.Returned? ==> x.queue == Settle(w.queue, cfg, w.hand.op, VerdictFor(w.hand.op, w.hand.out), io).0)
  {
  }

  lemma ClaimHolds(w: World, cfg: Config, claim: Io)
    requires Invariant(w) && w.hand.Idle? && Claim(w.queue, cfg, claim).1.Granted?
    ensures
      var op := Claim(w.queue, cfg, claim).1.op;
      var held := Next(w, Claims(cfg, claim));
      && cfg.enabled && op.id !in w.ops
      && held.hand == Holding(op) && held.broker == w.broker
      && HoldsClaim(held.queue.seen, op)
  {
    ClaimKeepsCore(w.queue, w.ops, w.closed, cfg, claim);
    GrantHoldsClaim(w.queue, cfg, claim);
  }

  /**
   After any history, a pass that ran a pause or resume to its durable completion leaves a
   receipt of completion exactly when the broker could remove its own marker and release
   its gate, the queue's lock was free at settlement, and the result record can be read.
   */
  lemma CompletedReceiptExactlyWhen(
      events: seq<Event>, cfg: Config, claim: Io, execution: Event, settle: Io, op: Operation)
    requires execution.Executes? && Run(events).hand.Idle?
    requires Claim(Run(events).queue, cfg, claim).1 == Granted(op) && op.action != RunOnce
    requires Concluded(WorkOnce(Run(events), cfg, claim, execution, settle).broker, op)
    ensures
      ReceiptsCompletion(WorkOnce(Run(events), cfg, claim, execution, settle).queue.seen, op.id) <==>
        && execution.brokerIo.cleanup == Unlinked && execution.brokerIo.gateReleases
        && settle.lockFree && LeavesRecord(settle.first)
  {
    RunKeepsInvariant(events);
    var w := Run(events);
    ClaimHolds(w, cfg, claim);
    FreshIsNotConcluded(w, op);
    var held := Next(w, Claims(cfg, claim));
    var done := Next(held, execution);
    SettlingLeavesBroker(done, cfg, settle);
    BrokerRan(held, execution, op);
    if done.hand.Returned? {
      SettledReceipt(done.queue, cfg, op, done.hand.out, settle);
    } else {
      UnsettledShowsNothing(done.queue, op);
    }
  }

  /* ---- the same for a manual run ---- */

  predicate ReceiptsJob(seen: Listing, id: Id, path: nat, boot: nat) {
    ReceiptOf(seen, id) == Receipt(ReceiptJob(path, boot)) || ReceiptOf(seen, id) == Receipt(ReceiptJobPending(path, boot))
  }

  /** What a dispatch hands to the queue: nothing usable, or a valid job for this operation. */
  predicate JobOrFailed(op: Operation, out: Outcome) {
    out == Failed || (out.Job? && out.id == op.id && out.service == op.service && ValidJob(out.path))
  }

  lemma SettledJob(q: Volume, cfg: Config, op: Operation, out: Outcome, io: Io, path: nat, boot: nat)
    requires HoldsClaim(q.seen, op) && cfg.enabled && op.action == RunOnce && JobOrFailed(op, out)
    ensures ReceiptsJob(Settle(q, cfg, op, VerdictFor(op, out), io).0.seen, op.id, path, boot) <==>
      out == Job(op.id, op.service, path, boot) && io.lockFree && LeavesRecord(io.first)
  {
    assert Settleable(q.seen, op);
    if io.lockFree {
      SettledView(q, cfg, op, VerdictFor(op, out), io);
    }
  }

  /** The manager answered with a valid job under an unchanged, readable boot, and the process lived on. */
  predicate Believed(path: nat, io: DispatchIo) {
    ValidJob(path) && io.bootAfterReadable && io.drift + io.laterDrift == 0 && !io.ends
  }

  lemma DispatchRan(held: World, e: Event, op: Operation, under: nat, path: nat)
    requires e.Executes? && held.hand == Holding(op) && op.action == RunOnce
    requires StartRequest(op.id, op.service, under, JobPath(path)) in Next(held, e).started
    requires StartRequest(op.id, op.service, under, JobPath(path)) !in held.started
    ensures Next(held, e).queue == held.queue
    ensures Next(held, e).hand == Idle
      || (Next(held, e).hand.Returned? && Next(held, e).hand.op == op && JobOrFailed(op, Next(held, e).hand.out))
    ensures Next(held, e).hand == Returned(op, Job(op.id, op.service, path, held.boot)) <==> Believed(path, e.dispatchIo)
    ensures Next(held, e).hand.Returned? && Next(held, e).hand.out.Job? ==>
      Next(held, e).hand.out == Job(op.id, op.service, path, held.boot)
  {
    assert e.snapshotReadable;
    DispatchShape(held, e);
  }

  /**
   After any history, a manual run that the manager answered with a job is receipted with
   that job exactly when the answer could be believed, the queue's lock was free at
   settlement, and the result record can be read.
   */
  lemma JobReceiptExactlyWhen(
      events: seq<Event>, cfg: Config, claim: Io, execution: Event, settle: Io, op: Operation, under: nat, path: nat)
    requires execution.Executes? && Run(events).hand.Idle?
    requires Claim(Run(events).queue, cfg, claim).1 == Granted(op) && op.action == RunOnce
    requires StartRequest(op.id, op.service, under, JobPath(path))
      in WorkOnce(Run(events), cfg, claim, execution, settle).started
    ensures
      ReceiptsJob(WorkOnce(Run(events), cfg, claim, execution, settle).queue.seen, op.id, path, Run(events).boot) <==>
        Believed(path, execution.dispatchIo) && settle.lockFree && LeavesRecord(settle.first)
  {
    RunKeepsInvariant(events);
    var w := Run(events);
    ClaimHolds(w, cfg, claim);
    var held := Next(w, Claims(cfg, claim));
    ClaimSendsNothing(w, cfg, claim);
    assert StartRequest(op.id, op.service, under, JobPath(path)) !in w.started;
    var done := Next(held, execution);
    SettlingLeavesBroker(done, cfg, settle);
    DispatchRan(held, execution, op, under, path);
    if done.hand.Returned? {
      SettledJob(done.queue, cfg, op, done.hand.out, settle, path, w.boot);
    } else {
      NoJobYet(done.queue, op, path, w.boot);
    }
  }

  lemma ClaimSendsNothing(w: World, cfg: Config, claim: Io)
    ensures Next(w, Claims(cfg, claim)).started == w.started && Next(w, Claims(cfg, claim)).boot == w.boot
  {
  }

  lemma NoJobYet(q: Volume, op: Operation, path: nat, boot: nat)
    requires HoldsClaim(q.seen, op)
    ensures !ReceiptsJob(q.seen, op.id, path, boot)
  {
  }
}
