/**
 What a caller is told: every receipt a section returns is the one its journal then shows,
 and every refusal is true of what it refuses.
 */
module Replies {
  import opened Journal
  import opened QueueRules
  import opened ControlPlane
  import opened JournalHistory
  import opened Receipts
  import opened CompletionConverse
  import opened ControlBridge
  import opened OperatorRuntime

  /* ---- receipts ---- */

  /** The receipt of a submission is the journal's own, of the operation submitted. */
  lemma SubmitTellsTheJournal(v: Volume, cfg: Config, raw: Input, now: nat, io: Io)
    ensures
      var (w, reply) := Submit(v, cfg, raw, now, io);
      reply.Receipt? ==>
        && raw.Wellformed? && ReceiptOf(w.seen, raw.op.id) == reply
        && Look(w.seen, Request(raw.op.id)).rec.op == raw.op
  {
  }

  /** What a new submission is accepted for: a free slot, a settled history, and both records durable. */
  lemma AcceptedExactlyWhen(v: Volume, cfg: Config, op: Operation, now: nat, io: Io)
    requires DurableIsSeen(v) && Request(op.id) !in v.seen
    ensures
      var (w, reply) := Submit(v, cfg, Wellformed(op), now, io);
      && (reply.Receipt? <==>
           && cfg.enabled && (op.action == RunOnce ==> cfg.allowRunOnce) && io.lockFree
           && Marker !in v.seen && Result(op.id) !in v.seen && ScanPasses(v.seen)
           && io.first == Stored && io.second == Stored)
      && (reply.Receipt? ==>
           && reply == Receipt(ReceiptAccepted)
           && Holds(w, Marker, Accepted(op, now)) && Holds(w, Request(op.id), Accepted(op, now)))
  {
  }

  predicate RecordedAs(seen: Listing, op: Operation) {
    && Look(seen, Request(op.id)).Found?
    && Look(seen, Request(op.id)).rec.Accepted?
    && Look(seen, Request(op.id)).rec.op == op
  }

  /** A request already on record is answered from the record, and nothing is written. */
  lemma ResubmissionIsAnswered(v: Volume, cfg: Config, op: Operation, now: nat, io: Io)
    requires Request(op.id) in v.seen && cfg.enabled && (op.action == RunOnce ==> cfg.allowRunOnce) && io.lockFree
    ensures
      var (w, reply) := Submit(v, cfg, Wellformed(op), now, io);
      && w == v
      && (RecordedAs(v.seen, op) ==> reply == ReceiptOf(v.seen, op.id))
      && (reply.Receipt? ==> RecordedAs(v.seen, op))
  {
  }

  /** What a settlement may record: a success of the kind the action has, or that the outcome is unknown. */
  predicate MayRecord(op: Operation, verdict: Verdict) {
    match verdict
    case Completed => op.action == Pause || op.action == Resume
    case Indeterminate => true
    case JobAccepted(path, boot) => op.action == RunOnce && 1 <= path < MAX_JOB_PATH
  }

  /** A settlement tells what the journal then shows, and succeeds exactly when its result is durable and the slot given up. */
  lemma SettleTellsTheJournal(q: Volume, cfg: Config, op: Operation, verdict: Verdict, io: Io)
    requires HoldsClaim(q.seen, op)
    ensures
      var (w, reply) := Settle(q, cfg, op, verdict, io);
      && (reply.Receipt? ==> ReceiptOf(w.seen, op.id) == reply)
      && (reply.Receipt? <==>
           && cfg.enabled && MayRecord(op, verdict) && io.lockFree
           && io.first == Stored && (verdict == Indeterminate || io.cleanup == Unlinked))
      && (!cfg.enabled || !MayRecord(op, verdict) || !io.lockFree ==> w == q)
  {
    assert Settleable(q.seen, op);
    if cfg.enabled && io.lockFree && ValidVerdict(verdict, op) {
      SettledView(q, cfg, op, verdict, io);
    }
  }

  lemma AttestTellsTheJournal(v: Volume, id: Id, approval: nat, boot: nat, io: Io)
    ensures
      var (w, reply) := Attest(v, id, approval, boot, io);
      && (reply.Receipt? ==> ReceiptOf(w.seen, id) == reply)
      && (reply == Refused(Unavailable) <==> !io.lockFree)
      && (reply == Refused(WriteFailed) ==> io.first.StoreRaises? && Evidence(id) !in v.seen)
      && (reply.Ended? ==> io.first.StoreDies? && Evidence(id) !in v.seen)
      && (reply == Refused(JournalFault) ==> w == v)
  {
  }

  lemma ReconcileTellsTheJournal(v: Volume, id: Id, d: Decision, now: nat, io: Io)
    ensures
      var (w, reply) := Reconcile(v, id, d, now, io);
      reply.Receipt? ==> ReceiptOf(w.seen, id) == reply && Marker !in w.seen
  {
    var (w, reply) := Reconcile(v, id, d, now, io);
    if reply.Receipt? {
      ReleasedIsIndeterminate(v, id, d, now, io);
      SuccessAcknowledges(v, id, d, now, io);
      var v1 := WithProof(v, id, d, now, io);
      assert io.(cleanup := io.cleanup) == io;
      assert Reconcile(v, id, d, now, io.(cleanup := io.cleanup)) == Release(v1, io.(cleanup := io.cleanup));
      ReleaseLeavesProof(v1, id, d, io);
    }
  }

  lemma ReleasedIsIndeterminate(v: Volume, id: Id, d: Decision, now: nat, io: Io)
    ensures
      var reply := Reconcile(v, id, d, now, io).1;
      reply.Receipt? ==> reply == Receipt(ReceiptIndeterminate)
  {
  }

  lemma ReleaseLeavesProof(v: Volume, id: Id, d: Decision, io: Io)
    requires Acknowledges(v.seen, id, d) && Release(v, io).1.Receipt?
    ensures ReceiptOf(Release(v, io).0.seen, id) == Receipt(ReceiptIndeterminate)
    ensures Marker !in Release(v, io).0.seen
  {
    ReleaseTouchesMarker(v, io);
    var w := Release(v, io).0;
    if w != v { WithoutMarkerAcknowledges(v.seen, w.seen, id, d); }
    AcknowledgedSettles(w.seen, id, d);
    AcknowledgedReceipt(w.seen, id);
  }

  /* ---- refusals ---- */

  /** Why a submission may be refused with this code. */
  ghost predicate Explains(code: Code, v: Volume, cfg: Config, raw: Input, io: Io) {
    match code
    case QueueDisabled => !cfg.enabled
    case InvalidOperation => raw.Malformed?
    case RunOnceUnqualified => raw.Wellformed? && raw.op.action == RunOnce && !cfg.allowRunOnce
    case Unavailable => !io.lockFree
    case QueueBusy =>
      raw.Wellformed? && Request(raw.op.id) !in v.seen && Look(v.seen, Marker).Found?
    case WriteFailed => Marker !in v.seen && (io.first.StoreRaises? || io.second.StoreRaises?)
    case JournalFault =>
      && raw.Wellformed?
      && (|| !ScanPasses(v.seen)
          || Look(v.seen, Marker).Unreadable?
          || StateOf(v.seen, raw.op).Unprojectable?)
    case _ => false
  }

  /** Every refusal of a submission is true, and a refusal that wrote nothing says so truly. */
  lemma SubmitRefusesTruly(v: Volume, cfg: Config, raw: Input, now: nat, io: Io)
    requires DurableIsSeen(v)
    ensures
      var (w, reply) := Submit(v, cfg, raw, now, io);
      && (reply.Refused? ==> Explains(reply.code, v, cfg, raw, io))
      && (reply.Refused? && reply.code != WriteFailed ==> w == v)
      && (reply.Ended? ==> io.first.StoreDies? || io.second.StoreDies?)
  {
    assert raw.Wellformed? && Result(raw.op.id) in v.seen && Request(raw.op.id) !in v.seen ==> !NoOrphans(v.seen);
  }

  /** Nothing active is no failure: the worker's flag stays as it was. */
  lemma IdlePassKeepsTheFlag(w: World, cfg: Config, claim: Io, execution: Event, settle: Io, was: WorkerFailure)
    requires cfg.enabled && claim.lockFree && Marker !in w.queue.seen
    requires execution.Executes? && w.hand.Idle?
    ensures FailureAfter(was, PassReply(w, cfg, claim, execution, settle)) == was
    ensures WorkOnce(w, cfg, claim, execution, settle) == w
  {
  }

  /** A claim is granted exactly for an operation accepted, unclaimed and unsettled, whose claim became durable. */
  lemma GrantedExactlyWhen(v: Volume, cfg: Config, op: Operation, queuedAt: nat, io: Io)
    requires DurableIsSeen(v)
    requires Look(v.seen, Marker) == Found(Accepted(op, queuedAt))
    ensures
      var (w, reply) := Claim(v, cfg, io);
      && (reply == Granted(op) <==>
           && cfg.enabled && io.lockFree
           && Look(v.seen, Request(op.id)) == Found(Accepted(op, queuedAt))
           && Processing(op.id) !in v.seen && Result(op.id) !in v.seen
           && io.first == Stored)
      && (reply.Granted? ==> reply == Granted(op) && Holds(w, Processing(op.id), Claimed(op)))
  {
  }

  /* ---- one pass of the worker ---- */

  lemma ClaimedIsHeld(w: World, cfg: Config, claim: Io, execution: Event)
    requires Invariant(w) && w.hand.Idle? && execution.Executes?
    requires Claim(w.queue, cfg, claim).1.Granted?
    ensures
      var op := Claim(w.queue, cfg, claim).1.op;
      var done := Next(Next(w, Claims(cfg, claim)), execution);
      && HoldsClaim(done.queue.seen, op) && (done.hand.Idle? || (done.hand.Returned? && done.hand.op == op))
  {
    GrantHoldsClaim(w.queue, cfg, claim);
    ClaimShape(w, cfg, claim);
    var held := Next(w, Claims(cfg, claim));
    ExecuteShape(held, execution);
    ExecuteLeavesQueue(held, execution);
  }

  /** What the caller is told once the operation came back and was settled. */
  function Told(verdict: Verdict, reply: Reply): Reply {
    if verdict.Indeterminate? && reply.Receipt? then Refused(IndeterminateEffect) else reply
  }

  /** A success shows as a known outcome, an indeterminate effect as an unknown one. */
  predicate TellsTruly(seen: Listing, id: Id, told: Reply) {
    && (told.Receipt? ==>
         ReceiptOf(seen, id) == told && (told.state == ReceiptCompleted || told.state.ReceiptJob?))
    && (told == Refused(IndeterminateEffect) ==> ReceiptOf(seen, id) == Receipt(ReceiptIndeterminate))
  }

  lemma SettlementTellsTruly(q: Volume, cfg: Config, op: Operation, out: Outcome, io: Io)
    requires HoldsClaim(q.seen, op)
    ensures
      var (v, reply) := Settle(q, cfg, op, VerdictFor(op, out), io);
      TellsTruly(v.seen, op.id, Told(VerdictFor(op, out), reply))
  {
    SettleTellsTheJournal(q, cfg, op, VerdictFor(op, out), io);
  }

  lemma PassShape(w: World, cfg: Config, claim: Io, execution: Event, settle: Io, op: Operation)
    requires w.hand.Idle? && execution.Executes? && Claim(w.queue, cfg, claim).1 == Granted(op)
    requires
      var done := Next(Next(w, Claims(cfg, claim)), execution);
      done.hand.Idle? || (done.hand.Returned? && done.hand.op == op)
    ensures
      var done := Next(Next(w, Claims(cfg, claim)), execution);
      var x := WorkOnce(w, cfg, claim, execution, settle);
      && x.ran == w.ran + [op.id]
      && (done.hand.Idle? ==> PassReply(w, cfg, claim, execution, settle) == Ended)
      && (done.hand.Returned? ==>
           var verdict := VerdictFor(op, done.hand.out);
           var (v, reply) := Settle(done.queue, cfg, op, verdict, settle);
           x.queue == v && PassReply(w, cfg, claim, execution, settle) == Told(verdict, reply))
  {
    var held := Next(w, Claims(cfg, claim));
    assert held.ran == w.ran + [op.id];
    assert Next(held, execution).ran == held.ran;
  }

  /**
   What the worker is told of a pass is what the journal then shows of the operation it
   ran: a success is a known outcome and clears the failure flag, an unknown one sets it.
   */
  lemma PassTellsTheJournal(w: World, cfg: Config, claim: Io, execution: Event, settle: Io, was: WorkerFailure)
    requires Invariant(w) && w.hand.Idle? && execution.Executes?
    requires Claim(w.queue, cfg, claim).1.Granted?
    ensures
      var x := WorkOnce(w, cfg, claim, execution, settle);
      var told := PassReply(w, cfg, claim, execution, settle);
      && |x.ran| == |w.ran| + 1 && TellsTruly(x.queue.seen, x.ran[|w.ran|], told)
      && (told.Receipt? ==> FailureAfter(was, told) == NoFailure)
      && (told == Refused(IndeterminateEffect) ==> FailureAfter(was, told) == Failure(IndeterminateEffect))
      && (told == Ended ==> FailureAfter(was, told) == was)
  {
    var op := Claim(w.queue, cfg, claim).1.op;
    ClaimedIsHeld(w, cfg, claim, execution);
    PassShape(w, cfg, claim, execution, settle, op);
    var done := Next(Next(w, Claims(cfg, claim)), execution);
    if done.hand.Returned? { SettlementTellsTruly(done.queue, cfg, op, done.hand.out, settle); }
  }

  /* ---- verdicts ---- */

  /** What the worker records says no more than what the executor reported for this very operation. */
  lemma VerdictIsHonest(op: Operation, out: Outcome)
    ensures VerdictFor(op, out) == Completed <==> out == Confirmed && op.action != RunOnce
    ensures forall path: nat, boot: nat ::
      VerdictFor(op, out) == JobAccepted(path, boot) <==>
        op.action == RunOnce && out == Job(op.id, op.service, path, boot) && 1 <= path < MAX_JOB_PATH
    ensures ValidVerdict(VerdictFor(op, out), op)
  {
  }
}
