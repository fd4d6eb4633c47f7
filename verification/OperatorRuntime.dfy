/**
 The worker thread's own memory: whether a pass failed in a way that must withdraw the
 operator's capabilities, and how far that flag can be trusted.
 */
module OperatorRuntime {
  import opened Journal
  import opened QueueRules
  import opened QueueInvariant
  import opened QueueSections
  import opened OperationQueue
  import opened ControlPlane
  import opened ControlBridge

  datatype WorkerFailure = NoFailure | Failure(code: Code)

  /** Nothing to do and a busy lock are not failures; a finished pass clears the flag; anything else sets it. */
  function FailureAfter(was: WorkerFailure, reply: Reply): WorkerFailure {
    match reply
    case Receipt(_) => NoFailure
    case Refused(code) => if code == MissingReceipt || code == Unavailable then was else Failure(code)
    case Ended => was
  }

  class OperatorWorker {
    var failure: WorkerFailure

    constructor ()
      ensures failure == NoFailure
    {
      failure := NoFailure;
    }

    /** One pass; an uncertain operation is never retried. */
    method ProcessPendingOnce(
        queue: DurableOperationQueue, broker: OperationBroker, dispatcher: RunOnceJobDispatcher,
        claim: Io, execution: Event, settle: Io, ghost w: World)
      returns (worked: bool)
      requires execution.Executes?
      requires dispatcher.host == broker.host
      requires Mirrors(w, queue, broker)
      modifies this, queue, broker, broker.host
      ensures Mirrors(WorkOnce(w, queue.cfg, claim, execution, settle), queue, broker)
      ensures failure == FailureAfter(old(failure), PassReply(w, queue.cfg, claim, execution, settle))
      ensures worked <==> PassReply(w, queue.cfg, claim, execution, settle).Receipt?
    {
      var reply := RunAcceptedControlOnce(queue, broker, dispatcher, claim, execution, settle, w);
      match reply {
        case Ended => return false;
        case Refused(code) =>
          if code != MissingReceipt && code != Unavailable { failure := Failure(code); }
          return false;
        case Receipt(_) =>
          failure := NoFailure;
          return true;
      }
    }
  }

  /** Every executed request is over. */
  ghost predicate AllClosed(w: World) {
    forall id :: id in w.ops ==> id in w.closed
  }

  /** An executed request that is not over stops every later claim, whoever makes it. */
  lemma OpenRequestBlocksClaims(w: World, id: Id, cfg: Config, io: Io)
    requires Invariant(w) && id in w.ops && id !in w.closed
    ensures Claim(w.queue, cfg, io).0 == w.queue && Claim(w.queue, cfg, io).1.Denied?
    ensures cfg.enabled && io.lockFree ==> Claim(w.queue, cfg, io).1.reply == Refused(JournalFault)
  {
    assert InSlot(w.queue, w.ops[id]);
    assert Holds(w.queue, Processing(id), Claimed(w.ops[id]));
  }

  /** So the flag is set by the next pass at the latest. */
  lemma NextPassNotices(w: World, id: Id, cfg: Config, claim: Io, execution: Event, settle: Io, was: WorkerFailure)
    requires Invariant(w) && id in w.ops && id !in w.closed
    requires cfg.enabled && claim.lockFree
    ensures FailureAfter(was, PassReply(w, cfg, claim, execution, settle)) == Failure(JournalFault)
  {
    OpenRequestBlocksClaims(w, id, cfg, claim);
  }

  lemma SettledOrNoticed(q: Volume, ops: History, closed: map<Id, Closing>, cfg: Config, op: Operation, out: Outcome, io: Io)
    requires Core(q, ops, closed) && HeldOpen(q, ops, closed, op)
    ensures
      var (w, reply) := Settle(q, cfg, op, VerdictFor(op, out), io);
      && (reply.Receipt? && !VerdictFor(op, out).Indeterminate? ==> DurableOutcome(w, op.id))
      && (!io.lockFree && cfg.enabled ==> reply == Refused(Unavailable) && w == q)
      && (io.lockFree ==> reply != Refused(Unavailable) && reply != Refused(MissingReceipt))
  {
  }

  /**
   A pass that ran an operation leaves it unsettled with the flag still clear exactly when
   the lock was busy at settlement; every other way of leaving it open sets the flag.
   */
  lemma UnnoticedExactlyWhenSettleWasBusy(w: World, cfg: Config, claim: Io, execution: Event, settle: Io)
    requires Invariant(w) && w.hand.Idle? && AllClosed(w)
    requires execution.Executes?
    requires PassReply(w, cfg, claim, execution, settle) != Ended
    ensures
      var x := WorkOnce(w, cfg, claim, execution, settle);
      !AllClosed(x) && FailureAfter(NoFailure, PassReply(w, cfg, claim, execution, settle)) == NoFailure <==>
        Claim(w.queue, cfg, claim).1.Granted? && !settle.lockFree
  {
    var held := Next(w, Claims(cfg, claim));
    var done := Next(held, execution);
    ClaimShape(w, cfg, claim);
    if Claim(w.queue, cfg, claim).1.Granted? {
      ExecuteShape(held, execution);
      ClaimStep(w, Claims(cfg, claim));
      ExecuteStep(held, execution);
      PassAfterClaim(w, held, done, held.hand.op, cfg, settle);
    } else {
      IdlePasses(held, execution, cfg, settle);
    }
  }

  lemma ClaimShape(w: World, cfg: Config, claim: Io)
    requires w.hand.Idle?
    ensures
      var held := Next(w, Claims(cfg, claim));
      var reply := Claim(w.queue, cfg, claim).1;
      && held.closed == w.closed
      && (reply.Granted? ==> held.hand == Holding(reply.op) && held.ops == w.ops[reply.op.id := reply.op])
      && (reply.Denied? ==> held.hand.Idle? && held.ops == w.ops)
  {
  }

  lemma ExecuteShape(held: World, e: Event)
    requires e.Executes? && held.hand.Holding?
    ensures
      var done := Next(held, e);
      && done.ops == held.ops && done.closed == held.closed
      && (done.hand.Idle? || (done.hand.Returned? && done.hand.op == held.hand.op))
  {
  }

  lemma IdlePasses(w: World, e: Event, cfg: Config, settle: Io)
    requires e.Executes? && w.hand.Idle?
    ensures Next(Next(w, e), Settles(cfg, settle)) == w
  {
  }

  lemma PassAfterClaim(w: World, held: World, done: World, op: Operation, cfg: Config, settle: Io)
    requires AllClosed(w) && cfg.enabled
    requires held.ops == w.ops[op.id := op] && held.closed == w.closed
    requires Invariant(done) && done.ops == held.ops && done.closed == held.closed
    requires done.hand.Returned? ==> done.hand.op == op
    requires done.hand.Returned?
    ensures
      var x := Next(done, Settles(cfg, settle));
      var verdict := VerdictFor(op, done.hand.out);
      var reply := Settle(done.queue, cfg, op, verdict, settle).1;
      var told := if verdict.Indeterminate? && reply.Receipt? then Refused(IndeterminateEffect) else reply;
      told != Ended ==>
        ((!AllClosed(x) && FailureAfter(NoFailure, told) == NoFailure) <==> !settle.lockFree)
  {
    assert HeldOpen(done.queue, done.ops, done.closed, op);
    SettledOrNoticed(done.queue, done.ops, done.closed, cfg, op, done.hand.out, settle);
    var x := Next(done, Settles(cfg, settle));
    assert x.ops == done.ops && op.id in x.ops;
    if settle.lockFree {
      if op.id in x.closed { assert AllClosed(x); }
    } else {
      assert op.id !in x.closed;
    }
  }
}
