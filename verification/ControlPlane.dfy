/**
 The operator control plane as one transition system: the intake socket, the single
 worker, the broker, the systemd manager, the root reconciliation tool, process ends
 and power losses, in any order.
 */
module ControlPlane {
  import opened Journal
  import opened QueueRules
  import opened QueueInvariant
  import opened QueueSections
  import opened BrokerRules
  import opened SystemdAdmission

  /** The worker's memory between two journal sections. */
  datatype Hand = Idle | Holding(op: Operation) | Returned(op: Operation, out: Outcome)

  /** `ran`, `ops`, `closed`, `issued` and `started` are history; the rest is the state of the host. */
  datatype World = World(
    queue: Volume,
    broker: Volume,
    hand: Hand,
    boot: nat,
    ran: seq<Id>,
    ops: History,
    closed: map<Id, Closing>,
    issued: seq<Issued>,
    started: seq<StartRequest>)

  const Genesis := World(EmptyVolume, EmptyVolume, Idle, 0, [], map[], map[], [], [])

  datatype Event =
    | Submits(cfg: Config, raw: Input, now: nat, io: Io)
    | Claims(cfg: Config, io: Io)
    | Executes(snapshotReadable: bool, now: nat, brokerIo: BrokerIo, dispatchIo: DispatchIo)
    | Settles(cfg: Config, io: Io)
    | ProcessEnds
    | PowerFails(queue: Volume, broker: Volume)
    | Attests(id: Id, approval: nat, bootSeen: nat, io: Io)
    | Reconciles(id: Id, decision: Decision, now: nat, io: Io)

  /** The executor handed to the queue: pause and resume go to the broker, a manual run to the systemd manager. */
  function Execute(w: World, op: Operation, e: Event): World
    requires e.Executes?
  {
    if !e.snapshotReadable then w.(hand := Returned(op, Failed))
    else if op.action == RunOnce then
      var step := Dispatch(op, w.boot, e.dispatchIo);
      w.(hand := if step.ended then Idle else Returned(op, step.out),
         boot := step.boot,
         started := w.started + step.started)
    else
      var step := ApplyOperation(w.broker, op, e.now, w.boot, e.brokerIo);
      w.(hand :=
           match step.reply
           case BrokerEnded => Idle
           case BrokerCompleted => Returned(op, Confirmed)
           case _ => Returned(op, Failed),
         broker := step.volume,
         boot := step.boot,
         issued := w.issued + step.issued)
  }

  ghost function Next(w: World, e: Event): World {
    match e
    case Submits(cfg, raw, now, io) =>
      var (q, reply) := Submit(w.queue, cfg, raw, now, io);
      w.(queue := q, hand := if reply.Ended? then Idle else w.hand)
    case Claims(cfg, io) =>
      if !w.hand.Idle? then w
      else
        var (q, reply) := Claim(w.queue, cfg, io);
        if reply.Denied? then w.(queue := q)
        else
          var op := reply.op;
          w.(queue := q, hand := Holding(op), ran := w.ran + [op.id], ops := w.ops[op.id := op])
    case Executes(_, _, _, _) =>
      if w.hand.Holding? then Execute(w, w.hand.op, e) else w
    case Settles(cfg, io) =>
      if !w.hand.Returned? then w
      else
        var op := w.hand.op;
        var q := Settle(w.queue, cfg, op, VerdictFor(op, w.hand.out), io).0;
        w.(queue := q, hand := Idle, closed := CloseAfter(q, w.closed, op.id))
    case ProcessEnds => w.(hand := Idle)
    case PowerFails(q, b) =>
      if LosesTo(w.queue, q) && LosesTo(w.broker, b)
      then w.(queue := q, broker := b, hand := Idle, boot := w.boot + 1)
      else w
    case Attests(id, approval, bootSeen, io) =>
      w.(queue := Attest(w.queue, id, approval, bootSeen, io).0)
    case Reconciles(id, decision, now, io) =>
      var q := Reconcile(w.queue, id, decision, now, io).0;
      w.(queue := q, closed := ReleaseAfter(w.queue, q, w.closed, id))
  }

  /** The state after a history of events. */
  ghost function Run(events: seq<Event>): World {
    if events == [] then Genesis else Next(Run(events[..|events| - 1]), events[|events| - 1])
  }

  ghost predicate NoPowerLoss(events: seq<Event>) {
    forall i :: 0 <= i < |events| ==> !events[i].PowerFails?
  }

  /* ---- invariant ---- */

  ghost predicate Ordered(w: World) {
    && (forall i, j :: 0 <= i < j < |w.ran| ==> w.ran[i] != w.ran[j])
    && (forall id :: id in w.ran <==> id in w.ops)
  }

  predicate HandOpen(w: World) {
    w.hand.Idle? || HeldOpen(w.queue, w.ops, w.closed, w.hand.op)
  }

  /** Effects belong to executed operations, and the operation about to be executed has had none. */
  ghost predicate EffectsOwned(w: World) {
    && (forall i :: 0 <= i < |w.issued| ==> w.issued[i].op.id in w.ops)
    && (forall i :: 0 <= i < |w.started| ==> w.started[i].id in w.ops)
    && SentOnce(w.started)
    && (w.hand.Holding? ==>
         && (forall i :: 0 <= i < |w.issued| ==> w.issued[i].op.id != w.hand.op.id)
         && (forall i :: 0 <= i < |w.started| ==> w.started[i].id != w.hand.op.id))
  }

  /** A success the queue records, or is about to record, is a success of the broker or of the manager. */
  predicate VerdictBacked(w: World, op: Operation, verdict: Verdict) {
    match verdict
    case Completed => Concluded(w.broker, op)
    case JobAccepted(path, boot) => SentFor(w.started, op, path, boot)
    case Indeterminate => true
  }

  ghost predicate ResultsBacked(w: World) {
    && (w.hand.Returned? ==> VerdictBacked(w, w.hand.op, VerdictFor(w.hand.op, w.hand.out)))
    && forall id :: Result(id) in w.queue.seen && !w.queue.seen[Result(id)].Torn? ==>
         var rec := w.queue.seen[Result(id)].rec;
         rec.Settled? && rec.op.id == id && VerdictBacked(w, rec.op, rec.verdict)
  }

  ghost predicate Invariant(w: World) {
    && Core(w.queue, w.ops, w.closed)
    && Ordered(w)
    && HandOpen(w)
    && BrokerInvariant(w.broker, w.issued)
    && EffectsOwned(w)
    && ResultsBacked(w)
  }

  /** New results are backed when the broker's and the manager's history only grow. */
  lemma BackingGrows(w: World, x: World, op: Operation, verdict: Verdict)
    requires VerdictBacked(w, op, verdict)
    requires Stable(w.broker, Result(op.id)) ==>
      Stable(x.broker, Result(op.id)) && x.broker.seen[Result(op.id)] == w.broker.seen[Result(op.id)]
    requires w.started <= x.started
    ensures VerdictBacked(x, op, verdict)
  {
    if verdict.JobAccepted? {
      var i :| 0 <= i < |w.started| && w.started[i] == StartRequest(op.id, op.service, verdict.boot, JobPath(verdict.path));
      assert x.started[i] == w.started[i];
    }
  }

  ghost predicate AddsNoResult(q: Volume, x: Volume) {
    forall id :: Result(id) in x.seen ==> Result(id) in q.seen && x.seen[Result(id)] == q.seen[Result(id)]
  }

  /** The queue's journal changes, the effects and the history of executions do not. */
  lemma JournalStepKeeps(w: World, q: Volume, hand: Hand, closed: map<Id, Closing>)
    requires Invariant(w) && Core(q, w.ops, closed) && AddsNoResult(w.queue, q)
    requires hand.Idle? || (hand == w.hand && hand.op.id !in closed)
    ensures Invariant(w.(queue := q, hand := hand, closed := closed))
  {
    var x := w.(queue := q, hand := hand, closed := closed);
    assert ResultsBacked(x);
    assert EffectsOwned(x);
    assert Ordered(x);
    assert HandOpen(x);
  }

  lemma SubmitStep(w: World, e: Event)
    requires Invariant(w) && e.Submits?
    ensures Invariant(Next(w, e))
  {
    SubmitKeepsCore(w.queue, w.ops, w.closed, e.cfg, e.raw, e.now, e.io);
    SubmitAddsNoResult(w.queue, e.cfg, e.raw, e.now, e.io);
    JournalStepKeeps(w, Next(w, e).queue, Next(w, e).hand, w.closed);
  }

  lemma SubmitAddsNoResult(q: Volume, cfg: Config, raw: Input, now: nat, io: Io)
    ensures forall id :: Result(id) in Submit(q, cfg, raw, now, io).0.seen ==>
      Result(id) in q.seen && Submit(q, cfg, raw, now, io).0.seen[Result(id)] == q.seen[Result(id)]
  {
  }

  lemma ClaimStep(w: World, e: Event)
    requires Invariant(w) && e.Claims?
    ensures Invariant(Next(w, e))
  {
    if w.hand.Idle? {
      ClaimKeepsCore(w.queue, w.ops, w.closed, e.cfg, e.io);
      ClaimAddsNoResult(w.queue, e.cfg, e.io);
      var (q, reply) := Claim(w.queue, e.cfg, e.io);
      if reply.Granted? {
        GrantKeepsInvariant(w, q, reply.op);
      } else {
        JournalStepKeeps(w, q, w.hand, w.closed);
      }
    }
  }

  function Grant(w: World, q: Volume, op: Operation): World {
    w.(queue := q, hand := Holding(op), ran := w.ran + [op.id], ops := w.ops[op.id := op])
  }

  lemma GrantKeepsEffects(w: World, q: Volume, op: Operation)
    requires EffectsOwned(w) && op.id !in w.ops
    ensures EffectsOwned(Grant(w, q, op))
  {
  }

  lemma GrantKeepsOrder(w: World, q: Volume, op: Operation)
    requires Ordered(w) && op.id !in w.ops
    ensures Ordered(Grant(w, q, op))
  {
    assert op.id !in w.ran;
  }

  lemma GrantKeepsInvariant(w: World, q: Volume, op: Operation)
    requires Invariant(w) && w.hand.Idle?
    requires op.id !in w.ops
    requires Core(q, w.ops[op.id := op], w.closed)
    requires HeldOpen(q, w.ops[op.id := op], w.closed, op)
    requires AddsNoResult(w.queue, q)
    ensures Invariant(Grant(w, q, op))
  {
    GrantKeepsEffects(w, q, op);
    GrantKeepsOrder(w, q, op);
    assert ResultsBacked(Grant(w, q, op));
  }

  lemma ClaimAddsNoResult(q: Volume, cfg: Config, io: Io)
    ensures forall id :: Result(id) in Claim(q, cfg, io).0.seen ==>
      Result(id) in q.seen && Claim(q, cfg, io).0.seen[Result(id)] == q.seen[Result(id)]
  {
  }

  lemma ExecuteStep(w: World, e: Event)
    requires Invariant(w) && e.Executes?
    ensures Invariant(Next(w, e))
  {
    if w.hand.Holding? && e.snapshotReadable {
      var op := w.hand.op;
      var x := Next(w, e);
      if op.action == RunOnce {
        DispatchStepKeeps(w, e, x);
      } else {
        BrokerStepKeeps(w, e, x);
      }
    }
  }

  /** An execution changes neither the journal of the queue nor its history. */
  ghost predicate OnlyEffects(w: World, x: World) {
    && x.queue == w.queue && x.ran == w.ran && x.ops == w.ops && x.closed == w.closed
    && w.hand.Holding? && (x.hand.Idle? || (x.hand.Returned? && x.hand.op == w.hand.op))
    && w.started <= x.started
    && forall id :: Stable(w.broker, Result(id)) ==>
         Stable(x.broker, Result(id)) && x.broker.seen[Result(id)] == w.broker.seen[Result(id)]
  }

  lemma EffectsKeep(w: World, x: World)
    requires Invariant(w) && OnlyEffects(w, x)
    requires BrokerInvariant(x.broker, x.issued) && EffectsOwned(x)
    requires x.hand.Returned? ==> VerdictBacked(x, x.hand.op, VerdictFor(x.hand.op, x.hand.out))
    ensures Invariant(x)
  {
    forall o: Operation, verdict: Verdict | VerdictBacked(w, o, verdict)
      ensures VerdictBacked(x, o, verdict)
    {
      BackingGrows(w, x, o, verdict);
    }
  }

  lemma DispatchStepOwned(w: World, e: Event, x: World)
    requires EffectsOwned(w) && HandOpen(w) && e.Executes? && w.hand.Holding? && e.snapshotReadable
    requires w.hand.op.action == RunOnce
    requires x == Next(w, e)
    ensures EffectsOwned(x)
    ensures x.hand.Returned? ==> x.hand.out != Confirmed
  {
    var step := Dispatch(w.hand.op, w.boot, e.dispatchIo);
    assert step.started == [] || (|step.started| == 1 && step.started[0].id == w.hand.op.id);
    assert x.started == w.started + step.started && x.ops == w.ops;
  }

  lemma DispatchShape(w: World, e: Event)
    requires e.Executes? && w.hand.Holding? && e.snapshotReadable && w.hand.op.action == RunOnce
    ensures
      var step := Dispatch(w.hand.op, w.boot, e.dispatchIo);
      Next(w, e) == w.(hand := if step.ended then Idle else Returned(w.hand.op, step.out),
                       boot := step.boot, started := w.started + step.started)
  {
  }

  lemma DispatchStepKeeps(w: World, e: Event, x: World)
    requires Invariant(w) && e.Executes? && w.hand.Holding? && e.snapshotReadable
    requires w.hand.op.action == RunOnce
    requires x == Next(w, e)
    ensures Invariant(x)
  {
    DispatchEvidence(w.hand.op, w.boot, e.dispatchIo, w.started);
    DispatchShape(w, e);
    DispatchStepOwned(w, e, x);
    EffectsKeep(w, x);
  }

  lemma BrokerStepKeeps(w: World, e: Event, x: World)
    requires Invariant(w) && e.Executes? && w.hand.Holding? && e.snapshotReadable
    requires w.hand.op.action != RunOnce
    requires x == Next(w, e)
    ensures Invariant(x)
  {
    var op := w.hand.op;
    ApplyKeepsInvariant(w.broker, w.issued, op, e.now, w.boot, e.brokerIo);
    CompletedIsConcluded(w.broker, op, e.now, w.boot, e.brokerIo);
    BrokerStepOwned(w, e, x);
    EffectsKeep(w, x);
  }

  lemma BrokerStepOwned(w: World, e: Event, x: World)
    requires EffectsOwned(w) && HandOpen(w) && e.Executes? && w.hand.Holding? && e.snapshotReadable
    requires w.hand.op.action != RunOnce
    requires x == Next(w, e)
    ensures EffectsOwned(x)
  {
    var step := ApplyOperation(w.broker, w.hand.op, e.now, w.boot, e.brokerIo);
    assert step.issued == [] || (|step.issued| == 1 && step.issued[0].op == w.hand.op);
    assert x.issued == w.issued + step.issued && x.ops == w.ops;
  }

  lemma SettleStep(w: World, e: Event)
    requires Invariant(w) && e.Settles?
    ensures Invariant(Next(w, e))
  {
    if w.hand.Returned? {
      var op := w.hand.op;
      var verdict := VerdictFor(op, w.hand.out);
      SettleKeepsCore(w.queue, w.ops, w.closed, e.cfg, op, verdict, e.io);
      SettleAddsItsResult(w.queue, e.cfg, op, verdict, e.io);
      var x := Next(w, e);
      SettledKeeps(w, x.queue, x.closed, op, verdict);
    }
  }

  /** The only result that may be new is the one about to be recorded, which is backed. */
  ghost predicate AddsOnly(q: Volume, x: Volume, op: Operation, verdict: Verdict) {
    forall id :: Result(id) in x.seen ==>
      || (Result(id) in q.seen && x.seen[Result(id)] == q.seen[Result(id)])
      || (id == op.id && (x.seen[Result(id)].Torn? || x.seen[Result(id)].rec == Settled(op, verdict)))
  }

  lemma SettledKeeps(w: World, q: Volume, closed: map<Id, Closing>, op: Operation, verdict: Verdict)
    requires Invariant(w) && Core(q, w.ops, closed) && AddsOnly(w.queue, q, op, verdict)
    requires VerdictBacked(w, op, verdict)
    ensures Invariant(w.(queue := q, hand := Idle, closed := closed))
  {
    var x := w.(queue := q, hand := Idle, closed := closed);
    assert ResultsBacked(x);
    assert EffectsOwned(x);
    assert Ordered(x);
  }

  lemma SettleAddsItsResult(q: Volume, cfg: Config, op: Operation, verdict: Verdict, io: Io)
    ensures AddsOnly(q, Settle(q, cfg, op, verdict, io).0, op, verdict)
  {
  }

  lemma PowerStep(w: World, e: Event)
    requires Invariant(w) && e.PowerFails?
    ensures Invariant(Next(w, e))
  {
    var x := Next(w, e);
    if x != w {
      PowerLossKeepsCore(w.queue, e.queue, w.ops, w.closed);
      PowerLossKeepsInvariant(w.broker, e.broker, w.issued);
      forall id | Result(id) in x.queue.seen && !x.queue.seen[Result(id)].Torn?
        ensures Result(id) in w.queue.seen && x.queue.seen[Result(id)] == w.queue.seen[Result(id)]
      {
        assert Result(id) in w.queue.durable ==> Stable(w.queue, Result(id));
      }
      forall o: Operation, verdict: Verdict | VerdictBacked(w, o, verdict)
        ensures VerdictBacked(x, o, verdict)
      {
        BackingGrows(w, x, o, verdict);
      }
    }
  }

  lemma ToolStep(w: World, e: Event)
    requires Invariant(w) && (e.Attests? || e.Reconciles?)
    ensures Invariant(Next(w, e))
  {
    if e.Attests? {
      AttestKeepsCore(w.queue, w.ops, w.closed, e.id, e.approval, e.bootSeen, e.io);
      JournalStepKeeps(w, Next(w, e).queue, w.hand, w.closed);
    } else {
      ReconcileKeepsCore(w.queue, w.ops, w.closed, e.id, e.decision, e.now, e.io);
      var x := Next(w, e);
      JournalStepKeeps(w, x.queue, w.hand, x.closed);
    }
  }

  lemma NextKeepsInvariant(w: World, e: Event)
    requires Invariant(w)
    ensures Invariant(Next(w, e))
  {
    match e
    case Submits(_, _, _, _) => SubmitStep(w, e);
    case Claims(_, _) => ClaimStep(w, e);
    case Executes(_, _, _, _) => ExecuteStep(w, e);
    case Settles(_, _) => SettleStep(w, e);
    case ProcessEnds =>
    case PowerFails(_, _) => PowerStep(w, e);
    case Attests(_, _, _, _) => ToolStep(w, e);
    case Reconciles(_, _, _, _) => ToolStep(w, e);
  }

  /** Every history, with crashes, partial writes, refusals and power losses anywhere, satisfies the invariant. */
  lemma {:induction false} RunKeepsInvariant(events: seq<Event>)
    ensures Invariant(Run(events))
  {
    if events != [] {
      RunKeepsInvariant(events[..|events| - 1]);
      NextKeepsInvariant(Run(events[..|events| - 1]), events[|events| - 1]);
    }
  }
}
