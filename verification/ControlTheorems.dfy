/**
 What the operator control plane guarantees over every history of events.
 */
module ControlTheorems {
  import opened Journal
  import opened QueueRules
  import opened QueueInvariant
  import opened QueueSections
  import opened BrokerRules
  import opened SystemdAdmission
  import opened ControlPlane
  import OneSlot

  /* ---- the queue is a one-slot, at-most-once machine ---- */

  function QueueSlot(w: World): OneSlot.Slot {
    OneSlot.Slot(w.ran, w.closed.Keys)
  }

  /** Only the last executed operation can be open. */
  lemma OpenIsLast(w: World, id: Id)
    requires Invariant(w)
    requires id in w.ops && id !in w.closed
    requires OneSlot.AtMostOnce(QueueSlot(w))
    ensures w.ran != [] && w.ran[|w.ran| - 1] == id
  {
    var i :| 0 <= i < |w.ran| && w.ran[i] == id;
  }

  lemma ClosingASlot(s: OneSlot.Slot, t: OneSlot.Slot, id: Id)
    requires t.begun == s.begun && (t.settled == s.settled || t.settled == s.settled + {id})
    requires id in s.settled || (s.begun != [] && s.begun[|s.begun| - 1] == id)
    ensures OneSlot.SlotStep(s, t)
  {
    if id in s.settled {
      assert s.settled + {id} == s.settled;
    } else {
      assert t.settled == s.settled || OneSlot.Settles(s, t);
    }
  }

  lemma ClosingTheOpenOne(w: World, x: World, id: Id)
    requires Invariant(w) && OneSlot.AtMostOnce(QueueSlot(w))
    requires id in w.ops
    requires x.ran == w.ran && (x.closed.Keys == w.closed.Keys || x.closed.Keys == w.closed.Keys + {id})
    ensures OneSlot.SlotStep(QueueSlot(w), QueueSlot(x))
  {
    if id !in w.closed { OpenIsLast(w, id); }
    ClosingASlot(QueueSlot(w), QueueSlot(x), id);
  }

  lemma GrantBegins(w: World, e: Event)
    requires Invariant(w) && e.Claims?
    ensures OneSlot.SlotStep(QueueSlot(w), QueueSlot(Next(w, e)))
  {
    if w.hand.Idle? && Claim(w.queue, e.cfg, e.io).1.Granted? {
      ClaimKeepsCore(w.queue, w.ops, w.closed, e.cfg, e.io);
      var id := Claim(w.queue, e.cfg, e.io).1.op.id;
      assert forall i :: 0 <= i < |w.ran| ==> w.ran[i] in w.ops;
      assert OneSlot.Begins(QueueSlot(w), QueueSlot(Next(w, e)), id);
    }
  }

  lemma OthersKeepTheSlot(w: World, e: Event)
    requires !e.Claims? && !e.Settles? && !e.Reconciles?
    ensures QueueSlot(Next(w, e)) == QueueSlot(w)
  {
  }

  lemma SettlingClosesItsOwn(w: World, e: Event)
    requires e.Settles?
    ensures Next(w, e).ran == w.ran
    ensures Next(w, e).closed.Keys == w.closed.Keys
      || (w.hand.Returned? && Next(w, e).closed.Keys == w.closed.Keys + {w.hand.op.id})
  {
  }

  lemma ReconcilingClosesItsOwn(w: World, e: Event)
    requires e.Reconciles?
    ensures Next(w, e).ran == w.ran
    ensures Next(w, e).closed.Keys == w.closed.Keys || Next(w, e).closed.Keys == w.closed.Keys + {e.id}
  {
  }

  /** Each event is a step of the one-slot machine, or none of its concern. */
  lemma QueueRefinesOneSlot(w: World, e: Event)
    requires Invariant(w)
    requires OneSlot.AtMostOnce(QueueSlot(w))
    ensures OneSlot.SlotStep(QueueSlot(w), QueueSlot(Next(w, e)))
  {
    if e.Claims? {
      GrantBegins(w, e);
    } else if e.Settles? {
      SettlingClosesItsOwn(w, e);
      if w.hand.Returned? { ClosingTheOpenOne(w, Next(w, e), w.hand.op.id); }
    } else if e.Reconciles? {
      ReconcilingClosesItsOwn(w, e);
      if Next(w, e).closed != w.closed {
        ReconciledWasExecuted(w, e);
        ClosingTheOpenOne(w, Next(w, e), e.id);
      }
    } else {
      OthersKeepTheSlot(w, e);
    }
  }

  /** Only an executed request can be reconciled. */
  lemma ReconciledWasExecuted(w: World, e: Event)
    requires Invariant(w) && e.Reconciles?
    requires Next(w, e).closed != w.closed
    ensures e.id in w.ops
  {
    ReconcileKeepsCore(w.queue, w.ops, w.closed, e.id, e.decision, e.now, e.io);
    assert e.id in Next(w, e).closed.Keys;
  }

  /** The slot at the beginning and after each event. */
  ghost function Slots(events: seq<Event>): (slots: seq<OneSlot.Slot>)
    ensures |slots| == |events| + 1 && slots[|events|] == QueueSlot(Run(events))
  {
    if events == [] then [QueueSlot(Genesis)]
    else Slots(events[..|events| - 1]) + [QueueSlot(Run(events))]
  }

  /** Every history of the control plane is one of the machine with one slot, begun fresh. */
  lemma {:induction false} RunRefinesOneSlot(events: seq<Event>)
    ensures OneSlot.IsHistory(Slots(events))
  {
    if events == [] {
      assert QueueSlot(Genesis) == OneSlot.Fresh;
    } else {
      var before := events[..|events| - 1];
      RunRefinesOneSlot(before);
      RunKeepsInvariant(before);
      OneSlot.HistoryIsAtMostOnce(Slots(before), |before|);
      QueueRefinesOneSlot(Run(before), events[|events| - 1]);
    }
  }

  /**
   Over every history each request id is executed at most once, and never while an
   earlier executed request is unsettled.
   */
  lemma ExecutedAtMostOnce(events: seq<Event>)
    ensures OneSlot.AtMostOnce(QueueSlot(Run(events)))
  {
    RunRefinesOneSlot(events);
    OneSlot.HistoryIsAtMostOnce(Slots(events), |events|);
  }

  /**
   At every point of every history, a request in view that is not over is exactly the
   one the active marker durably records.
   */
  lemma UnsettledIsActive(events: seq<Event>, id: Id)
    ensures
      var w := Run(events);
      Request(id) in w.queue.seen && id !in w.closed ==> SlotId(w.queue, id)
    ensures
      var w := Run(events);
      Result(id) in w.queue.seen ==> Look(w.queue.seen, Processing(id)).Found?
  {
    RunKeepsInvariant(events);
    var w := Run(events);
    OpenIsInTheSlot(w.queue, w.ops, w.closed, id);
  }

  lemma OpenIsInTheSlot(q: Volume, ops: History, closed: map<Id, Closing>, id: Id)
    requires Core(q, ops, closed)
    ensures Request(id) in q.seen && id !in closed ==> SlotId(q, id)
    ensures Result(id) in q.seen ==> Look(q.seen, Processing(id)).Found?
  {
    assert Request(id) in q.seen ==> Known(q, ops, Request(id));
    assert Result(id) in q.seen ==> Known(q, ops, Result(id));
  }

  /* ---- the two journals and the manager agree ---- */

  predicate IssuedAt(issued: seq<Issued>, i: int, op: Operation) {
    0 <= i < |issued| && issued[i].op == op && EffectShown(issued[i])
  }

  /** A receipt with an outcome repeats a verdict that is backed. */
  lemma ReceiptIsBacked(w: World, id: Id, op: Operation, verdict: Verdict)
    requires Invariant(w)
    requires Look(w.queue.seen, Request(id)).Found? && Look(w.queue.seen, Request(id)).rec.op == op
    requires Look(w.queue.seen, Result(id)) == Found(Settled(op, verdict))
    ensures op.id == id && VerdictBacked(w, op, verdict)
  {
    assert Owned(Request(id), w.queue.seen[Request(id)], w.ops);
  }

  /** What the records must be for a receipt to carry an outcome. */
  lemma ReceiptReadsResult(seen: Listing, id: Id, state: ReceiptState)
    requires ReceiptOf(seen, id) == Receipt(state)
    ensures Look(seen, Request(id)).Found? && Look(seen, Request(id)).rec.Accepted?
    ensures
      var op := Look(seen, Request(id)).rec.op;
      match state
      case ReceiptCompleted => op.action != RunOnce && (op.id == id ==> Look(seen, Result(id)) == Found(Settled(op, Completed)))
      case ReceiptCompletedPending => op.action != RunOnce && (op.id == id ==> Look(seen, Result(id)) == Found(Settled(op, Completed)))
      case ReceiptJob(path, boot) => op.id == id ==> Look(seen, Result(id)) == Found(Settled(op, JobAccepted(path, boot)))
      case ReceiptJobPending(path, boot) => op.id == id ==> Look(seen, Result(id)) == Found(Settled(op, JobAccepted(path, boot)))
      case _ => true
  {
  }

  /**
   A receipt of completion means that the broker durably recorded the same completion
   and that exactly one command was ever issued for the id, whose intended effect was
   then observed.
   */
  lemma CompletedMeansEffect(events: seq<Event>, id: Id, state: ReceiptState)
    requires ReceiptOf(Run(events).queue.seen, id) == Receipt(state)
    requires state == ReceiptCompleted || state == ReceiptCompletedPending
    ensures
      var w := Run(events);
      exists op: Operation, i: int ::
        && op.id == id
        && op.action != RunOnce
        && Concluded(w.broker, op)
        && IssuedAt(w.issued, i, op)
        && forall j :: 0 <= j < |w.issued| && w.issued[j].op.id == id ==> j == i
  {
    RunKeepsInvariant(events);
    var w := Run(events);
    ReceiptReadsResult(w.queue.seen, id, state);
    var op := Look(w.queue.seen, Request(id)).rec.op;
    assert Owned(Request(id), w.queue.seen[Request(id)], w.ops);
    ReceiptIsBacked(w, id, op, Completed);
    assert ShownFor(w.issued, op);
    var i :| 0 <= i < |w.issued| && w.issued[i].op == op && EffectShown(w.issued[i]);
    assert IssuedAt(w.issued, i, op);
  }

  lemma BackedStart(started: seq<StartRequest>, op: Operation, path: nat, boot: nat)
    requires SentFor(started, op, path, boot) && SentOnce(started)
    ensures
      exists i :: 0 <= i < |started|
        && started[i].id == op.id && started[i].boot == boot && started[i].reply == JobPath(path)
        && forall j :: 0 <= j < |started| && started[j].id == op.id ==> j == i
  {
    var i :| 0 <= i < |started| && started[i] == StartRequest(op.id, op.service, boot, JobPath(path));
  }

  /**
   A receipt naming a systemd job means that exactly one StartUnit request was ever sent
   for the id, under the recorded boot, and that the manager answered it with that job.
   */
  lemma JobMeansOneStart(events: seq<Event>, id: Id, path: nat, boot: nat, state: ReceiptState)
    requires ReceiptOf(Run(events).queue.seen, id) == Receipt(state)
    requires state == ReceiptJob(path, boot) || state == ReceiptJobPending(path, boot)
    ensures
      var w := Run(events);
      exists i :: 0 <= i < |w.started|
        && w.started[i].id == id && w.started[i].boot == boot && w.started[i].reply == JobPath(path)
        && forall j :: 0 <= j < |w.started| && w.started[j].id == id ==> j == i
  {
    RunKeepsInvariant(events);
    var w := Run(events);
    ReceiptReadsResult(w.queue.seen, id, state);
    var op := Look(w.queue.seen, Request(id)).rec.op;
    assert Owned(Request(id), w.queue.seen[Request(id)], w.ops);
    ReceiptIsBacked(w, id, op, JobAccepted(path, boot));
    BackedStart(w.started, op, path, boot);
  }

  /* ---- the broker is fail-stop for ever ---- */

  /** Whatever occupies the pending name, whole or not, is left as it is and stops the command. */
  lemma OccupiedBlocksNext(w: World, e: Event)
    requires Marker in w.broker.seen && (e.PowerFails? ==> Stable(w.broker, Marker))
    ensures
      var x := Next(w, e);
      && x.issued == w.issued
      && Marker in x.broker.seen && x.broker.seen[Marker] == w.broker.seen[Marker]
      && (Stable(w.broker, Marker) ==> Stable(x.broker, Marker))
  {
    if e.Executes? && w.hand.Holding? {
      PendingRefuses(w.broker, w.hand.op, e.now, w.boot, e.brokerIo);
      assert w.issued + [] == w.issued;
    }
  }

  /**
   Whatever occupies the broker's pending name, readable or not, stops every later command:
   for ever when it is on stable storage, and otherwise until a power loss.
   */
  lemma {:induction false} PendingBlocksForever(events: seq<Event>, more: seq<Event>)
    requires Marker in Run(events).broker.seen
    requires Stable(Run(events).broker, Marker) || NoPowerLoss(more)
    ensures Run(events + more).issued == Run(events).issued
    ensures
      var v, x := Run(events).broker, Run(events + more).broker;
      && Marker in x.seen && x.seen[Marker] == v.seen[Marker]
      && (Stable(v, Marker) ==> Stable(x, Marker))
  {
    if more == [] {
      assert events + more == events;
    } else {
      var all := events + more;
      var shorter := more[..|more| - 1];
      assert all[..|all| - 1] == events + shorter;
      PendingBlocksForever(events, shorter);
      OccupiedBlocksNext(Run(events + shorter), all[|all| - 1]);
    }
  }

  lemma UnconcludedPends(w: World, call: Issued)
    requires BrokerInvariant(w.broker, w.issued)
    requires call in w.issued && !Concluded(w.broker, call.op)
    ensures Pends(w.broker, call.op)
  {
  }

  /**
   Once a command has been issued whose completion is not durably recorded, no command
   is ever issued again, in any continuation of the history.
   */
  lemma FailStopForever(events: seq<Event>, more: seq<Event>, call: Issued)
    requires call in Run(events).issued
    requires !Concluded(Run(events).broker, call.op)
    ensures Run(events + more).issued == Run(events).issued
    ensures !exists other :: other in Run(events).issued && other != call && !Concluded(Run(events).broker, other.op)
  {
    RunKeepsInvariant(events);
    UnconcludedPends(Run(events), call);
    PendingBlocksForever(events, more);
    forall other | other in Run(events).issued && !Concluded(Run(events).broker, other.op)
      ensures other == call
    {
      UnconcludedPends(Run(events), other);
    }
  }
}
