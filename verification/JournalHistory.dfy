/**
 What holds while no power loss takes a visible record away: the full-history scan
 agrees with the active marker. And what must be synced for it to agree after any loss.
 */
module JournalHistory {
  import opened Journal
  import opened QueueRules
  import opened QueueInvariant
  import opened QueueSections
  import opened ControlPlane

  /** No power loss of the history took away, or tore, a queue record that was in view. */
  ghost predicate Faithful(events: seq<Event>) {
    events == [] ||
    var before := events[..|events| - 1];
    && Faithful(before)
    && KeepsRecords(Run(before).queue, Run(events).queue)
  }

  /** Only a power loss can take a record out of view. */
  lemma {:induction false} NoPowerLossIsFaithful(events: seq<Event>)
    requires NoPowerLoss(events)
    ensures Faithful(events)
  {
    if events != [] {
      var before := events[..|events| - 1];
      NoPowerLossIsFaithful(before);
      RunKeepsInvariant(before);
      StepKeepsRecords(Run(before), events[|events| - 1]);
    }
  }

  lemma StepKeepsRecords(w: World, e: Event)
    requires Invariant(w) && !e.PowerFails?
    ensures KeepsRecords(w.queue, Next(w, e).queue)
  {
    match e
    case Submits(cfg, raw, now, io) => SubmitKeepsCore(w.queue, w.ops, w.closed, cfg, raw, now, io);
    case Claims(cfg, io) => ClaimKeepsCore(w.queue, w.ops, w.closed, cfg, io);
    case Settles(cfg, io) =>
      if w.hand.Returned? {
        SettleKeepsCore(w.queue, w.ops, w.closed, cfg, w.hand.op, VerdictFor(w.hand.op, w.hand.out), io);
      }
    case Attests(id, approval, bootSeen, io) => AttestKeepsCore(w.queue, w.ops, w.closed, id, approval, bootSeen, io);
    case Reconciles(id, d, now, io) => ReconcileKeepsCore(w.queue, w.ops, w.closed, id, d, now, io);
    case _ => ExecuteLeavesQueue(w, e);
  }

  /* ---- the extra invariant ---- */

  ghost predicate RequestsKept(seen: Listing, ops: History) {
    && (forall id :: id in ops ==> Look(seen, Request(id)).Found? && Identifies(Look(seen, Request(id)).rec, ops[id]))
    && (forall id :: Processing(id) in seen ==> Request(id) in seen)
  }

  /** Evidence exists only for an unknown outcome, and an acknowledgement only on evidence. */
  ghost predicate EvidenceOrder(seen: Listing) {
    && (forall id :: Evidence(id) in seen ==> Look(seen, Result(id)).Found? && Unknown(Look(seen, Result(id)).rec))
    && (forall id :: Proof(id) in seen ==> Evidence(id) in seen)
  }

  ghost predicate HumanClosingsProved(seen: Listing, ops: History, closed: map<Id, Closing>) {
    forall id :: id in closed && closed[id] == ByHuman ==> id in ops && ProofValid(seen, ops[id])
  }

  ghost predicate KeptIn(seen: Listing, ops: History, closed: map<Id, Closing>) {
    && RequestsKept(seen, ops)
    && EvidenceOrder(seen)
    && HumanClosingsProved(seen, ops, closed)
  }

  ghost predicate Kept(w: World) {
    KeptIn(w.queue.seen, w.ops, w.closed)
  }

  lemma ProofSurvives(s: Listing, t: Listing, op: Operation)
    requires forall n :: n != Marker && n in s ==> n in t && t[n] == s[n]
    requires ProofValid(s, op)
    ensures ProofValid(t, op)
  {
  }

  /** Only new markers and request records: nothing else to re-establish. */
  lemma KeptUnderIntake(v: Volume, w: Volume, ops: History, closed: map<Id, Closing>)
    requires KeepsRecords(v, w)
    requires forall n :: n in w.seen && n !in v.seen ==> n.Marker? || n.Request?
    requires KeptIn(v.seen, ops, closed)
    ensures KeptIn(w.seen, ops, closed)
  {
    forall id | id in closed && closed[id] == ByHuman
      ensures ProofValid(w.seen, ops[id])
    {
      ProofSurvives(v.seen, w.seen, ops[id]);
    }
  }

  /** One more record about one request, of the kind that request is ready for. */
  lemma KeptUnderRecord(v: Volume, w: Volume, ops: History, closed: map<Id, Closing>, n: Name)
    requires KeepsRecords(v, w)
    requires n != Marker && n !in v.seen
    requires forall m :: m in w.seen && m !in v.seen ==> m == n
    requires n.Processing? ==> Request(n.id) in v.seen
    requires n.Evidence? ==> Look(v.seen, Result(n.id)).Found? && Unknown(Look(v.seen, Result(n.id)).rec)
    requires n.Proof? ==> Evidence(n.id) in v.seen
    requires KeptIn(v.seen, ops, closed)
    ensures KeptIn(w.seen, ops, closed)
  {
    forall id | id in closed && closed[id] == ByHuman
      ensures ProofValid(w.seen, ops[id])
    {
      ProofSurvives(v.seen, w.seen, ops[id]);
    }
  }

  lemma SubmitKeepsKept(w: World, e: Event)
    requires e.Submits? && Kept(w)
    requires KeepsRecords(w.queue, Next(w, e).queue)
    ensures Kept(Next(w, e))
  {
    SubmitAddsIntake(w.queue, e.cfg, e.raw, e.now, e.io);
    KeptUnderIntake(w.queue, Next(w, e).queue, w.ops, w.closed);
  }

  lemma SubmitAddsIntake(q: Volume, cfg: Config, raw: Input, now: nat, io: Io)
    ensures
      var w := Submit(q, cfg, raw, now, io).0;
      forall n :: n in w.seen && n !in q.seen ==> n.Marker? || n.Request?
  {
  }

  /** A granted claim adds one claim record, under a request that is in view. */
  lemma ClaimAddsClaim(q: Volume, cfg: Config, io: Io)
    ensures
      var w := Claim(q, cfg, io).0;
      && KeepsRecords(q, w)
      && (w != q ==>
            exists id :: Request(id) in q.seen && Processing(id) !in q.seen
              && forall n :: n in w.seen && n !in q.seen ==> n == Processing(id))
  {
    var w := Claim(q, cfg, io).0;
    if w != q {
      var id := Look(q.seen, Marker).rec.op.id;
      assert Request(id) in q.seen && Processing(id) !in q.seen;
      assert forall n :: n in w.seen && n !in q.seen ==> n == Processing(id);
    }
  }

  lemma ClaimKeepsKept(w: World, e: Event)
    requires e.Claims? && Kept(w) && Core(w.queue, w.ops, w.closed)
    ensures Kept(Next(w, e))
  {
    if w.hand.Idle? {
      var (q, reply) := Claim(w.queue, e.cfg, e.io);
      ClaimAddsClaim(w.queue, e.cfg, e.io);
      if q != w.queue {
        var id :| Request(id) in w.queue.seen && Processing(id) !in w.queue.seen
              && forall n :: n in q.seen && n !in w.queue.seen ==> n == Processing(id);
        KeptUnderRecord(w.queue, q, w.ops, w.closed, Processing(id));
      }
      if reply.Granted? {
        GrantKeepsKept(w.queue, w.ops, w.closed, e.cfg, e.io);
      }
    }
  }

  lemma GrantKeepsKept(q: Volume, ops: History, closed: map<Id, Closing>, cfg: Config, io: Io)
    requires Core(q, ops, closed)
    requires Claim(q, cfg, io).1.Granted?
    requires KeptIn(Claim(q, cfg, io).0.seen, ops, closed)
    ensures
      var op := Claim(q, cfg, io).1.op;
      KeptIn(Claim(q, cfg, io).0.seen, ops[op.id := op], closed)
  {
    ClaimKeepsCore(q, ops, closed, cfg, io);
    var (w, reply) := Claim(q, cfg, io);
    GrantedIsKept(w.seen, ops, closed, reply.op);
  }

  lemma GrantedIsKept(seen: Listing, ops: History, closed: map<Id, Closing>, op: Operation)
    requires KeptIn(seen, ops, closed)
    requires op.id !in ops
    requires Look(seen, Request(op.id)).Found? && Identifies(Look(seen, Request(op.id)).rec, op)
    ensures KeptIn(seen, ops[op.id := op], closed)
  {
  }

  lemma SettleKeepsKeptIn(
      v: Volume, ops: History, closed: map<Id, Closing>, cfg: Config, op: Operation, verdict: Verdict, io: Io)
    requires Core(v, ops, closed) && HeldOpen(v, ops, closed, op) && KeptIn(v.seen, ops, closed)
    ensures
      var q := Settle(v, cfg, op, verdict, io).0;
      KeptIn(q.seen, ops, CloseAfter(q, closed, op.id))
  {
    var q := Settle(v, cfg, op, verdict, io).0;
    SettleKeepsCore(v, ops, closed, cfg, op, verdict, io);
    SettleAddsResult(v, cfg, op, verdict, io);
    KeptUnderRecord(v, q, ops, closed, Result(op.id));
    KeptUnderSettlement(q.seen, ops, closed, op.id);
  }

  lemma KeptUnderSettlement(seen: Listing, ops: History, closed: map<Id, Closing>, id: Id)
    requires KeptIn(seen, ops, closed)
    ensures KeptIn(seen, ops, closed[id := BySettlement])
  {
  }

  lemma SettleKeepsKept(w: World, e: Event)
    requires e.Settles? && Kept(w) && Invariant(w)
    ensures Kept(Next(w, e))
  {
    if w.hand.Returned? {
      SettleKeepsKeptIn(w.queue, w.ops, w.closed, e.cfg, w.hand.op, VerdictFor(w.hand.op, w.hand.out), e.io);
    }
  }

  lemma SettleAddsResult(q: Volume, cfg: Config, op: Operation, verdict: Verdict, io: Io)
    ensures
      var w := Settle(q, cfg, op, verdict, io).0;
      forall n :: n in w.seen && n !in q.seen ==> n == Result(op.id)
  {
  }

  lemma AttestKeepsKept(w: World, e: Event)
    requires e.Attests? && Kept(w)
    ensures Kept(Next(w, e))
  {
    AttestAddsEvidence(w.queue, e.id, e.approval, e.bootSeen, e.io);
    var q := Attest(w.queue, e.id, e.approval, e.bootSeen, e.io).0;
    if q != w.queue {
      KeptUnderRecord(w.queue, q, w.ops, w.closed, Evidence(e.id));
    }
  }

  lemma AttestAddsEvidence(q: Volume, id: Id, approval: nat, boot: nat, io: Io)
    ensures
      var w := Attest(q, id, approval, boot, io).0;
      && KeepsRecords(q, w)
      && (w != q ==>
            && Evidence(id) !in q.seen
            && Look(q.seen, Result(id)).Found? && Unknown(Look(q.seen, Result(id)).rec)
            && forall n :: n in w.seen && n !in q.seen ==> n == Evidence(id))
  {
  }

  /** Either nothing changes, or the section is a release, possibly after storing the acknowledgement. */
  lemma ReconcileShape(q: Volume, id: Id, d: Decision, now: nat, io: Io)
    ensures
      var w := Reconcile(q, id, d, now, io).0;
      w == q || (
        && Evidence(id) in q.seen
        && Look(q.seen, Request(id)).Found?
        && (|| (Proof(id) in q.seen && w == Release(q, io).0)
            || exists r: Record ::
                 var (v1, p1) := StoreNew(q, Proof(id), r, io.first);
                 w == if p1.Goes? then Release(v1, io).0 else v1))
  {
    var w := Reconcile(q, id, d, now, io).0;
    if w != q {
      var op := Look(q.seen, Request(id)).rec.op;
      assert Reconcilable(q.seen, op, d);
      if Proof(id) !in q.seen {
        var r := Acknowledged(op, d.approval, d.boot, now, d.evidence, Look(q.seen, Evidence(id)).rec.digests);
        var (v1, p1) := StoreNew(q, Proof(id), r, io.first);
        assert w == if p1.Goes? then Release(v1, io).0 else v1;
      }
    }
  }

  /** A marker is given up to a human decision only when that decision is on record and valid. */
  lemma ReleaseProves(v: Volume, id: Id, io: Io)
    requires Evidence(id) in v.seen && Request(id) in v.seen
    ensures
      var w := Release(v, io).0;
      && (forall n :: n != Marker ==> (n in w.seen <==> n in v.seen) && (n in v.seen ==> w.seen[n] == v.seen[n]))
      && (Marker in v.seen && Marker !in w.seen ==>
            Look(v.seen, Request(id)).Found? && ProofValid(w.seen, Look(v.seen, Request(id)).rec.op))
  {
    var w := Release(v, io).0;
    ReleaseTouchesMarker(v, io);
    if w != v {
      ScanProves(v.seen, id);
      UnlinkKeepsProof(v, w, Look(v.seen, Request(id)).rec.op, io.cleanup);
    }
  }

  lemma ScanProves(seen: Listing, id: Id)
    requires HistorySettled(seen)
    requires Evidence(id) in seen && Request(id) in seen
    ensures Look(seen, Request(id)).Found? && ProofValid(seen, Look(seen, Request(id)).rec.op)
  {
    assert RequestSettled(seen, id);
  }

  lemma UnlinkKeepsProof(v: Volume, w: Volume, op: Operation, fate: UnlinkFate)
    requires w == Unlink(v, Marker, fate).0
    requires ProofValid(v.seen, op)
    ensures ProofValid(w.seen, op)
    ensures forall n :: n != Marker ==> (n in w.seen <==> n in v.seen) && (n in v.seen ==> w.seen[n] == v.seen[n])
  {
    ProofSurvives(v.seen, w.seen, op);
  }

  /** What a reconciliation changes, and what it proves when it gives up the marker. */
  lemma ReconcileProves(q: Volume, id: Id, d: Decision, now: nat, io: Io)
    ensures
      var w := Reconcile(q, id, d, now, io).0;
      && KeepsRecords(q, w)
      && (forall n :: n in w.seen && n !in q.seen ==> n == Proof(id) && Evidence(id) in q.seen)
      && (Marker in q.seen && Marker !in w.seen ==>
            Look(q.seen, Request(id)).Found? && ProofValid(w.seen, Look(q.seen, Request(id)).rec.op))
  {
    var w := Reconcile(q, id, d, now, io).0;
    ReconcileShape(q, id, d, now, io);
    if w != q {
      if Proof(id) in q.seen && w == Release(q, io).0 {
        ReleaseProves(q, id, io);
      } else {
        var r: Record :| var (v1, p1) := StoreNew(q, Proof(id), r, io.first);
          w == if p1.Goes? then Release(v1, io).0 else v1;
        StoredThenReleased(q, w, id, r, io);
      }
    }
  }

  lemma StoredThenReleased(q: Volume, w: Volume, id: Id, r: Record, io: Io)
    requires Evidence(id) in q.seen && Look(q.seen, Request(id)).Found?
    requires
      var (v1, p1) := StoreNew(q, Proof(id), r, io.first);
      w == if p1.Goes? then Release(v1, io).0 else v1
    ensures KeepsRecords(q, w)
    ensures forall n :: n in w.seen && n !in q.seen ==> n == Proof(id)
    ensures Marker in q.seen && Marker !in w.seen ==> ProofValid(w.seen, Look(q.seen, Request(id)).rec.op)
  {
    var (v1, p1) := StoreNew(q, Proof(id), r, io.first);
    assert forall n :: n in q.seen ==> n in v1.seen && v1.seen[n] == q.seen[n];
    assert forall n :: n in v1.seen && n !in q.seen ==> n == Proof(id);
    if p1.Goes? {
      ReleaseProves(v1, id, io);
      ReleaseTouchesMarker(v1, io);
    }
  }

  lemma ReconcileKeepsKept(w: World, e: Event)
    requires e.Reconciles? && Kept(w) && Core(w.queue, w.ops, w.closed)
    ensures Kept(Next(w, e))
  {
    var q := Reconcile(w.queue, e.id, e.decision, e.now, e.io).0;
    ReconcileProves(w.queue, e.id, e.decision, e.now, e.io);
    KeptUnderProof(w.queue, q, w.ops, w.closed, e.id);
    ReconcileKeepsCore(w.queue, w.ops, w.closed, e.id, e.decision, e.now, e.io);
    KeptUnderClosing(w.queue, q, w.ops, w.closed, e.id);
  }

  lemma KeptUnderClosing(v: Volume, w: Volume, ops: History, closed: map<Id, Closing>, id: Id)
    requires KeptIn(v.seen, ops, closed) && KeptIn(w.seen, ops, closed)
    requires ReleaseAfter(v, w, closed, id).Keys <= ops.Keys
    requires Marker in v.seen && Marker !in w.seen ==>
      Look(v.seen, Request(id)).Found? && ProofValid(w.seen, Look(v.seen, Request(id)).rec.op)
    ensures KeptIn(w.seen, ops, ReleaseAfter(v, w, closed, id))
  {
    if Marker in v.seen && Marker !in w.seen {
      assert id in closed[id := ByHuman].Keys;
      assert Look(v.seen, Request(id)).rec.op == ops[id];
    }
  }

  lemma KeptUnderProof(v: Volume, w: Volume, ops: History, closed: map<Id, Closing>, id: Id)
    requires KeepsRecords(v, w)
    requires forall n :: n in w.seen && n !in v.seen ==> n == Proof(id) && Evidence(id) in v.seen
    requires KeptIn(v.seen, ops, closed)
    ensures KeptIn(w.seen, ops, closed)
  {
    if Proof(id) in w.seen && Proof(id) !in v.seen {
      KeptUnderRecord(v, w, ops, closed, Proof(id));
    } else {
      KeptUnderIntake(v, w, ops, closed);
    }
  }

  /** A power loss brings no record into view. */
  lemma LossAddsNothing(v: Volume, w: Volume)
    requires DurableIsSeen(v) && LosesTo(v, w)
    ensures forall n :: n != Marker && n in w.seen ==> n in v.seen
  {
    assert forall n :: n != Marker && n in v.durable ==> Stable(v, n);
  }

  lemma PowerKeepsKept(w: World, e: Event)
    requires e.PowerFails? && Kept(w) && DurableIsSeen(w.queue)
    requires KeepsRecords(w.queue, Next(w, e).queue)
    ensures Kept(Next(w, e))
  {
    if Next(w, e) != w {
      LossAddsNothing(w.queue, e.queue);
      KeptUnderIntake(w.queue, e.queue, w.ops, w.closed);
    }
  }

  lemma ExecuteLeavesQueue(w: World, e: Event)
    requires e.Executes? || e.ProcessEnds?
    ensures
      var x := Next(w, e);
      x.queue == w.queue && x.ops == w.ops && x.closed == w.closed
  {
  }

  lemma NextKeepsKept(w: World, e: Event)
    requires Invariant(w) && Kept(w)
    requires KeepsRecords(w.queue, Next(w, e).queue)
    ensures Kept(Next(w, e))
  {
    match e
    case Submits(_, _, _, _) => SubmitKeepsKept(w, e);
    case Claims(_, _) => ClaimKeepsKept(w, e);
    case Settles(_, _) => SettleKeepsKept(w, e);
    case Attests(_, _, _, _) => AttestKeepsKept(w, e);
    case Reconciles(_, _, _, _) => ReconcileKeepsKept(w, e);
    case PowerFails(_, _) => PowerKeepsKept(w, e);
    case _ => ExecuteLeavesQueue(w, e);
  }

  lemma {:induction false} FaithfulIsKept(events: seq<Event>)
    requires Faithful(events)
    ensures Kept(Run(events))
  {
    if events != [] {
      var before := events[..|events| - 1];
      FaithfulIsKept(before);
      RunKeepsInvariant(before);
      NextKeepsKept(Run(before), events[|events| - 1]);
    }
  }

  /* ---- the scan agrees with the marker ---- */

  /** The claim of an executed operation is in view, and its result, if readable, is about it. */
  lemma ExecutedRecords(q: Volume, ops: History, closed: map<Id, Closing>, id: Id)
    requires Core(q, ops, closed) && id in ops
    ensures ops[id].id == id && Look(q.seen, Processing(id)) == Found(Claimed(ops[id]))
    ensures Look(q.seen, Result(id)).Found? ==> ValidResult(Look(q.seen, Result(id)).rec, ops[id])
  {
    assert Holds(q, Processing(id), Claimed(ops[id]));
    assert Result(id) in q.seen ==> Owned(Result(id), q.seen[Result(id)], ops);
  }

  lemma SettlementIsSettled(q: Volume, ops: History, closed: map<Id, Closing>, id: Id)
    requires Core(q, ops, closed) && KeptIn(q.seen, ops, closed)
    requires id in closed && closed[id] == BySettlement
    ensures RequestSettled(q.seen, id)
    ensures Evidence(id) !in q.seen && Proof(id) !in q.seen
  {
    assert DurableOutcome(q, id);
    ExecutedRecords(q, ops, closed, id);
  }

  /** With a valid acknowledgement on record the request passes the scan. */
  lemma ProvenIsSettled(seen: Listing, op: Operation)
    requires Look(seen, Request(op.id)).Found? && Identifies(Look(seen, Request(op.id)).rec, op)
    requires Look(seen, Processing(op.id)) == Found(Claimed(op))
    requires Look(seen, Result(op.id)).Found? ==> ValidResult(Look(seen, Result(op.id)).rec, op)
    requires ProofValid(seen, op)
    ensures RequestSettled(seen, op.id)
    ensures Evidence(op.id) in seen && Proof(op.id) in seen
  {
  }

  lemma AcknowledgedIsSettled(q: Volume, ops: History, closed: map<Id, Closing>, id: Id)
    requires Core(q, ops, closed) && KeptIn(q.seen, ops, closed)
    requires id in closed && closed[id] == ByHuman
    ensures RequestSettled(q.seen, id)
    ensures Evidence(id) in q.seen && Proof(id) in q.seen
  {
    ExecutedRecords(q, ops, closed, id);
    ProvenIsSettled(q.seen, ops[id]);
  }

  /** A request in view that belongs to an executed operation passes every check of the scan. */
  lemma ClosedIsSettled(q: Volume, ops: History, closed: map<Id, Closing>, id: Id)
    requires Core(q, ops, closed) && KeptIn(q.seen, ops, closed)
    requires id in closed
    ensures RequestSettled(q.seen, id)
    ensures Evidence(id) in q.seen <==> Proof(id) in q.seen
  {
    if closed[id] == ByHuman {
      AcknowledgedIsSettled(q, ops, closed, id);
    } else {
      SettlementIsSettled(q, ops, closed, id);
    }
  }

  /** Without an active marker the whole history is settled. */
  lemma KeptAndFreeIsSettled(q: Volume, ops: History, closed: map<Id, Closing>)
    requires Core(q, ops, closed) && KeptIn(q.seen, ops, closed)
    requires Marker !in q.seen
    ensures HistorySettled(q.seen)
  {
    forall n | n != Marker && n in q.seen
      ensures Request(n.id) in q.seen && RequestSettled(q.seen, n.id) && (Evidence(n.id) in q.seen <==> Proof(n.id) in q.seen)
    {
      assert Known(q, ops, n);
      ClosedIsSettled(q, ops, closed, n.id);
    }
  }

  /**
   In a faithful history, whenever there is no active marker the full-history scan
   succeeds, up to its bound on the number of entries: the two guards agree.
   */
  lemma ScanAgreesWithMarker(events: seq<Event>)
    requires Faithful(events)
    requires Marker !in Run(events).queue.seen
    ensures ScanPasses(Run(events).queue.seen) <==> |Run(events).queue.seen| + 1 <= MAX_AUDIT_ENTRIES
  {
    RunKeepsInvariant(events);
    FaithfulIsKept(events);
    var w := Run(events);
    KeptAndFreeIsSettled(w.queue, w.ops, w.closed);
  }

  /** A record that reads back the same after a power loss was not touched by it. */
  lemma ReadableSurvived(v: Volume, w: Volume, n: Name)
    requires DurableIsSeen(v) && LosesTo(v, w)
    requires n != Marker && n in w.seen && !w.seen[n].Torn?
    ensures n in v.seen && w.seen[n] == v.seen[n]
  {
    assert n in v.durable ==> Stable(v, n);
  }

  /**
   After a power loss that leaves no active marker, the history is settled exactly when
   the loss took no record out of view and tore none.
   */
  lemma ScanAfterPowerLoss(events: seq<Event>, q: Volume)
    requires Faithful(events)
    requires LosesTo(Run(events).queue, q)
    requires Marker !in q.seen
    ensures HistorySettled(q.seen) <==> KeepsRecords(Run(events).queue, q)
  {
    RunKeepsInvariant(events);
    FaithfulIsKept(events);
    var w := Run(events);
    PowerLossKeepsCore(w.queue, q, w.ops, w.closed);
    if KeepsRecords(w.queue, q) {
      LossAddsNothing(w.queue, q);
      KeptUnderIntake(w.queue, q, w.ops, w.closed);
      KeptAndFreeIsSettled(q, w.ops, w.closed);
    } else if HistorySettled(q.seen) {
      SettledLostNothing(w.queue, q, w.ops, w.closed);
    }
  }

  /**
   Known before the loss: as long as the marker is not on stable storage, the history is
   settled after every power loss that leaves no marker exactly when every other record in
   view is synced.
   */
  lemma ScanAfterAnyPowerLoss(events: seq<Event>)
    requires Faithful(events)
    requires !Stable(Run(events).queue, Marker)
    ensures
      var v := Run(events).queue;
      (forall q: Volume :: LosesTo(v, q) && Marker !in q.seen ==> HistorySettled(q.seen)) <==>
        forall n :: n != Marker && n in v.seen ==> Stable(v, n)
  {
    RunKeepsInvariant(events);
    var v := Run(events).queue;
    forall q: Volume | LosesTo(v, q) && Marker !in q.seen
      ensures HistorySettled(q.seen) <==> KeepsRecords(v, q)
    {
      ScanAfterPowerLoss(events, q);
    }
    var worst := UnsyncedGone(v);
    WorstLoss(v);
    if forall q: Volume :: LosesTo(v, q) && Marker !in q.seen ==> HistorySettled(q.seen) {
      assert KeepsRecords(v, worst);
    }
  }

  /** What is left when the loss takes everything that was not synced, and the marker. */
  function UnsyncedGone(v: Volume): Volume {
    Volume(v.durable - {Marker}, v.durable - {Marker})
  }

  lemma WorstLoss(v: Volume)
    requires DurableIsSeen(v) && !Stable(v, Marker)
    ensures LosesTo(v, UnsyncedGone(v)) && Marker !in UnsyncedGone(v).seen
    ensures KeepsRecords(v, UnsyncedGone(v)) <==> forall n :: n != Marker && n in v.seen ==> Stable(v, n)
  {
  }

  lemma SettledLostNothing(v: Volume, w: Volume, ops: History, closed: map<Id, Closing>)
    requires Core(v, ops, closed) && KeptIn(v.seen, ops, closed)
    requires LosesTo(v, w) && HistorySettled(w.seen)
    requires Marker !in w.seen
    ensures KeepsRecords(v, w)
  {
    assert !Stable(v, Marker);
    forall n | n != Marker && n in v.seen
      ensures n in w.seen && w.seen[n] == v.seen[n]
    {
      assert Known(v, ops, n);
      SettledKeptRecord(v, w, ops, closed, n);
    }
  }

  /** What a settled request has in view. */
  lemma SettledHas(seen: Listing, id: Id)
    requires RequestSettled(seen, id)
    ensures Look(seen, Request(id)).Found? && Look(seen, Result(id)).Found? && Look(seen, Processing(id)).Found?
    ensures Unknown(Look(seen, Result(id)).rec) ==> ProofValid(seen, Look(seen, Request(id)).rec.op)
  {
  }

  predicate SameIn(v: Volume, w: Volume, n: Name) {
    n in v.seen && n in w.seen && w.seen[n] == v.seen[n]
  }

  /** A settled request's own three records were not lost. */
  lemma SettledKeptOwn(v: Volume, w: Volume, ops: History, id: Id)
    requires DurableIsSeen(v) && LosesTo(v, w) && RequestSettled(w.seen, id)
    ensures SameIn(v, w, Request(id)) && SameIn(v, w, Processing(id)) && SameIn(v, w, Result(id))
  {
    SettledHas(w.seen, id);
    ReadableSurvived(v, w, Request(id));
    ReadableSurvived(v, w, Result(id));
    ReadableSurvived(v, w, Processing(id));
  }

  /** Nor was what a human added to it. */
  lemma SettledKeptProof(v: Volume, w: Volume, op: Operation)
    requires DurableIsSeen(v) && LosesTo(v, w) && ProofValid(w.seen, op)
    ensures SameIn(v, w, Evidence(op.id)) && SameIn(v, w, Proof(op.id))
  {
    ReadableSurvived(v, w, Evidence(op.id));
    ReadableSurvived(v, w, Proof(op.id));
  }

  lemma ExecutedIsSettled(v: Volume, w: Volume, ops: History, closed: map<Id, Closing>, id: Id)
    requires Core(v, ops, closed) && id in ops
    requires LosesTo(v, w) && HistorySettled(w.seen)
    ensures RequestSettled(w.seen, id)
  {
    assert Stable(v, Processing(id)) && Processing(id) in w.seen;
  }

  lemma SettledKeptRecord(v: Volume, w: Volume, ops: History, closed: map<Id, Closing>, n: Name)
    requires Core(v, ops, closed) && KeptIn(v.seen, ops, closed)
    requires LosesTo(v, w) && HistorySettled(w.seen)
    requires n != Marker && n in v.seen && n.id in ops
    ensures SameIn(v, w, n)
  {
    ExecutedIsSettled(v, w, ops, closed, n.id);
    SettledKeptOwn(v, w, ops, n.id);
    if n.Evidence? || n.Proof? {
      EvidenceMeansUnknown(v, ops, closed, n);
      AddedKept(v, w, n.id);
    }
  }

  lemma AddedKept(v: Volume, w: Volume, id: Id)
    requires DurableIsSeen(v) && LosesTo(v, w) && RequestSettled(w.seen, id)
    requires Unknown(Look(w.seen, Result(id)).rec)
    ensures SameIn(v, w, Evidence(id)) && SameIn(v, w, Proof(id))
  {
    SettledHas(w.seen, id);
    SettledKeptProof(v, w, Look(w.seen, Request(id)).rec.op);
  }

  lemma EvidenceMeansUnknown(v: Volume, ops: History, closed: map<Id, Closing>, n: Name)
    requires Core(v, ops, closed) && KeptIn(v.seen, ops, closed)
    requires (n.Evidence? || n.Proof?) && n in v.seen && n.id in ops
    ensures Look(v.seen, Result(n.id)).Found? && Unknown(Look(v.seen, Result(n.id)).rec)
  {
  }
}
