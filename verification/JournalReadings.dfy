/**
 What the queue's records say when they are read: which files stand behind each receipt,
 and what exactly a human acknowledgement was given on.
 */
module JournalReadings {
  import opened Journal
  import opened QueueRules
  import opened Receipts

  /* ---- receipts ---- */

  predicate Records(seen: Listing, n: Name, rec: Record) {
    n in seen && (seen[n] == Complete(rec) || seen[n] == Unterminated(rec))
  }

  predicate Readable(seen: Listing, n: Name) {
    n in seen ==> !seen[n].Torn?
  }

  /** The acknowledgement of an unknown outcome, bound byte for byte to the records it was given on. */
  ghost predicate Bound(seen: Listing, op: Operation) {
    && op.action == RunOnce
    && Records(seen, Result(op.id), Settled(op, Indeterminate))
    && Request(op.id) in seen && Processing(op.id) in seen && Evidence(op.id) in seen
    && exists approval: nat, boot: nat, at: nat ::
         var digests := Digests(
           seen[Request(op.id)], seen[Processing(op.id)], seen[Result(op.id)], seen[Request(op.id)]);
         && Records(seen, Evidence(op.id), Attested(op, approval, boot, digests))
         && Records(seen, Proof(op.id), Acknowledged(op, approval, boot, at, seen[Evidence(op.id)], digests))
  }

  /** Which files stand behind each receipt of a request recorded for `op`. */
  ghost predicate Behind(seen: Listing, op: Operation, queuedAt: nat, state: ReceiptState) {
    var claimed := Records(seen, Processing(op.id), Claimed(op));
    var held := Records(seen, Marker, Accepted(op, queuedAt));
    match state
    case ReceiptAccepted => held && Processing(op.id) !in seen && Result(op.id) !in seen
    case ReceiptProcessing => held && claimed && Result(op.id) !in seen
    case ReceiptCompletedPending =>
      held && claimed && op.action != RunOnce && Records(seen, Result(op.id), Settled(op, Completed))
    case ReceiptCompleted =>
      && !held && Readable(seen, Marker)
      && claimed && op.action != RunOnce && Records(seen, Result(op.id), Settled(op, Completed))
    case ReceiptIndeterminate =>
      && claimed && Records(seen, Result(op.id), Settled(op, Indeterminate))
      && (held || (Readable(seen, Marker) && Bound(seen, op)))
    case ReceiptJobPending(path, boot) =>
      && held && claimed && op.action == RunOnce && 1 <= path < MAX_JOB_PATH
      && Records(seen, Result(op.id), Settled(op, JobAccepted(path, boot)))
    case ReceiptJob(path, boot) =>
      && !held && Readable(seen, Marker)
      && claimed && op.action == RunOnce && 1 <= path < MAX_JOB_PATH
      && Records(seen, Result(op.id), Settled(op, JobAccepted(path, boot)))
  }

  lemma BoundExactlyWhen(seen: Listing, op: Operation)
    requires Look(seen, Request(op.id)).Found? && Look(seen, Processing(op.id)).Found?
    requires Records(seen, Result(op.id), Settled(op, Indeterminate))
    ensures ProofValid(seen, op) <==> Bound(seen, op)
  {
    if ProofValid(seen, op) {
      var attested := Look(seen, Evidence(op.id)).rec;
      var rec := Look(seen, Proof(op.id)).rec;
      assert Records(seen, Proof(op.id),
        Acknowledged(op, attested.approval, attested.boot, rec.approvedAt, seen[Evidence(op.id)], attested.digests));
    }
  }

  /** A receipt says exactly what the files show. */
  lemma ReceiptExactlyWhen(seen: Listing, op: Operation, queuedAt: nat, state: ReceiptState)
    requires Records(seen, Request(op.id), Accepted(op, queuedAt))
    ensures ReceiptOf(seen, op.id) == Receipt(state) <==> Behind(seen, op, queuedAt, state)
  {
    if Look(seen, Processing(op.id)).Found? && Records(seen, Result(op.id), Settled(op, Indeterminate)) {
      BoundExactlyWhen(seen, op);
    }
  }

  /** A request without a readable record of its own has no receipt. */
  lemma NoReceiptWithoutRecord(seen: Listing, id: Id)
    requires forall op: Operation, queuedAt: nat :: !Records(seen, Request(id), Accepted(op, queuedAt))
    ensures ReceiptOf(seen, id) == Refused(MissingReceipt) <==> Request(id) !in seen
    ensures ReceiptOf(seen, id).Refused?
  {
    if Look(seen, Request(id)).Found? && Look(seen, Request(id)).rec.Accepted? {
      var rec := Look(seen, Request(id)).rec;
      assert Records(seen, Request(id), Accepted(rec.op, rec.queuedAt));
    }
  }

  /* ---- the settled history ---- */

  /** A request that is over: claimed, and either a known outcome without any acknowledgement, or an unknown one with it. */
  ghost predicate Over(seen: Listing, op: Operation) {
    && Records(seen, Processing(op.id), Claimed(op))
    && if Evidence(op.id) in seen || Proof(op.id) in seen then Bound(seen, op)
       else exists verdict: Verdict ::
         && !verdict.Indeterminate? && (verdict.Completed? <==> op.action != RunOnce)
         && (verdict.JobAccepted? ==> 1 <= verdict.path < MAX_JOB_PATH)
         && Records(seen, Result(op.id), Settled(op, verdict))
  }

  lemma OverExactlyWhen(seen: Listing, op: Operation, queuedAt: nat)
    requires Records(seen, Request(op.id), Accepted(op, queuedAt))
    ensures RequestSettled(seen, op.id) && (Evidence(op.id) in seen <==> Proof(op.id) in seen) <==> Over(seen, op)
  {
    if Look(seen, Processing(op.id)).Found? && Records(seen, Result(op.id), Settled(op, Indeterminate)) {
      BoundExactlyWhen(seen, op);
    }
    var outcome := Look(seen, Result(op.id));
    if outcome.Found? && outcome.rec.Settled? {
      assert Records(seen, Result(op.id), Settled(outcome.rec.op, outcome.rec.verdict));
    }
  }

  /** New work is authorised exactly when the directory is within its bound and every record belongs to a request that is over. */
  lemma ScanExactlyWhen(seen: Listing)
    ensures ScanPasses(seen) <==>
      && |seen| < MAX_AUDIT_ENTRIES
      && (forall n :: n in seen && n != Marker ==> Request(n.id) in seen)
      && forall id :: Request(id) in seen ==>
           exists op: Operation, queuedAt: nat :: op.id == id && Records(seen, Request(id), Accepted(op, queuedAt)) && Over(seen, op)
  {
    forall id | Request(id) in seen
      ensures RequestSettled(seen, id) && (Evidence(id) in seen <==> Proof(id) in seen) <==>
        exists op: Operation, queuedAt: nat :: op.id == id && Records(seen, Request(id), Accepted(op, queuedAt)) && Over(seen, op)
    {
      var record := Look(seen, Request(id));
      if record.Found? && record.rec.Accepted? && record.rec.op.id == id {
        OverExactlyWhen(seen, record.rec.op, record.rec.queuedAt);
      }
    }
    assert NoOrphans(seen) <==> forall n :: n in seen && n != Marker ==> Request(n.id) in seen;
  }

  /* ---- what a human decides on ---- */

  /** An attestation quotes the four records as they are, of a manual run whose outcome is unknown. */
  lemma AttestedOnRecords(v: Volume, id: Id, approval: nat, boot: nat, io: Io)
    requires DurableIsSeen(v) && Attest(v, id, approval, boot, io).1.Receipt?
    ensures
      var seen := v.seen;
      && io.lockFree && Request(id) in seen && Processing(id) in seen && Result(id) in seen && Marker in seen
      && Evidence(id) !in seen
      && exists op: Operation, queuedAt: nat ::
           && op.id == id && op.action == RunOnce
           && Records(seen, Request(id), Accepted(op, queuedAt)) && Records(seen, Processing(id), Claimed(op))
           && Records(seen, Result(id), Settled(op, Indeterminate))
           && Holds(Attest(v, id, approval, boot, io).0, Evidence(id), Attested(op, approval, boot,
                Digests(seen[Request(id)], seen[Processing(id)], seen[Result(id)], seen[Marker])))
  {
    var rec := Look(v.seen, Request(id)).rec;
    assert Records(v.seen, Request(id), Accepted(rec.op, rec.queuedAt));
  }

  /** The evidence on disk, byte for byte what was approved, and attested for this run with this approval under this boot. */
  ghost predicate Warranted(seen: Listing, id: Id, d: Decision) {
    && d.approved
    && Evidence(id) in seen && seen[Evidence(id)] == d.evidence
    && exists op: Operation, queuedAt: nat, digests: Digests ::
         && op.id == id && op.action == RunOnce
         && Records(seen, Request(id), Accepted(op, queuedAt)) && Records(seen, Processing(id), Claimed(op))
         && Records(seen, Result(id), Settled(op, Indeterminate))
         && Records(seen, Evidence(id), Attested(op, d.approval, d.boot, digests))
         && digests == Digests(seen[Request(id)], seen[Processing(id)], seen[Result(id)], seen[Request(id)])
  }

  /**
   Nothing is written, not even the acknowledgement, unless the evidence warrants the
   decision and the marker is still the request, byte for byte.
   */
  lemma ReconcileWritesOnlyWhenWarranted(v: Volume, id: Id, d: Decision, now: nat, io: Io)
    ensures Reconcile(v, id, d, now, io).0 != v ==>
      && Warranted(v.seen, id, d)
      && (Proof(id) !in v.seen ==> Marker in v.seen && v.seen[Marker] == v.seen[Request(id)])
  {
    if Reconcile(v, id, d, now, io).0 != v {
      var rec := Look(v.seen, Request(id)).rec;
      var op, digests := rec.op, Look(v.seen, Evidence(id)).rec.digests;
      assert Reconcilable(v.seen, op, d);
      assert Records(v.seen, Request(id), Accepted(op, rec.queuedAt));
      assert Records(v.seen, Evidence(id), Attested(op, d.approval, d.boot, digests));
    }
  }

  /** A reconciliation that succeeds was approved, on the very evidence on disk, and leaves an acknowledgement bound to it. */
  lemma ReconciledOnEvidence(v: Volume, id: Id, d: Decision, now: nat, io: Io)
    requires Reconcile(v, id, d, now, io).1.Receipt?
    ensures
      var w := Reconcile(v, id, d, now, io).0;
      && d.approved && io.lockFree
      && Evidence(id) in v.seen && v.seen[Evidence(id)] == d.evidence
      && exists op: Operation, digests: Digests ::
           && op.id == id && Bound(w.seen, op)
           && Records(v.seen, Evidence(id), Attested(op, d.approval, d.boot, digests))
  {
    SuccessAcknowledges(v, id, d, now, io);
    var v1 := WithProof(v, id, d, now, io);
    var op := Look(v.seen, Request(id)).rec.op;
    var digests := Look(v.seen, Evidence(id)).rec.digests;
    assert io.(cleanup := io.cleanup) == io;
    ReleaseTouchesMarker(v1, io);
    var w := Reconcile(v, id, d, now, io).0;
    if w != v1 {
      WithoutMarkerAcknowledges(v1.seen, w.seen, id, d);
    }
    BoundExactlyWhen(w.seen, op);
    assert Records(v.seen, Evidence(id), Attested(op, d.approval, d.boot, digests));
  }
}
