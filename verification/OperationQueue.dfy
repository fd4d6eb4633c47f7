/**
 The durable operation queue as the program keeps it: one object over one journal
 directory, each operation a sequence of creates and unlinks under the queue's lock.
 */
module OperationQueue {
  import opened Journal
  import opened QueueRules

  /**
   Re-read the whole history, in whatever order the directory lists it, and say whether
   a new effect may be authorised.
   */
  method PriorWorkFullySettled(seen: Listing) returns (ok: bool)
    ensures ok <==> ScanPasses(seen)
  {
    if |seen| + 1 > MAX_AUDIT_ENTRIES { return false; }
    var requests: set<Id>, processing: set<Id>, results: set<Id> := {}, {}, {};
    var reconciled: set<Id>, evidence: set<Id> := {}, {};
    var todo := seen.Keys;
    while todo != {}
      invariant todo <= seen.Keys
      invariant forall id :: id in requests <==> Request(id) in seen.Keys - todo
      invariant forall id :: id in processing <==> Processing(id) in seen.Keys - todo
      invariant forall id :: id in results <==> Result(id) in seen.Keys - todo
      invariant forall id :: id in reconciled <==> Proof(id) in seen.Keys - todo
      invariant forall id :: id in evidence <==> Evidence(id) in seen.Keys - todo
      decreases todo
    {
      var name :| name in todo;
      match name {
        case Request(id) => requests := requests + {id};
        case Processing(id) => processing := processing + {id};
        case Result(id) => results := results + {id};
        case Proof(id) => reconciled := reconciled + {id};
        case Evidence(id) => evidence := evidence + {id};
        case Marker =>
      }
      todo := todo - {name};
    }
    if !(processing + results + reconciled + evidence <= requests) {
      NotSettled(seen, processing, results, reconciled, evidence, requests);
      return false;
    }
    if evidence != reconciled { return false; }
    var unread := requests;
    while unread != {}
      invariant unread <= requests
      invariant forall id :: id in requests && id !in unread ==> RequestSettled(seen, id)
      decreases unread
    {
      var id :| id in unread;
      var settled := CheckRequest(seen, id, id in results, id in reconciled, id in processing);
      if !settled { return false; }
      unread := unread - {id};
    }
    return true;
  }

  lemma NotSettled(
      seen: Listing, processing: set<Id>, results: set<Id>, reconciled: set<Id>, evidence: set<Id>, requests: set<Id>)
    requires !(processing + results + reconciled + evidence <= requests)
    requires forall id :: id in requests <==> Request(id) in seen
    requires forall id :: id in processing <==> Processing(id) in seen
    requires forall id :: id in results <==> Result(id) in seen
    requires forall id :: id in reconciled <==> Proof(id) in seen
    requires forall id :: id in evidence <==> Evidence(id) in seen
    ensures !NoOrphans(seen)
  {
    var id :| id in processing + results + reconciled + evidence && id !in requests;
  }

  /** The checks on one request, in order, each of them final. */
  method CheckRequest(seen: Listing, id: Id, hasResult: bool, isReconciled: bool, hasClaim: bool) returns (ok: bool)
    requires hasResult == (Result(id) in seen)
    requires isReconciled == (Proof(id) in seen)
    requires hasClaim == (Processing(id) in seen)
    ensures ok <==> RequestSettled(seen, id)
  {
    if !hasResult { return false; }
    var record := Look(seen, Request(id));
    if !record.Found? || !record.rec.Accepted? || record.rec.op.id != id { return false; }
    var op := record.rec.op;
    var outcome := Look(seen, Result(id));
    if !outcome.Found? || !ValidResult(outcome.rec, op) { return false; }
    if outcome.rec.verdict.Indeterminate? {
      if !isReconciled || !ProofValid(seen, op) { return false; }
    } else if isReconciled {
      return false;
    }
    if !hasClaim { return false; }
    ok := Look(seen, Processing(id)) == Found(Claimed(op));
  }

  class DurableOperationQueue {
    const cfg: Config
    var volume: Volume

    constructor (cfg: Config)
      ensures this.cfg == cfg && volume == EmptyVolume
    {
      this.cfg := cfg;
      volume := EmptyVolume;
    }

    method Create(n: Name, r: Record, fate: StoreFate) returns (p: Progress)
      modifies this
      ensures (volume, p) == StoreNew(old(volume), n, r, fate)
    {
      var (v, q) := StoreNew(volume, n, r, fate);
      volume := v;
      p := q;
    }

    method RemoveMarker(fate: UnlinkFate) returns (p: Progress)
      modifies this
      ensures (volume, p) == Unlink(old(volume), Marker, fate)
    {
      var (v, q) := Unlink(volume, Marker, fate);
      volume := v;
      p := q;
    }

    /** Durably accept an operation, or return the receipt of one already accepted. */
    method SubmitOperation(raw: Input, now: nat, io: Io) returns (reply: Reply)
      modifies this
      ensures (volume, reply) == Submit(old(volume), cfg, raw, now, io)
    {
      if !cfg.enabled { return Refused(QueueDisabled); }
      if raw.Malformed? { return Refused(InvalidOperation); }
      var op := raw.op;
      if op.action == RunOnce && !cfg.allowRunOnce { return Refused(RunOnceUnqualified); }
      if !io.lockFree { return Refused(Unavailable); }
      if Request(op.id) in volume.seen {
        match StateOf(volume.seen, op) {
          case Projected(state) => return Receipt(state);
          case Unprojectable => return Refused(JournalFault);
        }
      }
      if Result(op.id) in volume.seen { return Refused(JournalFault); }
      if Marker in volume.seen {
        return Refused(if Look(volume.seen, Marker).Found? then QueueBusy else JournalFault);
      }
      var settled := PriorWorkFullySettled(volume.seen);
      if !settled { return Refused(JournalFault); }
      // The marker first: an interrupted create then blocks new work instead of orphaning it.
      var first := Create(Marker, Accepted(op, now), io.first);
      if !first.Goes? { return Cut(first); }
      var second := Create(Request(op.id), Accepted(op, now), io.second);
      if !second.Goes? { return Cut(second); }
      return Receipt(ReceiptAccepted);
    }

    /** The receipt for an id; reading never changes the journal. */
    method ReadReceipt(id: Id, lockFree: bool) returns (reply: Reply)
      ensures reply == if lockFree then ReceiptOf(volume.seen, id) else Refused(Unavailable)
    {
      if !lockFree { return Refused(Unavailable); }
      var record := Look(volume.seen, Request(id));
      if record.Missing? { return Refused(MissingReceipt); }
      if record.Unreadable? || !record.rec.Accepted? { return Refused(JournalFault); }
      match StateOf(volume.seen, record.rec.op) {
        case Projected(state) => return Receipt(state);
        case Unprojectable => return Refused(JournalFault);
      }
    }

    /** One-way durable transition to `processing`; never repeated. */
    method ClaimForWorker(io: Io) returns (reply: ClaimReply)
      modifies this
      ensures (volume, reply) == Claim(old(volume), cfg, io)
    {
      if !cfg.enabled { return Denied(Refused(QueueDisabled)); }
      if !io.lockFree { return Denied(Refused(Unavailable)); }
      var marker := Look(volume.seen, Marker);
      if marker.Missing? { return Denied(Refused(MissingReceipt)); }
      if marker.Unreadable? || !marker.rec.Accepted? { return Denied(Refused(JournalFault)); }
      var op := marker.rec.op;
      if Look(volume.seen, Request(op.id)) != marker { return Denied(Refused(JournalFault)); }
      if Processing(op.id) in volume.seen || Result(op.id) in volume.seen { return Denied(Refused(JournalFault)); }
      var p := Create(Processing(op.id), Claimed(op), io.first);
      if !p.Goes? { return Denied(Cut(p)); }
      return Granted(op);
    }

    /** Record the worker's verdict and, unless it is unknown, give up the slot. */
    method SettleOperation(op: Operation, verdict: Verdict, io: Io) returns (reply: Reply)
      modifies this
      ensures (volume, reply) == Settle(old(volume), cfg, op, verdict, io)
    {
      if !cfg.enabled { return Refused(QueueDisabled); }
      if !ValidVerdict(verdict, op) { return Refused(AdmissionUnverifiable); }
      if !io.lockFree { return Refused(Unavailable); }
      var marker := Look(volume.seen, Marker);
      if !marker.Found? || !Identifies(marker.rec, op) { return Refused(JournalFault); }
      if Look(volume.seen, Processing(op.id)) != Found(Claimed(op)) { return Refused(JournalFault); }
      if Result(op.id) in volume.seen { return Refused(JournalFault); }
      var stored := Create(Result(op.id), Settled(op, verdict), io.first);
      if !stored.Goes? { return Cut(stored); }
      if verdict.Indeterminate? { return Receipt(ReceiptIndeterminate); }
      var removed := RemoveMarker(io.cleanup);
      if removed.Dies? { return Ended; }
      if removed.Raises? { return Refused(JournalFault); }
      return Receipt(ReceiptFor(verdict));
    }

    method ReleaseSlot(io: Io) returns (reply: Reply)
      modifies this
      ensures (volume, reply) == Release(old(volume), io)
    {
      var settled := PriorWorkFullySettled(volume.seen);
      if !settled { return Refused(JournalFault); }
      if Marker !in volume.seen { return Receipt(ReceiptIndeterminate); }
      var p := RemoveMarker(io.cleanup);
      if p.Dies? { return Ended; }
      if p.Raises? { return Refused(JournalFault); }
      settled := PriorWorkFullySettled(volume.seen);
      if !settled { return Refused(JournalFault); }
      return Receipt(ReceiptIndeterminate);
    }

    /** Acknowledge an unknown outcome without replay; no effect is ever issued here. */
    method ManuallyReconcileUnknown(id: Id, d: Decision, now: nat, io: Io) returns (reply: Reply)
      modifies this
      ensures (volume, reply) == Reconcile(old(volume), id, d, now, io)
    {
      if !d.approved { return Refused(JournalFault); }
      if !io.lockFree { return Refused(Unavailable); }
      var record := Look(volume.seen, Request(id));
      if !record.Found? || !record.rec.Accepted? || record.rec.op.id != id { return Refused(JournalFault); }
      var op := record.rec.op;
      if !Reconcilable(volume.seen, op, d) { return Refused(JournalFault); }
      if Proof(id) in volume.seen {
        if !SameDecision(volume.seen, op, d) { return Refused(JournalFault); }
      } else {
        if Look(volume.seen, Marker) != record { return Refused(JournalFault); }
        if DigestOf(volume.seen, Marker) != DigestOf(volume.seen, Request(id)) { return Refused(JournalFault); }
        var digests := Look(volume.seen, Evidence(id)).rec.digests;
        var p := Create(Proof(id), Acknowledged(op, d.approval, d.boot, now, d.evidence, digests), io.first);
        if !p.Goes? { return Cut(p); }
      }
      reply := ReleaseSlot(io);
    }
  }
}
