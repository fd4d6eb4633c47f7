/**
 The rules of the durable operation queue, as functions of the journal directory.

 The queue holds one lock for the whole of each operation, so an operation is one
 section of the journal's history: it may be refused before it starts, fail at any
 create or unlink, or end there because the process ends.
 */
module QueueRules {
  import opened Journal

  /** A full journal must be archived; the lock file counts as one directory entry. */
  const MAX_AUDIT_ENTRIES := 2048

  const MAX_JOB_PATH := 10_000_000_000_000_000_000

  datatype Config = Config(enabled: bool, allowRunOnce: bool)

  /** Untrusted input either is not a well-formed fixed operation, or is one. */
  datatype Input = Malformed | Wellformed(op: Operation)

  datatype Code =
    | QueueDisabled
    | InvalidOperation
    | RunOnceUnqualified
    | Unavailable           // the lock is busy or unsafe
    | QueueBusy
    | MissingReceipt
    | JournalFault          // state invalid, recovery required, or an unsafe record
    | WriteFailed
    | AdmissionUnverifiable
    | IndeterminateEffect

  datatype ReceiptState =
    | ReceiptAccepted
    | ReceiptProcessing
    | ReceiptCompletedPending
    | ReceiptCompleted
    | ReceiptIndeterminate
    | ReceiptJobPending(path: nat, boot: nat)
    | ReceiptJob(path: nat, boot: nat)

  datatype Reply = Receipt(state: ReceiptState) | Refused(code: Code) | Ended

  /** Fates of the system calls of one section. */
  datatype Io = Io(lockFree: bool, first: StoreFate, second: StoreFate, cleanup: UnlinkFate)

  /* ---- reading records ---- */

  predicate Identifies(rec: Record, op: Operation) {
    rec.Accepted? && rec.op == op
  }

  predicate ValidJob(path: nat) {
    1 <= path < MAX_JOB_PATH
  }

  predicate ValidVerdict(verdict: Verdict, op: Operation) {
    match verdict
    case Completed => op.action != RunOnce
    case Indeterminate => true
    case JobAccepted(path, _) => op.action == RunOnce && ValidJob(path)
  }

  predicate ValidResult(rec: Record, op: Operation) {
    rec.Settled? && rec.op == op && ValidVerdict(rec.verdict, op)
  }

  predicate Unknown(rec: Record) {
    rec.Settled? && rec.verdict.Indeterminate?
  }

  /** The three immutable records a human decision quotes byte for byte. */
  predicate Quotes(seen: Listing, id: Id, d: Digests) {
    && DigestOf(seen, Request(id)) == Fingerprint(d.request)
    && DigestOf(seen, Processing(id)) == Fingerprint(d.processing)
    && DigestOf(seen, Result(id)) == Fingerprint(d.result)
    && d.active == d.request
  }

  predicate EvidenceValid(seen: Listing, op: Operation) {
    match Look(seen, Evidence(op.id))
    case Found(rec) =>
      && rec.Attested?
      && rec.op == op
      && op.action == RunOnce
      && Quotes(seen, op.id, rec.digests)
      && var outcome := Look(seen, Result(op.id)); outcome.Found? && Unknown(outcome.rec)
    case _ => false
  }

  predicate ProofValid(seen: Listing, op: Operation) {
    && EvidenceValid(seen, op)
    && match Look(seen, Proof(op.id))
       case Found(rec) =>
         && rec.Acknowledged?
         && rec.op == op
         && DigestOf(seen, Evidence(op.id)) == Fingerprint(rec.evidence)
         && var attested := Look(seen, Evidence(op.id)).rec;
            rec.approval == attested.approval && rec.boot == attested.boot && rec.digests == attested.digests
       case _ => false
  }

  /* ---- receipts ---- */

  datatype Projection = Projected(state: ReceiptState) | Unprojectable

  /** What a receipt for `op` says, or that the journal cannot support one. */
  function StateOf(seen: Listing, op: Operation): Projection {
    var record := Look(seen, Request(op.id));
    var claim := Look(seen, Processing(op.id));
    var active := Look(seen, Marker);
    var outcome := Look(seen, Result(op.id));
    if !record.Found? || !Identifies(record.rec, op) then Unprojectable
    else if !claim.Missing? && claim != Found(Claimed(op)) then Unprojectable
    else if active.Unreadable? then Unprojectable
    else if !outcome.Missing? then
      if !outcome.Found? || !ValidResult(outcome.rec, op) || claim.Missing? then Unprojectable
      else
        match outcome.rec.verdict
        case Indeterminate =>
          if active == record || ProofValid(seen, op) then Projected(ReceiptIndeterminate) else Unprojectable
        case Completed =>
          Projected(if active == record then ReceiptCompletedPending else ReceiptCompleted)
        case JobAccepted(path, boot) =>
          Projected(if active == record then ReceiptJobPending(path, boot) else ReceiptJob(path, boot))
    else if active != record then Unprojectable
    else Projected(if claim.Missing? then ReceiptAccepted else ReceiptProcessing)
  }

  /** The receipt for a bare request id. */
  function ReceiptOf(seen: Listing, id: Id): Reply {
    match Look(seen, Request(id))
    case Missing => Refused(MissingReceipt)
    case Unreadable => Refused(JournalFault)
    case Found(rec) =>
      if !rec.Accepted? then Refused(JournalFault)
      else match StateOf(seen, rec.op)
        case Projected(state) => Receipt(state)
        case Unprojectable => Refused(JournalFault)
  }

  /* ---- the full-history scan ---- */

  /** One request with its claim, its outcome and, when the outcome is unknown, a valid human acknowledgement. */
  predicate RequestSettled(seen: Listing, id: Id) {
    match (Look(seen, Request(id)), Look(seen, Result(id)))
    case (Found(Accepted(op, _)), Found(outcome)) =>
      && op.id == id
      && ValidResult(outcome, op)
      && (if Unknown(outcome) then ProofValid(seen, op) else Proof(id) !in seen)
      && Look(seen, Processing(id)) == Found(Claimed(op))
    case _ => false
  }

  ghost predicate NoOrphans(seen: Listing) {
    && (forall id :: Processing(id) in seen ==> Request(id) in seen)
    && (forall id :: Result(id) in seen ==> Request(id) in seen)
    && (forall id :: Evidence(id) in seen ==> Request(id) in seen)
    && (forall id :: Proof(id) in seen ==> Request(id) in seen)
  }

  ghost predicate HistorySettled(seen: Listing) {
    && NoOrphans(seen)
    && (forall id :: Evidence(id) in seen <==> Proof(id) in seen)
    && forall id :: Request(id) in seen ==> RequestSettled(seen, id)
  }

  /** The whole history is settled, so that a new effect may be authorised. */
  ghost predicate ScanPasses(seen: Listing) {
    && |seen| + 1 <= MAX_AUDIT_ENTRIES
    && HistorySettled(seen)
  }

  /* ---- sections ---- */

  function Cut(p: Progress): Reply {
    if p.Dies? then Ended else Refused(WriteFailed)
  }

  ghost function Submit(v: Volume, cfg: Config, raw: Input, now: nat, io: Io): (Volume, Reply) {
    if !cfg.enabled then (v, Refused(QueueDisabled))
    else if raw.Malformed? then (v, Refused(InvalidOperation))
    else if raw.op.action == RunOnce && !cfg.allowRunOnce then (v, Refused(RunOnceUnqualified))
    else if !io.lockFree then (v, Refused(Unavailable))
    else
      var op := raw.op;
      if Request(op.id) in v.seen then
        match StateOf(v.seen, op)
        case Projected(state) => (v, Receipt(state))
        case Unprojectable => (v, Refused(JournalFault))
      else if Result(op.id) in v.seen then (v, Refused(JournalFault))
      else if Marker in v.seen then
        (v, Refused(if Look(v.seen, Marker).Found? then QueueBusy else JournalFault))
      else if !ScanPasses(v.seen) then (v, Refused(JournalFault))
      else
        var (v1, p1) := StoreNew(v, Marker, Accepted(op, now), io.first);
        if !p1.Goes? then (v1, Cut(p1))
        else
          var (v2, p2) := StoreNew(v1, Request(op.id), Accepted(op, now), io.second);
          if !p2.Goes? then (v2, Cut(p2)) else (v2, Receipt(ReceiptAccepted))
  }

  datatype ClaimReply = Granted(op: Operation) | Denied(reply: Reply)

  /** The marker names an accepted request that nobody has claimed or settled. */
  predicate Claimable(seen: Listing) {
    var marker := Look(seen, Marker);
    && marker.Found?
    && marker.rec.Accepted?
    && Look(seen, Request(marker.rec.op.id)) == marker
    && Processing(marker.rec.op.id) !in seen
    && Result(marker.rec.op.id) !in seen
  }

  function Claim(v: Volume, cfg: Config, io: Io): (Volume, ClaimReply) {
    if !cfg.enabled then (v, Denied(Refused(QueueDisabled)))
    else if !io.lockFree then (v, Denied(Refused(Unavailable)))
    else if Marker !in v.seen then (v, Denied(Refused(MissingReceipt)))
    else if !Claimable(v.seen) then (v, Denied(Refused(JournalFault)))
    else
      var op := Look(v.seen, Marker).rec.op;
      var (v1, p1) := StoreNew(v, Processing(op.id), Claimed(op), io.first);
      if p1.Goes? then (v1, Granted(op)) else (v1, Denied(Cut(p1)))
  }

  /** What the executor handed back. */
  datatype Outcome =
    | Failed
    | Confirmed
    | Job(id: Id, service: nat, path: nat, boot: nat)

  /** The verdict the worker may record for what the executor returned. */
  function VerdictFor(op: Operation, out: Outcome): Verdict {
    match out
    case Failed => Indeterminate
    case Confirmed => if op.action == RunOnce then Indeterminate else Completed
    case Job(id, service, path, boot) =>
      if op.action == RunOnce && id == op.id && service == op.service && ValidJob(path)
      then JobAccepted(path, boot) else Indeterminate
  }

  predicate Settleable(seen: Listing, op: Operation) {
    var marker := Look(seen, Marker);
    && marker.Found?
    && Identifies(marker.rec, op)
    && Look(seen, Processing(op.id)) == Found(Claimed(op))
    && Result(op.id) !in seen
  }

  function ReceiptFor(verdict: Verdict): ReceiptState {
    match verdict
    case Completed => ReceiptCompleted
    case Indeterminate => ReceiptIndeterminate
    case JobAccepted(path, boot) => ReceiptJob(path, boot)
  }

  function Settle(v: Volume, cfg: Config, op: Operation, verdict: Verdict, io: Io): (Volume, Reply) {
    if !cfg.enabled then (v, Refused(QueueDisabled))
    else if !ValidVerdict(verdict, op) then (v, Refused(AdmissionUnverifiable))
    else if !io.lockFree then (v, Refused(Unavailable))
    else if !Settleable(v.seen, op) then (v, Refused(JournalFault))
    else
      var (v1, p1) := StoreNew(v, Result(op.id), Settled(op, verdict), io.first);
      if !p1.Goes? then (v1, Cut(p1))
      else if verdict.Indeterminate? then (v1, Receipt(ReceiptIndeterminate))
      else
        var (v2, p2) := Unlink(v1, Marker, io.cleanup);
        if p2.Goes? then (v2, Receipt(ReceiptFor(verdict)))
        else (v2, if p2.Dies? then Ended else Refused(JournalFault))
  }

  /* ---- manual reconciliation ---- */

  /** The root tool attests, for one indeterminate request, what it verified. */
  function Attest(v: Volume, id: Id, approval: nat, boot: nat, io: Io): (Volume, Reply) {
    var record := Look(v.seen, Request(id));
    var active := Look(v.seen, Marker);
    if !io.lockFree then (v, Refused(Unavailable))
    else if !record.Found? || !record.rec.Accepted? || record.rec.op.id != id || record.rec.op.action != RunOnce
    then (v, Refused(JournalFault))
    else
      var op := record.rec.op;
      if Look(v.seen, Processing(id)) != Found(Claimed(op))
         || Look(v.seen, Result(id)) != Found(Settled(op, Indeterminate))
         || active.Unreadable?
         || (active != record && !ProofValid(v.seen, op))
         || Evidence(id) in v.seen
         || DigestOf(v.seen, Marker).NoFingerprint?
      then (v, Refused(JournalFault))
      else
        var digests := Digests(v.seen[Request(id)], v.seen[Processing(id)], v.seen[Result(id)], v.seen[Marker]);
        var (v1, p1) := StoreNew(v, Evidence(id), Attested(op, approval, boot, digests), io.first);
        if p1.Goes? then (v1, Receipt(ReceiptIndeterminate)) else (v1, Cut(p1))
  }

  datatype Decision = Decision(approved: bool, approval: nat, evidence: File, boot: nat)

  /** The journal supports acknowledging `op` on the evidence the human approved. */
  predicate Reconcilable(seen: Listing, op: Operation, d: Decision) {
    && op.action == RunOnce
    && Look(seen, Request(op.id)).Found?
    && Identifies(Look(seen, Request(op.id)).rec, op)
    && Look(seen, Processing(op.id)) == Found(Claimed(op))
    && Look(seen, Result(op.id)) == Found(Settled(op, Indeterminate))
    && (Marker in seen ==> Look(seen, Marker) == Look(seen, Request(op.id)))
    && EvidenceValid(seen, op)
    && var attested := Look(seen, Evidence(op.id)).rec;
       && attested.approval == d.approval
       && attested.boot == d.boot
       && DigestOf(seen, Evidence(op.id)) == Fingerprint(d.evidence)
  }

  /** An existing acknowledgement must be the one the same human decision produced. */
  predicate SameDecision(seen: Listing, op: Operation, d: Decision) {
    && ProofValid(seen, op)
    && var proof := Look(seen, Proof(op.id)).rec;
       proof.approval == d.approval && proof.boot == d.boot && proof.evidence == d.evidence
  }

  /** Remove the marker of an acknowledged request, re-reading the whole history on both sides. */
  ghost function Release(v: Volume, io: Io): (Volume, Reply) {
    if !ScanPasses(v.seen) then (v, Refused(JournalFault))
    else if Marker !in v.seen then (v, Receipt(ReceiptIndeterminate))
    else
      var (v1, p1) := Unlink(v, Marker, io.cleanup);
      if !p1.Goes? then (v1, if p1.Dies? then Ended else Refused(JournalFault))
      else if !ScanPasses(v1.seen) then (v1, Refused(JournalFault))
      else (v1, Receipt(ReceiptIndeterminate))
  }

  ghost function Reconcile(v: Volume, id: Id, d: Decision, now: nat, io: Io): (Volume, Reply) {
    var record := Look(v.seen, Request(id));
    if !d.approved then (v, Refused(JournalFault))
    else if !io.lockFree then (v, Refused(Unavailable))
    else if !record.Found? || !record.rec.Accepted? || record.rec.op.id != id then (v, Refused(JournalFault))
    else
      var op := record.rec.op;
      if !Reconcilable(v.seen, op, d) then (v, Refused(JournalFault))
      else if Proof(id) in v.seen then
        if SameDecision(v.seen, op, d) then Release(v, io) else (v, Refused(JournalFault))
      else if Look(v.seen, Marker) != record || DigestOf(v.seen, Marker) != DigestOf(v.seen, Request(id)) then
        (v, Refused(JournalFault))
      else
        var digests := Look(v.seen, Evidence(id)).rec.digests;
        var (v1, p1) := StoreNew(v, Proof(id), Acknowledged(op, d.approval, d.boot, now, d.evidence, digests), io.first);
        if p1.Goes? then Release(v1, io) else (v1, Cut(p1))
  }

  /** The only record a release can touch is the marker. */
  lemma ReleaseTouchesMarker(v: Volume, io: Io)
    ensures
      var w := Release(v, io).0;
      w == v || (ScanPasses(v.seen) && Marker in v.seen && w == Unlink(v, Marker, io.cleanup).0)
  {
  }
}
