/**
 A private directory of write-once JSON records, as the operator queue and the
 operation broker both use it.

 Every directory has two views: what a running process sees, and what is known to
 be on stable storage.  A record is created exclusively, written, and then made
 durable by two fsync calls; any of these steps may fail or be the last thing the
 process does.
 */
module Journal {

  type Id = nat

  datatype Action = Pause | Resume | RunOnce

  datatype Operation = Operation(id: Id, service: nat, action: Action)

  /** The three outcomes a settled request may carry. */
  datatype Verdict =
    | Completed
    | Indeterminate
    | JobAccepted(path: nat, boot: nat)

  /** The exact bytes a human decision was taken on. */
  datatype Digests = Digests(request: File, processing: File, result: File, active: File)

  datatype Record =
    | Accepted(op: Operation, queuedAt: nat)
    | Claimed(op: Operation)
    | Settled(op: Operation, verdict: Verdict)
    | Attested(op: Operation, approval: nat, boot: nat, digests: Digests)
    | Acknowledged(op: Operation, approval: nat, boot: nat, approvedAt: nat, evidence: File, digests: Digests)
    | Started(op: Operation, startedAt: nat, monotonic: nat, boot: nat)

  /**
   The bytes of one file; equality of values is equality of bytes.  A record is
   written with a final newline.  A write cut just before that newline still parses
   as JSON although its bytes differ; any shorter prefix does not parse.
   `Torn(0)` is the empty file.
   */
  datatype File =
    | Complete(rec: Record)
    | Unterminated(rec: Record)
    | Torn(junk: nat)

  /** `Marker` is active.json in the queue and pending.json in the broker. */
  datatype Name =
    | Marker
    | Request(id: Id)
    | Processing(id: Id)
    | Result(id: Id)
    | Evidence(id: Id)
    | Proof(id: Id)

  type Listing = map<Name, File>

  datatype Volume = Volume(seen: Listing, durable: Listing)

  const EmptyVolume := Volume(map[], map[])

  datatype Lookup = Missing | Unreadable | Found(rec: Record)

  function Look(seen: Listing, n: Name): Lookup {
    if n !in seen then Missing
    else match seen[n]
      case Complete(rec) => Found(rec)
      case Unterminated(rec) => Found(rec)
      case Torn(_) => Unreadable
  }

  datatype Fingerprint = NoFingerprint | Fingerprint(of: File)

  /** Hashing reads raw bytes and refuses only a missing or empty file. */
  function DigestOf(seen: Listing, n: Name): Fingerprint {
    if n !in seen || seen[n] == Torn(0) then NoFingerprint else Fingerprint(seen[n])
  }

  /** What a create that did not finish leaves under the reserved name. */
  datatype Residue = Absent | Partial(junk: nat) | AllButNewline | AllBytes

  /** Fate of an exclusive create: finished and synced, failed with an exception, or cut by the end of the process. */
  datatype StoreFate = Stored | StoreRaises(left: Residue) | StoreDies(left: Residue)

  /** Fate of an unlink followed by the directory fsync. */
  datatype UnlinkFate = Unlinked | UnlinkRaises(gone: bool) | UnlinkDies(gone: bool)

  datatype Progress = Goes | Raises | Dies

  function Leave(seen: Listing, n: Name, r: Record, left: Residue): Listing {
    match left
    case Absent => seen
    case Partial(junk) => seen[n := Torn(junk)]
    case AllButNewline => seen[n := Unterminated(r)]
    case AllBytes => seen[n := Complete(r)]
  }

  function StoreNew(v: Volume, n: Name, r: Record, fate: StoreFate): (Volume, Progress) {
    if n in v.seen then
      (v, if fate.StoreDies? then Dies else Raises)
    else
      match fate
      case Stored => (Volume(v.seen[n := Complete(r)], v.durable[n := Complete(r)]), Goes)
      case StoreRaises(left) => (v.(seen := Leave(v.seen, n, r, left)), Raises)
      case StoreDies(left) => (v.(seen := Leave(v.seen, n, r, left)), Dies)
  }

  function Unlink(v: Volume, n: Name, fate: UnlinkFate): (Volume, Progress) {
    if n !in v.seen then
      (v, if fate.UnlinkDies? then Dies else Raises)
    else
      match fate
      case Unlinked => (Volume(v.seen - {n}, v.durable - {n}), Goes)
      case UnlinkRaises(gone) => (if gone then v.(seen := v.seen - {n}) else v, Raises)
      case UnlinkDies(gone) => (if gone then v.(seen := v.seen - {n}) else v, Dies)
  }

  /** The entry is on stable storage exactly as a running process sees it. */
  predicate Stable(v: Volume, n: Name) {
    n in v.seen && n in v.durable && v.seen[n] == v.durable[n]
  }

  predicate Holds(v: Volume, n: Name, r: Record) {
    Stable(v, n) && v.seen[n] == Complete(r)
  }

  /**
   A power failure.  An entry that was synced survives; any other entry comes back in
   either view, unreadable, or not at all.
   */
  ghost predicate LosesTo(v: Volume, w: Volume) {
    && w.seen == w.durable
    && (forall n :: n !in w.seen ==> !Stable(v, n))
    && forall n :: n in w.seen ==>
         || (n in v.seen && w.seen[n] == v.seen[n])
         || (n in v.durable && w.seen[n] == v.durable[n])
         || (n in v.seen && !Stable(v, n) && w.seen[n].Torn?)
  }

  /** No record other than the marker changed or disappeared from view. */
  ghost predicate KeepsRecords(v: Volume, w: Volume) {
    forall n :: n != Marker && n in v.seen ==> n in w.seen && w.seen[n] == v.seen[n]
  }

  /** Records are write-once: only the marker may ever be rewritten, and a synced record stays synced. */
  ghost predicate WriteOnce(v: Volume, w: Volume) {
    && KeepsRecords(v, w)
    && forall n :: n != Marker && n in v.durable ==> n in w.durable && w.durable[n] == v.durable[n]
  }

  /** A record that reached stable storage is still in view. */
  ghost predicate DurableIsSeen(v: Volume) {
    forall n :: n != Marker && n in v.durable ==> Stable(v, n)
  }

  /** A create, whatever its fate, keeps every earlier record; when it returns, the new one is durable. */
  lemma StoreIsWriteOnce(v: Volume, n: Name, r: Record, fate: StoreFate)
    requires DurableIsSeen(v)
    ensures
      var (w, p) := StoreNew(v, n, r, fate);
      && WriteOnce(v, w)
      && DurableIsSeen(w)
      && (p.Goes? ==> Holds(w, n, r) && n !in v.seen)
      && (forall m :: m != n ==> (m in w.seen <==> m in v.seen) && (m in w.durable <==> m in v.durable))
      && (forall m :: m != n && Stable(v, m) ==> Stable(w, m) && w.seen[m] == v.seen[m])
  {
  }

  lemma UnlinkIsWriteOnce(v: Volume, fate: UnlinkFate)
    requires DurableIsSeen(v)
    ensures
      var w := Unlink(v, Marker, fate).0;
      && WriteOnce(v, w)
      && DurableIsSeen(w)
      && (forall m :: m != Marker ==> (m in w.seen <==> m in v.seen) && (m in w.durable <==> m in v.durable))
      && (forall m :: m != Marker && Stable(v, m) ==> Stable(w, m) && w.seen[m] == v.seen[m])
  {
  }

  lemma WriteOnceTransitive(u: Volume, v: Volume, w: Volume)
    requires WriteOnce(u, v) && WriteOnce(v, w)
    ensures WriteOnce(u, w)
  {
  }

  /** Apart from `n`, what was synced stays so and nothing new comes into view. */
  ghost predicate SameExcept(v: Volume, w: Volume, n: Name) {
    && (forall m :: m != n && Stable(v, m) ==> Stable(w, m) && w.seen[m] == v.seen[m])
    && (forall m :: m != n && m in w.seen ==> m in v.seen && w.seen[m] == v.seen[m])
    && (n != Marker ==> Stable(w, Marker) == Stable(v, Marker))
    && (n != Marker && Marker in w.durable ==> Marker in v.durable && w.durable[Marker] == v.durable[Marker])
  }

  /** A create leaves at most one new entry, a trace of its record; other markers stay on stable storage. */
  lemma StoreAdds(v: Volume, n: Name, r: Record, fate: StoreFate)
    requires DurableIsSeen(v)
    ensures
      var (w, p) := StoreNew(v, n, r, fate);
      && DurableIsSeen(w)
      && (w != v ==>
        && n !in v.seen
        && SameExcept(v, w, n)
        && (n in w.seen ==> w.seen[n].Torn? || w.seen[n].rec == r)
        && (n in w.durable ==> Holds(w, n, r) || (n in v.durable && w.durable[n] == v.durable[n])))
      && (p.Goes? ==> w != v && Holds(w, n, r))
  {
  }

  /** The hardest loss: everything that was not synced is gone. */
  lemma DurableViewIsLoss(v: Volume)
    ensures LosesTo(v, Volume(v.durable, v.durable))
  {
  }
}
