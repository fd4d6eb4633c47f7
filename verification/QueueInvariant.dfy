/**
 What the queue's journal satisfies at every crash point, and that every create,
 every unlink, every granted claim and every power loss keeps it.

 `ops` is the history of the operations the worker was allowed to execute, and
 `closed` says which of them are over: settled with a durable outcome, or
 acknowledged by a human who saw that the outcome is unknown.
 */
module QueueInvariant {
  import opened Journal
  import opened QueueRules

  datatype Closing = BySettlement | ByHuman

  type History = map<Id, Operation>

  /** The active marker durably names some operation. */
  predicate SlotTaken(q: Volume) {
    Stable(q, Marker) && q.seen[Marker].Complete? && q.seen[Marker].rec.Accepted?
  }

  predicate InSlot(q: Volume, op: Operation) {
    SlotTaken(q) && q.seen[Marker].rec.op == op
  }

  predicate SlotId(q: Volume, id: Id) {
    SlotTaken(q) && q.seen[Marker].rec.op.id == id
  }

  predicate Fits(n: Name, rec: Record) {
    match n
    case Marker => rec.Accepted?
    case Request(id) => rec.Accepted? && rec.op.id == id
    case Processing(id) => rec.Claimed? && rec.op.id == id
    case Result(id) => rec.Settled? && rec.op.id == id && ValidVerdict(rec.verdict, rec.op)
    case Evidence(id) => rec.Attested? && rec.op.id == id
    case Proof(id) => rec.Acknowledged? && rec.op.id == id
  }

  /** A record under an executed id is about the operation that was executed. */
  predicate Owned(n: Name, f: File, ops: History) {
    f.Torn? || (Fits(n, f.rec) && (f.rec.op.id in ops ==> f.rec.op == ops[f.rec.op.id]))
  }

  /** These records exist only for operations that were executed. */
  predicate Late(n: Name) {
    n.Result? || n.Evidence? || n.Proof?
  }

  predicate Known(q: Volume, ops: History, n: Name)
    requires n != Marker
  {
    n.id in ops || (SlotId(q, n.id) && !Late(n))
  }

  ghost predicate EachClaimed(q: Volume, ops: History) {
    forall id :: id in ops ==> ops[id].id == id && Holds(q, Processing(id), Claimed(ops[id]))
  }

  ghost predicate EachClosedOrInSlot(q: Volume, ops: History, closed: map<Id, Closing>) {
    forall id :: id in ops ==> id in closed || InSlot(q, ops[id])
  }

  ghost predicate NamesKnown(q: Volume, ops: History) {
    forall n :: n != Marker && n in q.seen ==> Known(q, ops, n)
  }

  ghost predicate RecordsOwned(q: Volume, ops: History) {
    && (forall n :: n in q.seen ==> Owned(n, q.seen[n], ops))
    && (Marker in q.durable ==> Owned(Marker, q.durable[Marker], ops))
  }

  /** A marker left on stable storage after the slot was given up names a closed request. */
  predicate StaleMarkerClosed(q: Volume, closed: map<Id, Closing>) {
    Marker in q.durable && !Stable(q, Marker) && !q.durable[Marker].Torn? ==>
      q.durable[Marker].rec.op.id in closed
  }

  /** A durable outcome other than `indeterminate`. */
  predicate DurableOutcome(q: Volume, id: Id) {
    && Stable(q, Result(id))
    && q.seen[Result(id)].Complete?
    && q.seen[Result(id)].rec.Settled?
    && !q.seen[Result(id)].rec.verdict.Indeterminate?
  }

  ghost predicate SettlementsDurable(q: Volume, closed: map<Id, Closing>) {
    forall id :: id in closed && closed[id] == BySettlement ==> DurableOutcome(q, id)
  }

  ghost predicate Core(q: Volume, ops: History, closed: map<Id, Closing>) {
    && DurableIsSeen(q)
    && closed.Keys <= ops.Keys
    && EachClaimed(q, ops)
    && EachClosedOrInSlot(q, ops, closed)
    && NamesKnown(q, ops)
    && RecordsOwned(q, ops)
    && StaleMarkerClosed(q, closed)
    && SettlementsDurable(q, closed)
  }

  /* ---- how a single create or unlink keeps it ---- */

  lemma StoreRecordKeepsCore(q: Volume, ops: History, closed: map<Id, Closing>, n: Name, r: Record, fate: StoreFate)
    requires Core(q, ops, closed)
    requires n != Marker && Known(q, ops, n)
    requires Owned(n, Complete(r), ops)
    ensures Core(StoreNew(q, n, r, fate).0, ops, closed)
  {
    StoreAdds(q, n, r, fate);
    AddedRecordKeepsCore(q, StoreNew(q, n, r, fate).0, ops, closed, n);
  }

  lemma AddedRecordKeepsCore(q: Volume, w: Volume, ops: History, closed: map<Id, Closing>, n: Name)
    requires Core(q, ops, closed)
    requires n != Marker && Known(q, ops, n)
    requires w == q || (SameExcept(q, w, n) && n !in q.seen)
    requires DurableIsSeen(w)
    requires n in w.seen && w != q ==> Owned(n, w.seen[n], ops)
    ensures Core(w, ops, closed)
  {
    if w != q {
      AddedRecordKeepsNames(q, w, ops, n);
      AddedRecordKeepsSlots(q, w, ops, closed, n);
    }
  }

  lemma AddedRecordKeepsNames(q: Volume, w: Volume, ops: History, n: Name)
    requires NamesKnown(q, ops) && RecordsOwned(q, ops)
    requires n != Marker && Known(q, ops, n) && SameExcept(q, w, n) && n !in q.seen
    requires n in w.seen ==> Owned(n, w.seen[n], ops)
    ensures NamesKnown(w, ops) && RecordsOwned(w, ops)
  {
    assert forall m :: m in w.seen ==> m == n || (m in q.seen && w.seen[m] == q.seen[m]);
  }

  lemma AddedRecordKeepsSlots(q: Volume, w: Volume, ops: History, closed: map<Id, Closing>, n: Name)
    requires EachClaimed(q, ops) && EachClosedOrInSlot(q, ops, closed)
    requires StaleMarkerClosed(q, closed) && SettlementsDurable(q, closed)
    requires n != Marker && SameExcept(q, w, n) && n !in q.seen && DurableIsSeen(q)
    ensures EachClaimed(w, ops) && EachClosedOrInSlot(w, ops, closed)
    ensures StaleMarkerClosed(w, closed) && SettlementsDurable(w, closed)
  {
  }

  lemma StoreMarkerKeepsCore(q: Volume, ops: History, closed: map<Id, Closing>, op: Operation, now: nat, fate: StoreFate)
    requires Core(q, ops, closed)
    requires op.id !in ops
    ensures Core(StoreNew(q, Marker, Accepted(op, now), fate).0, ops, closed)
  {
    StoreAdds(q, Marker, Accepted(op, now), fate);
    AddedMarkerKeepsCore(q, StoreNew(q, Marker, Accepted(op, now), fate).0, ops, closed, Accepted(op, now));
  }

  lemma AddedMarkerKeepsCore(q: Volume, w: Volume, ops: History, closed: map<Id, Closing>, r: Record)
    requires Core(q, ops, closed)
    requires w == q || (SameExcept(q, w, Marker) && Marker !in q.seen)
    requires DurableIsSeen(w)
    requires r.Accepted? && r.op.id !in ops
    requires Marker in w.seen && w != q ==> w.seen[Marker].Torn? || w.seen[Marker].rec == r
    requires Marker in w.durable && w != q ==>
      Holds(w, Marker, r) || (Marker in q.durable && w.durable[Marker] == q.durable[Marker])
    ensures Core(w, ops, closed)
  {
    if w != q {
      AddedMarkerKeepsNames(q, w, ops, r);
      AddedMarkerKeepsSlots(q, w, ops, closed, r);
    }
  }

  lemma AddedMarkerKeepsNames(q: Volume, w: Volume, ops: History, r: Record)
    requires NamesKnown(q, ops) && RecordsOwned(q, ops) && DurableIsSeen(q)
    requires SameExcept(q, w, Marker) && Marker !in q.seen
    requires r.Accepted? && r.op.id !in ops
    requires Marker in w.seen ==> w.seen[Marker].Torn? || w.seen[Marker].rec == r
    requires Marker in w.durable ==> Holds(w, Marker, r) || (Marker in q.durable && w.durable[Marker] == q.durable[Marker])
    ensures NamesKnown(w, ops) && RecordsOwned(w, ops)
  {
    assert forall m :: m in w.seen ==> m == Marker || (m in q.seen && w.seen[m] == q.seen[m]);
  }

  lemma AddedMarkerKeepsSlots(q: Volume, w: Volume, ops: History, closed: map<Id, Closing>, r: Record)
    requires EachClaimed(q, ops) && EachClosedOrInSlot(q, ops, closed) && DurableIsSeen(w)
    requires StaleMarkerClosed(q, closed) && SettlementsDurable(q, closed)
    requires SameExcept(q, w, Marker) && Marker !in q.seen
    requires Marker in w.durable ==> Holds(w, Marker, r) || (Marker in q.durable && w.durable[Marker] == q.durable[Marker])
    ensures EachClaimed(w, ops) && EachClosedOrInSlot(w, ops, closed)
    ensures StaleMarkerClosed(w, closed) && SettlementsDurable(w, closed)
  {
  }

  /** Giving up the slot of a closed request. */
  lemma UnlinkMarkerKeepsCore(q: Volume, ops: History, closed: map<Id, Closing>, fate: UnlinkFate)
    requires Core(q, ops, closed)
    requires Look(q.seen, Marker).Found? ==> q.seen[Marker].rec.op.id in closed
    ensures Core(Unlink(q, Marker, fate).0, ops, closed)
  {
    UnlinkIsWriteOnce(q, fate);
    RemovedMarkerKeepsCore(q, Unlink(q, Marker, fate).0, ops, closed);
  }

  lemma RemovedMarkerKeepsCore(q: Volume, w: Volume, ops: History, closed: map<Id, Closing>)
    requires Core(q, ops, closed) && DurableIsSeen(w)
    requires Look(q.seen, Marker).Found? ==> q.seen[Marker].rec.op.id in closed
    requires w.seen == q.seen || w.seen == q.seen - {Marker}
    requires w.durable == q.durable || w.durable == q.durable - {Marker}
    requires forall m :: m != Marker && Stable(q, m) ==> Stable(w, m) && w.seen[m] == q.seen[m]
    ensures Core(w, ops, closed)
  {
    assert EachClosedOrInSlot(w, ops, closed);
    assert NamesKnown(w, ops);
  }

  /** Granting a claim: the slot's operation joins the history. */
  lemma GrantKeepsCore(q: Volume, ops: History, closed: map<Id, Closing>, op: Operation)
    requires Core(q, ops, closed)
    requires op.id !in ops
    requires InSlot(q, op)
    requires Holds(q, Processing(op.id), Claimed(op))
    requires Request(op.id) in q.seen && !q.seen[Request(op.id)].Torn? ==> q.seen[Request(op.id)].rec.op == op
    ensures Core(q, ops[op.id := op], closed)
  {
    forall n | n in q.seen
      ensures Owned(n, q.seen[n], ops[op.id := op])
    {
      if n != Marker && n.id == op.id {
        assert Known(q, ops, n) && !Late(n);
      }
    }
  }

  lemma CloseKeepsCore(q: Volume, ops: History, closed: map<Id, Closing>, id: Id, how: Closing)
    requires Core(q, ops, closed)
    requires id in ops
    requires how == BySettlement ==> DurableOutcome(q, id)
    ensures Core(q, ops, closed[id := how])
  {
  }

  /** Everything the invariant relies on survives a power loss. */
  lemma PowerLossKeepsCore(q: Volume, w: Volume, ops: History, closed: map<Id, Closing>)
    requires Core(q, ops, closed)
    requires LosesTo(q, w)
    ensures Core(w, ops, closed)
  {
    forall n | n in w.seen
      ensures Owned(n, w.seen[n], ops)
    {
      if n != Marker && n in q.durable { assert Stable(q, n); }
    }
    assert forall n :: Stable(q, n) ==> Stable(w, n) && w.seen[n] == q.seen[n];
  }
}
