/**
 Every queue operation, from every journal the invariant allows and with every
 failure, leaves a journal the invariant allows.
 */
module QueueSections {
  import opened Journal
  import opened QueueRules
  import opened QueueInvariant

  /** The operation the worker holds was executed, is still open and has no outcome in view. */
  predicate HeldOpen(q: Volume, ops: History, closed: map<Id, Closing>, op: Operation) {
    && op.id in ops
    && ops[op.id] == op
    && op.id !in closed
    && Result(op.id) !in q.seen
  }

  /** The scan refuses a history in which an executed request lost its request record. */
  lemma ScannedIdIsNew(q: Volume, ops: History, closed: map<Id, Closing>, id: Id)
    requires Core(q, ops, closed)
    requires ScanPasses(q.seen)
    requires Request(id) !in q.seen
    ensures id !in ops
  {
    assert id in ops ==> Processing(id) in q.seen;
  }

  lemma SubmitKeepsCore(
      q: Volume, ops: History, closed: map<Id, Closing>, cfg: Config, raw: Input, now: nat, io: Io)
    requires Core(q, ops, closed)
    ensures
      var w := Submit(q, cfg, raw, now, io).0;
      && Core(w, ops, closed)
      && WriteOnce(q, w)
      && (forall id :: id in ops ==> (Result(id) in w.seen <==> Result(id) in q.seen))
  {
    var w := Submit(q, cfg, raw, now, io).0;
    if w != q {
      var op := raw.op;
      ScannedIdIsNew(q, ops, closed, op.id);
      StoreMarkerKeepsCore(q, ops, closed, op, now, io.first);
      StoreIsWriteOnce(q, Marker, Accepted(op, now), io.first);
      var (v1, p1) := StoreNew(q, Marker, Accepted(op, now), io.first);
      if p1.Goes? {
        StoreRecordKeepsCore(v1, ops, closed, Request(op.id), Accepted(op, now), io.second);
        StoreIsWriteOnce(v1, Request(op.id), Accepted(op, now), io.second);
        WriteOnceTransitive(q, v1, w);
      }
    }
  }

  /** A claim is granted only for an operation never executed before, while every executed one is closed. */
  lemma ClaimKeepsCore(q: Volume, ops: History, closed: map<Id, Closing>, cfg: Config, io: Io)
    requires Core(q, ops, closed)
    ensures
      var (w, reply) := Claim(q, cfg, io);
      && WriteOnce(q, w)
      && match reply
         case Denied(_) => Core(w, ops, closed)
         case Granted(op) =>
           && op.id !in ops
           && ops.Keys <= closed.Keys
           && Core(w, ops[op.id := op], closed)
           && HeldOpen(w, ops[op.id := op], closed, op)
           && Look(w.seen, Request(op.id)).Found?
           && Identifies(Look(w.seen, Request(op.id)).rec, op)
  {
    var (w, reply) := Claim(q, cfg, io);
    if cfg.enabled && io.lockFree && Marker in q.seen && Claimable(q.seen) {
      var op := Look(q.seen, Marker).rec.op;
      assert op.id in ops ==> Processing(op.id) in q.seen;
      assert Known(q, ops, Request(op.id));
      assert InSlot(q, op);
      StoreRecordKeepsCore(q, ops, closed, Processing(op.id), Claimed(op), io.first);
      StoreIsWriteOnce(q, Processing(op.id), Claimed(op), io.first);
      if reply.Granted? {
        GrantKeepsCore(w, ops, closed, op);
      }
    }
  }

  function CloseAfter(w: Volume, closed: map<Id, Closing>, id: Id): map<Id, Closing> {
    if DurableOutcome(w, id) then closed[id := BySettlement] else closed
  }

  lemma SettleKeepsCore(
      q: Volume, ops: History, closed: map<Id, Closing>, cfg: Config, op: Operation, verdict: Verdict, io: Io)
    requires Core(q, ops, closed)
    requires HeldOpen(q, ops, closed, op)
    ensures
      var w := Settle(q, cfg, op, verdict, io).0;
      && Core(w, ops, CloseAfter(w, closed, op.id))
      && WriteOnce(q, w)
  {
    var w := Settle(q, cfg, op, verdict, io).0;
    if w != q {
      var r := Settled(op, verdict);
      StoreRecordKeepsCore(q, ops, closed, Result(op.id), r, io.first);
      StoreIsWriteOnce(q, Result(op.id), r, io.first);
      var (v1, p1) := StoreNew(q, Result(op.id), r, io.first);
      if p1.Goes? && !verdict.Indeterminate? {
        assert DurableOutcome(v1, op.id) && w == Unlink(v1, Marker, io.cleanup).0;
        CleanupKeepsCore(v1, ops, closed, op.id, io.cleanup);
        WriteOnceTransitive(q, v1, w);
      } else {
        assert w == v1;
        CloseIfDurable(w, ops, closed, op.id);
      }
    }
  }

  lemma CloseIfDurable(w: Volume, ops: History, closed: map<Id, Closing>, id: Id)
    requires Core(w, ops, closed) && id in ops
    ensures Core(w, ops, CloseAfter(w, closed, id))
  {
    if DurableOutcome(w, id) { CloseKeepsCore(w, ops, closed, id, BySettlement); }
  }

  lemma CleanupKeepsCore(v: Volume, ops: History, closed: map<Id, Closing>, id: Id, cleanup: UnlinkFate)
    requires Core(v, ops, closed) && id in ops
    requires DurableOutcome(v, id)
    requires Look(v.seen, Marker).Found? ==> v.seen[Marker].rec.op.id == id
    ensures
      var w := Unlink(v, Marker, cleanup).0;
      Core(w, ops, CloseAfter(w, closed, id)) && WriteOnce(v, w)
  {
    CloseKeepsCore(v, ops, closed, id, BySettlement);
    UnlinkMarkerKeepsCore(v, ops, closed[id := BySettlement], cleanup);
    UnlinkIsWriteOnce(v, cleanup);
  }

  lemma AttestKeepsCore(q: Volume, ops: History, closed: map<Id, Closing>, id: Id, approval: nat, boot: nat, io: Io)
    requires Core(q, ops, closed)
    ensures
      var w := Attest(q, id, approval, boot, io).0;
      && Core(w, ops, closed)
      && WriteOnce(q, w)
      && (forall i :: Result(i) in w.seen <==> Result(i) in q.seen)
  {
    var w := Attest(q, id, approval, boot, io).0;
    if w != q {
      var op := Look(q.seen, Request(id)).rec.op;
      assert Known(q, ops, Result(id));
      assert Owned(Request(id), q.seen[Request(id)], ops);
      var digests := Digests(q.seen[Request(id)], q.seen[Processing(id)], q.seen[Result(id)], q.seen[Marker]);
      StoreRecordKeepsCore(q, ops, closed, Evidence(id), Attested(op, approval, boot, digests), io.first);
      StoreIsWriteOnce(q, Evidence(id), Attested(op, approval, boot, digests), io.first);
    }
  }

  function ReleaseAfter(q: Volume, w: Volume, closed: map<Id, Closing>, id: Id): map<Id, Closing> {
    if Marker in q.seen && Marker !in w.seen then closed[id := ByHuman] else closed
  }

  lemma ReleaseKeepsCore(q: Volume, ops: History, closed: map<Id, Closing>, id: Id, io: Io)
    requires Core(q, ops, closed)
    requires id in ops
    requires Marker in q.seen ==> Look(q.seen, Marker).Found? && q.seen[Marker].rec.op.id == id
    ensures
      var w := Release(q, io).0;
      && Core(w, ops, ReleaseAfter(q, w, closed, id))
      && WriteOnce(q, w)
      && (forall n :: n != Marker ==> (n in w.seen <==> n in q.seen))
  {
    ReleaseTouchesMarker(q, io);
    var w := Release(q, io).0;
    if w != q {
      MarkerReleaseKeepsCore(q, w, ops, closed, id, io.cleanup);
    }
  }

  lemma MarkerReleaseKeepsCore(
      q: Volume, w: Volume, ops: History, closed: map<Id, Closing>, id: Id, fate: UnlinkFate)
    requires Core(q, ops, closed)
    requires id in ops
    requires Look(q.seen, Marker).Found? && q.seen[Marker].rec.op.id == id
    requires w == Unlink(q, Marker, fate).0
    ensures Core(w, ops, ReleaseAfter(q, w, closed, id))
    ensures WriteOnce(q, w)
    ensures forall n :: n != Marker ==> (n in w.seen <==> n in q.seen)
  {
    UnlinkIsWriteOnce(q, fate);
    if Marker !in w.seen {
      CloseKeepsCore(q, ops, closed, id, ByHuman);
      UnlinkMarkerKeepsCore(q, ops, closed[id := ByHuman], fate);
    }
  }

  lemma ReconcileKeepsCore(q: Volume, ops: History, closed: map<Id, Closing>, id: Id, d: Decision, now: nat, io: Io)
    requires Core(q, ops, closed)
    ensures
      var w := Reconcile(q, id, d, now, io).0;
      && Core(w, ops, ReleaseAfter(q, w, closed, id))
      && WriteOnce(q, w)
      && (forall i :: Result(i) in w.seen <==> Result(i) in q.seen)
  {
    var w := Reconcile(q, id, d, now, io).0;
    if w != q {
      var op := Look(q.seen, Request(id)).rec.op;
      assert Reconcilable(q.seen, op, d);
      assert Known(q, ops, Result(id));
      assert Owned(Request(id), q.seen[Request(id)], ops);
      if Proof(id) in q.seen {
        ReleaseKeepsCore(q, ops, closed, id, io);
      } else {
        var r := Acknowledged(op, d.approval, d.boot, now, d.evidence, Look(q.seen, Evidence(id)).rec.digests);
        AcknowledgeKeepsCore(q, ops, closed, id, r, io);
      }
    }
  }

  lemma AcknowledgeKeepsCore(q: Volume, ops: History, closed: map<Id, Closing>, id: Id, r: Record, io: Io)
    requires Core(q, ops, closed)
    requires id in ops
    requires Marker in q.seen ==> Look(q.seen, Marker).Found? && q.seen[Marker].rec.op.id == id
    requires Owned(Proof(id), Complete(r), ops)
    ensures
      var (v1, p1) := StoreNew(q, Proof(id), r, io.first);
      var w := if p1.Goes? then Release(v1, io).0 else v1;
      && Core(w, ops, ReleaseAfter(q, w, closed, id))
      && WriteOnce(q, w)
      && (forall i :: Result(i) in w.seen <==> Result(i) in q.seen)
  {
    StoreRecordKeepsCore(q, ops, closed, Proof(id), r, io.first);
    StoreIsWriteOnce(q, Proof(id), r, io.first);
    var (v1, p1) := StoreNew(q, Proof(id), r, io.first);
    if p1.Goes? {
      ReleaseKeepsCore(v1, ops, closed, id, io);
      WriteOnceTransitive(q, v1, Release(v1, io).0);
    }
  }
}
