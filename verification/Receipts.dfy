/**
 What an operator may conclude from a receipt now about receipts later, and how an
 interrupted human reconciliation resumes.
 */
module Receipts {
  import opened Journal
  import opened QueueRules
  import opened QueueInvariant
  import opened QueueSections
  import opened ControlPlane
  import opened JournalHistory

  datatype Word = NoWord | Word(verdict: Verdict)

  /** The verdict a receipt announces, if it announces one. */
  function WordOf(state: ReceiptState): Word {
    match state
    case ReceiptAccepted => NoWord
    case ReceiptProcessing => NoWord
    case ReceiptIndeterminate => Word(Indeterminate)
    case ReceiptCompletedPending => Word(Completed)
    case ReceiptCompleted => Word(Completed)
    case ReceiptJobPending(path, boot) => Word(JobAccepted(path, boot))
    case ReceiptJob(path, boot) => Word(JobAccepted(path, boot))
  }

  /** The outcome is on record but the request still holds the slot: a human must act. */
  predicate CleanupPending(state: ReceiptState) {
    state.ReceiptCompletedPending? || state.ReceiptJobPending?
  }

  predicate CleanedUp(state: ReceiptState) {
    state.ReceiptCompleted? || state.ReceiptJob?
  }

  /** Accepted, then processing, then one fixed verdict, and once cleaned up it stays cleaned up. */
  predicate Forward(a: ReceiptState, b: ReceiptState) {
    match a
    case ReceiptAccepted => true
    case ReceiptProcessing => b != ReceiptAccepted
    case _ => WordOf(b) == WordOf(a) && (CleanupPending(b) ==> CleanupPending(a))
  }

  /** The active marker of `listing` is that of the request `id` of `seen`. */
  predicate Occupies(listing: Listing, seen: Listing, id: Id) {
    Look(listing, Marker) == Look(seen, Request(id))
  }

  /** While no record is taken out of view and the slot is not taken again, two receipts for one id are in order. */
  lemma KeptRecordsForward(v: Volume, w: Volume, id: Id, a: ReceiptState, b: ReceiptState)
    requires KeepsRecords(v, w)
    requires Occupies(w.seen, v.seen, id) ==> Occupies(v.seen, v.seen, id)
    requires ReceiptOf(v.seen, id) == Receipt(a) && ReceiptOf(w.seen, id) == Receipt(b)
    requires Look(v.seen, Request(id)).rec.op.id == id
    ensures Forward(a, b)
  {
  }

  /** A receipt in view is about the id it was asked for. */
  lemma ReceiptIsOwn(w: World, id: Id, a: ReceiptState)
    requires Core(w.queue, w.ops, w.closed)
    requires ReceiptOf(w.queue.seen, id) == Receipt(a)
    ensures Look(w.queue.seen, Request(id)).rec.op.id == id
  {
    assert Owned(Request(id), w.queue.seen[Request(id)], w.ops);
  }

  /* ---- the slot is not taken again ---- */

  /** A marker that was given up is still on stable storage, because its removal was not synced. */
  predicate MarkerLingers(v: Volume) {
    Marker in v.durable && !Stable(v, Marker)
  }

  /** The power losses among `more` take no record out of view, and none meets a lingering marker. */
  ghost predicate Careful(events: seq<Event>, more: seq<Event>) {
    more == [] || (
      && Careful(events, more[..|more| - 1])
      && (more[|more| - 1].PowerFails? ==> CarefulLoss(Run(events + more[..|more| - 1]), more[|more| - 1])))
  }

  ghost predicate CarefulLoss(w: World, loss: Event) {
    KeepsRecords(w.queue, Next(w, loss).queue) && !MarkerLingers(w.queue)
  }

  lemma {:induction false} NoPowerLossIsCareful(events: seq<Event>, more: seq<Event>)
    requires NoPowerLoss(more)
    ensures Careful(events, more)
  {
    if more != [] {
      NoPowerLossIsCareful(events, more[..|more| - 1]);
    }
  }

  /** Whatever marker `q` shows, `v` showed it too. */
  predicate MarkerIsOld(v: Volume, q: Volume) {
    Marker in q.seen ==> Marker in v.seen && q.seen[Marker] == v.seen[Marker]
  }

  /** Only a submission, of an id not in view, brings a marker into view. */
  lemma MarkerIsNew(w: World, e: Event)
    requires !e.PowerFails?
    ensures
      var q := Next(w, e).queue;
      !MarkerIsOld(w.queue, q) ==>
        && e.Submits? && e.raw.Wellformed? && Request(e.raw.op.id) !in w.queue.seen
        && (q.seen[Marker].Torn? || q.seen[Marker].rec == Accepted(e.raw.op, e.now))
  {
    match e
    case Submits(cfg, raw, now, io) => SubmittedMarkerIsNew(w.queue, cfg, raw, now, io);
    case Reconciles(id, d, now, io) => ReconciledMarkerIsOld(w.queue, id, d, now, io);
    case _ => QuietSectionsKeepMarker(w, e);
  }

  lemma SubmittedMarkerIsNew(v: Volume, cfg: Config, raw: Input, now: nat, io: Io)
    ensures
      var q := Submit(v, cfg, raw, now, io).0;
      !MarkerIsOld(v, q) ==>
        && raw.Wellformed? && Request(raw.op.id) !in v.seen
        && (q.seen[Marker].Torn? || q.seen[Marker].rec == Accepted(raw.op, now))
  {
  }

  lemma ReleasedMarkerIsOld(u: Volume, v: Volume, io: Io)
    requires MarkerIsOld(u, v)
    ensures MarkerIsOld(u, Release(v, io).0)
  {
    ReleaseTouchesMarker(v, io);
  }

  lemma RecordLeavesMarker(v: Volume, n: Name, r: Record, fate: StoreFate)
    requires n != Marker
    ensures MarkerIsOld(v, StoreNew(v, n, r, fate).0)
  {
  }

  lemma ReconciledMarkerIsOld(v: Volume, id: Id, d: Decision, now: nat, io: Io)
    ensures MarkerIsOld(v, Reconcile(v, id, d, now, io).0)
  {
    ReconcileShape(v, id, d, now, io);
    var q := Reconcile(v, id, d, now, io).0;
    ReleasedMarkerIsOld(v, v, io);
    forall r: Record
      ensures MarkerIsOld(v, StoreNew(v, Proof(id), r, io.first).0)
      ensures MarkerIsOld(v, Release(StoreNew(v, Proof(id), r, io.first).0, io).0)
    {
      RecordLeavesMarker(v, Proof(id), r, io.first);
      ReleasedMarkerIsOld(v, StoreNew(v, Proof(id), r, io.first).0, io);
    }
  }

  lemma QuietSectionsKeepMarker(w: World, e: Event)
    requires !e.PowerFails? && !e.Submits? && !e.Reconciles?
    ensures MarkerIsOld(w.queue, Next(w, e).queue)
  {
  }

  /** From `v` to `w` no record left the view, and the slot was not taken again for `id`. */
  ghost predicate SlotKept(v: Volume, w: Volume, id: Id) {
    KeepsRecords(v, w) && (Occupies(w.seen, v.seen, id) ==> Occupies(v.seen, v.seen, id))
  }

  /** No step takes the slot again for a request whose record is in view. */
  lemma StepKeepsSlot(w: World, e: Event, id: Id)
    requires Invariant(w)
    requires Look(w.queue.seen, Request(id)).Found?
    requires e.PowerFails? ==> CarefulLoss(w, e)
    ensures SlotKept(w.queue, Next(w, e).queue, id)
  {
    assert Owned(Request(id), w.queue.seen[Request(id)], w.ops);
    if !e.PowerFails? {
      StepKeepsRecords(w, e);
      MarkerIsNew(w, e);
    }
  }

  lemma SlotKeptTransitive(u: Volume, v: Volume, w: Volume, id: Id)
    requires Look(u.seen, Request(id)).Found?
    requires SlotKept(u, v, id) && SlotKept(v, w, id)
    ensures SlotKept(u, w, id)
  {
  }

  lemma RunOneMore(events: seq<Event>, more: seq<Event>)
    requires more != []
    ensures Run(events + more) == Next(Run(events + more[..|more| - 1]), more[|more| - 1])
  {
    var n := |more| - 1;
    assert events + more == events + more[..n] + [more[n]];
    LastRun(events + more, events + more[..n], more[n]);
  }

  lemma LastRun(all: seq<Event>, before: seq<Event>, e: Event)
    requires all == before + [e]
    ensures Run(all) == Next(Run(before), e)
  {
    assert all[..|before|] == before;
  }

  lemma {:induction false} CarefulKeeps(events: seq<Event>, more: seq<Event>, id: Id)
    requires Careful(events, more)
    requires Look(Run(events).queue.seen, Request(id)).Found?
    ensures SlotKept(Run(events).queue, Run(events + more).queue, id)
  {
    if more == [] {
      assert events + more == events;
    } else {
      var shorter := more[..|more| - 1];
      CarefulKeeps(events, shorter, id);
      CarefulStepKeeps(events, more, id);
      SlotKeptTransitive(Run(events).queue, Run(events + shorter).queue, Run(events + more).queue, id);
    }
  }

  lemma CarefulStepKeeps(events: seq<Event>, more: seq<Event>, id: Id)
    requires more != [] && Careful(events, more)
    requires Look(Run(events + more[..|more| - 1]).queue.seen, Request(id)).Found?
    ensures SlotKept(Run(events + more[..|more| - 1]).queue, Run(events + more).queue, id)
  {
    var n := |more| - 1;
    RunOneMore(events, more);
    RunKeepsInvariant(events + more[..n]);
    StepKeepsSlot(Run(events + more[..n]), more[n], id);
  }

  /**
   Receipts only move forward, whatever requests, crashes, reconciliations and refusals lie
   between two of them, as long as no power loss in between takes a record out of view or
   finds a marker whose removal was never synced. Without power losses that is always so.
   */
  lemma ReceiptsMoveForward(events: seq<Event>, more: seq<Event>, id: Id, a: ReceiptState, b: ReceiptState)
    requires NoPowerLoss(more) || Careful(events, more)
    requires ReceiptOf(Run(events).queue.seen, id) == Receipt(a)
    requires ReceiptOf(Run(events + more).queue.seen, id) == Receipt(b)
    ensures Forward(a, b)
  {
    if NoPowerLoss(more) { NoPowerLossIsCareful(events, more); }
    CarefulKeeps(events, more, id);
    RunKeepsInvariant(events);
    ReceiptIsOwn(Run(events), id, a);
    KeptRecordsForward(Run(events).queue, Run(events + more).queue, id, a, b);
  }

  /* ---- one power loss ---- */

  /**
   Across one power loss, from any history at all, a readable receipt is still in order
   exactly when the claim and the result that were in view are still in view and a cleaned
   up request has not got its marker back.
   */
  lemma ReceiptAcrossPowerLoss(events: seq<Event>, q: Volume, id: Id, a: ReceiptState, b: ReceiptState)
    requires LosesTo(Run(events).queue, q)
    requires ReceiptOf(Run(events).queue.seen, id) == Receipt(a)
    requires ReceiptOf(q.seen, id) == Receipt(b)
    ensures
      var v := Run(events).queue;
      Forward(a, b) <==>
        && (Processing(id) in v.seen ==> Processing(id) in q.seen)
        && (Result(id) in v.seen ==> Result(id) in q.seen)
        && (CleanedUp(a) ==> !Occupies(q.seen, v.seen, id))
  {
    RunKeepsInvariant(events);
    var w := Run(events);
    ReceiptIsOwn(w, id, a);
    ReadableReceiptSurvives(w.queue, q, id, a, b);
  }

  /** The request's marker may be the one found after a power loss. */
  predicate MayOccupy(v: Volume, id: Id) {
    Occupies(v.seen, v.seen, id) || Occupies(v.durable, v.seen, id)
  }

  /** What must be synced for the receipt to survive whatever the next power loss takes. */
  predicate SafeFromLoss(v: Volume, id: Id, a: ReceiptState) {
    && (MayOccupy(v, id) && Processing(id) in v.seen ==> Stable(v, Processing(id)))
    && (MayOccupy(v, id) && Result(id) in v.seen ==> Stable(v, Result(id)))
    && (CleanedUp(a) ==> !Occupies(v.durable, v.seen, id))
  }

  /**
   Known before the loss: a receipt cannot move backward across the next power loss exactly
   when its claim and its result are synced, unless its marker is gone from both views, and
   the removal of a cleaned up request's marker was synced.
   */
  lemma ReceiptAcrossAnyPowerLoss(events: seq<Event>, id: Id, a: ReceiptState)
    requires ReceiptOf(Run(events).queue.seen, id) == Receipt(a)
    ensures
      var v := Run(events).queue;
      (forall q: Volume, b ::
        LosesTo(v, q) && ReceiptOf(q.seen, id) == Receipt(b) ==> Forward(a, b)) <==>
        SafeFromLoss(v, id, a)
  {
    RunKeepsInvariant(events);
    var w := Run(events);
    ReceiptIsOwn(w, id, a);
    if SafeFromLoss(w.queue, id, a) {
      forall q: Volume, b | LosesTo(w.queue, q) && ReceiptOf(q.seen, id) == Receipt(b)
        ensures Forward(a, b)
      {
        SafeSurvives(w.queue, q, id, a, b);
      }
    } else {
      LossMovesBack(w.queue, w.ops, w.closed, id, a);
      var q, b :| MovesBack(w.queue, q, id, a, b);
      assert LosesTo(w.queue, q);
    }
  }

  lemma SafeSurvives(v: Volume, q: Volume, id: Id, a: ReceiptState, b: ReceiptState)
    requires DurableIsSeen(v) && LosesTo(v, q) && SafeFromLoss(v, id, a)
    requires ReceiptOf(v.seen, id) == Receipt(a) && ReceiptOf(q.seen, id) == Receipt(b)
    requires Look(v.seen, Request(id)).rec.op.id == id
    ensures Forward(a, b)
  {
    ReadableReceiptSurvives(v, q, id, a, b);
    ReadableSurvived(v, q, Request(id));
    MarkerAfterLoss(v, q, id);
    if !MayOccupy(v, id) { ReceiptWithoutMarker(q.seen, id, b); }
  }

  lemma MarkerAfterLoss(v: Volume, q: Volume, id: Id)
    requires LosesTo(v, q) && Look(v.seen, Request(id)).Found?
    ensures Occupies(q.seen, v.seen, id) ==> MayOccupy(v, id)
    ensures Occupies(q.seen, v.seen, id) && !Occupies(v.seen, v.seen, id) ==> Occupies(v.durable, v.seen, id)
  {
  }

  lemma ReceiptWithoutMarker(seen: Listing, id: Id, b: ReceiptState)
    requires ReceiptOf(seen, id) == Receipt(b) && !Occupies(seen, seen, id)
    requires Look(seen, Request(id)).rec.op.id == id
    ensures Processing(id) in seen && Result(id) in seen
  {
  }

  /** A loss that takes one unsynced record and brings back the marker of one of the two views. */
  function Without(v: Volume, n: Name, marker: Listing): Volume {
    var rest := v.seen - {n, Marker};
    var seen := if Marker in marker then rest[Marker := marker[Marker]] else rest;
    Volume(seen, seen)
  }

  lemma WithoutIsLoss(v: Volume, n: Name, marker: Listing)
    requires !Stable(v, n) && (marker == v.seen || marker == v.durable)
    ensures LosesTo(v, Without(v, n, marker))
  {
  }

  lemma WithoutShows(v: Volume, n: Name, marker: Listing)
    ensures
      var q := Without(v, n, marker);
      && Look(q.seen, Marker) == Look(marker, Marker)
      && (forall m :: m != Marker && m != n ==> Look(q.seen, m) == Look(v.seen, m))
      && (n != Marker ==> n !in q.seen)
  {
  }

  /** This loss moves the receipt back. */
  ghost predicate MovesBack(v: Volume, q: Volume, id: Id, a: ReceiptState, b: ReceiptState) {
    LosesTo(v, q) && ReceiptOf(q.seen, id) == Receipt(b) && !Forward(a, b)
  }

  lemma LossMovesBack(v: Volume, ops: History, closed: map<Id, Closing>, id: Id, a: ReceiptState)
    requires Core(v, ops, closed)
    requires ReceiptOf(v.seen, id) == Receipt(a) && Look(v.seen, Request(id)).rec.op.id == id
    requires !SafeFromLoss(v, id, a)
    ensures exists q: Volume, b :: MovesBack(v, q, id, a, b)
  {
    ResultMeansSyncedClaim(v, ops, closed, id);
    var marker := if Occupies(v.seen, v.seen, id) then v.seen else v.durable;
    if MayOccupy(v, id) && Result(id) in v.seen && !Stable(v, Result(id)) {
      WithoutResult(v, id, a, marker);
    } else if MayOccupy(v, id) && Processing(id) in v.seen && !Stable(v, Processing(id)) {
      WithoutClaim(v, id, a, marker);
    } else {
      MarkerBack(v, id, a);
    }
  }

  lemma ResultMeansSyncedClaim(v: Volume, ops: History, closed: map<Id, Closing>, id: Id)
    requires Core(v, ops, closed)
    ensures Result(id) in v.seen ==> Stable(v, Processing(id))
  {
    assert Result(id) in v.seen ==> Known(v, ops, Result(id));
  }

  lemma WithoutResult(v: Volume, id: Id, a: ReceiptState, marker: Listing)
    requires ReceiptOf(v.seen, id) == Receipt(a) && Look(v.seen, Request(id)).rec.op.id == id
    requires Occupies(marker, v.seen, id) && (marker == v.seen || marker == v.durable)
    requires Result(id) in v.seen && !Stable(v, Result(id))
    ensures MovesBack(v, Without(v, Result(id), marker), id, a, ReceiptProcessing)
  {
    WithoutIsLoss(v, Result(id), marker);
    WithoutShows(v, Result(id), marker);
    ReceiptRests(v.seen, id, a);
  }

  lemma WithoutClaim(v: Volume, id: Id, a: ReceiptState, marker: Listing)
    requires ReceiptOf(v.seen, id) == Receipt(a) && Look(v.seen, Request(id)).rec.op.id == id
    requires Occupies(marker, v.seen, id) && (marker == v.seen || marker == v.durable)
    requires Processing(id) in v.seen && !Stable(v, Processing(id)) && Result(id) !in v.seen
    ensures MovesBack(v, Without(v, Processing(id), marker), id, a, ReceiptAccepted)
  {
    WithoutIsLoss(v, Processing(id), marker);
    WithoutShows(v, Processing(id), marker);
    ReceiptRests(v.seen, id, a);
  }

  /** A marker brought back puts a cleaned up request back to waiting for cleanup. */
  lemma MarkerBack(v: Volume, id: Id, a: ReceiptState)
    requires ReceiptOf(v.seen, id) == Receipt(a) && Look(v.seen, Request(id)).rec.op.id == id
    requires CleanedUp(a) && Occupies(v.durable, v.seen, id)
    ensures
      var b := if a.ReceiptCompleted? then ReceiptCompletedPending else ReceiptJobPending(a.path, a.boot);
      MovesBack(v, Without(v, Marker, v.durable), id, a, b)
  {
    assert !Occupies(v.seen, v.seen, id);
    WithoutIsLoss(v, Marker, v.durable);
    WithoutShows(v, Marker, v.durable);
  }

  /** A receipt with a verdict rests on a claim and on a result with that verdict. */
  lemma ReceiptRests(seen: Listing, id: Id, a: ReceiptState)
    requires ReceiptOf(seen, id) == Receipt(a)
    requires Look(seen, Request(id)).rec.op.id == id
    ensures Processing(id) in seen <==> a != ReceiptAccepted
    ensures Result(id) in seen <==> WordOf(a).Word?
    ensures Result(id) in seen ==>
      Look(seen, Result(id)) == Found(Settled(Look(seen, Request(id)).rec.op, WordOf(a).verdict))
  {
  }

  lemma ReadableReceiptSurvives(v: Volume, q: Volume, id: Id, a: ReceiptState, b: ReceiptState)
    requires DurableIsSeen(v) && LosesTo(v, q)
    requires ReceiptOf(v.seen, id) == Receipt(a) && ReceiptOf(q.seen, id) == Receipt(b)
    requires Look(v.seen, Request(id)).rec.op.id == id
    ensures Forward(a, b) <==>
      && (Processing(id) in v.seen ==> Processing(id) in q.seen)
      && (Result(id) in v.seen ==> Result(id) in q.seen)
      && (CleanedUp(a) ==> !Occupies(q.seen, v.seen, id))
  {
    ReadableSurvived(v, q, Request(id));
    ReceiptRests(v.seen, id, a);
    ReceiptRests(q.seen, id, b);
    if Result(id) in q.seen {
      ReadableSurvived(v, q, Result(id));
    }
  }

  lemma RunKeepsDurable(all: seq<Event>, n: Name, f: File)
    requires all != [] && n != Marker
    requires var q := Run(all[..|all| - 1]).queue; Stable(q, n) && q.seen[n] == f
    ensures Stable(Run(all).queue, n) && Run(all).queue.seen[n] == f
  {
    RunKeepsInvariant(all[..|all| - 1]);
    StepKeepsDurable(Run(all[..|all| - 1]), all[|all| - 1], n);
  }

  lemma {:induction false} DurableResultStays(events: seq<Event>, more: seq<Event>, id: Id, f: File)
    requires Stable(Run(events).queue, Result(id)) && Run(events).queue.seen[Result(id)] == f
    ensures Stable(Run(events + more).queue, Result(id)) && Run(events + more).queue.seen[Result(id)] == f
  {
    if more == [] {
      assert events + more == events;
    } else {
      var all := events + more;
      var shorter := more[..|more| - 1];
      assert all[..|all| - 1] == events + shorter;
      DurableResultStays(events, shorter, id, f);
      RunKeepsDurable(all, Result(id), f);
    }
  }

  /** A verdict whose record is durable is the one every later receipt announces, in every history. */
  lemma DurableVerdictIsFinal(
      events: seq<Event>, more: seq<Event>, op: Operation, verdict: Verdict, b: ReceiptState)
    requires Holds(Run(events).queue, Result(op.id), Settled(op, verdict))
    requires ReceiptOf(Run(events + more).queue.seen, op.id) == Receipt(b)
    ensures WordOf(b) == Word(verdict)
  {
    DurableResultStays(events, more, op.id, Complete(Settled(op, verdict)));
    RunKeepsInvariant(events + more);
    ReceiptIsOwn(Run(events + more), op.id, b);
    ReceiptRests(Run(events + more).queue.seen, op.id, b);
  }

  lemma StepKeepsDurable(w: World, e: Event, n: Name)
    requires Invariant(w)
    requires n != Marker && Stable(w.queue, n)
    ensures
      var q := Next(w, e).queue;
      Stable(q, n) && q.seen[n] == w.queue.seen[n]
  {
    match e
    case Submits(cfg, raw, now, io) => SubmitKeepsCore(w.queue, w.ops, w.closed, cfg, raw, now, io);
    case Claims(cfg, io) => ClaimKeepsCore(w.queue, w.ops, w.closed, cfg, io);
    case Settles(cfg, io) =>
      if w.hand.Returned? {
        SettleKeepsCore(w.queue, w.ops, w.closed, cfg, w.hand.op, VerdictFor(w.hand.op, w.hand.out), io);
      }
    case Attests(id, approval, bootSeen, io) => AttestKeepsCore(w.queue, w.ops, w.closed, id, approval, bootSeen, io);
    case Reconciles(id, d, now, io) => ReconcileKeepsCore(w.queue, w.ops, w.closed, id, d, now, io);
    case PowerFails(q, b) =>
    case _ => ExecuteLeavesQueue(w, e);
  }

  /* ---- unknown stays unknown ---- */

  /**
   A request acknowledged by a human keeps its original receipt in every faithful
   continuation: `indeterminate`, never a success, whatever later requests are active.
   It is withheld only while the active marker itself cannot be read.
   */
  lemma AcknowledgedStaysIndeterminate(events: seq<Event>, id: Id)
    requires Faithful(events)
    requires id in Run(events).closed && Run(events).closed[id] == ByHuman
    ensures
      var seen := Run(events).queue.seen;
      ReceiptOf(seen, id) == if Look(seen, Marker).Unreadable? then Refused(JournalFault) else Receipt(ReceiptIndeterminate)
  {
    RunKeepsInvariant(events);
    FaithfulIsKept(events);
    var w := Run(events);
    AcknowledgedIsSettled(w.queue, w.ops, w.closed, id);
    AcknowledgedReceipt(w.queue.seen, id);
  }

  lemma AcknowledgedReceipt(seen: Listing, id: Id)
    requires RequestSettled(seen, id) && Proof(id) in seen
    ensures ReceiptOf(seen, id) == if Look(seen, Marker).Unreadable? then Refused(JournalFault) else Receipt(ReceiptIndeterminate)
  {
    assert Unknown(Look(seen, Result(id)).rec);
  }

  /* ---- an interrupted reconciliation resumes ---- */

  /** The acknowledgement of `d` is on record, complete. */
  predicate Acknowledges(seen: Listing, id: Id, d: Decision) {
    && Look(seen, Request(id)).Found?
    && Look(seen, Request(id)).rec.Accepted?
    && Look(seen, Request(id)).rec.op.id == id
    && Reconcilable(seen, Look(seen, Request(id)).rec.op, d)
    && Proof(id) in seen
    && SameDecision(seen, Look(seen, Request(id)).rec.op, d)
  }

  /** The journal once the acknowledgement is stored, and the release that follows. */
  function WithProof(v: Volume, id: Id, d: Decision, now: nat, io: Io): Volume
    requires Look(v.seen, Request(id)).Found? && Look(v.seen, Evidence(id)).Found? && Look(v.seen, Evidence(id)).rec.Attested?
  {
    if Proof(id) in v.seen then v
    else
      var op := Look(v.seen, Request(id)).rec.op;
      var digests := Look(v.seen, Evidence(id)).rec.digests;
      StoreNew(v, Proof(id), Acknowledged(op, d.approval, d.boot, now, d.evidence, digests), io.first).0
  }

  /** A reconciliation that succeeds has a valid acknowledgement of its decision on record before it releases the slot. */
  lemma SuccessAcknowledges(v: Volume, id: Id, d: Decision, now: nat, io: Io)
    requires Reconcile(v, id, d, now, io).1 == Receipt(ReceiptIndeterminate)
    ensures Look(v.seen, Request(id)).Found? && Look(v.seen, Evidence(id)).Found? && Look(v.seen, Evidence(id)).rec.Attested?
    ensures
      var v1 := WithProof(v, id, d, now, io);
      && Acknowledges(v1.seen, id, d)
      && ScanPasses(v1.seen)
      && forall cut :: Reconcile(v, id, d, now, io.(cleanup := cut)) == Release(v1, io.(cleanup := cut))
  {
    var op := Look(v.seen, Request(id)).rec.op;
    assert Reconcilable(v.seen, op, d);
    var v1 := WithProof(v, id, d, now, io);
    assert ScanPasses(v1.seen);
    ScanProves(v1.seen, id);
  }

  lemma WithoutMarkerAcknowledges(s: Listing, t: Listing, id: Id, d: Decision)
    requires Acknowledges(s, id, d)
    requires t == s - {Marker}
    ensures Acknowledges(t, id, d)
  {
    ProofSurvives(s, t, Look(s, Request(id)).rec.op);
  }

  lemma AcknowledgedReleases(v: Volume, id: Id, d: Decision, now: nat, io: Io)
    requires Acknowledges(v.seen, id, d) && d.approved && io.lockFree
    ensures Reconcile(v, id, d, now, io) == Release(v, io)
  {
  }

  /**
   A reconciliation cut off between its durable acknowledgement and the removal of the
   active marker, or in that removal, can be repeated with the same decision: it succeeds
   and leaves in view what the uninterrupted one would have.
   */
  lemma ReconciliationResumes(
      v: Volume, id: Id, d: Decision, now: nat, later: nat, cut: UnlinkFate, io: Io, again: Io)
    requires io.cleanup == Unlinked
    requires again.lockFree && again.cleanup == Unlinked
    requires Reconcile(v, id, d, now, io).1 == Receipt(ReceiptIndeterminate)
    ensures
      var interrupted := Reconcile(v, id, d, now, io.(cleanup := cut)).0;
      var (resumed, reply) := Reconcile(interrupted, id, d, later, again);
      && reply == Receipt(ReceiptIndeterminate)
      && resumed.seen == Reconcile(v, id, d, now, io).0.seen
  {
    SuccessAcknowledges(v, id, d, now, io);
    var v1 := WithProof(v, id, d, now, io);
    assert io.(cleanup := Unlinked) == io;
    assert Reconcile(v, id, d, now, io) == Release(v1, io);
    var interrupted := Reconcile(v, id, d, now, io.(cleanup := cut)).0;
    CutReleaseResumes(v1, interrupted, id, d, later, cut, io, again);
  }

  /** Where a release that would have succeeded was cut: the marker is gone from view, or nothing changed. */
  lemma CutReleaseLeaves(v: Volume, w: Volume, cut: UnlinkFate, io: Io)
    requires io.cleanup == Unlinked
    requires Release(v, io).1 == Receipt(ReceiptIndeterminate)
    requires w == Release(v, io.(cleanup := cut)).0
    ensures w.seen == v.seen || w.seen == v.seen - {Marker}
    ensures Release(v, io).0.seen == v.seen - {Marker}
    ensures ScanPasses(v.seen) && ScanPasses(v.seen - {Marker})
  {
    ReleaseTouchesMarker(v, io.(cleanup := cut));
    if Marker !in v.seen { assert v.seen - {Marker} == v.seen; }
  }

  /** From a journal that is settled with and without its marker, a release succeeds and leaves none. */
  lemma SettledReleases(w: Volume, io: Io)
    requires io.cleanup == Unlinked
    requires ScanPasses(w.seen) && ScanPasses(w.seen - {Marker})
    ensures Release(w, io).1 == Receipt(ReceiptIndeterminate)
    ensures Release(w, io).0.seen == w.seen - {Marker}
  {
    if Marker !in w.seen { assert w.seen - {Marker} == w.seen; }
  }

  lemma CutReleaseResumes(
      v: Volume, w: Volume, id: Id, d: Decision, later: nat, cut: UnlinkFate, io: Io, again: Io)
    requires io.cleanup == Unlinked && again.lockFree && again.cleanup == Unlinked && d.approved
    requires Acknowledges(v.seen, id, d)
    requires Release(v, io).1 == Receipt(ReceiptIndeterminate)
    requires w == Release(v, io.(cleanup := cut)).0
    ensures
      var (resumed, reply) := Reconcile(w, id, d, later, again);
      reply == Receipt(ReceiptIndeterminate) && resumed.seen == Release(v, io).0.seen
  {
    CutReleaseLeaves(v, w, cut, io);
    WithoutMarkerAcknowledges(v.seen, v.seen - {Marker}, id, d);
    assert (v.seen - {Marker}) - {Marker} == v.seen - {Marker};
    SettledReleases(w, again);
    AcknowledgedReleases(w, id, d, later, again);
  }

  /* ---- and at any later time ---- */

  lemma {:induction false} FaithfulKeepsRecords(events: seq<Event>, more: seq<Event>)
    requires Faithful(events + more)
    ensures KeepsRecords(Run(events).queue, Run(events + more).queue)
  {
    if more == [] {
      assert events + more == events;
    } else {
      var all := events + more;
      assert all[..|all| - 1] == events + more[..|more| - 1];
      FaithfulKeepsRecords(events, more[..|more| - 1]);
    }
  }

  lemma AcknowledgementKept(v: Volume, w: Volume, id: Id, d: Decision)
    requires Acknowledges(v.seen, id, d) && KeepsRecords(v, w)
    requires Marker in w.seen ==> Occupies(w.seen, w.seen, id)
    ensures Acknowledges(w.seen, id, d)
  {
    ProofSurvives(v.seen, w.seen, Look(v.seen, Request(id)).rec.op);
  }

  lemma AcknowledgedSettles(seen: Listing, id: Id, d: Decision)
    requires Acknowledges(seen, id, d)
    ensures RequestSettled(seen, id) && Evidence(id) in seen && Proof(id) in seen
    ensures Occupies(seen, seen, id) ==> Look(seen, Marker).Found? && Look(seen, Marker).rec.op.id == id
  {
  }

  /** With every other executed request over, the whole history is settled, marker or no marker. */
  lemma AcknowledgedHistory(q: Volume, ops: History, closed: map<Id, Closing>, id: Id)
    requires Core(q, ops, closed) && KeptIn(q.seen, ops, closed)
    requires RequestSettled(q.seen, id) && Evidence(id) in q.seen && Proof(id) in q.seen
    requires Marker in q.seen ==> Look(q.seen, Marker).Found? && Look(q.seen, Marker).rec.op.id == id
    ensures HistorySettled(q.seen)
  {
    forall n | n != Marker && n in q.seen
      ensures Request(n.id) in q.seen && RequestSettled(q.seen, n.id) && (Evidence(n.id) in q.seen <==> Proof(n.id) in q.seen)
    {
      assert Known(q, ops, n);
      if n.id != id {
        ClosedIsSettled(q, ops, closed, n.id);
      }
    }
  }

  lemma SettledWithoutMarker(seen: Listing)
    requires HistorySettled(seen)
    ensures HistorySettled(seen - {Marker})
  {
    var rest := seen - {Marker};
    forall id | Request(id) in rest
      ensures RequestSettled(rest, id)
    {
      assert RequestSettled(seen, id);
      SettledHas(seen, id);
    }
  }

  /**
   However much happens between an acknowledgement put on record and its repetition, the
   same decision goes through exactly when no other request holds the slot and the journal
   is within its bound; it then leaves the journal as it is, without a marker.
   */
  lemma ReconciliationResumesLater(events: seq<Event>, more: seq<Event>, id: Id, d: Decision, now: nat, again: Io)
    requires Faithful(events + more)
    requires Acknowledges(Run(events).queue.seen, id, d)
    requires d.approved && again.lockFree && again.cleanup == Unlinked
    ensures
      var q := Run(events + more).queue;
      var (resumed, reply) := Reconcile(q, id, d, now, again);
      && (reply == Receipt(ReceiptIndeterminate) <==>
            (Marker in q.seen ==> Occupies(q.seen, q.seen, id)) && |q.seen| + 1 <= MAX_AUDIT_ENTRIES)
      && (reply == Receipt(ReceiptIndeterminate) ==> resumed.seen == q.seen - {Marker})
  {
    FaithfulKeepsRecords(events, more);
    RunKeepsInvariant(events + more);
    FaithfulIsKept(events + more);
    var w := Run(events + more);
    if Marker in w.queue.seen ==> Occupies(w.queue.seen, w.queue.seen, id) {
      AcknowledgementKept(Run(events).queue, w.queue, id, d);
      AcknowledgedSettles(w.queue.seen, id, d);
      AcknowledgedHistory(w.queue, w.ops, w.closed, id);
      SettledReleasesWithinBound(w.queue, id, d, now, again);
    } else {
      OtherSlotRefuses(w.queue, id, d, now, again);
    }
  }

  lemma SettledReleasesWithinBound(q: Volume, id: Id, d: Decision, now: nat, again: Io)
    requires Acknowledges(q.seen, id, d) && HistorySettled(q.seen)
    requires d.approved && again.lockFree && again.cleanup == Unlinked
    ensures
      var (resumed, reply) := Reconcile(q, id, d, now, again);
      && (reply == Receipt(ReceiptIndeterminate) <==> |q.seen| + 1 <= MAX_AUDIT_ENTRIES)
      && (reply == Receipt(ReceiptIndeterminate) ==> resumed.seen == q.seen - {Marker})
  {
    AcknowledgedReleases(q, id, d, now, again);
    if ScanPasses(q.seen) {
      SettledWithoutMarker(q.seen);
      FewerEntries(q.seen);
      SettledReleases(q, again);
    }
  }

  lemma FewerEntries(seen: Listing)
    ensures |seen - {Marker}| <= |seen|
  {
    var rest := seen - {Marker};
    assert rest.Keys <= seen.Keys;
    FewerKeys(rest.Keys, seen.Keys);
  }

  lemma FewerKeys(a: set<Name>, b: set<Name>)
    requires a <= b
    ensures |a| <= |b|
  {
    assert |b| == |a| + |b - a| by {
      assert a + (b - a) == b && a * (b - a) == {};
    }
  }

  lemma OtherSlotRefuses(q: Volume, id: Id, d: Decision, now: nat, again: Io)
    requires Marker in q.seen && !Occupies(q.seen, q.seen, id)
    ensures Reconcile(q, id, d, now, again).0 == q && Reconcile(q, id, d, now, again).1.Refused?
  {
  }
}
