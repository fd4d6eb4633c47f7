/**
 Exactly when an update of the host succeeds: nothing is skipped, and nothing but what
 went wrong stands in its way.
 */
module RuntimeSuccess {
  import opened Utf8Text
  import opened RuntimeRules

  /* ---- what each loop needs ---- */

  predicate AllRead(timers: seq<Timer>, queries: nat -> Status) {
    forall i :: 0 <= i < |timers| ==> queries(i) == Done && Supported(timers[i])
  }

  predicate AllSeenInert(timers: seq<Timer>, fates: nat -> DisableFate) {
    forall i :: 0 <= i < |timers| ==> SeenInert(timers[i], fates(i))
  }

  /** The timer as the commands that put it back leave it; one that was off is not touched. */
  function LeftAt(t: Timer, s: Saved, f: RestoreFate): Timer {
    if s.active then f.started else if s.enabled then f.enabled else t
  }

  /** Every command returned, the timer reads back as it was, and an active one is armed. */
  predicate PutBack(t: Timer, s: Saved, f: RestoreFate) {
    && (s.enabled ==> f.enable == Done)
    && (s.active ==> f.start == Done && f.armed == Done)
    && f.readBack == Done
    && LeftAt(t, s, f).unitFile == (if s.enabled then Enabled else Disabled)
    && LeftAt(t, s, f).activity == (if s.active then Active else Inactive)
  }

  predicate AllPutBack(timers: seq<Timer>, saved: seq<Saved>, fates: nat -> RestoreFate)
    requires |timers| == |saved|
  {
    forall i :: 0 <= i < |timers| ==> PutBack(timers[i], saved[i], fates(i))
  }

  lemma {:induction false} ReadsReturn(timers: seq<Timer>, queries: nat -> Status, n: nat)
    requires n <= |timers|
    ensures SnapshotAll(timers, queries, n).0 == Done <==>
      forall i :: 0 <= i < n ==> queries(i) == Done && Supported(timers[i])
  {
    if n > 0 { ReadsReturn(timers, queries, n - 1); }
  }

  lemma {:induction false} RestoresReturn(timers: seq<Timer>, saved: seq<Saved>, fates: nat -> RestoreFate, n: nat)
    requires n <= |saved| == |timers|
    ensures forall i :: n <= i < |timers| ==> RestoreAll(timers, saved, fates, n).0[i] == timers[i]
    ensures RestoreAll(timers, saved, fates, n).1 == Done <==>
      forall i :: 0 <= i < n ==> PutBack(timers[i], saved[i], fates(i))
  {
    if n > 0 { RestoresReturn(timers, saved, fates, n - 1); }
  }

  /** A sweep that saw every timer inert, as one value per timer. */
  function Settled(timers: seq<Timer>, fates: nat -> DisableFate): seq<Timer> {
    seq(|timers|, i requires 0 <= i < |timers| => if timers[i].unitFile == Missing then timers[i] else fates(i).left)
  }

  lemma SweepReturns(timers: seq<Timer>, fates: nat -> DisableFate)
    ensures
      var s := Swept(timers, fates, |timers|);
      && (s.alive && s.okay <==> AllSeenInert(timers, fates))
      && (s.alive && s.okay ==> s.timers == Settled(timers, fates))
  {
    SweptAt(timers, fates, |timers|);
    SweptSeen(timers, fates, |timers|);
    var s := Swept(timers, fates, |timers|);
    if AllSeenInert(timers, fates) {
      forall i | 0 <= i < |timers|
        ensures DisableOne(timers[i], fates(i)).alive
      {
        assert SeenInert(timers[i], fates(i));
      }
    }
    if s.alive && s.okay {
      forall i | 0 <= i < |timers|
        ensures s.timers[i] == Settled(timers, fates)[i]
      {
        assert SeenInert(timers[i], fates(i));
      }
    }
  }

  /* ---- the stages ---- */

  /** What is to be put back: an earlier attempt's record if there is one, else the timers as they are. */
  function Originals(timers: seq<Timer>, record: Option<Intent>): seq<Saved> {
    if record.Some? then record.value.timers
    else seq(|timers|, i requires 0 <= i < |timers| => Snapshot(timers[i]))
  }

  predicate MayPrepare(a: Attempt, target: nat, f: Fates) {
    && AllRead(a.timers, f.firstReads) && f.services == Done
    && (a.record.Some? ==> a.record.value.target == target)
    && f.inhibits == Done && AllRead(a.timers, f.secondReads)
    && f.publishes == Done && f.prepared.ended == Done
    && AllSeenInert(a.timers, f.quiesces) && f.drains == Done && f.quiesced.ended == Done
  }

  lemma PrepareReturns(a: Attempt, target: nat, f: Fates)
    requires Shaped(a)
    ensures
      var (b, st) := Prepare(a, target, f);
      && (st == Done <==> MayPrepare(a, target, f))
      && (st == Done ==>
           && b.timers == Settled(a.timers, f.quiesces)
           && b.memory.Some? && b.memory.value.timers == Originals(a.timers, a.record))
  {
    ReadsReturn(a.timers, f.firstReads, |a.timers|);
    ReadsReturn(a.timers, f.secondReads, |a.timers|);
    SweepReturns(a.timers, f.quiesces);
    var (second, saved) := SnapshotAll(a.timers, f.secondReads, |a.timers|);
    if second == Done && a.record.None? { assert saved == Originals(a.timers, a.record); }
  }

  /** The timers as the new units leave them. */
  function StagedTimers(timers: seq<Timer>, f: Fates): seq<Timer> {
    if |f.staged| == |timers| then f.staged else timers
  }

  predicate MayStage(timers: seq<Timer>, f: Fates) {
    && f.stages == Done && f.unitsStaged.ended == Done && f.smokes == Done
    && AllSeenInert(StagedTimers(timers, f), f.settles) && f.smokePassed.ended == Done
  }

  lemma StageReturns(a: Attempt, f: Fates)
    requires Shaped(a) && a.memory.Some?
    ensures
      var (b, st) := StageAndSmoke(a, f);
      && (st == Done <==> MayStage(a.timers, f))
      && (st == Done ==>
           && b.timers == Settled(StagedTimers(a.timers, f), f.settles)
           && b.memory.Some? && b.memory.value.timers == a.memory.value.timers)
  {
    SweepReturns(StagedTimers(a.timers, f), f.settles);
  }

  lemma RestoreReturns(a: Attempt, f: Fates)
    requires Shaped(a) && a.memory.Some?
    ensures
      var (b, st) := Restore(a, f);
      && (st == Done <==> f.restoring.ended == Done && AllPutBack(a.timers, a.memory.value.timers, f.restores))
      && b.memory.Some?
  {
    RestoresReturn(a.timers, a.memory.value.timers, f.restores, |a.timers|);
  }

  lemma FinishReturns(a: Attempt, f: Fates)
    requires Shaped(a) && a.memory.Some?
    ensures Finish(a, f).1 == Done <==>
      f.completed.ended == Done && f.history == Done && f.unlink == Done && f.sync == Done
  {
  }

  /* ---- the whole update ---- */

  /** Nothing goes wrong, and every timer ends as it was. */
  predicate Flawless(timers: seq<Timer>, record: Option<Intent>, target: nat, f: Fates) {
    var quiet := Settled(timers, f.quiesces);
    var ready := Settled(StagedTimers(quiet, f), f.settles);
    && MayPrepare(Begin(timers, record), target, f)
    && f.installs == Done
    && MayStage(quiet, f)
    && f.restoring.ended == Done
    && |ready| == |Originals(timers, record)| && AllPutBack(ready, Originals(timers, record), f.restores)
    && f.receipts == Done
    && f.completed.ended == Done && f.history == Done && f.unlink == Done && f.sync == Done
  }

  lemma UntilFinishReturns(timers: seq<Timer>, record: Option<Intent>, target: nat, f: Fates)
    requires Shaped(Begin(timers, record))
    ensures
      var quiet := Settled(timers, f.quiesces);
      var ready := Settled(StagedTimers(quiet, f), f.settles);
      UntilFinish(Begin(timers, record), target, f).1 == Done <==>
        && MayPrepare(Begin(timers, record), target, f) && f.installs == Done && MayStage(quiet, f)
        && f.restoring.ended == Done
        && |ready| == |Originals(timers, record)| && AllPutBack(ready, Originals(timers, record), f.restores)
        && f.receipts == Done
  {
    var a := Begin(timers, record);
    PrepareReturns(a, target, f);
    var (b, prepared) := Prepare(a, target, f);
    if prepared == Done {
      StageReturns(b, f);
      var (c, smoked) := StageAndSmoke(b, f);
      if smoked == Done { RestoreReturns(c, f); }
    }
  }

  /**
   An update succeeds exactly when nothing goes wrong: it skips no query, command, smoke
   check, write or sync, and it reports no failure that did not happen.
   */
  lemma SucceedsExactlyWhenFlawless(timers: seq<Timer>, record: Option<Intent>, target: nat, f: Fates)
    requires Shaped(Begin(timers, record))
    ensures Update(timers, record, target, f).1 == Done <==> Flawless(timers, record, target, f)
  {
    UntilFinishReturns(timers, record, target, f);
    var (b, st) := UntilFinish(Begin(timers, record), target, f);
    if st == Done { FinishReturns(b, f); }
  }

  /** Without an earlier record, what is written down first says of every timer what it was. */
  lemma FirstRecordDescribes(timers: seq<Timer>, target: nat, f: Fates, i: nat)
    requires i < |timers| && Prepare(Begin(timers, None), target, f).0.record.Some?
    ensures
      var r := Prepare(Begin(timers, None), target, f).0.record.value;
      && r.target == target && |r.timers| == |timers|
      && (r.timers[i].present <==> timers[i].unitFile != Missing)
      && (r.timers[i].enabled <==> timers[i].unitFile == Enabled)
      && (r.timers[i].active <==> timers[i].activity == Active)
  {
    var saved := SnapshotAll(timers, f.secondReads, |timers|).1;
    assert SnapshotAll(timers, f.secondReads, |timers|).0 == Done ==> saved[i] == Snapshot(timers[i]);
  }
}
