/**
 One update of the host's runtime, as functions of the timers, the record on disk and the
 fates of every command, query and write. The original state of every timer is written
 down before any timer is disabled, and the record is removed only after every timer has
 been put back; a failed or interrupted attempt leaves the record for the next one.
 */
module RuntimeRules {
  import opened Utf8Text

  datatype UnitFile = Missing | Enabled | Disabled | OtherFile

  datatype Activity = Active | Inactive | OtherActivity

  datatype Timer = Timer(unitFile: UnitFile, activity: Activity)

  datatype Saved = Saved(present: bool, enabled: bool, active: bool)

  datatype Phase =
    | PhasePrepared | Quiesced | UnitsStaged | SmokePassed | Restoring | Completed | Failed(contained: bool)

  datatype Intent = Intent(target: nat, timers: seq<Saved>, phase: Phase)

  /** How a step ended: it returned, it raised, or the process died. */
  datatype Status = Done | Raised | Died

  datatype Activation = NotAttempted | Restored

  /** A timer in a state the snapshot can describe. */
  predicate Supported(t: Timer) {
    if t.unitFile == Missing then t.activity == Inactive
    else t.unitFile != OtherFile && t.activity != OtherActivity
  }

  function Snapshot(t: Timer): Saved {
    Saved(t.unitFile != Missing, t.unitFile == Enabled, t.activity == Active)
  }

  predicate Inert(t: Timer) {
    t.unitFile == Missing || (t.unitFile == Disabled && t.activity == Inactive)
  }

  predicate AllInert(timers: seq<Timer>) {
    forall i :: 0 <= i < |timers| ==> Inert(timers[i])
  }

  predicate AsSaved(t: Timer, s: Saved) {
    Supported(t) && (t.unitFile == Enabled <==> s.enabled) && (t.activity == Active <==> s.active)
  }

  predicate AllAsSaved(timers: seq<Timer>, saved: seq<Saved>) {
    |timers| == |saved| && forall i :: 0 <= i < |timers| ==> AsSaved(timers[i], saved[i])
  }

  /** The same timers on and off; whether an off timer's unit exists does not matter. */
  predicate SameTimers(a: seq<Saved>, b: seq<Saved>) {
    |a| == |b| && forall i :: 0 <= i < |a| ==> a[i].enabled == b[i].enabled && a[i].active == b[i].active
  }

  predicate On(s: Saved) {
    s.enabled || s.active
  }

  predicate AnyOn(saved: seq<Saved>) {
    exists i :: 0 <= i < |saved| && On(saved[i])
  }

  /** The originals are recoverable: from the record if there is one, else from the timers. */
  predicate Safe(timers: seq<Timer>, record: Option<Intent>, original: seq<Saved>) {
    && |timers| == |original|
    && match record
       case Some(i) => SameTimers(i.timers, original)
       case None => AllAsSaved(timers, original)
  }

  /* ---- fates ---- */

  /** Atomic replacement of the record: it may fail on either side of becoming visible. */
  datatype WriteFate = WriteFate(visible: bool, ended: Status)

  predicate Shows(f: WriteFate) {
    f.visible || f.ended == Done
  }

  /** Disabling one timer: whatever the command reports, `left` is what it made of the timer. */
  datatype DisableFate = DisableFate(query: Status, command: Status, left: Timer, check: Status)

  datatype RestoreFate = RestoreFate(
    enable: Status, enabled: Timer, start: Status, started: Timer, readBack: Status, armed: Status)

  datatype Fates = Fates(
    firstReads: nat -> Status,
    services: Status,               // querying every service
    inhibits: Status,               // taking the refresh inhibitor
    secondReads: nat -> Status,
    publishes: Status,
    prepared: WriteFate,
    quiesces: nat -> DisableFate,
    drains: Status,
    quiesced: WriteFate,
    installs: Status,               // the package
    staged: seq<Timer>,             // what staging the units makes of the timers
    stages: Status,
    unitsStaged: WriteFate,
    smokes: Status,
    settles: nat -> DisableFate,
    smokePassed: WriteFate,
    restoring: WriteFate,
    restores: nat -> RestoreFate,
    receipts: Status,               // writing the success receipt
    completed: WriteFate,
    history: Status,                // the history entry and the release of the inhibitor
    unlink: Status,
    sync: Status,                   // the last directory sync
    contains: nat -> DisableFate,
    failed: WriteFate)

  /* ---- the loops ---- */

  /** Every timer described, or why not. */
  function SnapshotAll(timers: seq<Timer>, queries: nat -> Status, n: nat): (r: (Status, seq<Saved>))
    requires n <= |timers|
    ensures r.0 == Done ==>
      |r.1| == n && forall i :: 0 <= i < n ==> Supported(timers[i]) && r.1[i] == Snapshot(timers[i])
  {
    if n == 0 then (Done, [])
    else
      var (st, saved) := SnapshotAll(timers, queries, n - 1);
      if st != Done then (st, saved)
      else if queries(n - 1) != Done then (queries(n - 1), saved)
      else if !Supported(timers[n - 1]) then (Raised, saved)
      else (Done, saved + [Snapshot(timers[n - 1])])
  }

  datatype Disabling = Disabling(timer: Timer, alive: bool, okay: bool)

  predicate Commanded(t: Timer, f: DisableFate) {
    f.query == Done && t.unitFile != Missing
  }

  function DisableOne(t: Timer, f: DisableFate): Disabling {
    if f.query != Done then Disabling(t, f.query == Raised, false)
    else if t.unitFile == Missing then Disabling(t, true, true)
    else if f.command != Done then Disabling(f.left, f.command == Raised, false)
    else if f.check != Done then Disabling(f.left, f.check == Raised, false)
    else Disabling(f.left, true, f.left.unitFile == Disabled && f.left.activity == Inactive)
  }

  datatype Sweep = Sweep(timers: seq<Timer>, alive: bool, okay: bool)

  /** Every timer is tried, whatever happened to the others, until the process dies. */
  function Swept(timers: seq<Timer>, fates: nat -> DisableFate, n: nat): (r: Sweep)
    requires n <= |timers|
    ensures |r.timers| == |timers|
  {
    if n == 0 then Sweep(timers, true, true)
    else
      var s := Swept(timers, fates, n - 1);
      if !s.alive then s
      else
        var one := DisableOne(timers[n - 1], fates(n - 1));
        Sweep(s.timers[n - 1 := one.timer], one.alive, s.okay && one.okay)
  }

  predicate AliveUntil(timers: seq<Timer>, fates: nat -> DisableFate, n: nat)
    requires n <= |timers|
  {
    forall i :: 0 <= i < n ==> DisableOne(timers[i], fates(i)).alive
  }

  /** What a sweep does to each timer: it is reached exactly while the process lives. */
  lemma {:induction false} SweptAt(timers: seq<Timer>, fates: nat -> DisableFate, n: nat)
    requires n <= |timers|
    ensures
      var s := Swept(timers, fates, n);
      && (s.alive <==> AliveUntil(timers, fates, n))
      && (forall i :: 0 <= i < |timers| ==>
            s.timers[i] == if i < n && AliveUntil(timers, fates, i) then DisableOne(timers[i], fates(i)).timer else timers[i])
      && (s.alive && s.okay ==> forall i :: 0 <= i < n ==> Inert(s.timers[i]))
  {
    if n > 0 {
      SweptAt(timers, fates, n - 1);
    }
  }

  lemma {:induction false} SweptStops(timers: seq<Timer>, fates: nat -> DisableFate, k: nat, n: nat)
    requires k <= n <= |timers|
    requires !Swept(timers, fates, k).alive
    ensures Swept(timers, fates, n) == Swept(timers, fates, k)
  {
    if k < n {
      SweptStops(timers, fates, k, n - 1);
    }
  }

  /** Put one timer back and see that it is. */
  function RestoreOne(t: Timer, s: Saved, f: RestoreFate): (Timer, Status) {
    var enabled := if s.enabled then f.enabled else t;
    if s.enabled && f.enable != Done then (enabled, f.enable)
    else
      var started := if s.active then f.started else enabled;
      if s.active && f.start != Done then (started, f.start)
      else if f.readBack != Done then (started, f.readBack)
      else if started.unitFile != (if s.enabled then Enabled else Disabled) then (started, Raised)
      else if started.activity != (if s.active then Active else Inactive) then (started, Raised)
      else (started, if s.active then f.armed else Done)
  }

  /** The first timer that cannot be put back ends it. */
  function RestoreAll(timers: seq<Timer>, saved: seq<Saved>, fates: nat -> RestoreFate, n: nat): (r: (seq<Timer>, Status))
    requires n <= |saved| == |timers|
    ensures |r.0| == |timers|
    ensures r.1 == Done ==> forall i :: 0 <= i < n ==> AsSaved(r.0[i], saved[i])
  {
    if n == 0 then (timers, Done)
    else
      var (ts, st) := RestoreAll(timers, saved, fates, n - 1);
      if st != Done then (ts, st)
      else
        var (t, ended) := RestoreOne(ts[n - 1], saved[n - 1], fates(n - 1));
        (ts[n - 1 := t], ended)
  }

  lemma {:induction false} RestoreStops(
      timers: seq<Timer>, saved: seq<Saved>, fates: nat -> RestoreFate, k: nat, n: nat)
    requires k <= n <= |saved| == |timers|
    requires RestoreAll(timers, saved, fates, k).1 != Done
    ensures RestoreAll(timers, saved, fates, n) == RestoreAll(timers, saved, fates, k)
  {
    if k < n {
      RestoreStops(timers, saved, fates, k, n - 1);
    }
  }

  /* ---- the stages of one attempt ---- */

  /** The host and this attempt's own memory. */
  datatype Attempt = Attempt(
    timers: seq<Timer>, record: Option<Intent>, memory: Option<Intent>,
    started: bool, finished: bool, activation: Activation)

  predicate Shaped(a: Attempt) {
    && (a.record.Some? ==> |a.record.value.timers| == |a.timers|)
    && (a.memory.Some? ==> |a.memory.value.timers| == |a.timers|)
    && (a.started ==> a.memory.Some?)
  }

  function Save(a: Attempt, phase: Phase, f: WriteFate): (Attempt, Status)
    requires a.memory.Some?
  {
    var m := a.memory.value.(phase := phase);
    (a.(memory := Some(m), record := if Shows(f) then Some(m) else a.record), f.ended)
  }

  function Quiesce(a: Attempt, f: Fates): (r: (Attempt, Status))
    requires Shaped(a) && a.memory.Some?
    ensures Shaped(r.0) && r.0.memory.Some?
  {
    var s := Swept(a.timers, f.quiesces, |a.timers|);
    var b := a.(timers := s.timers);
    if !s.alive then (b, Died)
    else if !s.okay then (b, Raised)
    else if f.drains != Done then (b, f.drains)
    else Save(b, Quiesced, f.quiesced)
  }

  /**
   Write the originals down, then disable. An earlier attempt's record is taken over as it
   is, and only by the same target; without one, the timers themselves are recorded.
   */
  function Prepare(a: Attempt, target: nat, f: Fates): (r: (Attempt, Status))
    requires Shaped(a)
    ensures Shaped(r.0) && (r.1 == Done ==> r.0.memory.Some?)
  {
    var first := SnapshotAll(a.timers, f.firstReads, |a.timers|).0;
    if first != Done then (a, first)
    else if f.services != Done then (a, f.services)
    else if a.record.Some? && a.record.value.target != target then (a, Raised)
    else if f.inhibits != Done then (a, f.inhibits)
    else
      var (second, saved) := SnapshotAll(a.timers, f.secondReads, |a.timers|);
      if second != Done then (a, second)
      else
        var m := if a.record.Some? then a.record.value else Intent(target, saved, PhasePrepared);
        var b := a.(memory := Some(m));
        if f.publishes != Done then (b, f.publishes)
        else
          var (c, st) := Save(b, PhasePrepared, f.prepared);
          if st != Done then (c, st) else Quiesce(c.(started := true), f)
  }

  /** New units are installed and tried out; they may leave the timers in any state. */
  function StageAndSmoke(a: Attempt, f: Fates): (r: (Attempt, Status))
    requires Shaped(a) && a.memory.Some?
    ensures Shaped(r.0) && r.0.memory.Some?
  {
    var b := if |f.staged| == |a.timers| then a.(timers := f.staged) else a;
    if f.stages != Done then (b, f.stages)
    else
      var (c, st) := Save(b, UnitsStaged, f.unitsStaged);
      if st != Done then (c, st)
      else if f.smokes != Done then (c, f.smokes)
      else
        var s := Swept(c.timers, f.settles, |c.timers|);
        var d := c.(timers := s.timers);
        if !s.alive then (d, Died)
        else if !s.okay then (d, Raised)
        else Save(d, SmokePassed, f.smokePassed)
  }

  /** Put every timer back as it was; it returns only if each of them is seen to be. */
  function Restore(a: Attempt, f: Fates): (r: (Attempt, Status))
    requires Shaped(a) && a.memory.Some?
    ensures Shaped(r.0) && r.0.memory.Some?
  {
    var (b, st) := Save(a, Restoring, f.restoring);
    if st != Done then (b, st)
    else
      var saved := b.memory.value.timers;
      var (timers, ended) := RestoreAll(b.timers, saved, f.restores, |saved|);
      var c := b.(timers := timers);
      if ended != Done then (c, ended)
      else (c.(activation := if AnyOn(saved) then Restored else NotAttempted), Done)
  }

  /** Everything of finishing but the last directory sync: the record is removed. */
  function Remove(a: Attempt, f: Fates): (r: (Attempt, Status))
    requires Shaped(a) && a.memory.Some?
    ensures Shaped(r.0)
  {
    var (b, st) := Save(a, Completed, f.completed);
    if st != Done then (b, st)
    else if f.history != Done then (b, f.history)
    else if f.unlink == Raised then (b, Raised)
    else (b.(record := None), f.unlink)
  }

  function Finish(a: Attempt, f: Fates): (r: (Attempt, Status))
    requires Shaped(a) && a.memory.Some?
    ensures Shaped(r.0)
  {
    var (b, st) := Remove(a, f);
    if st != Done then (b, st)
    else if f.sync != Done then (b, f.sync)
    else (b.(finished := true), Done)
  }

  /** A failed attempt disables every timer again and says so in the record. */
  function Exit(a: Attempt, f: Fates): (Attempt, Status)
    requires Shaped(a)
  {
    if a.finished || !a.started then (a, Done)
    else
      var s := Swept(a.timers, f.contains, |a.timers|);
      var b := a.(timers := s.timers);
      if !s.alive then (b, Died) else Save(b, Failed(s.okay), f.failed)
  }

  function Begin(timers: seq<Timer>, record: Option<Intent>): Attempt {
    Attempt(timers, record, None, false, false, NotAttempted)
  }

  /** From preparation to the timers put back and the receipt written. */
  function UntilFinish(a: Attempt, target: nat, f: Fates): (r: (Attempt, Status))
    requires Shaped(a)
    ensures Shaped(r.0) && (r.1 == Done ==> r.0.memory.Some?)
  {
    var (b, prepared) := Prepare(a, target, f);
    if prepared != Done then (b, prepared)
    else if f.installs != Done then (b, f.installs)
    else
      var (c, smoked) := StageAndSmoke(b, f);
      if smoked != Done then (c, smoked)
      else
        var (d, restored) := Restore(c, f);
        if restored != Done then (d, restored) else (d, f.receipts)
  }

  /** The whole attempt before any containment. */
  function Through(a: Attempt, target: nat, f: Fates): (r: (Attempt, Status))
    requires Shaped(a)
    ensures Shaped(r.0)
  {
    var (b, st) := UntilFinish(a, target, f);
    if st != Done then (b, st) else Finish(b, f)
  }

  /* ---- what each stage keeps ---- */

  /** What this attempt holds in memory agrees with the originals. */
  predicate Remembers(a: Attempt, target: nat, original: seq<Saved>) {
    a.memory.Some? && a.memory.value.target == target && SameTimers(a.memory.value.timers, original)
  }

  predicate SafeAttempt(a: Attempt, original: seq<Saved>) {
    Safe(a.timers, a.record, original)
  }

  lemma SafeIsShaped(timers: seq<Timer>, record: Option<Intent>, original: seq<Saved>)
    requires Safe(timers, record, original)
    ensures Shaped(Begin(timers, record))
  {
  }

  lemma SavedAlike(timers: seq<Timer>, a: seq<Saved>, b: seq<Saved>)
    requires SameTimers(a, b)
    ensures AllAsSaved(timers, a) <==> AllAsSaved(timers, b)
    ensures AnyOn(a) <==> AnyOn(b)
  {
    assert AllAsSaved(timers, a) ==> forall i :: 0 <= i < |timers| ==> AsSaved(timers[i], a[i]) && AsSaved(timers[i], b[i]);
    assert AllAsSaved(timers, b) ==> forall i :: 0 <= i < |timers| ==> AsSaved(timers[i], b[i]) && AsSaved(timers[i], a[i]);
    assert forall i :: 0 <= i < |a| ==> (On(a[i]) <==> On(b[i]));
  }

  /** A save of an attempt that remembers the originals leaves them recoverable if they were. */
  lemma SaveKeeps(a: Attempt, phase: Phase, f: WriteFate, target: nat, original: seq<Saved>)
    requires Remembers(a, target, original) && |a.timers| == |original|
    ensures
      var b := Save(a, phase, f).0;
      && Remembers(b, target, original) && b.timers == a.timers
      && (a.record.Some? || Shows(f) ==> b.record.Some?)
      && (Shows(f) ==> b.record == b.memory && b.record.value.phase == phase && SafeAttempt(b, original))
      && (!Shows(f) ==> b.record == a.record)
  {
  }

  /** Started attempts have the originals in memory and on record, so the timers no longer matter. */
  predicate Recorded(a: Attempt, target: nat, original: seq<Saved>) {
    SafeAttempt(a, original) && Remembers(a, target, original) && a.record.Some? && a.started
  }

  lemma SavedRecorded(a: Attempt, phase: Phase, f: WriteFate, target: nat, original: seq<Saved>)
    requires Recorded(a, target, original)
    ensures Recorded(Save(a, phase, f).0, target, original)
    ensures f.ended == Done ==>
      Save(a, phase, f).0.record == Save(a, phase, f).0.memory && Save(a, phase, f).0.memory.value.phase == phase
  {
    SaveKeeps(a, phase, f, target, original);
  }

  /**
   No timer is changed before the originals are on record, an earlier attempt's record is
   taken over only for the same target, and on return every timer is inert.
   */
  lemma PrepareKeeps(a: Attempt, target: nat, f: Fates, original: seq<Saved>)
    requires SafeAttempt(a, original) && a.memory.None? && !a.started && !a.finished
    ensures Shaped(a)
    ensures
      var (b, st) := Prepare(a, target, f);
      && SafeAttempt(b, original) && !b.finished
      && (b.started ==> Recorded(b, target, original))
      && (!b.started ==> b.timers == a.timers)
      && (st == Done ==> b.started && AllInert(b.timers) && b.record == b.memory && b.memory.value.phase == Quiesced)
      && (b.started && !Shows(f.quiesced) ==> b.record.value.phase == PhasePrepared)
      && (a.record.Some? && a.record.value.target != target ==> b == a && st != Done)
  {
    var (second, saved) := SnapshotAll(a.timers, f.secondReads, |a.timers|);
    if second == Done && (a.record.Some? ==> a.record.value.target == target) {
      var m := if a.record.Some? then a.record.value else Intent(target, saved, PhasePrepared);
      var b := a.(memory := Some(m));
      SaveKeeps(b, PhasePrepared, f.prepared, target, original);
      var (c, st) := Save(b, PhasePrepared, f.prepared);
      if st == Done {
        QuiesceKeeps(c.(started := true), target, f, original);
      }
    }
  }

  lemma QuiesceKeeps(a: Attempt, target: nat, f: Fates, original: seq<Saved>)
    requires Shaped(a) && Recorded(a, target, original)
    ensures
      var (b, st) := Quiesce(a, f);
      && Recorded(b, target, original) && b.finished == a.finished
      && (st == Done ==> AllInert(b.timers) && b.record == b.memory && b.memory.value.phase == Quiesced)
  {
    var s := Swept(a.timers, f.quiesces, |a.timers|);
    SweptAt(a.timers, f.quiesces, |a.timers|);
    SavedRecorded(a.(timers := s.timers), Quiesced, f.quiesced, target, original);
  }

  lemma StageKeeps(a: Attempt, target: nat, f: Fates, original: seq<Saved>)
    requires Shaped(a) && Recorded(a, target, original)
    ensures
      var (b, st) := StageAndSmoke(a, f);
      && Recorded(b, target, original) && b.finished == a.finished
      && (st == Done ==> AllInert(b.timers) && b.record == b.memory && b.memory.value.phase == SmokePassed)
      && (f.stages == Done && f.unitsStaged.ended == Done && !Shows(f.smokePassed) ==> b.record.value.phase == UnitsStaged)
  {
    var b := if |f.staged| == |a.timers| then a.(timers := f.staged) else a;
    SavedRecorded(b, UnitsStaged, f.unitsStaged, target, original);
    var c := Save(b, UnitsStaged, f.unitsStaged).0;
    SweptAt(c.timers, f.settles, |c.timers|);
    var s := Swept(c.timers, f.settles, |c.timers|);
    SavedRecorded(c.(timers := s.timers), SmokePassed, f.smokePassed, target, original);
  }

  /** It returns only with every timer as it was, and says whether any was switched back on. */
  lemma RestoreKeeps(a: Attempt, target: nat, f: Fates, original: seq<Saved>)
    requires Shaped(a) && Recorded(a, target, original)
    ensures
      var (b, st) := Restore(a, f);
      && Recorded(b, target, original) && b.finished == a.finished
      && (st == Done ==>
            AllAsSaved(b.timers, original) && b.activation == if AnyOn(original) then Restored else NotAttempted)
      && (Shows(f.restoring) ==> b.record.value.phase == Restoring)
  {
    SavedRecorded(a, Restoring, f.restoring, target, original);
    var (b, st) := Save(a, Restoring, f.restoring);
    if st == Done {
      var saved := b.memory.value.timers;
      SavedAlike(RestoreAll(b.timers, saved, f.restores, |saved|).0, saved, original);
    }
  }

  /** The record is removed only with every timer as it was. */
  lemma RemoveKeeps(a: Attempt, target: nat, f: Fates, original: seq<Saved>)
    requires Shaped(a) && Recorded(a, target, original) && AllAsSaved(a.timers, original)
    ensures
      var (b, st) := Remove(a, f);
      && SafeAttempt(b, original) && Remembers(b, target, original)
      && b.started && b.finished == a.finished && b.timers == a.timers
      && (st == Done ==> b.record.None?)
      && (st == Raised ==> b.record.Some?)
      && (b.record.Some? && Shows(f.completed) ==> b.record.value.phase == Completed)
  {
    SavedRecorded(a, Completed, f.completed, target, original);
  }

  lemma UntilFinishKeeps(a: Attempt, target: nat, f: Fates, original: seq<Saved>)
    requires SafeAttempt(a, original) && a.memory.None? && !a.started && !a.finished
    ensures Shaped(a)
    ensures
      var (b, st) := UntilFinish(a, target, f);
      && SafeAttempt(b, original) && !b.finished
      && (b.started ==> Recorded(b, target, original))
      && (st == Done ==> b.started && AllAsSaved(b.timers, original))
  {
    PrepareKeeps(a, target, f, original);
    var (b, prepared) := Prepare(a, target, f);
    if prepared == Done {
      StageKeeps(b, target, f, original);
      RestoreKeeps(StageAndSmoke(b, f).0, target, f, original);
    }
  }

  /* ---- when the originals are lost ---- */

  /** The attempt comes as far as the last directory sync: the timers are back and the record is gone. */
  predicate ReachesSync(timers: seq<Timer>, record: Option<Intent>, target: nat, f: Fates)
    requires Shaped(Begin(timers, record))
  {
    var (a, st) := UntilFinish(Begin(timers, record), target, f);
    st == Done && Remove(a, f).1 == Done
  }

  /** The timers as they then are. */
  function AtSync(timers: seq<Timer>, record: Option<Intent>, target: nat, f: Fates): seq<Timer>
    requires Shaped(Begin(timers, record))
  {
    UntilFinish(Begin(timers, record), target, f).0.timers
  }

  /** The sweep reaches timer `i` with a command that leaves it other than it was. */
  predicate ForgetsAt(timers: seq<Timer>, original: seq<Saved>, fates: nat -> DisableFate, i: nat)
    requires |timers| == |original| && i < |timers|
  {
    AliveUntil(timers, fates, i) && Commanded(timers[i], fates(i)) && !AsSaved(fates(i).left, original[i])
  }

  /**
   Containment without a record: a command that was reached left some timer other than it
   was, and the process died before the record was written, or writing it failed unseen.
   */
  predicate Forgets(timers: seq<Timer>, original: seq<Saved>, fates: nat -> DisableFate, save: WriteFate)
    requires |timers| == |original|
  {
    && (exists i :: 0 <= i < |timers| && ForgetsAt(timers, original, fates, i))
    && (AliveUntil(timers, fates, |timers|) ==> !Shows(save))
  }

  lemma SweepForgetsAt(timers: seq<Timer>, original: seq<Saved>, fates: nat -> DisableFate, i: nat)
    requires AllAsSaved(timers, original) && i < |timers|
    ensures !AsSaved(Swept(timers, fates, |timers|).timers[i], original[i]) <==> ForgetsAt(timers, original, fates, i)
  {
    SweptAt(timers, fates, |timers|);
    if AliveUntil(timers, fates, i) {
      assert Swept(timers, fates, |timers|).timers[i] == DisableOne(timers[i], fates(i)).timer;
    } else {
      assert Swept(timers, fates, |timers|).timers[i] == timers[i];
    }
  }

  lemma SweepForgets(timers: seq<Timer>, original: seq<Saved>, fates: nat -> DisableFate)
    requires AllAsSaved(timers, original)
    ensures !AllAsSaved(Swept(timers, fates, |timers|).timers, original) <==>
      exists i :: 0 <= i < |timers| && ForgetsAt(timers, original, fates, i)
  {
    forall i | 0 <= i < |timers|
      ensures !AsSaved(Swept(timers, fates, |timers|).timers[i], original[i]) <==> ForgetsAt(timers, original, fates, i)
    {
      SweepForgetsAt(timers, original, fates, i);
    }
  }

  /** While the record is on disk containment loses nothing; without it, exactly when it forgets. */
  lemma ExitLosesExactlyWhen(a: Attempt, target: nat, f: Fates, original: seq<Saved>)
    requires Shaped(a) && SafeAttempt(a, original) && (a.started ==> Remembers(a, target, original))
    ensures !SafeAttempt(Exit(a, f).0, original) <==>
      !a.finished && a.started && a.record.None? && Forgets(a.timers, original, f.contains, f.failed)
  {
    if !a.finished && a.started {
      var s := Swept(a.timers, f.contains, |a.timers|);
      SweptAt(a.timers, f.contains, |a.timers|);
      SaveKeeps(a.(timers := s.timers), Failed(s.okay), f.failed, target, original);
      if a.record.None? { SweepForgets(a.timers, original, f.contains); }
    }
  }

  /** The sweep saw this timer inert: absent, or disabled by a command that returned and read back so. */
  predicate SeenInert(t: Timer, f: DisableFate) {
    && f.query == Done
    && (t.unitFile == Missing
        || (f.command == Done && f.check == Done && f.left.unitFile == Disabled && f.left.activity == Inactive))
  }

  lemma {:induction false} SweptSeen(timers: seq<Timer>, fates: nat -> DisableFate, n: nat)
    requires n <= |timers|
    ensures
      var s := Swept(timers, fates, n);
      s.alive ==> (s.okay <==> forall i :: 0 <= i < n ==> SeenInert(timers[i], fates(i)))
  {
    if n > 0 { SweptSeen(timers, fates, n - 1); }
  }

  /**
   A failed attempt whose record was written says contained if and only if every timer was
   seen inert, and then every timer is.
   */
  lemma FailedIsTruthful(a: Attempt, f: Fates)
    requires Shaped(a) && a.started && !a.finished
    requires AliveUntil(a.timers, f.contains, |a.timers|) && Shows(f.failed)
    ensures
      var b := Exit(a, f).0;
      && b.record.Some? && b.record.value.phase.Failed? && b.record.value.timers == a.memory.value.timers
      && (b.record.value.phase.contained <==> forall i :: 0 <= i < |a.timers| ==> SeenInert(a.timers[i], f.contains(i)))
      && (b.record.value.phase.contained ==> AllInert(b.timers))
  {
    SweptAt(a.timers, f.contains, |a.timers|);
    SweptSeen(a.timers, f.contains, |a.timers|);
  }

  /** One whole attempt: if it raises, whatever it changed is contained on the way out. */
  function Update(timers: seq<Timer>, record: Option<Intent>, target: nat, f: Fates): (r: (Attempt, Status))
    requires Shaped(Begin(timers, record))
  {
    var (a, st) := Through(Begin(timers, record), target, f);
    if st != Raised then (a, st)
    else
      var (b, ended) := Exit(a, f);
      (b, if ended == Done then Raised else ended)
  }

  predicate Loses(timers: seq<Timer>, record: Option<Intent>, original: seq<Saved>, target: nat, f: Fates)
    requires Safe(timers, record, original)
  {
    && ReachesSync(timers, record, target, f)
    && f.sync == Raised
    && |AtSync(timers, record, target, f)| == |original|
    && Forgets(AtSync(timers, record, target, f), original, f.contains, f.failed)
  }

  /**
   For every outcome of every command, query and write: the originals are lost exactly when
   everything went through to the last directory sync, that sync raised, the containment
   that followed changed some timer, and the record was not written again. A success means
   every timer is back and the record is gone.
   */
  lemma UpdateLosesExactlyWhen(timers: seq<Timer>, record: Option<Intent>, original: seq<Saved>, target: nat, f: Fates)
    requires Safe(timers, record, original)
    ensures
      var (a, st) := Update(timers, record, target, f);
      && (!SafeAttempt(a, original) <==> Loses(timers, record, original, target, f))
      && (st == Done ==> AllAsSaved(a.timers, original) && a.record.None?)
  {
    var start := Begin(timers, record);
    UntilFinishKeeps(start, target, f, original);
    var (a, st) := UntilFinish(start, target, f);
    if st == Done {
      RemoveKeeps(a, target, f, original);
      FinishedLosesExactlyWhen(a, target, f, original);
    } else {
      ExitLosesExactlyWhen(a, target, f, original);
    }
  }

  lemma FinishedLosesExactlyWhen(a: Attempt, target: nat, f: Fates, original: seq<Saved>)
    requires Shaped(a) && Recorded(a, target, original) && AllAsSaved(a.timers, original) && !a.finished
    ensures
      var (b, st) := Finish(a, f);
      && SafeAttempt(b, original) && Remembers(b, target, original) && b.timers == a.timers && b.started
      && (st == Done ==> b.record.None?)
      && (st == Raised ==>
           (!SafeAttempt(Exit(b, f).0, original) <==>
             Remove(a, f).1 == Done && f.sync == Raised && Forgets(a.timers, original, f.contains, f.failed)))
  {
    RemoveKeeps(a, target, f, original);
    var (b, st) := Finish(a, f);
    ExitLosesExactlyWhen(b, target, f, original);
  }

  /* ---- commands that only switch off ---- */

  predicate OnlySwitchesOff(t: Timer, left: Timer) {
    (left.unitFile == t.unitFile || left.unitFile == Disabled) && (left.activity == t.activity || left.activity == Inactive)
  }

  /** If commands do no more than switch off, what is lost is a timer that was on and was changed. */
  lemma ForgottenWasOn(timers: seq<Timer>, original: seq<Saved>, fates: nat -> DisableFate, i: nat)
    requires AllAsSaved(timers, original) && i < |timers|
    requires timers[i].unitFile != Missing && OnlySwitchesOff(timers[i], fates(i).left)
    ensures !AsSaved(fates(i).left, original[i]) <==> fates(i).left != timers[i]
    ensures !AsSaved(fates(i).left, original[i]) ==> On(original[i])
  {
    assert AsSaved(timers[i], original[i]);
  }

  /** Once every timer is inert it is still as it was exactly when it was off. */
  lemma InertForgets(t: Timer, left: Timer, s: Saved)
    requires AsSaved(t, s) && Inert(left) && (left.unitFile == Missing ==> left == t)
    ensures AsSaved(left, s) <==> !On(s)
  {
  }

  /** A containment that saw every timer inert but could not write the record loses the originals exactly when one was on. */
  lemma ContainedLosesWhenAnyOn(timers: seq<Timer>, original: seq<Saved>, fates: nat -> DisableFate, save: WriteFate)
    requires AllAsSaved(timers, original)
    requires Swept(timers, fates, |timers|).alive && Swept(timers, fates, |timers|).okay && !Shows(save)
    ensures Forgets(timers, original, fates, save) <==> AnyOn(original)
  {
    var after := Swept(timers, fates, |timers|).timers;
    forall i | 0 <= i < |timers|
      ensures ForgetsAt(timers, original, fates, i) <==> On(original[i])
    {
      SweepForgetsAt(timers, original, fates, i);
      SweptInert(timers, original, fates, i);
      InertForgets(timers[i], after[i], original[i]);
    }
  }

  lemma SweptInert(timers: seq<Timer>, original: seq<Saved>, fates: nat -> DisableFate, i: nat)
    requires AllAsSaved(timers, original) && i < |timers|
    requires Swept(timers, fates, |timers|).alive && Swept(timers, fates, |timers|).okay
    ensures AsSaved(timers[i], original[i])
    ensures
      var left := Swept(timers, fates, |timers|).timers[i];
      Inert(left) && (left.unitFile == Missing ==> left == timers[i])
  {
    SweptAt(timers, fates, |timers|);
    SweptOkayAt(timers, fates, |timers|, i);
  }

  lemma {:induction false} SweptOkayAt(timers: seq<Timer>, fates: nat -> DisableFate, n: nat, i: nat)
    requires i < n <= |timers|
    requires Swept(timers, fates, n).alive && Swept(timers, fates, n).okay
    ensures DisableOne(timers[i], fates(i)).okay
  {
    if i < n - 1 {
      SweptOkayAt(timers, fates, n - 1, i);
    }
  }

  /* ---- many attempts ---- */

  datatype Host = Host(timers: seq<Timer>, record: Option<Intent>, original: seq<Saved>)

  /** Between attempts the operator may change the timers, as long as no update is pending. */
  datatype Turn = Turn(operator: Option<seq<Timer>>, target: nat, fates: Fates)

  predicate SafeHost(h: Host) {
    Safe(h.timers, h.record, h.original)
  }

  predicate Settable(h: Host, now: seq<Timer>) {
    h.record.None? && |now| == |h.timers| && forall i :: 0 <= i < |now| ==> Supported(now[i])
  }

  function OperatorSets(h: Host, operator: Option<seq<Timer>>): (r: Host)
    ensures SafeHost(h) ==> SafeHost(r)
  {
    if operator.Some? && Settable(h, operator.value) then
      Host(operator.value, None, seq(|operator.value|, i requires 0 <= i < |operator.value| => Snapshot(operator.value[i])))
    else h
  }

  function TakeTurn(h: Host, turn: Turn): Host {
    var now := OperatorSets(h, turn.operator);
    if !Shaped(Begin(now.timers, now.record)) then now
    else
      var a := Update(now.timers, now.record, turn.target, turn.fates).0;
      Host(a.timers, a.record, now.original)
  }

  predicate TurnLoses(h: Host, turn: Turn) {
    var now := OperatorSets(h, turn.operator);
    SafeHost(now) && Loses(now.timers, now.record, now.original, turn.target, turn.fates)
  }

  lemma TurnLosesExactlyWhen(h: Host, turn: Turn)
    requires SafeHost(h)
    ensures !SafeHost(TakeTurn(h, turn)) <==> TurnLoses(h, turn)
  {
    var now := OperatorSets(h, turn.operator);
    SafeIsShaped(now.timers, now.record, now.original);
    UpdateLosesExactlyWhen(now.timers, now.record, now.original, turn.target, turn.fates);
  }

  /** The host before each turn and after the last. */
  ghost predicate History(hosts: seq<Host>, turns: seq<Turn>) {
    && |hosts| == |turns| + 1
    && forall k :: 0 <= k < |turns| ==> hosts[k + 1] == TakeTurn(hosts[k], turns[k])
  }

  lemma {:induction false} SafeUntilLost(hosts: seq<Host>, turns: seq<Turn>, k: nat)
    requires History(hosts, turns) && SafeHost(hosts[0]) && k <= |turns|
    requires forall j :: 0 <= j < k ==> !TurnLoses(hosts[j], turns[j])
    ensures SafeHost(hosts[k])
  {
    if k > 0 {
      SafeUntilLost(hosts, turns, k - 1);
      TurnLosesExactlyWhen(hosts[k - 1], turns[k - 1]);
      assert hosts[k - 1 + 1] == TakeTurn(hosts[k - 1], turns[k - 1]);
    }
  }

  /**
   Over any number of attempts, each ending anyhow, with the operator changing the timers in
   between: the originals are recoverable throughout exactly when no attempt loses them.
   */
  lemma OriginalsSurviveExactlyWhen(hosts: seq<Host>, turns: seq<Turn>)
    requires History(hosts, turns) && SafeHost(hosts[0])
    ensures (forall k :: 0 <= k < |hosts| ==> SafeHost(hosts[k])) <==>
      forall k :: 0 <= k < |turns| ==> !TurnLoses(hosts[k], turns[k])
  {
    if forall k :: 0 <= k < |turns| ==> !TurnLoses(hosts[k], turns[k]) {
      forall k | 0 <= k < |hosts|
        ensures SafeHost(hosts[k])
      {
        SafeUntilLost(hosts, turns, k);
      }
    }
    if forall k :: 0 <= k < |hosts| ==> SafeHost(hosts[k]) {
      forall k | 0 <= k < |turns|
        ensures !TurnLoses(hosts[k], turns[k])
      {
        TurnLosesExactlyWhen(hosts[k], turns[k]);
        assert hosts[k + 1] == TakeTurn(hosts[k], turns[k]);
      }
    }
  }

  /* ---- a run that loses them ---- */

  const Armed := Timer(Enabled, Active)
  const Quiet := Timer(Disabled, Inactive)

  function Fine(n: nat): Status {
    Done
  }

  function SwitchesOff(n: nat): DisableFate {
    DisableFate(Done, Done, Quiet, Done)
  }

  function SwitchesOn(n: nat): RestoreFate {
    RestoreFate(Done, Timer(Enabled, Inactive), Done, Armed, Done, Done)
  }

  /** The process dies in the command that switches the timer off. */
  function SwitchesOffAndDies(n: nat): DisableFate {
    DisableFate(Done, Died, Quiet, Done)
  }

  /** Everything goes through but the last directory sync, and then the record is not written again. */
  function LateFailure(contains: nat -> DisableFate): Fates {
    Fates(
      Fine, Done, Done, Fine, Done, WriteFate(true, Done), SwitchesOff, Done, WriteFate(true, Done), Done,
      [Quiet], Done, WriteFate(true, Done), Done, SwitchesOff, WriteFate(true, Done),
      WriteFate(true, Done), SwitchesOn, Done, WriteFate(true, Done), Done, Done, Raised,
      contains, WriteFate(false, Raised))
  }

  /** One timer, on: the late failure loses it, whether or not the process dies. */
  lemma LateFailureLoses(dies: bool)
    ensures
      var contains := if dies then SwitchesOffAndDies else SwitchesOff;
      var a := Update([Armed], None, 3, LateFailure(contains)).0;
      && Safe([Armed], None, [Snapshot(Armed)])
      && a.timers == [Quiet] && a.record.None?
      && !SafeAttempt(a, [Snapshot(Armed)])
  {
    var f := LateFailure(if dies then SwitchesOffAndDies else SwitchesOff);
    var a := Prepare(Begin([Armed], None), 3, f).0;
    PrepareLate(f);
    FinishLate(f);
    assert Swept([Armed], f.contains, 1).timers == [Quiet];
  }

  lemma PrepareLate(f: Fates)
    requires f == LateFailure(f.contains)
    ensures
      var (a, st) := Prepare(Begin([Armed], None), 3, f);
      && st == Done && a.timers == [Quiet] && a.memory == Some(Intent(3, [Snapshot(Armed)], Quiesced))
      && a.record == a.memory && a.started && !a.finished
  {
    assert [] + [Snapshot(Armed)] == [Snapshot(Armed)];
    assert SnapshotAll([Armed], f.firstReads, 1).0 == Done;
    assert SnapshotAll([Armed], f.secondReads, 1) == (Done, [Snapshot(Armed)]);
    assert Swept([Armed], f.quiesces, 1) == Sweep([Quiet], true, true);
  }

  lemma FinishLate(f: Fates)
    requires f == LateFailure(f.contains)
    ensures
      var (a, st) := Through(Begin([Armed], None), 3, f);
      && st == Raised && a.timers == [Armed] && a.record.None? && a.memory.Some? && a.started && !a.finished
  {
    PrepareLate(f);
    var a := Prepare(Begin([Armed], None), 3, f).0;
    assert Swept([Quiet], f.settles, 1) == Sweep([Quiet], true, true);
    var b := StageAndSmoke(a, f).0;
    assert b.timers == [Quiet];
    assert RestoreAll([Quiet], [Snapshot(Armed)], f.restores, 0) == ([Quiet], Done);
    assert RestoreOne(Quiet, Snapshot(Armed), f.restores(0)) == (Armed, Done);
    assert [Quiet][0 := Armed] == [Armed];
    assert RestoreAll([Quiet], [Snapshot(Armed)], f.restores, 1) == ([Armed], Done);
  }
}
