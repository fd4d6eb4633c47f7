/**
 The host runtime transaction, its loops and its stages step by step, proved against
 `RuntimeRules`. Every command may fail part of the way or succeed, every write may fail
 before or after it becomes visible, and the process may die after any step: each of these
 outcomes is one of the fates a method is given.
 */
module RuntimeTransaction {
  import opened Utf8Text
  import opened RuntimeRules

  class TimerHost {
    var timers: seq<Timer>
    var intent: Option<Intent>

    constructor (timers: seq<Timer>)
      ensures this.timers == timers && intent == None
    {
      this.timers, intent := timers, None;
    }

    /** systemctl disable, enable or start: whatever it reports, the timer is left as the fate says. */
    method Systemctl(i: nat, left: Timer)
      requires i < |timers|
      modifies this`timers
      ensures timers == old(timers)[i := left]
    {
      timers := timers[i := left];
    }

    method WriteIntent(value: Intent, f: WriteFate) returns (st: Status)
      modifies this`intent
      ensures intent == (if Shows(f) then Some(value) else old(intent)) && st == f.ended
    {
      if Shows(f) { intent := Some(value); }
      st := f.ended;
    }
  }

  class Transaction {
    const host: TimerHost
    const target: nat
    var intent: Option<Intent>
    var mutationStarted: bool
    var finished: bool
    var activation: Activation

    constructor (host: TimerHost, target: nat)
      ensures this.host == host && this.target == target
      ensures State() == Begin(host.timers, host.intent)
    {
      this.host, this.target := host, target;
      intent, mutationStarted, finished, activation := None, false, false, NotAttempted;
    }

    ghost function State(): Attempt
      reads this, host
    {
      Attempt(host.timers, host.intent, intent, mutationStarted, finished, activation)
    }

    /** Reads every timer; a state it cannot describe, or a failed query, stops it. */
    method TakeSnapshot(queries: nat -> Status) returns (st: Status, saved: seq<Saved>)
      ensures (st, saved) == SnapshotAll(host.timers, queries, |host.timers|)
    {
      st, saved := Done, [];
      for i := 0 to |host.timers|
        invariant (st, saved) == SnapshotAll(host.timers, queries, i)
      {
        if st == Done {
          st := queries(i);
          if st == Done {
            if Supported(host.timers[i]) { saved := saved + [Snapshot(host.timers[i])]; } else { st := Raised; }
          }
        }
      }
    }

    method SaveIntent(phase: Phase, f: WriteFate) returns (st: Status)
      requires intent.Some?
      modifies this`intent, host`intent
      ensures (State(), st) == Save(old(State()), phase, f)
    {
      intent := Some(intent.value.(phase := phase));
      st := host.WriteIntent(intent.value, f);
    }

    /** Every timer is tried, whatever happened to the others; only the end of the process stops it. */
    method DisableAll(fates: nat -> DisableFate) returns (alive: bool, okay: bool)
      modifies host`timers
      ensures Sweep(host.timers, alive, okay) == Swept(old(host.timers), fates, |old(host.timers)|)
    {
      alive, okay := true, true;
      ghost var before := host.timers;
      for i := 0 to |host.timers|
        invariant |host.timers| == |before|
        invariant alive && Sweep(host.timers, alive, okay) == Swept(before, fates, i)
        invariant forall k :: i <= k < |before| ==> host.timers[k] == before[k]
      {
        var f := fates(i);
        ghost var t := host.timers[i];
        if f.query != Done {
          alive, okay := f.query == Raised, false;
        } else if host.timers[i].unitFile != Missing {
          host.Systemctl(i, f.left);
          if f.command != Done {
            alive, okay := f.command == Raised, false;
          } else if f.check != Done {
            alive, okay := f.check == Raised, false;
          } else if !(host.timers[i].unitFile == Disabled && host.timers[i].activity == Inactive) {
            okay := false;
          }
        }
        assert host.timers == Swept(before, fates, i).timers[i := DisableOne(t, f).timer];
        if !alive {
          SweptStops(before, fates, i + 1, |before|);
          return;
        }
      }
    }

    /** Disable, drain the services, which changes no timer, and note it. */
    method QuiesceTimers(f: Fates) returns (st: Status)
      requires Shaped(State()) && intent.Some?
      modifies this`intent, host`timers, host`intent
      ensures (State(), st) == Quiesce(old(State()), f)
    {
      var alive, okay := DisableAll(f.quiesces);
      if !alive { return Died; }
      if !okay { return Raised; }
      if f.drains != Done { return f.drains; }
      st := SaveIntent(Quiesced, f.quiesced);
    }

    method PrepareUpdate(f: Fates) returns (st: Status)
      requires Shaped(State())
      modifies this`intent, this`mutationStarted, host`timers, host`intent
      ensures (State(), st) == Prepare(old(State()), target, f)
    {
      var saved;
      st, saved := TakeSnapshot(f.firstReads);
      if st != Done { return; }
      if f.services != Done { return f.services; }
      var pending := host.intent;
      if pending.Some? && pending.value.target != target { return Raised; }
      if f.inhibits != Done { return f.inhibits; }
      st, saved := TakeSnapshot(f.secondReads);
      if st != Done { return; }
      intent := if pending.Some? then pending else Some(Intent(target, saved, PhasePrepared));
      if f.publishes != Done { return f.publishes; }
      st := SaveIntent(PhasePrepared, f.prepared);
      if st != Done { return; }
      mutationStarted := true;
      st := QuiesceTimers(f);
    }

    method StageAndSmokeUnits(f: Fates) returns (st: Status)
      requires Shaped(State()) && intent.Some?
      modifies this`intent, host`timers, host`intent
      ensures (State(), st) == StageAndSmoke(old(State()), f)
    {
      if |f.staged| == |host.timers| { host.timers := f.staged; }
      if f.stages != Done { return f.stages; }
      st := SaveIntent(UnitsStaged, f.unitsStaged);
      if st != Done { return; }
      if f.smokes != Done { return f.smokes; }
      var alive, okay := DisableAll(f.settles);
      if !alive { return Died; }
      if !okay { return Raised; }
      st := SaveIntent(SmokePassed, f.smokePassed);
    }

    /** Put one timer back and read it back. */
    method RestoreTimer(i: nat, s: Saved, f: RestoreFate) returns (st: Status)
      requires i < |host.timers|
      modifies host`timers
      ensures
        var (t, ended) := RestoreOne(old(host.timers)[i], s, f);
        host.timers == old(host.timers)[i := t] && st == ended
    {
      if s.enabled {
        host.Systemctl(i, f.enabled);
        if f.enable != Done { return f.enable; }
      }
      if s.active {
        host.Systemctl(i, f.started);
        if f.start != Done { return f.start; }
      }
      if f.readBack != Done { return f.readBack; }
      if host.timers[i].unitFile != (if s.enabled then Enabled else Disabled) { return Raised; }
      if host.timers[i].activity != (if s.active then Active else Inactive) { return Raised; }
      st := if s.active then f.armed else Done; // an active timer must also be armed
    }

    method RestoreTimers(f: Fates) returns (st: Status)
      requires Shaped(State()) && intent.Some?
      modifies this`intent, this`activation, host`timers, host`intent
      ensures (State(), st) == Restore(old(State()), f)
    {
      st := SaveIntent(Restoring, f.restoring);
      if st != Done { return; }
      var saved := intent.value.timers;
      ghost var before, noted := host.timers, State();
      for i := 0 to |saved|
        invariant State() == noted.(timers := host.timers)
        invariant |host.timers| == |saved| == |before|
        invariant st == Done && (host.timers, st) == RestoreAll(before, saved, f.restores, i)
      {
        st := RestoreTimer(i, saved[i], f.restores(i));
        assert (host.timers, st) == RestoreAll(before, saved, f.restores, i + 1);
        if st != Done {
          RestoreStops(before, saved, f.restores, i + 1, |saved|);
          return;
        }
      }
      activation := if AnyOn(saved) then Restored else NotAttempted;
    }

    /** Note completion, write the history entry, release the inhibitor, and remove the record. */
    method FinishUpdate(f: Fates) returns (st: Status)
      requires Shaped(State()) && intent.Some?
      modifies this`intent, this`finished, host`intent
      ensures (State(), st) == Finish(old(State()), f)
    {
      st := SaveIntent(Completed, f.completed);
      if st != Done { return; }
      if f.history != Done { return f.history; }
      if f.unlink == Raised { return Raised; }
      host.intent := None;
      if f.unlink == Died { return Died; }
      if f.sync != Done { return f.sync; }
      finished := true;
    }

    /** On the way out of a failed attempt every timer is disabled again and the record says so. */
    method ExitUpdate(f: Fates) returns (st: Status)
      requires Shaped(State())
      modifies this`intent, host`timers, host`intent
      ensures (State(), st) == Exit(old(State()), f)
    {
      if finished || !mutationStarted { return Done; }
      var alive, okay := DisableAll(f.contains);
      if !alive { return Died; }
      st := SaveIntent(Failed(okay), f.failed);
    }
  }

  /** One whole attempt: prepare, install, stage, restore, write the receipt, finish; contain what raised. */
  method UpdateHost(host: TimerHost, target: nat, f: Fates) returns (st: Status)
    requires Shaped(Begin(host.timers, host.intent))
    modifies host`timers, host`intent
    ensures
      var (a, ended) := Update(old(host.timers), old(host.intent), target, f);
      host.timers == a.timers && host.intent == a.record && st == ended
  {
    var tx := new Transaction(host, target);
    st := tx.PrepareUpdate(f);
    if st == Done { st := f.installs; }
    if st == Done { st := tx.StageAndSmokeUnits(f); }
    if st == Done { st := tx.RestoreTimers(f); }
    if st == Done { st := f.receipts; }
    if st == Done { st := tx.FinishUpdate(f); }
    if st == Raised {
      st := tx.ExitUpdate(f);
      if st == Done { st := Raised; }
    }
  }
}
