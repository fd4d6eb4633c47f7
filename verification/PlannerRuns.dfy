/**
 The schedule under crashes: whatever calls are stopped wherever, what the journal moves
 the planner through is a run of the schedule, so its coverage holds all the same.
 */
module PlannerRuns {
  import opened Utf8Text
  import opened PlannerSchedule
  import opened PlannerJournal

  /** What does not change during a run. */
  datatype Plan = Plan(catalog: Catalog, sh: Shuffles, cfg: Settings) {
    function Choice(s: PlannerState): Choice {
      Choose(catalog, sh, s, cfg)
    }
  }

  /** A call with nothing pending is offered what the schedule chooses, or does nothing. */
  predicate Offers(plan: Plan, s: PlannerState, offer: Fresh) {
    match offer
    case Paused => true
    case NoSources(catalog) => plan.Choice(s).Idle? && catalog == Some(plan.catalog.digest)
    case Ready(_, _, _, catalog, epoch, cursor, _) =>
      var c := plan.Choice(s);
      c.Chosen? && catalog == Some(plan.catalog.digest) && epoch == c.next.epoch && cursor == c.next.cursor
  }

  predicate EachOffered(plan: Plan, start: Disk, calls: seq<Call>) {
    calls == [] || (
      var before, last := After(start, calls[..|calls| - 1]), calls[|calls| - 1];
      && EachOffered(plan, start, calls[..|calls| - 1])
      && (before.pending.None? ==> Offers(plan, before.state, last.req.offer)))
  }

  /** One choice for each time the state moved, made in the state it moved from. */
  function ChoicesOf(plan: Plan, s0: PlannerState, log: seq<Mark>): seq<Choice> {
    if log == [] then []
    else
      var before := ChoicesOf(plan, s0, log[..|log| - 1]);
      if log[|log| - 1].Begins? then before else before + [plan.Choice(EndOf(s0, before))]
  }

  lemma {:induction false} ChoicesAreRun(plan: Plan, s0: PlannerState, log: seq<Mark>)
    ensures IsRun(plan.catalog, plan.sh, plan.cfg, s0, ChoicesOf(plan, s0, log))
  {
    if log != [] {
      ChoicesAreRun(plan, s0, log[..|log| - 1]);
      var before := ChoicesOf(plan, s0, log[..|log| - 1]);
      assert (before + [plan.Choice(EndOf(s0, before))])[..|before|] == before;
    }
  }

  /** The state is where the run has come to, and an open selection is the schedule's next choice. */
  predicate InStep(plan: Plan, s0: PlannerState, d: Disk) {
    && d.state == EndOf(s0, ChoicesOf(plan, s0, d.log))
    && (OpenTicket(d).Some? ==> plan.Choice(d.state).Chosen? && plan.Choice(d.state).next == OpenTicket(d).value.after)
  }

  lemma OneMoreMark(plan: Plan, s0: PlannerState, log: seq<Mark>, mark: Mark)
    ensures
      var before := ChoicesOf(plan, s0, log);
      var after := ChoicesOf(plan, s0, log + [mark]);
      && (mark.Begins? ==> after == before)
      && (!mark.Begins? ==> EndOf(s0, after) == Kept(EndOf(s0, before), plan.Choice(EndOf(s0, before))))
  {
    assert (log + [mark])[..|log|] == log;
    var before := ChoicesOf(plan, s0, log);
    var c := plan.Choice(EndOf(s0, before));
    assert (before + [c])[..|before|] == before;
  }

  /** A step the planner makes in this state. */
  predicate StepOk(plan: Plan, d: Disk, step: Step) {
    match step
    case StorePending(p) =>
      if p.phase.Prepared? then
        && d.pending.None? && p.ticket.before == d.state
        && plan.Choice(d.state).Chosen? && plan.Choice(d.state).next == p.ticket.after
      else d.pending.Some? && d.pending.value.ticket == p.ticket
    case StoreState(s) =>
      if d.pending.None? then plan.Choice(d.state).Idle? && plan.Choice(d.state).next == s
      else OpenTicket(d).Some? && s == OpenTicket(d).value.after && s != d.state
    case ClearPending => OpenTicket(d).None?
    case _ => true
  }

  lemma StepStaysInStep(plan: Plan, s0: PlannerState, d: Disk, step: Step)
    requires InStep(plan, s0, d) && StepOk(plan, d, step)
    ensures InStep(plan, s0, Apply(d, step))
  {
    match step
    case StorePending(p) => if p.phase.Prepared? { OneMoreMark(plan, s0, d.log, Begins(p.ticket)); }
    case StoreState(s) =>
      OneMoreMark(plan, s0, d.log, if d.pending.Some? then Advances(d.pending.value.ticket, s) else Idles(s));
    case _ =>
  }

  predicate StepsOk(plan: Plan, d: Disk, steps: seq<Step>)
    decreases |steps|
  {
    steps == [] || (StepOk(plan, d, steps[0]) && StepsOk(plan, Apply(d, steps[0]), steps[1..]))
  }

  lemma {:induction false} StoppedStaysInStep(plan: Plan, s0: PlannerState, d: Disk, steps: seq<Step>, n: nat)
    requires InStep(plan, s0, d) && StepsOk(plan, d, steps)
    ensures InStep(plan, s0, Play(d, Stopped(steps, n)))
    decreases |steps|
  {
    if n == 0 || steps == [] {
      assert Stopped(steps, n) == [];
    } else {
      StepStaysInStep(plan, s0, d, steps[0]);
      StoppedStaysInStep(plan, s0, Apply(d, steps[0]), steps[1..], n - 1);
      StoppedLater(d, steps, n);
    }
  }

  lemma OkFrom(plan: Plan, d: Disk, step: Step, rest: seq<Step>)
    requires StepOk(plan, d, step) && StepsOk(plan, Apply(d, step), rest)
    ensures StepsOk(plan, d, [step] + rest)
  {
    assert ([step] + rest)[1..] == rest;
  }

  lemma ClosingIsOk(plan: Plan, d: Disk, p: Pending, job: Job)
    requires d.pending == Some(p) && d.state == p.ticket.before != p.ticket.after
    ensures var t := p.ticket;
      StepsOk(plan, d, [EmitInput(t.selection, job), EmitContext(t.context, job), StoreState(t.after), ClearPending])
  {
    var t := p.ticket;
    var d1 := Apply(d, EmitInput(t.selection, job));
    var d2 := Apply(d1, EmitContext(t.context, job));
    var d3 := Apply(d2, StoreState(t.after));
    OkFrom(plan, d3, ClearPending, []);
    OkFrom(plan, d2, StoreState(t.after), [ClearPending] + []);
    OkFrom(plan, d1, EmitContext(t.context, job), [StoreState(t.after)] + ([ClearPending] + []));
    var rest := [EmitContext(t.context, job)] + ([StoreState(t.after)] + ([ClearPending] + []));
    OkFrom(plan, d, EmitInput(t.selection, job), rest);
    assert [EmitInput(t.selection, job)] + rest
        == [EmitInput(t.selection, job), EmitContext(t.context, job), StoreState(t.after), ClearPending];
  }

  lemma FinishIsOk(plan: Plan, d: Disk, p: Pending, recipe: nat)
    requires d.pending == Some(p) && d.state == p.ticket.before != p.ticket.after
    ensures StepsOk(plan, d, Finish(p, recipe))
  {
    var t, job := p.ticket, Job(p.ticket.context, recipe);
    var q := p.(phase := Submitted(job), recipe := recipe);
    var d1 := Apply(d, SubmitJob(job));
    var d2 := Apply(d1, Record(t.anchor));
    var d3 := Apply(d2, StorePending(q));
    var rest := [EmitInput(t.selection, job), EmitContext(t.context, job), StoreState(t.after), ClearPending];
    ClosingIsOk(plan, d3, q, job);
    OkFrom(plan, d2, StorePending(q), rest);
    OkFrom(plan, d1, Record(t.anchor), [StorePending(q)] + rest);
    OkFrom(plan, d, SubmitJob(job), [Record(t.anchor)] + ([StorePending(q)] + rest));
    assert Finish(p, recipe) == [SubmitJob(job)] + ([Record(t.anchor)] + ([StorePending(q)] + rest));
  }

  lemma RecoverIsOk(plan: Plan, d: Disk, p: Pending, req: Request)
    requires d.pending == Some(p) && p.ticket.before != p.ticket.after
    ensures StepsOk(plan, d, Recover(d, p, req))
  {
    if ModeMatches(req.wanted, p.mode) {
      if d.state == p.ticket.after {
        OkFrom(plan, Apply(d, Record(p.ticket.anchor)), ClearPending, []);
        OkFrom(plan, d, Record(p.ticket.anchor), [ClearPending] + []);
        assert [Record(p.ticket.anchor)] + ([ClearPending] + []) == [Record(p.ticket.anchor), ClearPending];
      } else if d.state == p.ticket.before {
        if p.phase.Submitted? && p.recipe != req.recipe {
          FinishIsOk(plan, Apply(d, Supersede(p.phase.job)), p, req.recipe);
          OkFrom(plan, d, Supersede(p.phase.job), Finish(p, req.recipe));
        } else {
          FinishIsOk(plan, d, p, req.recipe);
        }
      }
    }
  }

  lemma BeginIsOk(plan: Plan, d: Disk, req: Request)
    requires d.pending.None? && Offers(plan, d.state, req.offer)
    ensures StepsOk(plan, d, Begin(d, req))
  {
    ChoiceAdvancesTheCycle(plan.catalog, plan.sh, d.state, plan.cfg);
    match req.offer
    case Paused =>
    case NoSources(catalog) => IdleIsOk(plan, d, PlannerState(catalog, 1, 0, d.state.cycle + 1));
    case Ready(selection, context, anchor, catalog, epoch, cursor, mode) =>
      var after := PlannerState(catalog, epoch, cursor, d.state.cycle + 1);
      var p := Pending(Ticket(selection, context, anchor, d.state, after), mode, Prepared, req.recipe);
      FinishIsOk(plan, Apply(d, StorePending(p)), p, req.recipe);
      OkFrom(plan, d, StorePending(p), Finish(p, req.recipe));
  }

  lemma IdleIsOk(plan: Plan, d: Disk, next: PlannerState)
    requires d.pending.None? && plan.Choice(d.state).Idle?
    requires next.catalog == Some(plan.catalog.digest) && next.epoch == 1 && next.cursor == 0
    requires next.cycle == d.state.cycle + 1
    ensures StepsOk(plan, d, [StoreState(next)])
  {
    OkFrom(plan, d, StoreState(next), []);
    assert [StoreState(next)] + [] == [StoreState(next)];
  }

  /**
   Whatever calls are made under an unchanged catalog, and wherever each is stopped, the
   planner's state is where a run of the schedule has come to, one choice for each time
   the state moved.
   */
  lemma {:induction false} CrashesKeepToTheSchedule(plan: Plan, start: Disk, calls: seq<Call>)
    requires Initial(start) && EachOffered(plan, start, calls)
    ensures InStep(plan, start.state, After(start, calls))
  {
    if calls != [] {
      var before, last := calls[..|calls| - 1], calls[|calls| - 1];
      CrashesKeepToTheSchedule(plan, start, before);
      EverySelectionAdvancesOnce(Start(start, None), before);
      var b := After(start, before);
      if b.pending.Some? { RecoverIsOk(plan, b, b.pending.value, last.req); } else { BeginIsOk(plan, b, last.req); }
      StoppedStaysInStep(plan, start.state, b, PlanOnce(b, last.req), last.done);
    }
  }

  /** So crashes cost no coverage: an epoch begun and left by stopped calls covers the whole catalog. */
  lemma EpochCoveredDespiteCrashes(plan: Plan, start: Disk, calls: seq<Call>, e: nat)
    requires Stage(plan.catalog, plan.sh, plan.cfg) && Settled(plan.catalog, start.state)
    requires Initial(start) && EachOffered(plan, start, calls)
    ensures
      var f := After(start, calls);
      start.state.epoch < e < f.state.epoch || (e == start.state.epoch < f.state.epoch && start.state.cursor == 0) ==>
        multiset(Covered(ChoicesOf(plan, start.state, f.log), e)) == multiset(plan.catalog.entries)
  {
    CrashesKeepToTheSchedule(plan, start, calls);
    var f := After(start, calls);
    var run := ChoicesOf(plan, start.state, f.log);
    ChoicesAreRun(plan, start.state, f.log);
    if start.state.epoch < e < f.state.epoch || (e == start.state.epoch < f.state.epoch && start.state.cursor == 0) {
      EpochCoversTheCatalog(plan.catalog, plan.sh, plan.cfg, start.state, run, e);
    }
  }
}
