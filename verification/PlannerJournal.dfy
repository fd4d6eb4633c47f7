/**
 The planner's write-ahead journal. A selection is written down as pending before its job
 is submitted, and cleared only after the planner's state has moved on; whatever call
 comes after an interruption first finishes the pending selection.

 Every durable effect is one step, and a call may end after any of them. Submitting a job
 is idempotent for one context and recipe, and superseding one is idempotent too.
 */
module PlannerJournal {
  import opened Utf8Text
  import opened PlannerSchedule

  datatype Job = Job(context: nat, recipe: nat)

  /** One journalled selection and the move it makes. */
  datatype Ticket = Ticket(selection: nat, context: nat, anchor: nat, before: PlannerState, after: PlannerState)

  datatype Phase = Prepared | Submitted(job: Job)

  datatype Mode = Legacy | Semantic(index: nat, policy: nat)

  /** What production is configured for; the active index matches whatever the journal holds. */
  datatype WantedMode = WantsLegacy | WantsSemantic(index: Option<nat>, policy: nat)

  datatype Pending = Pending(ticket: Ticket, mode: Mode, phase: Phase, recipe: nat)

  datatype Mark = Begins(ticket: Ticket) | Advances(ticket: Ticket, to: PlannerState) | Idles(to: PlannerState)

  /** What is on disk, and in `log` the history of selections begun and moves made. */
  datatype Disk = Disk(
    state: PlannerState, pending: Option<Pending>, jobs: set<Job>, superseded: set<Job>,
    lastSubmission: Option<nat>, inputs: set<(nat, Job)>, contexts: set<(nat, Job)>, log: seq<Mark>)

  datatype Step =
    | StorePending(p: Pending) | SubmitJob(job: Job) | Supersede(job: Job) | Record(anchor: nat)
    | EmitInput(selection: nat, job: Job) | EmitContext(context: nat, job: Job)
    | StoreState(s: PlannerState) | ClearPending

  datatype Fresh =
    | Paused
    | NoSources(catalog: Option<nat>)
    | Ready(selection: nat, context: nat, anchor: nat, catalog: Option<nat>, epoch: nat, cursor: nat, mode: Mode)

  datatype Request = Request(wanted: WantedMode, recipe: nat, offer: Fresh)

  // ----- one step -----

  function Later(last: Option<nat>, anchor: nat): Option<nat> {
    if last.Some? && anchor < last.value then last else Some(anchor)
  }

  function Apply(d: Disk, step: Step): Disk {
    match step
    case StorePending(p) => d.(pending := Some(p), log := if p.phase.Prepared? then d.log + [Begins(p.ticket)] else d.log)
    case SubmitJob(job) => d.(jobs := d.jobs + {job})
    case Supersede(job) => d.(superseded := d.superseded + {job})
    case Record(anchor) => d.(lastSubmission := Later(d.lastSubmission, anchor))
    case EmitInput(selection, job) => d.(inputs := d.inputs + {(selection, job)})
    case EmitContext(context, job) => d.(contexts := d.contexts + {(context, job)})
    case StoreState(s) =>
      d.(state := s, log := d.log + [if d.pending.Some? then Advances(d.pending.value.ticket, s) else Idles(s)])
    case ClearPending => d.(pending := None)
  }

  function Play(d: Disk, steps: seq<Step>): Disk
    decreases |steps|
  {
    if steps == [] then d else Play(Apply(d, steps[0]), steps[1..])
  }

  // ----- one call -----

  predicate ModeMatches(wanted: WantedMode, mode: Mode) {
    match mode
    case Legacy => wanted.WantsLegacy?
    case Semantic(index, policy) =>
      wanted.WantsSemantic? && wanted.policy == policy && (wanted.index == None || wanted.index == Some(index))
  }

  /** From the submission on, the steps are the same for a fresh selection and a recovered one. */
  function Finish(p: Pending, recipe: nat): seq<Step> {
    var t, job := p.ticket, Job(p.ticket.context, recipe);
    [SubmitJob(job), Record(t.anchor), StorePending(p.(phase := Submitted(job), recipe := recipe)),
     EmitInput(t.selection, job), EmitContext(t.context, job), StoreState(t.after), ClearPending]
  }

  function Recover(d: Disk, p: Pending, req: Request): seq<Step> {
    if !ModeMatches(req.wanted, p.mode) then []
    else if d.state == p.ticket.after then [Record(p.ticket.anchor), ClearPending]
    else if d.state != p.ticket.before then []
    else if p.phase.Submitted? && p.recipe != req.recipe then [Supersede(p.phase.job)] + Finish(p, req.recipe)
    else Finish(p, req.recipe)
  }

  function Begin(d: Disk, req: Request): seq<Step> {
    match req.offer
    case Paused => []
    case NoSources(catalog) => [StoreState(PlannerState(catalog, 1, 0, d.state.cycle + 1))]
    case Ready(selection, context, anchor, catalog, epoch, cursor, mode) =>
      var after := PlannerState(catalog, epoch, cursor, d.state.cycle + 1);
      var p := Pending(Ticket(selection, context, anchor, d.state, after), mode, Prepared, req.recipe);
      [StorePending(p)] + Finish(p, req.recipe)
  }

  /** Everything a call does if nothing stops it. */
  function PlanOnce(d: Disk, req: Request): seq<Step> {
    if d.pending.Some? then Recover(d, d.pending.value, req) else Begin(d, req)
  }

  /** A call that was stopped after some of its steps. */
  datatype Call = Call(req: Request, done: nat)

  function Stopped(steps: seq<Step>, n: nat): seq<Step> {
    if n < |steps| then steps[..n] else steps
  }

  function After(d: Disk, calls: seq<Call>): Disk {
    if calls == [] then d
    else
      var last, b := calls[|calls| - 1], After(d, calls[..|calls| - 1]);
      Play(b, Stopped(PlanOnce(b, last.req), last.done))
  }

  // ----- the machine without a journal -----

  /** One selection at a time: it begins, and the next thing that happens is that it moves the state. */
  datatype Machine = Machine(state: PlannerState, open: Option<Ticket>)

  function Tick(m: Machine, mark: Mark): Option<Machine> {
    match mark
    case Begins(t) => if m.open.None? && t.before == m.state then Some(Machine(m.state, Some(t))) else None
    case Advances(t, to) => if m.open == Some(t) && to == t.after then Some(Machine(to, None)) else None
    case Idles(to) => if m.open.None? then Some(Machine(to, None)) else None
  }

  function Replay(s0: PlannerState, log: seq<Mark>): Option<Machine> {
    if log == [] then Some(Machine(s0, None))
    else
      match Replay(s0, log[..|log| - 1])
      case None => None
      case Some(m) => Tick(m, log[|log| - 1])
  }

  lemma ReplayOneMore(s0: PlannerState, log: seq<Mark>, mark: Mark)
    requires Replay(s0, log).Some?
    ensures Replay(s0, log + [mark]) == Tick(Replay(s0, log).value, mark)
  {
    assert (log + [mark])[..|log|] == log;
  }

  // ----- what every step keeps -----

  /** Everything due before the state may move on has been done for this job. */
  predicate Announced(d: Disk, t: Ticket, job: Job) {
    && job in d.jobs
    && d.lastSubmission.Some? && d.lastSubmission.value >= t.anchor
    && (t.selection, job) in d.inputs && (t.context, job) in d.contexts
  }

  predicate PendingOk(d: Disk, p: Pending) {
    && p.ticket.after.cycle == p.ticket.before.cycle + 1
    && (d.state == p.ticket.before || d.state == p.ticket.after)
    && (p.phase.Submitted? ==> p.phase.job == Job(p.ticket.context, p.recipe) && p.phase.job in d.jobs)
    && (d.state == p.ticket.after ==> p.phase.Submitted? && Announced(d, p.ticket, p.phase.job))
  }

  function OpenTicket(d: Disk): Option<Ticket> {
    if d.pending.Some? && d.state == d.pending.value.ticket.before then Some(d.pending.value.ticket) else None
  }

  /** Where a run starts, and the recipe it keeps to, if it keeps to one. */
  datatype Start = Start(disk: Disk, recipe: Option<nat>)

  ghost predicate Begun(d: Disk, t: Ticket) {
    Begins(t) in d.log
  }

  predicate Advanced(d: Disk, t: Ticket) {
    Advances(t, t.after) in d.log
  }

  /** Under one recipe: no job is superseded, and each selection has the one job of that recipe. */
  ghost predicate Ledger(start: Disk, recipe: nat, d: Disk) {
    && d.superseded == start.superseded
    && (d.pending.Some? ==> d.pending.value.recipe == recipe && Begun(d, d.pending.value.ticket))
    && (forall job :: job in d.jobs && job !in start.jobs ==> job.recipe == recipe && Wanted(d, job))
    && (forall t :: Advanced(d, t) ==> Announced(d, t, Job(t.context, recipe)))
  }

  ghost predicate Wanted(d: Disk, job: Job) {
    exists t :: Begun(d, t) && t.context == job.context
  }

  /** The disk's history is one the simple machine allows, and it is where that machine is. */
  ghost predicate Consistent(start: Start, d: Disk) {
    && Replay(start.disk.state, d.log) == Some(Machine(d.state, OpenTicket(d)))
    && (d.pending.Some? ==> PendingOk(d, d.pending.value))
    && (start.recipe.Some? ==> Ledger(start.disk, start.recipe.value, d))
  }

  /** The steps may be stopped anywhere. */
  ghost predicate Stoppable(start: Start, d: Disk, steps: seq<Step>)
    decreases |steps|
  {
    Consistent(start, d) && (steps == [] || Stoppable(start, Apply(d, steps[0]), steps[1..]))
  }

  lemma {:induction false} StoppedIsConsistent(start: Start, d: Disk, steps: seq<Step>, n: nat)
    requires Stoppable(start, d, steps)
    ensures Consistent(start, Play(d, Stopped(steps, n)))
    decreases |steps|
  {
    if n == 0 || steps == [] {
      assert Stopped(steps, n) == [];
    } else {
      StoppedIsConsistent(start, Apply(d, steps[0]), steps[1..], n - 1);
      StoppedLater(d, steps, n);
    }
  }

  lemma StoppedLater(d: Disk, steps: seq<Step>, n: nat)
    requires n > 0 && steps != []
    ensures Play(d, Stopped(steps, n)) == Play(Apply(d, steps[0]), Stopped(steps[1..], n - 1))
  {
    assert Stopped(steps, n)[1..] == Stopped(steps[1..], n - 1);
  }

  lemma StoppableFrom(start: Start, d: Disk, step: Step, rest: seq<Step>)
    requires Consistent(start, d) && Stoppable(start, Apply(d, step), rest)
    ensures Stoppable(start, d, [step] + rest)
  {
    assert ([step] + rest)[1..] == rest;
  }

  /** Not a step that touches the state, the pending selection or the history. */
  predicate Aside(step: Step) {
    step.SubmitJob? || step.Supersede? || step.Record? || step.EmitInput? || step.EmitContext?
  }

  /** Under one recipe, only that recipe's job is submitted, for a selection begun, and none is superseded. */
  ghost predicate Lawful(start: Start, d: Disk, step: Step) {
    start.recipe.Some? ==>
      && !step.Supersede?
      && (step.SubmitJob? ==> step.job.recipe == start.recipe.value && Wanted(d, step.job))
  }

  lemma AsideIsConsistent(start: Start, d: Disk, step: Step)
    requires Consistent(start, d) && Aside(step) && Lawful(start, d, step)
    ensures Consistent(start, Apply(d, step))
  {
  }

  lemma FinishIsStoppable(start: Start, d: Disk, p: Pending, recipe: nat)
    requires Consistent(start, d) && d.pending == Some(p) && d.state == p.ticket.before
    requires start.recipe.Some? ==> recipe == start.recipe.value
    ensures Stoppable(start, d, Finish(p, recipe))
  {
    var t, job := p.ticket, Job(p.ticket.context, recipe);
    var q := p.(phase := Submitted(job), recipe := recipe);
    var d1 := Apply(d, SubmitJob(job));
    var d2 := Apply(d1, Record(t.anchor));
    var d3 := Apply(d2, StorePending(q));
    AsideIsConsistent(start, d, SubmitJob(job));
    AsideIsConsistent(start, d1, Record(t.anchor));
    assert Consistent(start, d3);
    ClosingIsStoppable(start, d3, q);
    var rest := [EmitInput(t.selection, job), EmitContext(t.context, job), StoreState(t.after), ClearPending];
    StoppableFrom(start, d2, StorePending(q), rest);
    StoppableFrom(start, d1, Record(t.anchor), [StorePending(q)] + rest);
    StoppableFrom(start, d, SubmitJob(job), [Record(t.anchor)] + ([StorePending(q)] + rest));
    assert Finish(p, recipe) == [SubmitJob(job)] + ([Record(t.anchor)] + ([StorePending(q)] + rest));
  }

  /** Moving the state and clearing the journal, once everything has been announced. */
  lemma MovingIsStoppable(start: Start, d: Disk, q: Pending)
    requires Consistent(start, d) && d.pending == Some(q) && d.state == q.ticket.before && q.phase.Submitted?
    requires Announced(d, q.ticket, q.phase.job)
    ensures Stoppable(start, d, [StoreState(q.ticket.after), ClearPending])
  {
    var t := q.ticket;
    var moved := Apply(d, StoreState(t.after));
    var clear := Apply(moved, ClearPending);
    ReplayOneMore(start.disk.state, d.log, Advances(t, t.after));
    MovedIsConsistent(start, d, q);
    assert Stoppable(start, clear, []);
    StoppableFrom(start, moved, ClearPending, []);
    StoppableFrom(start, d, StoreState(t.after), [ClearPending]);
    assert [StoreState(t.after)] + [ClearPending] == [StoreState(t.after), ClearPending];
  }

  lemma MovedIsConsistent(start: Start, d: Disk, q: Pending)
    requires Consistent(start, d) && d.pending == Some(q) && d.state == q.ticket.before && q.phase.Submitted?
    requires Announced(d, q.ticket, q.phase.job)
    ensures
      var moved := Apply(d, StoreState(q.ticket.after));
      Consistent(start, moved) && Consistent(start, Apply(moved, ClearPending))
  {
    var t := q.ticket;
    ReplayOneMore(start.disk.state, d.log, Advances(t, t.after));
    if start.recipe.Some? { LedgerAfterMoving(start.disk, start.recipe.value, d, q); }
  }

  lemma LedgerAfterMoving(start: Disk, recipe: nat, d: Disk, q: Pending)
    requires Ledger(start, recipe, d) && d.pending == Some(q) && q.phase.Submitted? && PendingOk(d, q)
    requires Announced(d, q.ticket, q.phase.job)
    ensures
      var moved := Apply(d, StoreState(q.ticket.after));
      Ledger(start, recipe, moved) && Ledger(start, recipe, Apply(moved, ClearPending))
  {
    var moved := Apply(d, StoreState(q.ticket.after));
    forall job | job in moved.jobs && job !in start.jobs
      ensures Wanted(moved, job) && Wanted(Apply(moved, ClearPending), job)
    {
      var t :| Begun(d, t) && t.context == job.context;
      assert Begun(moved, t) && Begun(Apply(moved, ClearPending), t);
    }
  }

  /** From the submitted selection to the cleared journal. */
  lemma ClosingIsStoppable(start: Start, d: Disk, q: Pending)
    requires Consistent(start, d) && d.pending == Some(q) && d.state == q.ticket.before && q.phase.Submitted?
    requires d.lastSubmission.Some? && d.lastSubmission.value >= q.ticket.anchor
    ensures var t, job := q.ticket, q.phase.job;
      Stoppable(start, d, [EmitInput(t.selection, job), EmitContext(t.context, job), StoreState(t.after), ClearPending])
  {
    var t, job := q.ticket, q.phase.job;
    var d1 := Apply(d, EmitInput(t.selection, job));
    var d2 := Apply(d1, EmitContext(t.context, job));
    var rest := [StoreState(t.after), ClearPending];
    AsideIsConsistent(start, d, EmitInput(t.selection, job));
    AsideIsConsistent(start, d1, EmitContext(t.context, job));
    MovingIsStoppable(start, d2, q);
    StoppableFrom(start, d1, EmitContext(t.context, job), rest);
    StoppableFrom(start, d, EmitInput(t.selection, job), [EmitContext(t.context, job)] + rest);
    assert [EmitInput(t.selection, job), EmitContext(t.context, job), StoreState(t.after), ClearPending]
        == [EmitInput(t.selection, job)] + ([EmitContext(t.context, job)] + rest);
  }

  lemma RecoverIsStoppable(start: Start, d: Disk, req: Request)
    requires Consistent(start, d) && d.pending.Some?
    requires start.recipe.Some? ==> req.recipe == start.recipe.value
    ensures Stoppable(start, d, Recover(d, d.pending.value, req))
  {
    var p := d.pending.value;
    if ModeMatches(req.wanted, p.mode) {
      if d.state == p.ticket.after {
        var d1 := Apply(d, Record(p.ticket.anchor));
        AsideIsConsistent(start, d, Record(p.ticket.anchor));
        assert Consistent(start, Apply(d1, ClearPending));
        assert Stoppable(start, Apply(d1, ClearPending), []);
        StoppableFrom(start, d1, ClearPending, []);
        StoppableFrom(start, d, Record(p.ticket.anchor), [ClearPending]);
        assert [Record(p.ticket.anchor), ClearPending] == [Record(p.ticket.anchor)] + [ClearPending];
      } else if p.phase.Submitted? && p.recipe != req.recipe {
        AsideIsConsistent(start, d, Supersede(p.phase.job));
        FinishIsStoppable(start, Apply(d, Supersede(p.phase.job)), p, req.recipe);
        StoppableFrom(start, d, Supersede(p.phase.job), Finish(p, req.recipe));
      } else {
        FinishIsStoppable(start, d, p, req.recipe);
      }
    }
  }

  lemma BeginningIsConsistent(start: Start, d: Disk, p: Pending)
    requires Consistent(start, d) && d.pending.None?
    requires p.phase.Prepared? && p.ticket.before == d.state && p.ticket.after.cycle == d.state.cycle + 1
    requires start.recipe.Some? ==> p.recipe == start.recipe.value
    ensures Consistent(start, Apply(d, StorePending(p)))
  {
    ReplayOneMore(start.disk.state, d.log, Begins(p.ticket));
    if start.recipe.Some? { LedgerAfterBeginning(start.disk, start.recipe.value, d, p); }
  }

  lemma LedgerAfterBeginning(start: Disk, recipe: nat, d: Disk, p: Pending)
    requires Ledger(start, recipe, d) && p.phase.Prepared? && p.recipe == recipe
    ensures Ledger(start, recipe, Apply(d, StorePending(p)))
  {
    var f := Apply(d, StorePending(p));
    forall job | job in f.jobs && job !in start.jobs
      ensures Wanted(f, job)
    {
      var t :| Begun(d, t) && t.context == job.context;
      assert Begun(f, t);
    }
  }

  lemma IdlingIsConsistent(start: Start, d: Disk, next: PlannerState)
    requires Consistent(start, d) && d.pending.None?
    ensures Consistent(start, Apply(d, StoreState(next)))
  {
    ReplayOneMore(start.disk.state, d.log, Idles(next));
    if start.recipe.Some? {
      var f := Apply(d, StoreState(next));
      forall job | job in f.jobs && job !in start.disk.jobs
        ensures Wanted(f, job)
      {
        var t :| Begun(d, t) && t.context == job.context;
        assert Begun(f, t);
      }
    }
  }

  lemma JournallingIsStoppable(start: Start, d: Disk, p: Pending)
    requires Consistent(start, d) && d.pending.None?
    requires p.phase.Prepared? && p.ticket.before == d.state && p.ticket.after.cycle == d.state.cycle + 1
    requires start.recipe.Some? ==> p.recipe == start.recipe.value
    ensures Stoppable(start, d, [StorePending(p)] + Finish(p, p.recipe))
  {
    BeginningIsConsistent(start, d, p);
    FinishIsStoppable(start, Apply(d, StorePending(p)), p, p.recipe);
    StoppableFrom(start, d, StorePending(p), Finish(p, p.recipe));
  }

  lemma IdlingIsStoppable(start: Start, d: Disk, next: PlannerState)
    requires Consistent(start, d) && d.pending.None?
    ensures Stoppable(start, d, [StoreState(next)])
  {
    IdlingIsConsistent(start, d, next);
    StoppableFrom(start, d, StoreState(next), []);
    assert [StoreState(next)] == [StoreState(next)] + [];
  }

  lemma BeginIsStoppable(start: Start, d: Disk, req: Request)
    requires Consistent(start, d) && d.pending.None?
    requires start.recipe.Some? ==> req.recipe == start.recipe.value
    ensures Stoppable(start, d, Begin(d, req))
  {
    var steps := Begin(d, req);
    match req.offer
    case Paused =>
    case NoSources(catalog) =>
      IdlingIsStoppable(start, d, steps[0].s);
    case Ready(selection, context, anchor, catalog, epoch, cursor, mode) =>
      var p := steps[0].p;
      assert steps == [StorePending(p)] + Finish(p, p.recipe);
      JournallingIsStoppable(start, d, p);
  }

  // ----- the theorems -----

  /** Nothing pending and nothing in the history yet; whatever jobs there are, are there. */
  predicate Initial(d: Disk) {
    d.pending.None? && d.log == []
  }

  predicate KeepsRecipe(calls: seq<Call>, recipe: nat) {
    forall i :: 0 <= i < |calls| ==> calls[i].req.recipe == recipe
  }

  /**
   Whatever calls are made and wherever each is stopped, the history is that of the simple
   machine: every journalled selection moves the state exactly once, to the state written
   down with it, before anything else moves it or is journalled.
   */
  lemma {:induction false} EverySelectionAdvancesOnce(start: Start, calls: seq<Call>)
    requires Initial(start.disk)
    requires start.recipe.Some? ==> KeepsRecipe(calls, start.recipe.value)
    ensures Consistent(start, After(start.disk, calls))
  {
    if calls != [] {
      var last := calls[|calls| - 1];
      EverySelectionAdvancesOnce(start, calls[..|calls| - 1]);
      var b := After(start.disk, calls[..|calls| - 1]);
      if b.pending.Some? { RecoverIsStoppable(start, b, last.req); } else { BeginIsStoppable(start, b, last.req); }
      StoppedIsConsistent(start, b, PlanOnce(b, last.req), last.done);
    }
  }

  /**
   Under one recipe, a selection that moved the state has its job, its cadence record and
   both projections; no other job was ever made for a context of this run, and none was
   superseded.
   */
  lemma OneJobPerSelection(d: Disk, calls: seq<Call>, recipe: nat, t: Ticket, job: Job)
    requires Initial(d) && KeepsRecipe(calls, recipe)
    ensures var f := After(d, calls);
      && f.superseded == d.superseded
      && (Advanced(f, t) ==> Announced(f, t, Job(t.context, recipe)))
      && (job in f.jobs && job !in d.jobs ==> job.recipe == recipe && Wanted(f, job))
  {
    EverySelectionAdvancesOnce(Start(d, Some(recipe)), calls);
  }

  /**
   Recovery is never ambiguous: with a selection pending the stored state is its before or
   its after but not both, so a configuration that still wants its mode always finishes it.
   */
  lemma RecoveryIsNeverAmbiguous(d: Disk, calls: seq<Call>, req: Request)
    requires Initial(d)
    ensures var b := After(d, calls);
      b.pending.Some? ==>
        && var t := b.pending.value.ticket;
        && (b.state == t.before <==> b.state != t.after)
        && (PlanOnce(b, req) != [] <==> ModeMatches(req.wanted, b.pending.value.mode))
        && (ModeMatches(req.wanted, b.pending.value.mode) ==>
          Play(b, PlanOnce(b, req)).state == t.after && Play(b, PlanOnce(b, req)).pending.None?)
  {
    EverySelectionAdvancesOnce(Start(d, None), calls);
    var b := After(d, calls);
    if b.pending.Some? && ModeMatches(req.wanted, b.pending.value.mode) {
      RecoveryEffect(b, b.pending.value, req);
    }
  }

  lemma RecoveryEffect(d: Disk, p: Pending, req: Request)
    requires d.pending == Some(p) && ModeMatches(req.wanted, p.mode)
    requires d.state == p.ticket.before || d.state == p.ticket.after
    ensures Play(d, PlanOnce(d, req)).state == p.ticket.after
    ensures Play(d, PlanOnce(d, req)).pending.None?
  {
    if d.state == p.ticket.after {
      var steps := [Record(p.ticket.anchor), ClearPending];
      PlayOne(d, steps);
      assert steps[1..] == [ClearPending];
      PlayOne(Apply(d, steps[0]), [ClearPending]);
    } else {
      FinishAfter(d, p, req);
    }
  }

  /** A recovery that has the submission still to finish, seen as a whole. */
  lemma FinishAfter(d: Disk, p: Pending, req: Request)
    requires d.pending == Some(p) && ModeMatches(req.wanted, p.mode)
    requires d.state == p.ticket.before != p.ticket.after
    ensures var f := Play(d, PlanOnce(d, req));
      && f.state == p.ticket.after && f.pending.None?
      && f.jobs == d.jobs + {Job(p.ticket.context, req.recipe)}
      && f.superseded == d.superseded + (if p.phase.Submitted? && p.recipe != req.recipe then {p.phase.job} else {})
  {
    if p.phase.Submitted? && p.recipe != req.recipe {
      var steps := [Supersede(p.phase.job)] + Finish(p, req.recipe);
      PlayOne(d, steps);
      assert steps[1..] == Finish(p, req.recipe);
      FinishEffect(Apply(d, steps[0]), p, req.recipe);
    } else {
      FinishEffect(d, p, req.recipe);
    }
  }

  /**
   A selection is finished only in the mode it was made in: a semantic one where its own
   policy is wanted, over its own index or over whichever is active.
   */
  lemma FinishedInItsOwnMode(d: Disk, calls: seq<Call>, req: Request)
    requires Initial(d)
    ensures
      var b := After(d, calls);
      b.pending.Some? ==>
        match b.pending.value.mode
        case Legacy => PlanOnce(b, req) != [] <==> req.wanted == WantsLegacy
        case Semantic(index, policy) =>
          PlanOnce(b, req) != [] <==>
            req.wanted == WantsSemantic(None, policy) || req.wanted == WantsSemantic(Some(index), policy)
  {
    RecoveryIsNeverAmbiguous(d, calls, req);
  }

  predicate NotEarlier(a: Option<nat>, b: Option<nat>) {
    a.Some? ==> b.Some? && a.value <= b.value
  }

  lemma {:induction false} CadenceAlongSteps(d: Disk, steps: seq<Step>)
    ensures NotEarlier(d.lastSubmission, Play(d, steps).lastSubmission)
    decreases |steps|
  {
    if steps != [] { CadenceAlongSteps(Apply(d, steps[0]), steps[1..]); }
  }

  /** The cadence record never goes back, whatever is recovered when and wherever calls are stopped. */
  lemma {:induction false} CadenceNeverGoesBack(d: Disk, calls: seq<Call>, more: seq<Call>)
    ensures NotEarlier(After(d, calls).lastSubmission, After(d, calls + more).lastSubmission)
  {
    if more == [] {
      assert calls + more == calls;
    } else {
      var front, last := more[..|more| - 1], more[|more| - 1];
      CadenceNeverGoesBack(d, calls, front);
      assert (calls + more)[..|calls + more| - 1] == calls + front;
      var b := After(d, calls + front);
      CadenceAlongSteps(b, Stopped(PlanOnce(b, last.req), last.done));
    }
  }

  // ----- when the recipe does change -----

  function Live(d: Disk, context: nat): set<Job> {
    set j | j in d.jobs && j !in d.superseded && j.context == context
  }

  /**
   Whatever recipes the calls before had, a recovery leaves the selection with the job of
   the recipe asked for as its only live one exactly when every live job of the context is
   that job or the one written down as submitted, and that job had not been superseded.
   Once the state has moved, recovery leaves the jobs alone.
   */
  lemma RecipeChangeLeavesOneJobExactlyWhen(d: Disk, p: Pending, req: Request)
    requires d.pending == Some(p) && PendingOk(d, p) && ModeMatches(req.wanted, p.mode)
    ensures var c, f := p.ticket.context, Play(d, PlanOnce(d, req));
      d.state == p.ticket.before ==>
        (Live(f, c) == {Job(c, req.recipe)} <==>
          && (forall j :: j in Live(d, c) ==> j == Job(c, req.recipe) || (p.phase.Submitted? && j == p.phase.job))
          && Job(c, req.recipe) !in d.superseded)
    ensures var c, f := p.ticket.context, Play(d, PlanOnce(d, req));
      d.state == p.ticket.after ==> Live(f, c) == Live(d, c)
  {
    var c, f := p.ticket.context, Play(d, PlanOnce(d, req));
    if d.state == p.ticket.before {
      FinishAfter(d, p, req);
      var now := Job(c, req.recipe);
      assert now in Live(f, c) <==> now !in d.superseded;
      assert forall j :: j != now ==>
        (j in Live(f, c) <==> j in Live(d, c) && !(p.phase.Submitted? && j == p.phase.job));
      assert Live(f, c) == {now} <==> now in Live(f, c) && forall j :: j in Live(f, c) ==> j == now;
    } else {
      PlayOne(d, [Record(p.ticket.anchor), ClearPending]);
      PlayOne(Apply(d, Record(p.ticket.anchor)), [ClearPending]);
    }
  }

  /** The same for every run: the condition is on what the calls before left on disk. */
  lemma RunLeavesOneJobExactlyWhen(start: Disk, calls: seq<Call>, req: Request)
    requires Initial(start)
    ensures var d := After(start, calls);
      d.pending.Some? && ModeMatches(req.wanted, d.pending.value.mode) && d.state == d.pending.value.ticket.before ==>
        var p, c := d.pending.value, d.pending.value.ticket.context;
        Live(Play(d, PlanOnce(d, req)), c) == {Job(c, req.recipe)} <==>
          && (forall j :: j in Live(d, c) ==> j == Job(c, req.recipe) || (p.phase.Submitted? && j == p.phase.job))
          && Job(c, req.recipe) !in d.superseded
  {
    EverySelectionAdvancesOnce(Start(start, None), calls);
    var d := After(start, calls);
    if d.pending.Some? && ModeMatches(req.wanted, d.pending.value.mode) {
      RecipeChangeLeavesOneJobExactlyWhen(d, d.pending.value, req);
    }
  }

  // ----- runs in which the recipe changes -----

  const Blank := Disk(PlannerState(None, 1, 0, 0), None, {}, {}, None, {}, {}, [])

  /** The same fresh selection of context 5 under any recipe. */
  function Asking(recipe: nat): Request {
    Request(WantsLegacy, recipe, Ready(7, 5, 1, None, 1, 1, Legacy))
  }

  lemma AfterOneMore(d: Disk, calls: seq<Call>, call: Call)
    ensures var b := After(d, calls);
      After(d, calls + [call]) == Play(b, Stopped(PlanOnce(b, call.req), call.done))
  {
    assert (calls + [call])[..|calls|] == calls;
  }

  lemma PlayTwo(d: Disk, steps: seq<Step>)
    requires |steps| >= 2
    ensures Play(d, steps[..2]) == Apply(Apply(d, steps[0]), steps[1])
  {
    PlayLast(d, steps[..2]);
    PlayLast(d, steps[..1]);
    assert steps[..2][..1] == steps[..1] && steps[..1][..0] == [];
  }

  lemma PlayFour(d: Disk, steps: seq<Step>)
    requires |steps| >= 4
    ensures Play(d, steps[..4]) == Apply(Apply(Apply(Apply(d, steps[0]), steps[1]), steps[2]), steps[3])
  {
    PlayTwo(d, steps);
    PlayLast(d, steps[..4]);
    PlayLast(d, steps[..3]);
    assert steps[..4][..3] == steps[..3] && steps[..3][..2] == steps[..2];
  }

  const SelectedTicket := Ticket(7, 5, 1, Blank.state, PlannerState(None, 1, 1, 1))

  lemma FirstSteps(recipe: nat)
    ensures
      var p := Pending(SelectedTicket, Legacy, Prepared, recipe);
      PlanOnce(Blank, Asking(recipe)) == [StorePending(p)] + Finish(p, recipe)
  {
  }

  /** A first call that stops right after making the job. */
  lemma FirstPrepared(recipe: nat)
    ensures var d := After(Blank, [Call(Asking(recipe), 2)]);
      && d.jobs == {Job(5, recipe)} && d.superseded == {} && d.state == Blank.state
      && d.pending == Some(Pending(SelectedTicket, Legacy, Prepared, recipe))
  {
    FirstSteps(recipe);
    AfterOneMore(Blank, [], Call(Asking(recipe), 2));
    PlayTwo(Blank, PlanOnce(Blank, Asking(recipe)));
    assert [Call(Asking(recipe), 2)] == [] + [Call(Asking(recipe), 2)];
  }

  /** A first call that stops right after writing the job down as submitted. */
  lemma FirstSubmitted(recipe: nat)
    ensures var d := After(Blank, [Call(Asking(recipe), 4)]);
      && d.jobs == {Job(5, recipe)} && d.superseded == {} && d.state == Blank.state
      && d.pending == Some(Pending(SelectedTicket, Legacy, Submitted(Job(5, recipe)), recipe))
  {
    FirstSteps(recipe);
    AfterOneMore(Blank, [], Call(Asking(recipe), 4));
    PlayFour(Blank, PlanOnce(Blank, Asking(recipe)));
    assert [Call(Asking(recipe), 4)] == [] + [Call(Asking(recipe), 4)];
  }

  /**
   A recovery under another recipe that stops after superseding the old job and making the
   new one leaves the old one journalled, and a third recipe then leaves two jobs live.
   */
  lemma ThirdRecipeLeavesTwoJobs()
    ensures var f := After(Blank, [Call(Asking(1), 4)] + [Call(Asking(2), 2)] + [Call(Asking(3), 9)]);
      f.pending.None? && Live(f, 5) == {Job(5, 2), Job(5, 3)}
  {
    var one := [Call(Asking(1), 4)];
    FirstSubmitted(1);
    AfterOneMore(Blank, one, Call(Asking(2), 2));
    var d := After(Blank, one);
    PlayTwo(d, PlanOnce(d, Asking(2)));
    AfterOneMore(Blank, one + [Call(Asking(2), 2)], Call(Asking(3), 9));
    var e := After(Blank, one + [Call(Asking(2), 2)]);
    FinishAfter(e, e.pending.value, Asking(3));
  }

  /** A job made but journalled only as prepared stays live beside the one of the next recipe. */
  lemma PreparedJobStaysLive()
    ensures var f := After(Blank, [Call(Asking(1), 2)] + [Call(Asking(2), 9)]);
      f.pending.None? && Live(f, 5) == {Job(5, 1), Job(5, 2)}
  {
    FirstPrepared(1);
    AfterOneMore(Blank, [Call(Asking(1), 2)], Call(Asking(2), 9));
    var d := After(Blank, [Call(Asking(1), 2)]);
    FinishAfter(d, d.pending.value, Asking(2));
  }

  /** After a change there and back the wanted job has been superseded and none is live. */
  lemma ThereAndBackLeavesNone()
    ensures var f := After(Blank, [Call(Asking(1), 4)] + [Call(Asking(2), 4)] + [Call(Asking(1), 9)]);
      f.pending.None? && Live(f, 5) == {}
  {
    var one := [Call(Asking(1), 4)];
    FirstSubmitted(1);
    AfterOneMore(Blank, one, Call(Asking(2), 4));
    var d := After(Blank, one);
    PlayFour(d, PlanOnce(d, Asking(2)));
    AfterOneMore(Blank, one + [Call(Asking(2), 4)], Call(Asking(1), 9));
    var e := After(Blank, one + [Call(Asking(2), 4)]);
    FinishAfter(e, e.pending.value, Asking(1));
  }

  /** What is on disk once a selection has been finished without interruption. */
  lemma FinishEffect(d: Disk, p: Pending, recipe: nat)
    requires d.pending == Some(p)
    ensures var t, job, f := p.ticket, Job(p.ticket.context, recipe), Play(d, Finish(p, recipe));
      && f.state == t.after && f.pending.None?
      && f.jobs == d.jobs + {job} && f.superseded == d.superseded
      && f.log == d.log + [Advances(t, t.after)]
      && Announced(f, t, job)
  {
    PlaySeven(d, Finish(p, recipe));
  }

  lemma PlayOne(d: Disk, steps: seq<Step>)
    requires steps != []
    ensures Play(d, steps) == Play(Apply(d, steps[0]), steps[1..])
  {
  }

  lemma PlaySeven(d: Disk, steps: seq<Step>)
    requires |steps| == 7
    ensures Play(d, steps)
      == Apply(Apply(Apply(Apply(Apply(Apply(Apply(d, steps[0]), steps[1]), steps[2]), steps[3]), steps[4]), steps[5]), steps[6])
  {
    PlayLast(d, steps);
    PlayLast(d, steps[..6]);
    PlayLast(d, steps[..5]);
    PlayLast(d, steps[..4]);
    PlayLast(d, steps[..3]);
    PlayLast(d, steps[..2]);
    PlayLast(d, steps[..1]);
    assert steps[..6][..5] == steps[..5] && steps[..5][..4] == steps[..4] && steps[..4][..3] == steps[..3];
    assert steps[..3][..2] == steps[..2] && steps[..2][..1] == steps[..1] && steps[..1][..0] == [];
  }

  lemma {:induction false} PlayLast(d: Disk, steps: seq<Step>)
    requires steps != []
    ensures Play(d, steps) == Apply(Play(d, steps[..|steps| - 1]), steps[|steps| - 1])
    decreases |steps|
  {
    if |steps| > 1 {
      PlayLast(Apply(d, steps[0]), steps[1..]);
      assert steps[1..][..|steps| - 2] == steps[..|steps| - 1][1..];
    }
  }
}
