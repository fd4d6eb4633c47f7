/**
 The planner as it runs: each durable effect in turn, with the call ending wherever the
 process does.
 */
module InputPlanner {
  import opened Utf8Text
  import opened PlannerSchedule
  import opened PlannerJournal

  class Planner {
    var disk: Disk
    /** How many more effects this process will live to make. */
    var left: nat

    constructor (d: Disk, lives: nat)
      ensures disk == d && left == lives
    {
      disk, left := d, lives;
    }

    /** One durable effect, or the end of the process. */
    method Do(step: Step, ghost entry: Disk, ghost played: seq<Step>) returns (alive: bool)
      requires disk == Play(entry, played)
      modifies this
      ensures alive == (old(left) > 0)
      ensures alive ==> left == old(left) - 1 && disk == Play(entry, played + [step])
      ensures !alive ==> disk == old(disk) && left == 0
    {
      alive := left > 0;
      if alive {
        PlayLast(entry, played + [step]);
        assert (played + [step])[..|played|] == played;
        disk := Apply(disk, step);
        left := left - 1;
      }
    }

    /** From the submission to the cleared journal. */
    method FinishPending(p: Pending, recipe: nat, ghost entry: Disk, ghost before: seq<Step>)
      requires disk == Play(entry, before)
      modifies this
      ensures disk == Play(entry, before + Stopped(Finish(p, recipe), old(left)))
    {
      ghost var steps := Finish(p, recipe);
      var t, job := p.ticket, Job(p.ticket.context, recipe);
      assert before + steps[..0] == before;
      var alive := Do(SubmitJob(job), entry, before);
      if !alive { return; }
      assert before + [steps[0]] == before + steps[..1];
      alive := Do(Record(t.anchor), entry, before + steps[..1]);
      if !alive { return; }
      assert before + steps[..1] + [steps[1]] == before + steps[..2];
      alive := Do(StorePending(p.(phase := Submitted(job), recipe := recipe)), entry, before + steps[..2]);
      if !alive { return; }
      assert before + steps[..2] + [steps[2]] == before + steps[..3];
      alive := Do(EmitInput(t.selection, job), entry, before + steps[..3]);
      if !alive { return; }
      assert before + steps[..3] + [steps[3]] == before + steps[..4];
      alive := Do(EmitContext(t.context, job), entry, before + steps[..4]);
      if !alive { return; }
      assert before + steps[..4] + [steps[4]] == before + steps[..5];
      alive := Do(StoreState(t.after), entry, before + steps[..5]);
      if !alive { return; }
      assert before + steps[..5] + [steps[5]] == before + steps[..6];
      alive := Do(ClearPending, entry, before + steps[..6]);
      assert before + steps[..6] + [steps[6]] == before + steps;
    }

    /** A selection left pending by an earlier call is finished first, from its own record. */
    method RecoverPendingSubmission(p: Pending, req: Request)
      requires disk.pending == Some(p)
      modifies this
      ensures disk == Play(old(disk), Stopped(Recover(old(disk), p, req), old(left)))
    {
      ghost var entry := disk;
      if !ModeMatches(req.wanted, p.mode) { return; }
      if disk.state == p.ticket.after {
        assert [] + [Record(p.ticket.anchor)] == [Record(p.ticket.anchor)];
        var alive := Do(Record(p.ticket.anchor), entry, []);
        if !alive { return; }
        alive := Do(ClearPending, entry, [Record(p.ticket.anchor)]);
        assert [Record(p.ticket.anchor)] + [ClearPending] == [Record(p.ticket.anchor), ClearPending];
        return;
      }
      if disk.state != p.ticket.before { return; }
      if p.phase.Submitted? && p.recipe != req.recipe {
        ghost var steps := [Supersede(p.phase.job)] + Finish(p, req.recipe);
        assert [] + [Supersede(p.phase.job)] == [Supersede(p.phase.job)];
        var alive := Do(Supersede(p.phase.job), entry, []);
        if !alive { return; }
        ghost var lives := left;
        FinishPending(p, req.recipe, entry, [Supersede(p.phase.job)]);
        assert [Supersede(p.phase.job)] + Stopped(Finish(p, req.recipe), lives) == Stopped(steps, old(left));
      } else {
        FinishPending(p, req.recipe, entry, []);
        assert [] + Stopped(Finish(p, req.recipe), old(left)) == Stopped(Finish(p, req.recipe), old(left));
      }
    }

    /** One call of the planner, ended after as many effects as the process lives for. */
    method Plan(req: Request)
      modifies this
      ensures disk == Play(old(disk), Stopped(PlanOnce(old(disk), req), old(left)))
    {
      if disk.pending.Some? {
        RecoverPendingSubmission(disk.pending.value, req);
        return;
      }
      ghost var entry := disk;
      match req.offer {
        case Paused =>
        case NoSources(catalog) =>
          var next := PlannerState(catalog, 1, 0, disk.state.cycle + 1);
          assert [] + [StoreState(next)] == [StoreState(next)];
          var _ := Do(StoreState(next), entry, []);
        case Ready(selection, context, anchor, catalog, epoch, cursor, mode) =>
          var after := PlannerState(catalog, epoch, cursor, disk.state.cycle + 1);
          var p := Pending(Ticket(selection, context, anchor, disk.state, after), mode, Prepared, req.recipe);
          ghost var steps := [StorePending(p)] + Finish(p, req.recipe);
          assert [] + [StorePending(p)] == [StorePending(p)];
          var alive := Do(StorePending(p), entry, []);
          if !alive { return; }
          ghost var lives := left;
          FinishPending(p, req.recipe, entry, [StorePending(p)]);
          assert [StorePending(p)] + Stopped(Finish(p, req.recipe), lives) == Stopped(steps, old(left));
      }
    }
  }
}
