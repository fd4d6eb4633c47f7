/**
 Admission of a manual run: one StartUnit request to the systemd manager, and what
 its answer is evidence of.
 */
module SystemdAdmission {
  import opened Journal
  import opened BrokerRules
  import opened QueueRules

  /** The manager's answer: a job number, or nothing usable. */
  datatype ManagerReply = NoJob | JobPath(path: nat)

  /** A StartUnit request that was sent, the boot it was sent under, and the answer. */
  datatype StartRequest = StartRequest(id: Id, service: nat, boot: nat, reply: ManagerReply)

  datatype DispatchIo = DispatchIo(
    authority: bool,
    snapshot: Snapshot,
    gateHeld: bool,
    live: Observation,
    chainIdle: bool,
    bootBeforeReadable: bool,
    drift: nat,
    reply: ManagerReply,
    laterDrift: nat,
    bootAfterReadable: bool,
    ends: bool)

  datatype DispatchStep = DispatchStep(started: seq<StartRequest>, boot: nat, ended: bool, out: Outcome)

  predicate DispatchAdmitted(op: Operation, io: DispatchIo) {
    && io.authority
    && io.gateHeld
    && io.live.Observed?
    && Preflight(op, io.snapshot)
    && io.live.live.schedule == io.snapshot.schedule
    && io.live.live.execution == io.snapshot.execution
    && io.live.live.schedule == Paused
    && io.live.live.execution != ExecutionFailed
    && io.chainIdle
    && io.bootBeforeReadable
  }

  /** One call of `dispatch`, under boot `boot`. */
  function Dispatch(op: Operation, boot: nat, io: DispatchIo): DispatchStep {
    if !DispatchAdmitted(op, io) then DispatchStep([], boot, false, Failed)
    else
      var sentUnder := boot + io.drift;
      var after := sentUnder + io.laterDrift;
      var request := StartRequest(op.id, op.service, sentUnder, io.reply);
      var out :=
        if io.reply.JobPath? && ValidJob(io.reply.path) && io.bootAfterReadable && after == boot
        then Job(op.id, op.service, io.reply.path, boot) else Failed;
      DispatchStep([request], after, io.ends, out)
  }

  /** A StartUnit request for `op` was sent under `boot` and answered with job `path`. */
  predicate SentFor(started: seq<StartRequest>, op: Operation, path: nat, boot: nat) {
    StartRequest(op.id, op.service, boot, JobPath(path)) in started
  }

  /** At most one StartUnit request was ever sent for any request id. */
  ghost predicate SentOnce(started: seq<StartRequest>) {
    forall i, j :: 0 <= i < |started| && 0 <= j < |started| && started[i].id == started[j].id ==> i == j
  }

  /** A job identity is handed out only for a StartUnit request sent, and answered, under the recorded boot. */
  lemma DispatchEvidence(op: Operation, boot: nat, io: DispatchIo, started: seq<StartRequest>)
    ensures
      var step := Dispatch(op, boot, io);
      forall path, at :: VerdictFor(op, step.out) == JobAccepted(path, at) ==>
        op.action == RunOnce && SentFor(started + step.started, op, path, at)
  {
    var step := Dispatch(op, boot, io);
    if step.out.Job? {
      var all := started + step.started;
      assert all[|started|] == StartRequest(op.id, op.service, step.out.boot, JobPath(step.out.path));
    }
  }
}
