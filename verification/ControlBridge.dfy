/**
 The worker: claim one accepted operation, run it through the broker or the systemd
 manager, settle what came back.
 */
module ControlBridge {
  import opened Journal
  import opened QueueRules
  import opened OperationQueue
  import opened BrokerRules
  import opened SystemdAdmission
  import opened ControlPlane

  /** The host's systemd: every command and StartUnit request that was ever sent to it, and the current boot. */
  class Host {
    var boot: nat
    var issued: seq<Issued>
    var started: seq<StartRequest>

    constructor ()
      ensures boot == 0 && issued == [] && started == []
    {
      boot, issued, started := 0, [], [];
    }
  }

  class OperationBroker {
    const host: Host
    var volume: Volume

    constructor (host: Host)
      ensures this.host == host && volume == EmptyVolume
    {
      this.host := host;
      volume := EmptyVolume;
    }

    method Create(n: Name, r: Record, fate: StoreFate) returns (p: Progress)
      modifies this
      ensures (volume, p) == StoreNew(old(volume), n, r, fate)
    {
      var (v, q) := StoreNew(volume, n, r, fate);
      volume := v;
      p := q;
    }

    /** Send the command; the answer and the later observation are the environment's. */
    method IssueCommand(op: Operation, io: BrokerIo)
      requires io.before.Observed?
      modifies host
      ensures host.issued == old(host.issued) + [IssuedUnder(op, old(host.boot), io)]
      ensures host.boot == old(host.boot) + io.drift + io.laterDrift && host.started == old(host.started)
    {
      host.boot := host.boot + io.drift;
      host.issued := host.issued
        + [Issued(op, CommandFor(op.action), host.boot, io.before.live.startMonotonic, io.answered, io.after)];
      host.boot := host.boot + io.laterDrift;
    }

    /** Journal, issue, observe, record: at most one command per id. */
    method Apply(op: Operation, now: nat, io: BrokerIo) returns (reply: BrokerReply)
      modifies this, host
      ensures BrokerStep(volume, host.issued, host.boot, reply)
           == var step := ApplyOperation(old(volume), op, now, old(host.boot), io);
              step.(issued := old(host.issued) + step.issued)
      ensures host.started == old(host.started)
    {
      if !io.authority || !Preflight(op, io.snapshot) { return BrokerRefused; }
      if Marker in volume.seen || Request(op.id) in volume.seen || Result(op.id) in volume.seen { return BrokerRefused; }
      if !io.gateHeld || io.before.Unverified? { return BrokerRefused; }
      var live := io.before.live;
      if live.schedule != io.snapshot.schedule || live.execution != io.snapshot.execution { return BrokerRefused; }
      if !io.snapshot.currentUnderGate || !StateAllows(op.action, live.schedule, live.execution) { return BrokerRefused; }
      if op.action == RunOnce && !io.workflowQuiescent { return BrokerRefused; }
      if !io.bootBeforeReadable { return BrokerRefused; }
      assert Admitted(volume.seen, op, io);
      var bootBefore := host.boot;
      var entry := Entry(op, now, io, bootBefore);
      var p := Create(Marker, entry, io.pending);
      if !p.Goes? { return Stop(p); }
      p := Create(Request(op.id), entry, io.request);
      if !p.Goes? { return Stop(p); }
      IssueCommand(op, io);
      var confirmed := io.answered
        && Shows(op, live.startMonotonic, io.after)
        && io.bootAfterReadable
        && host.boot == bootBefore;
      if !confirmed {
        p := Create(Result(op.id), Settled(op, Indeterminate), io.result);
        return if p.Goes? then BrokerRaised else Stop(p);
      }
      p := Create(Result(op.id), Settled(op, Completed), io.result);
      if !p.Goes? { return Stop(p); }
      var (v, removed) := Unlink(volume, Marker, io.cleanup);
      volume := v;
      if !removed.Goes? { return Stop(removed); }
      reply := if io.gateReleases then BrokerCompleted else BrokerRaised;
    }
  }

  class RunOnceJobDispatcher {
    const host: Host

    constructor (host: Host)
      ensures this.host == host
    {
      this.host := host;
    }

    /** One StartUnit request; the job it names is believed only under an unchanged boot. */
    method SendStart(op: Operation, io: DispatchIo) returns (ended: bool, out: Outcome)
      modifies host
      ensures DispatchStep(host.started, host.boot, ended, out)
           == var step := Dispatch(op, old(host.boot), io);
              step.(started := old(host.started) + step.started)
      ensures host.issued == old(host.issued)
    {
      if !io.authority || !io.gateHeld || io.live.Unverified? { return false, Failed; }
      if !Preflight(op, io.snapshot) { return false, Failed; }
      var live := io.live.live;
      if live.schedule != io.snapshot.schedule || live.execution != io.snapshot.execution { return false, Failed; }
      if live.schedule != Paused || live.execution == ExecutionFailed { return false, Failed; }
      if !io.chainIdle || !io.bootBeforeReadable { return false, Failed; }
      var bootBefore := host.boot;
      host.boot := host.boot + io.drift;
      host.started := host.started + [StartRequest(op.id, op.service, host.boot, io.reply)];
      host.boot := host.boot + io.laterDrift;
      ended := io.ends;
      if io.reply.NoJob? || !ValidJob(io.reply.path) { return ended, Failed; }
      if !io.bootAfterReadable || host.boot != bootBefore { return ended, Failed; }
      out := Job(op.id, op.service, io.reply.path, bootBefore);
    }
  }

  /** The objects hold the state of `w`, with an idle worker. */
  ghost predicate Mirrors(w: World, queue: DurableOperationQueue, broker: OperationBroker)
    reads queue, broker, broker.host
  {
    && w.hand.Idle?
    && w.queue == queue.volume
    && w.broker == broker.volume
    && w.boot == broker.host.boot
    && w.issued == broker.host.issued
    && w.started == broker.host.started
  }

  /** The three events one call of the worker amounts to. */
  ghost function WorkOnce(w: World, cfg: Config, claim: Io, execution: Event, settle: Io): World {
    Next(Next(Next(w, Claims(cfg, claim)), execution), Settles(cfg, settle))
  }

  /** What the caller of that pass is told. */
  ghost function PassReply(w: World, cfg: Config, claim: Io, execution: Event, settle: Io): Reply {
    var granted := Claim(w.queue, cfg, claim).1;
    if granted.Denied? then granted.reply
    else
      var done := Next(Next(w, Claims(cfg, claim)), execution);
      if !done.hand.Returned? then Ended
      else
        var verdict := VerdictFor(done.hand.op, done.hand.out);
        var reply := Settle(done.queue, cfg, done.hand.op, verdict, settle).1;
        if verdict.Indeterminate? && reply.Receipt? then Refused(IndeterminateEffect) else reply
  }

  /**
   Claim, execute and settle one operation.  If the process ends in between nothing
   after that point happens; an exception in the executor is settled as unknown.
   */
  method RunAcceptedControlOnce(
      queue: DurableOperationQueue, broker: OperationBroker, dispatcher: RunOnceJobDispatcher,
      claim: Io, execution: Event, settle: Io, ghost w: World)
    returns (reply: Reply)
    requires execution.Executes?
    requires dispatcher.host == broker.host
    requires Mirrors(w, queue, broker)
    modifies queue, broker, broker.host
    ensures Mirrors(WorkOnce(w, queue.cfg, claim, execution, settle), queue, broker)
    ensures reply == PassReply(w, queue.cfg, claim, execution, settle)
  {
    var claimed := queue.ClaimForWorker(claim);
    if claimed.Denied? {
      return claimed.reply;
    }
    var op := claimed.op;
    var ended, out := false, Failed;
    if execution.snapshotReadable {
      if op.action == RunOnce {
        ended, out := dispatcher.SendStart(op, execution.dispatchIo);
      } else {
        var applied := broker.Apply(op, execution.now, execution.brokerIo);
        ended := applied.BrokerEnded?;
        out := if applied.BrokerCompleted? then Confirmed else Failed;
      }
    }
    if ended {
      return Ended;
    }
    var verdict := VerdictFor(op, out);
    reply := queue.SettleOperation(op, verdict, settle);
    if verdict.Indeterminate? && reply.Receipt? {
      reply := Refused(IndeterminateEffect);
    }
  }
}
