/**
 Publication of an immutable artifact under a name that is never overwritten. Any number
 of writers run step by step in any interleaving; each may fail or die at any step, and
 the machine may lose power, after which an unsynced directory entry may or may not be
 there and unsynced bytes may be anything.
 */
module ImmutableStore {
  import opened Utf8Text

  type Octet = x: int | 0 <= x < 256

  type Bytes = seq<Octet>

  /** A file: who staged it, what it holds, and whether that is on stable storage. */
  datatype Node = Node(owner: nat, content: Bytes, synced: bool)

  datatype Pc =
    | Checking
    | Absent                  // the final name was not there
    | Writing(node: nat)
    | Synced(node: nat)
    | Collided                // the rename found the name taken
    | Losing                  // by the same bytes
    | Published               // renamed; the directory is not synced yet
    | Matched                 // the final name holds the same bytes already
    | Returned
    | Refused
    | Dead

  datatype Writer = Writer(data: Bytes, pc: Pc)

  /** The directory as it is seen and as it is on stable storage: the final name, and whose staged names. */
  datatype World = World(
    nodes: map<nat, Node>, writers: map<nat, Writer>,
    final: Option<nat>, durableFinal: Option<nat>,
    staged: set<nat>, durableStaged: set<nat>)

  datatype Event =
    | Begin(w: nat, data: Bytes)
    | Look(w: nat)
    | Stage(w: nat, node: nat)
    | Write(w: nat, k: nat)
    | SyncFile(w: nat)
    | Rename(w: nat)
    | Compare(w: nat)
    | Unlink(w: nat)
    | SyncDirectory(w: nat)
    | Fail(w: nat, cleaned: bool)
    | PowerLoss(keepFinal: bool, stagedLeft: set<nat>, junk: map<nat, Bytes>)

  const Empty := World(map[], map[], None, None, {}, {})

  function At(s: World, w: nat, pc: Pc): World
    requires w in s.writers
  {
    s.(writers := s.writers[w := s.writers[w].(pc := pc)])
  }

  predicate Running(s: World, w: nat) {
    w in s.writers && !s.writers[w].pc.Returned? && !s.writers[w].pc.Refused? && !s.writers[w].pc.Dead?
  }

  predicate Holds(s: World, n: Option<nat>, data: Bytes) {
    n.Some? && n.value in s.nodes && s.nodes[n.value].content == data
  }

  /** What one step does; a step that is not the writer's next one changes nothing. */
  function Next(s: World, e: Event): World {
    match e
    case PowerLoss(keepFinal, stagedLeft, junk) => AfterPowerLoss(s, keepFinal, stagedLeft, junk)
    case Begin(w, data) => if w in s.writers then s else s.(writers := s.writers[w := Writer(data, Checking)])
    case _ => if Running(s, e.w) then Advance(s, e, e.w, s.writers[e.w].data, s.writers[e.w].pc) else s
  }

  function Advance(s: World, e: Event, w: nat, data: Bytes, pc: Pc): World
    requires w in s.writers && s.writers[w] == Writer(data, pc)
  {
    match e
    case Look(_) =>
      if pc != Checking then s
      else if s.final.None? then At(s, w, Absent)
      else At(s, w, if Holds(s, s.final, data) then Matched else Refused)
    case Stage(_, node) =>
      if pc != Absent || node in s.nodes then s
      else At(s, w, Writing(node)).(nodes := s.nodes[node := Node(w, [], false)], staged := s.staged + {w})
    case Write(_, k) =>
      if !pc.Writing? || pc.node !in s.nodes || s.nodes[pc.node].synced then s
      else
        var n := |s.nodes[pc.node].content|;
        if n + k > |data| then s
        else s.(nodes := s.nodes[pc.node := s.nodes[pc.node].(content := s.nodes[pc.node].content + data[n..n + k])])
    case SyncFile(_) =>
      if !pc.Writing? || pc.node !in s.nodes || |s.nodes[pc.node].content| != |data| then s
      else At(s, w, Synced(pc.node)).(nodes := s.nodes[pc.node := s.nodes[pc.node].(synced := true)])
    case Rename(_) =>
      if !pc.Synced? then s
      else if s.final.Some? then At(s, w, Collided)
      else At(s, w, Published).(final := Some(pc.node), staged := s.staged - {w})
    case Compare(_) =>
      if pc != Collided then s
      else if Holds(s, s.final, data) then At(s, w, Losing)
      else At(s, w, Refused).(staged := s.staged - {w})
    case Unlink(_) => if pc != Losing then s else At(s, w, Matched).(staged := s.staged - {w})
    case SyncDirectory(_) =>
      if pc != Published && pc != Matched then s
      else At(s, w, Returned).(durableFinal := s.final, durableStaged := s.staged)
    case Fail(_, cleaned) => At(s, w, Dead).(staged := if cleaned then s.staged - {w} else s.staged)
    case _ => s
  }

  /** Every running writer is gone; each unsynced directory entry is as seen or as stable, each unsynced file anything. */
  function AfterPowerLoss(s: World, keepFinal: bool, stagedLeft: set<nat>, junk: map<nat, Bytes>): World {
    var final := if keepFinal then s.final else s.durableFinal;
    var left := (s.staged * s.durableStaged) + (stagedLeft * (s.staged + s.durableStaged));
    World(
      map n | n in s.nodes ::
        if s.nodes[n].synced then s.nodes[n]
        else Node(s.nodes[n].owner, if n in junk then junk[n] else s.nodes[n].content, true),
      map w | w in s.writers :: if Running(s, w) then s.writers[w].(pc := Dead) else s.writers[w],
      final, final, left, left)
  }

  function Run(s: World, events: seq<Event>): World {
    if events == [] then s else Next(Run(s, events[..|events| - 1]), events[|events| - 1])
  }

  // ----- what every step keeps -----

  /** A published file is whole and stable, and is what some writer set out to store. */
  ghost predicate Whole(s: World, n: nat) {
    n in s.nodes && s.nodes[n].synced && exists w :: w in s.writers && s.writers[w].data == s.nodes[n].content
  }

  predicate Private(s: World, w: nat, node: nat) {
    node in s.nodes && s.nodes[node].owner == w && s.final != Some(node)
  }

  ghost predicate WriterOk(s: World, w: nat)
    requires w in s.writers
  {
    var data := s.writers[w].data;
    match s.writers[w].pc
    case Checking => true
    case Absent => true
    case Writing(node) => Private(s, w, node) && s.nodes[node].content <= data && !s.nodes[node].synced
    case Synced(node) => Private(s, w, node) && s.nodes[node].content == data && s.nodes[node].synced
    case Collided => s.final.Some?
    case Losing => Holds(s, s.final, data)
    case Published => Holds(s, s.final, data) && w !in s.staged
    case Matched => Holds(s, s.final, data) && w !in s.staged
    case Returned => Holds(s, s.durableFinal, data) && w !in s.staged && w !in s.durableStaged
    case Refused => true
    case Dead => true
  }

  ghost predicate Inv(s: World) {
    && (s.final.Some? ==> Whole(s, s.final.value))
    && (s.durableFinal.Some? ==> s.final == s.durableFinal)
    && (forall w :: w in s.writers ==> WriterOk(s, w))
    && s.staged <= s.writers.Keys && s.durableStaged <= s.writers.Keys
    && (forall w :: w in s.writers && (s.writers[w].pc.Checking? || s.writers[w].pc.Absent?) ==> w !in s.staged)
  }

  ghost predicate WritersUndisturbed(s: World, t: World, w: nat) {
    && (forall v :: v in s.writers && v != w ==> v in t.writers && t.writers[v] == s.writers[v])
    && (forall v :: v in t.writers && v != w ==> v in s.writers)
    && w in t.writers && (w in s.writers ==> t.writers[w].data == s.writers[w].data)
  }

  ghost predicate FilesUndisturbed(s: World, t: World, w: nat) {
    && (forall n :: n in s.nodes ==> n in t.nodes && t.nodes[n].owner == s.nodes[n].owner)
    && (forall n :: n in s.nodes && (s.nodes[n].synced || s.nodes[n].owner != w) ==> t.nodes[n] == s.nodes[n])
  }

  ghost predicate EntriesUndisturbed(s: World, t: World, w: nat) {
    && (s.final.Some? ==> t.final == s.final)
    && (t.final.Some? && s.final.None? ==> t.final.value in s.nodes && s.nodes[t.final.value].owner == w)
    && (t.durableFinal == s.durableFinal || (t.durableFinal == t.final == s.final && t.durableStaged == s.staged))
    && (forall v :: v != w ==> (v in t.staged <==> v in s.staged))
    && (forall v :: v in t.durableStaged && v != w ==> v in s.durableStaged || v in s.staged)
  }

  /** Nothing that other writers rely on is changed by a step of w. */
  ghost predicate Undisturbed(s: World, t: World, w: nat) {
    WritersUndisturbed(s, t, w) && FilesUndisturbed(s, t, w) && EntriesUndisturbed(s, t, w)
  }

  lemma OthersStayOk(s: World, t: World, w: nat, v: nat)
    requires Inv(s) && Undisturbed(s, t, w) && v in s.writers && v != w
    ensures WriterOk(t, v)
  {
    assert WriterOk(s, v);
  }

  lemma WholeStays(s: World, t: World, w: nat, n: nat)
    requires Undisturbed(s, t, w) && Whole(s, n)
    ensures Whole(t, n)
  {
    var v :| v in s.writers && s.writers[v].data == s.nodes[n].content;
    assert v in t.writers && t.writers[v].data == t.nodes[n].content;
  }

  lemma AdvanceLeavesWriters(s: World, e: Event, w: nat, data: Bytes, pc: Pc)
    requires w in s.writers && s.writers[w] == Writer(data, pc) && WriterOk(s, w)
    ensures WritersUndisturbed(s, Advance(s, e, w, data, pc), w)
  {
  }

  lemma AdvanceLeavesFiles(s: World, e: Event, w: nat, data: Bytes, pc: Pc)
    requires w in s.writers && s.writers[w] == Writer(data, pc) && WriterOk(s, w)
    ensures FilesUndisturbed(s, Advance(s, e, w, data, pc), w)
  {
  }

  lemma AdvanceLeavesEntries(s: World, e: Event, w: nat, data: Bytes, pc: Pc)
    requires w in s.writers && s.writers[w] == Writer(data, pc) && WriterOk(s, w)
    ensures EntriesUndisturbed(s, Advance(s, e, w, data, pc), w)
  {
  }

  lemma AdvanceDisturbsNoOther(s: World, e: Event, w: nat, data: Bytes, pc: Pc)
    requires w in s.writers && s.writers[w] == Writer(data, pc) && WriterOk(s, w)
    ensures Undisturbed(s, Advance(s, e, w, data, pc), w)
  {
    AdvanceLeavesWriters(s, e, w, data, pc);
    AdvanceLeavesFiles(s, e, w, data, pc);
    AdvanceLeavesEntries(s, e, w, data, pc);
  }

  lemma AdvanceKeepsOwn(s: World, e: Event, w: nat, data: Bytes, pc: Pc)
    requires Inv(s) && w in s.writers && s.writers[w] == Writer(data, pc) && Running(s, w)
    ensures w in Advance(s, e, w, data, pc).writers && WriterOk(Advance(s, e, w, data, pc), w)
  {
    assert WriterOk(s, w);
  }

  lemma AdvanceKeepsInv(s: World, e: Event, w: nat, data: Bytes, pc: Pc)
    requires Inv(s) && w in s.writers && s.writers[w] == Writer(data, pc) && Running(s, w)
    ensures Inv(Advance(s, e, w, data, pc))
  {
    var t := Advance(s, e, w, data, pc);
    assert WriterOk(s, w);
    AdvanceDisturbsNoOther(s, e, w, data, pc);
    AdvanceKeepsOwn(s, e, w, data, pc);
    forall v | v in t.writers
      ensures WriterOk(t, v)
    {
      if v != w { OthersStayOk(s, t, w, v); }
    }
    if s.final.Some? { WholeStays(s, t, w, s.final.value); }
    if t.final.Some? && s.final.None? {
      assert t.writers[w].data == t.nodes[t.final.value].content;
    }
  }

  lemma PowerLossKeepsInv(s: World, keepFinal: bool, stagedLeft: set<nat>, junk: map<nat, Bytes>)
    requires Inv(s)
    ensures Inv(AfterPowerLoss(s, keepFinal, stagedLeft, junk))
  {
    var t := AfterPowerLoss(s, keepFinal, stagedLeft, junk);
    forall w | w in t.writers
      ensures WriterOk(t, w)
    {
      assert WriterOk(s, w);
    }
    if t.final.Some? {
      var n := t.final.value;
      assert Whole(s, n);
      var w :| w in s.writers && s.writers[w].data == s.nodes[n].content;
      assert w in t.writers && t.writers[w].data == t.nodes[n].content;
    }
  }

  lemma BeginKeepsInv(s: World, w: nat, data: Bytes)
    requires Inv(s) && w !in s.writers
    ensures Inv(Next(s, Begin(w, data)))
  {
    var t := Next(s, Begin(w, data));
    forall v | v in t.writers
      ensures WriterOk(t, v)
    {
      if v != w { assert WriterOk(s, v); }
    }
    if t.final.Some? {
      var n := t.final.value;
      assert Whole(s, n);
      var v :| v in s.writers && s.writers[v].data == s.nodes[n].content;
      assert v in t.writers && t.writers[v].data == t.nodes[n].content;
    }
  }

  lemma NextKeepsInv(s: World, e: Event)
    requires Inv(s)
    ensures Inv(Next(s, e))
  {
    match e
    case PowerLoss(keepFinal, stagedLeft, junk) => PowerLossKeepsInv(s, keepFinal, stagedLeft, junk);
    case Begin(w, data) => if w !in s.writers { BeginKeepsInv(s, w, data); }
    case _ => if Running(s, e.w) { AdvanceKeepsInv(s, e, e.w, s.writers[e.w].data, s.writers[e.w].pc); }
  }

  lemma {:induction false} RunKeepsInv(s: World, events: seq<Event>)
    requires Inv(s)
    ensures Inv(Run(s, events))
  {
    if events != [] {
      RunKeepsInv(s, events[..|events| - 1]);
      NextKeepsInv(Run(s, events[..|events| - 1]), events[|events| - 1]);
    }
  }

  // ----- the theorems -----

  /** In every interleaving and after every crash the final name is absent or holds one writer's complete, stable bytes. */
  lemma FinalIsWhole(events: seq<Event>)
    ensures var s := Run(Empty, events); s.final.Some? ==> Whole(s, s.final.value)
  {
    RunKeepsInv(Empty, events);
  }

  /** What the final name stands for, in bytes. */
  function FinalBytes(s: World): Option<Bytes> {
    if s.final.Some? && s.final.value in s.nodes then Some(s.nodes[s.final.value].content) else None
  }

  /** One step leaves published bytes alone, unless it is a power loss that drops an entry not yet stable. */
  lemma PublishedStaysExactlyWhen(s: World, e: Event)
    requires Inv(s) && s.final.Some?
    ensures FinalBytes(Next(s, e)) == FinalBytes(s) <==>
      !(e.PowerLoss? && !e.keepFinal && s.durableFinal.None?)
    ensures e.PowerLoss? && !e.keepFinal && s.durableFinal.None? ==> Next(s, e).final.None?
  {
    assert Whole(s, s.final.value);
    match e
    case PowerLoss(keepFinal, stagedLeft, junk) =>
    case Begin(w, data) =>
    case _ => if Running(s, e.w) { AdvanceDisturbsNoOther(s, e, e.w, s.writers[e.w].data, s.writers[e.w].pc); }
  }

  lemma DurableStep(s: World, e: Event)
    requires Inv(s) && s.durableFinal.Some?
    ensures Next(s, e).durableFinal.Some? && FinalBytes(Next(s, e)) == FinalBytes(s)
  {
    PublishedStaysExactlyWhen(s, e);
    match e
    case PowerLoss(keepFinal, stagedLeft, junk) =>
    case Begin(w, data) =>
    case _ => if Running(s, e.w) { AdvanceDisturbsNoOther(s, e, e.w, s.writers[e.w].data, s.writers[e.w].pc); }
  }

  /** Once the entry is stable, the bytes under the final name never change again. */
  lemma {:induction false} DurableStaysForever(s: World, events: seq<Event>)
    requires Inv(s) && s.durableFinal.Some?
    ensures Run(s, events).durableFinal.Some? && FinalBytes(Run(s, events)) == FinalBytes(s)
  {
    if events != [] {
      DurableStaysForever(s, events[..|events| - 1]);
      RunKeepsInv(s, events[..|events| - 1]);
      DurableStep(Run(s, events[..|events| - 1]), events[|events| - 1]);
    }
  }

  /**
   A writer that returned has its own bytes under the final name, stable in content and in
   entry, and its staged name will not come back.
   */
  lemma ReturnedIsDurable(events: seq<Event>, later: seq<Event>, w: nat)
    requires var s := Run(Empty, events); w in s.writers && s.writers[w].pc == Returned
    ensures var t := Run(Run(Empty, events), later);
      && t.durableFinal.Some?
      && FinalBytes(t) == Some(Run(Empty, events).writers[w].data)
      && w !in t.staged && w !in t.durableStaged
  {
    var s := Run(Empty, events);
    RunKeepsInv(Empty, events);
    assert WriterOk(s, w);
    DurableStaysForever(s, later);
    ReturnedStays(s, later, w);
    RunKeepsInv(s, later);
    assert WriterOk(Run(s, later), w);
  }

  lemma {:induction false} ReturnedStays(s: World, events: seq<Event>, w: nat)
    requires Inv(s) && w in s.writers && s.writers[w].pc == Returned
    ensures w in Run(s, events).writers && Run(s, events).writers[w] == s.writers[w]
  {
    if events != [] {
      ReturnedStays(s, events[..|events| - 1], w);
      RunKeepsInv(s, events[..|events| - 1]);
      ReturnedStep(Run(s, events[..|events| - 1]), events[|events| - 1], w);
    }
  }

  lemma ReturnedStep(s: World, e: Event, w: nat)
    requires Inv(s) && w in s.writers && s.writers[w].pc == Returned
    ensures w in Next(s, e).writers && Next(s, e).writers[w] == s.writers[w]
  {
    match e
    case PowerLoss(keepFinal, stagedLeft, junk) =>
    case Begin(v, data) =>
    case _ => if Running(s, e.w) { AdvanceDisturbsNoOther(s, e, e.w, s.writers[e.w].data, s.writers[e.w].pc); }
  }

  /** Writers of different bytes cannot both succeed, however far apart they ran. */
  lemma SuccessesAgree(events: seq<Event>, later: seq<Event>, v: nat, w: nat)
    requires var s := Run(Empty, events); v in s.writers && s.writers[v].pc == Returned
    requires var t := Run(Run(Empty, events), later); w in t.writers && t.writers[w].pc == Returned
    ensures Run(Empty, events).writers[v].data == Run(Run(Empty, events), later).writers[w].data
  {
    ReturnedIsDurable(events, later, v);
    RunKeepsInv(Empty, events);
    RunKeepsInv(Run(Empty, events), later);
    assert WriterOk(Run(Run(Empty, events), later), w);
  }

  // ----- every writer that runs on comes to the right end -----

  /** The writer's next step when nothing fails; a new file is staged as `node`. */
  function OwnStep(s: World, w: nat, node: nat): Event
    requires w in s.writers
  {
    match s.writers[w].pc
    case Checking => Look(w)
    case Absent => Stage(w, node)
    case Writing(n) =>
      if n in s.nodes && |s.nodes[n].content| < |s.writers[w].data|
      then Write(w, |s.writers[w].data| - |s.nodes[n].content|) else SyncFile(w)
    case Synced(_) => Rename(w)
    case Collided => Compare(w)
    case Losing => Unlink(w)
    case _ => SyncDirectory(w)
  }

  /** How many of its own steps are left at most. */
  function StepsLeft(s: World, w: nat): nat
    requires w in s.writers
  {
    match s.writers[w].pc
    case Checking => 8
    case Absent => 7
    case Writing(n) => if n in s.nodes && |s.nodes[n].content| < |s.writers[w].data| then 6 else 5
    case Synced(_) => 4
    case Collided => 3
    case Losing => 2
    case Published => 1
    case Matched => 1
    case _ => 0
  }

  /** Nobody else's bytes are under the final name. */
  predicate MayPublish(s: World, w: nat)
    requires w in s.writers
  {
    s.final.None? || Holds(s, s.final, s.writers[w].data)
  }

  predicate StageFree(s: World, w: nat, node: nat)
    requires w in s.writers
  {
    s.writers[w].pc.Checking? || s.writers[w].pc.Absent? ==> node !in s.nodes
  }

  lemma OwnStepProgresses(s: World, w: nat, node: nat)
    requires Inv(s) && Running(s, w) && StageFree(s, w, node)
    ensures
      var t := Next(s, OwnStep(s, w, node));
      && w in t.writers && t.writers[w].data == s.writers[w].data
      && StepsLeft(t, w) < StepsLeft(s, w) && StageFree(t, w, node)
      && MayPublish(t, w) == MayPublish(s, w)
      && (t.writers[w].pc.Returned? ==> MayPublish(s, w))
      && (t.writers[w].pc.Refused? ==> !MayPublish(s, w))
      && !t.writers[w].pc.Dead?
      && (!Running(t, w) ==> w !in t.staged)
  {
    assert WriterOk(s, w);
    assert s.final.Some? ==> Whole(s, s.final.value);
  }

  function RunOn(s: World, w: nat, node: nat): World
    requires Inv(s) && w in s.writers && StageFree(s, w, node)
    decreases StepsLeft(s, w)
  {
    if !Running(s, w) then s
    else
      OwnStepProgresses(s, w, node);
      NextKeepsInv(s, OwnStep(s, w, node));
      RunOn(Next(s, OwnStep(s, w, node)), w, node)
  }

  /**
   From any reachable state, a writer that runs on without a failure ends, and leaves no
   staged name: it returns if the final name is free or already holds its bytes, and is
   refused if and only if the name holds other bytes.
   */
  lemma {:induction false} RunningOnEnds(s: World, w: nat, node: nat)
    requires Inv(s) && Running(s, w) && StageFree(s, w, node)
    ensures
      var t := RunOn(s, w, node);
      && w in t.writers
      && (t.writers[w].pc.Returned? <==> MayPublish(s, w))
      && (t.writers[w].pc.Refused? <==> !MayPublish(s, w))
      && w !in t.staged
    decreases StepsLeft(s, w)
  {
    OwnStepProgresses(s, w, node);
    NextKeepsInv(s, OwnStep(s, w, node));
    var t := Next(s, OwnStep(s, w, node));
    if Running(t, w) { RunningOnEnds(t, w, node); }
  }

  /** A writer that finds the name taken stages nothing: it goes on to return or is refused at once. */
  lemma TakenNameStagesNothing(s: World, w: nat)
    requires Inv(s) && Running(s, w) && s.writers[w].pc == Checking && s.final.Some?
    ensures
      var t := Next(s, Look(w));
      && t.staged == s.staged && t.nodes == s.nodes && t.final == s.final
      && w in t.writers && t.writers[w].pc == (if FinalBytes(s) == Some(s.writers[w].data) then Matched else Refused)
  {
    assert Whole(s, s.final.value);
  }

  /** In any interleaving, a step that refuses a writer finds other bytes under the final name. */
  lemma RefusedForOtherBytes(s: World, e: Event, w: nat)
    requires Inv(s) && Running(s, w)
    ensures w in Next(s, e).writers
    ensures Next(s, e).writers[w].pc.Refused? ==>
      s.final.Some? && FinalBytes(s).Some? && FinalBytes(s).value != s.writers[w].data
  {
    assert WriterOk(s, w);
    assert s.final.Some? ==> Whole(s, s.final.value);
    match e
    case PowerLoss(keepFinal, stagedLeft, junk) =>
    case Begin(v, data) =>
    case _ => if Running(s, e.w) && e.w != w { AdvanceLeavesWriters(s, e, e.w, s.writers[e.w].data, s.writers[e.w].pc); }
  }

  // ----- the loops over one file -----

  /** Reads until the end or one octet too many, whatever each read returns; the answer is equality. */
  method SameImmutableBytes(content: Bytes, data: Bytes) returns (same: bool)
    ensures same <==> content == data
  {
    if |content| != |data| { return false; }
    var result: Bytes := [];
    while |result| <= |data|
      invariant |result| <= |content| && result == content[..|result|]
      decreases |data| + 1 - |result|
    {
      var most := if |data| + 1 - |result| < 65536 then |data| + 1 - |result| else 65536;
      var got: int := *;
      var left := |content| - |result|;
      got := if got < 1 then 1 else got;
      got := if got > most then most else got;
      got := if got > left then left else got;
      if got == 0 { break; }
      result := result + content[|result|..|result| + got];
    }
    return result == data;
  }

  /** Writes what is left until nothing is, however little each write takes; a write of nothing fails. */
  method WriteAll(before: Bytes, data: Bytes) returns (ok: bool, after: Bytes)
    ensures before <= after <= before + data
    ensures ok ==> after == before + data
  {
    after := before;
    var view := data;
    while view != []
      invariant |view| <= |data| && view == data[|data| - |view|..]
      invariant after == before + data[..|data| - |view|]
      decreases |view|
    {
      var written: int := *;
      if written > |view| { written := |view|; }
      if written <= 0 { return false, after; }
      after := after + view[..written];
      view := view[written..];
    }
    ok := true;
  }
}
