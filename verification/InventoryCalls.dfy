/**
 The database of one scope: archives are published, and calls of the inventory work
 through the ready ones that are due, in publication order, until a limit or a fault.
 */
module InventoryCalls {
  import opened Utf8Text
  import opened ArchiveInventory

  // ----- what is published -----

  /** An archive as its row names it: the digest of its bytes, and how many there are. */
  datatype Named = Named(sha: nat, size: nat)

  /** The published archives in order, and which of them are ready. */
  datatype Shelf = Shelf(names: seq<Named>, ready: seq<bool>)

  datatype PublishReply = Published | ExistingArchive | StructureRejected | IdentityCollision | PublishFailed

  function IndexOf(names: seq<Named>, sha: nat): (r: Option<nat>)
    ensures r.Some? ==> r.value < |names| && names[r.value].sha == sha
    ensures r.None? ==> forall i :: 0 <= i < |names| ==> names[i].sha != sha
  {
    if names == [] then None
    else if names[|names| - 1].sha == sha then Some(|names| - 1)
    else IndexOf(names[..|names| - 1], sha)
  }

  predicate ShelfOk(shelf: Shelf) {
    && |shelf.names| == |shelf.ready|
    && forall i, j :: 0 <= i < j < |shelf.names| ==> shelf.names[i].sha != shelf.names[j].sha
  }

  /** Registered under the next number or found under its own; ready once its file is in place. */
  function PublishOn(shelf: Shelf, archive: Named, inspected: bool, placed: bool): (Shelf, PublishReply)
    requires ShelfOk(shelf)
  {
    if !inspected then (shelf, StructureRejected)
    else
      match IndexOf(shelf.names, archive.sha)
      case None =>
        (Shelf(shelf.names + [archive], shelf.ready + [placed]), if placed then Published else PublishFailed)
      case Some(a) =>
        if shelf.names[a].size != archive.size then (shelf, IdentityCollision)
        else if !placed then (shelf, PublishFailed)
        else (shelf.(ready := shelf.ready[a := true]), if shelf.ready[a] then ExistingArchive else Published)
  }

  /** Archives are never withdrawn: one that is ready stays ready, and new ones come after. */
  predicate ReadyGrows(before: seq<bool>, after: seq<bool>) {
    |before| <= |after| && forall a :: 0 <= a < |before| && before[a] ==> after[a]
  }

  /** Each archive keeps its one number for good, whatever is published and how often. */
  lemma PublishKeeps(shelf: Shelf, archive: Named, inspected: bool, placed: bool)
    requires ShelfOk(shelf)
    ensures
      var (after, reply) := PublishOn(shelf, archive, inspected, placed);
      && ShelfOk(after) && shelf.names <= after.names && ReadyGrows(shelf.ready, after.ready)
      && (reply.Published? || reply.ExistingArchive? ==>
            exists a :: 0 <= a < |after.names| && after.names[a] == archive && after.ready[a])
      && (reply.ExistingArchive? ==> after == shelf)
  {
    var after := PublishOn(shelf, archive, inspected, placed).0;
    var at := IndexOf(shelf.names, archive.sha);
    if at.None? && inspected {
      assert after.names[|shelf.names|] == archive;
    } else if at.Some? && inspected && shelf.names[at.value].size == archive.size {
      assert shelf.names[at.value] == archive;
    }
  }

  predicate Registered(shelf: Shelf, archive: Named) {
    archive in shelf.names
  }

  predicate SameDigest(shelf: Shelf, archive: Named) {
    exists a :: 0 <= a < |shelf.names| && shelf.names[a].sha == archive.sha
  }

  predicate ReadyUnder(shelf: Shelf, archive: Named)
    requires |shelf.names| == |shelf.ready|
  {
    exists a :: 0 <= a < |shelf.names| && shelf.names[a] == archive && shelf.ready[a]
  }

  /**
   Each reply has its exact condition: nothing is registered uninspected, one digest never
   stands for two sizes, and an archive is ready exactly once its file is in place.
   */
  lemma PublishSaysTruly(shelf: Shelf, archive: Named, inspected: bool, placed: bool)
    requires ShelfOk(shelf)
    ensures
      var (after, reply) := PublishOn(shelf, archive, inspected, placed);
      && (reply == StructureRejected <==> !inspected)
      && (reply == IdentityCollision <==> inspected && SameDigest(shelf, archive) && !Registered(shelf, archive))
      && (reply == ExistingArchive <==> inspected && placed && ReadyUnder(shelf, archive))
      && (reply == Published <==>
            && inspected && placed && !ReadyUnder(shelf, archive)
            && (SameDigest(shelf, archive) ==> Registered(shelf, archive)))
      && (reply == StructureRejected || reply == IdentityCollision ==> after == shelf)
      && (reply == PublishFailed ==> Registered(after, archive) && (ReadyUnder(after, archive) ==> ReadyUnder(shelf, archive)))
  {
    PublishKeeps(shelf, archive, inspected, placed);
    var at := IndexOf(shelf.names, archive.sha);
    if at.Some? && inspected {
      assert shelf.names[at.value].sha == archive.sha;
      assert shelf.names[at.value].size == archive.size ==> shelf.names[at.value] == archive;
    }
  }

  // ----- what is due -----

  predicate HasRun(runs: seq<Committed>, selector: nat, a: nat) {
    exists i :: 0 <= i < |runs| && runs[i].archive == a && runs[i].selector == selector
  }

  /** The archive has been dealt with under this selection. */
  predicate Journalled(runs: seq<Committed>, rejections: set<Rejection>, selector: nat, a: nat) {
    HasRun(runs, selector, a) || Rejection(selector, a) in rejections
  }

  /** A scope keeps the selection it started with. */
  predicate ContractKept(runs: seq<Committed>, rejections: set<Rejection>, selector: nat) {
    && (forall i :: 0 <= i < |runs| ==> runs[i].selector == selector)
    && forall r :: r in rejections ==> r.selector == selector
  }

  /** An archive that became ready only after a later one was committed. */
  predicate LateArchive(ready: seq<bool>, runs: seq<Committed>, rejections: set<Rejection>, selector: nat, a: nat) {
    && a < |ready| && ready[a] && !Journalled(runs, rejections, selector, a)
    && !Below(runs, a + 1)
  }

  ghost predicate NoneIsLate(ready: seq<bool>, runs: seq<Committed>, rejections: set<Rejection>, selector: nat) {
    forall b :: !LateArchive(ready, runs, rejections, selector, b)
  }

  /** Every ready archive before a has been dealt with. */
  predicate CaughtUp(ready: seq<bool>, runs: seq<Committed>, rejections: set<Rejection>, selector: nat, a: nat) {
    forall b :: 0 <= b < a && b < |ready| && ready[b] ==> Journalled(runs, rejections, selector, b)
  }

  /** The ready archives before n not dealt with yet, in order. */
  function Due(ready: seq<bool>, runs: seq<Committed>, rejections: set<Rejection>, selector: nat, n: nat): seq<nat>
    requires n <= |ready|
  {
    if n == 0 then []
    else
      var before := Due(ready, runs, rejections, selector, n - 1);
      if ready[n - 1] && !Journalled(runs, rejections, selector, n - 1) then before + [n - 1] else before
  }

  lemma OneMoreDue(
      ready: seq<bool>, runs: seq<Committed>, rejections: set<Rejection>, selector: nat, n: nat, a: nat)
    requires 0 < n <= |ready|
    ensures a in Due(ready, runs, rejections, selector, n) <==>
      || a in Due(ready, runs, rejections, selector, n - 1)
      || (a == n - 1 && ready[n - 1] && !Journalled(runs, rejections, selector, n - 1))
  {
  }

  lemma {:induction false} DueExactly(
      ready: seq<bool>, runs: seq<Committed>, rejections: set<Rejection>, selector: nat, n: nat, a: nat)
    requires n <= |ready|
    ensures a in Due(ready, runs, rejections, selector, n) <==>
      a < n && ready[a] && !Journalled(runs, rejections, selector, a)
  {
    if n > 0 {
      DueExactly(ready, runs, rejections, selector, n - 1, a);
      OneMoreDue(ready, runs, rejections, selector, n, a);
    }
  }

  lemma {:induction false} DueBelow(
      ready: seq<bool>, runs: seq<Committed>, rejections: set<Rejection>, selector: nat, n: nat)
    requires n <= |ready|
    ensures forall i :: 0 <= i < |Due(ready, runs, rejections, selector, n)| ==> Due(ready, runs, rejections, selector, n)[i] < n
  {
    if n > 0 { DueBelow(ready, runs, rejections, selector, n - 1); }
  }

  lemma {:induction false} DueFront(
      ready: seq<bool>, runs: seq<Committed>, rejections: set<Rejection>, selector: nat, m: nat, n: nat)
    requires m <= n <= |ready|
    ensures Due(ready, runs, rejections, selector, m) <= Due(ready, runs, rejections, selector, n)
  {
    if m < n { DueFront(ready, runs, rejections, selector, m, n - 1); }
  }

  // ----- how far a call gets -----

  /** The archive's file is as published, and its batch, if it has one, names no conversation twice. */
  predicate Fine(a: nat, outcomes: seq<Outcome>, verified: seq<bool>) {
    a < |verified| && a < |outcomes| && verified[a] && (outcomes[a].Batch? ==> DistinctKeys(outcomes[a].items))
  }

  predicate StopsAt(due: seq<nat>, max: nat, k: nat, outcomes: seq<Outcome>, verified: seq<bool>) {
    && k <= |due| && k <= max
    && (forall i :: 0 <= i < k ==> Fine(due[i], outcomes, verified))
    && (k == max || k == |due| || !Fine(due[k], outcomes, verified))
  }

  /** How many of the due archives a call takes: up to the limit, or to the first with a fault. */
  function Passed(due: seq<nat>, max: nat, outcomes: seq<Outcome>, verified: seq<bool>): (k: nat)
    ensures k <= |due|
  {
    if max == 0 || due == [] || !Fine(due[0], outcomes, verified) then 0
    else 1 + Passed(due[1..], max - 1, outcomes, verified)
  }

  lemma {:induction false} PassedStops(due: seq<nat>, max: nat, outcomes: seq<Outcome>, verified: seq<bool>)
    ensures StopsAt(due, max, Passed(due, max, outcomes, verified), outcomes, verified)
  {
    if max > 0 && due != [] && Fine(due[0], outcomes, verified) {
      PassedStops(due[1..], max - 1, outcomes, verified);
      var k := Passed(due[1..], max - 1, outcomes, verified);
      assert forall i :: 0 <= i < k + 1 ==> due[i] == if i == 0 then due[0] else due[1..][i - 1];
    }
  }

  lemma OnlyStop(due: seq<nat>, max: nat, k: nat, p: nat, outcomes: seq<Outcome>, verified: seq<bool>)
    requires StopsAt(due, max, k, outcomes, verified) && StopsAt(due, max, p, outcomes, verified)
    ensures k >= p
  {
  }

  lemma PassedIs(due: seq<nat>, max: nat, k: nat, outcomes: seq<Outcome>, verified: seq<bool>)
    requires StopsAt(due, max, k, outcomes, verified)
    ensures Passed(due, max, outcomes, verified) == k
  {
    PassedStops(due, max, outcomes, verified);
    OnlyStop(due, max, Passed(due, max, outcomes, verified), k, outcomes, verified);
    OnlyStop(due, max, k, Passed(due, max, outcomes, verified), outcomes, verified);
  }

  datatype Reply =
    | Finished(receipts: nat) | InvalidLimit | MultiArchivePreview | ScopeContractChanged | OutOfOrder
    | DuplicatePrivateIdentity | VerifyFailed

  /** What stops a call before it has looked at any archive's file. */
  ghost function Refusal(
      ready: seq<bool>, runs: seq<Committed>, rejections: set<Rejection>, selector: nat, commit: bool, max: int): Option<Reply>
  {
    if !(1 <= max <= 16) then Some(InvalidLimit)
    else if !commit && max != 1 then Some(MultiArchivePreview)
    else if !ContractKept(runs, rejections, selector) then Some(ScopeContractChanged)
    else if !NoneIsLate(ready, runs, rejections, selector) then Some(OutOfOrder)
    else None
  }

  /**
   Each refusal has its exact condition: a limit out of range, then a preview of several,
   then a selection other than the journal's, then an archive not dealt with that is older
   than a committed one.
   */
  lemma RefusedExactlyWhen(
      ready: seq<bool>, runs: seq<Committed>, rejections: set<Rejection>, selector: nat, commit: bool, max: int)
    ensures
      var refusal := Refusal(ready, runs, rejections, selector, commit, max);
      var limits := 1 <= max <= 16;
      var single := commit || max == 1;
      var kept := (forall run :: run in runs ==> run.selector == selector)
        && forall rejection :: rejection in rejections ==> rejection.selector == selector;
      var late := exists a, run ::
        && 0 <= a < |ready| && ready[a] && run in runs && a < run.archive
        && (forall other :: other in runs ==> other.archive != a) && Rejection(selector, a) !in rejections;
      && (refusal == Some(InvalidLimit) <==> !limits)
      && (refusal == Some(MultiArchivePreview) <==> limits && !single)
      && (refusal == Some(ScopeContractChanged) <==> limits && single && !kept)
      && (refusal == Some(OutOfOrder) <==> limits && single && kept && late)
      && (refusal.None? <==> limits && single && kept && !late)
  {
    assert ContractKept(runs, rejections, selector) <==>
      (forall run :: run in runs ==> run.selector == selector)
      && forall rejection :: rejection in rejections ==> rejection.selector == selector;
    if ContractKept(runs, rejections, selector) {
      forall a: nat
        ensures LateArchive(ready, runs, rejections, selector, a) <==>
          && a < |ready| && ready[a] && (exists run :: run in runs && a < run.archive)
          && (forall other :: other in runs ==> other.archive != a) && Rejection(selector, a) !in rejections
      {
      }
    }
  }

  /** What it says otherwise, having taken k of the due archives. */
  function Answer(due: seq<nat>, max: nat, k: nat, verified: seq<bool>): Reply
    requires k <= |due|
  {
    if k == max || k == |due| then Finished(k)
    else if due[k] < |verified| && verified[due[k]] then DuplicatePrivateIdentity
    else VerifyFailed
  }

  /** A fault a call reports is a fault of the first due archive it did not take. */
  lemma FaultIsTrue(due: seq<nat>, max: nat, outcomes: seq<Outcome>, verified: seq<bool>)
    requires forall i :: 0 <= i < |due| ==> due[i] < |outcomes| == |verified|
    ensures
      var k := Passed(due, max, outcomes, verified);
      var reply := Answer(due, max, k, verified);
      && (reply.Finished? ==> reply.receipts == k && (k == max || k == |due|))
      && (reply == VerifyFailed ==> k < |due| && k < max && !verified[due[k]])
      && (reply == DuplicatePrivateIdentity ==>
            && k < |due| && k < max && verified[due[k]] && outcomes[due[k]].Batch?
            && exists i, j :: 0 <= i < j < |outcomes[due[k]].items|
                 && outcomes[due[k]].items[i].key == outcomes[due[k]].items[j].key)
  {
    PassedStops(due, max, outcomes, verified);
  }

  // ----- what a call leaves behind -----

  /** The archives among these whose batch is entered, and the rejections noted for the others. */
  function Entered(done: seq<nat>, outcomes: seq<Outcome>): seq<nat> {
    if done == [] then []
    else
      var last, before := done[|done| - 1], Entered(done[..|done| - 1], outcomes);
      if IsBatch(last, outcomes) then before + [last] else before
  }

  function Noted(done: seq<nat>, selector: nat, outcomes: seq<Outcome>): set<Rejection> {
    if done == [] then {}
    else
      var last, before := done[|done| - 1], Noted(done[..|done| - 1], selector, outcomes);
      if IsBatch(last, outcomes) then before else before + {Rejection(selector, last)}
  }

  predicate IsBatch(a: nat, outcomes: seq<Outcome>) {
    a < |outcomes| && outcomes[a].Batch?
  }

  lemma {:induction false} EnteredOrNoted(done: seq<nat>, selector: nat, outcomes: seq<Outcome>)
    ensures forall a :: a in Entered(done, outcomes) <==> a in done && IsBatch(a, outcomes)
    ensures forall x :: x in Noted(done, selector, outcomes) <==>
      x.selector == selector && x.archive in done && !IsBatch(x.archive, outcomes)
  {
    if done != [] {
      EnteredOrNoted(done[..|done| - 1], selector, outcomes);
      assert done == done[..|done| - 1] + [done[|done| - 1]];
    }
  }

  /** The run is this archive's batch, entered whole. */
  predicate RunOf(run: Committed, selector: nat, a: nat, outcomes: seq<Outcome>) {
    && run.selector == selector && run.archive == a
    && IsBatch(a, outcomes) && run.entries == EntriesOf(outcomes[a].items)
  }

  /** Exactly these archives were dealt with: batches entered whole and in order, rejections noted, nothing else. */
  predicate Dealt(
      r0: seq<Committed>, j0: set<Rejection>, r: seq<Committed>, j: set<Rejection>, selector: nat,
      done: seq<nat>, outcomes: seq<Outcome>)
  {
    var entered := Entered(done, outcomes);
    && r0 <= r && |r| == |r0| + |entered|
    && (forall i :: 0 <= i < |entered| ==> RunOf(r[|r0| + i], selector, entered[i], outcomes))
    && j == j0 + Noted(done, selector, outcomes)
  }

  /** So those are the ones journalled now that were not before. */
  lemma DealtIsJournalled(
      r0: seq<Committed>, j0: set<Rejection>, r: seq<Committed>, j: set<Rejection>, selector: nat,
      done: seq<nat>, outcomes: seq<Outcome>, a: nat)
    requires Dealt(r0, j0, r, j, selector, done, outcomes)
    ensures Journalled(r, j, selector, a) <==> Journalled(r0, j0, selector, a) || a in done
  {
    var entered := Entered(done, outcomes);
    EnteredOrNoted(done, selector, outcomes);
    if HasRun(r, selector, a) {
      var i :| 0 <= i < |r| && r[i].archive == a && r[i].selector == selector;
      if i < |r0| {
        assert r0[i] == r[i];
      } else {
        assert RunOf(r[|r0| + (i - |r0|)], selector, entered[i - |r0|], outcomes);
      }
    }
    if HasRun(r0, selector, a) {
      var i :| 0 <= i < |r0| && r0[i].archive == a && r0[i].selector == selector;
      assert r[i] == r0[i];
    }
    if a in entered {
      var i :| 0 <= i < |entered| && entered[i] == a;
      assert RunOf(r[|r0| + i], selector, a, outcomes);
    }
  }

  /** One archive dealt with: its batch entered, or its rejection noted. */
  predicate TookOne(
      r: seq<Committed>, j: set<Rejection>, r2: seq<Committed>, j2: set<Rejection>, selector: nat, a: nat, outcomes: seq<Outcome>)
  {
    if IsBatch(a, outcomes) then |r2| == |r| + 1 && r <= r2 && j2 == j && RunOf(r2[|r|], selector, a, outcomes)
    else r2 == r && j2 == j + {Rejection(selector, a)}
  }

  lemma EnteredOne(
      r: seq<Committed>, j: set<Rejection>, selector: nat, a: nat, outcomes: seq<Outcome>, receipt: Receipt)
    requires IsBatch(a, outcomes) && Below(r, a)
    ensures
      var run := Committed(selector, a, EntriesOf(outcomes[a].items), receipt);
      TookOne(r, j, r + [run], j, selector, a, outcomes) && Below(r + [run], a + 1)
  {
  }

  lemma DealtOneMore(
      r0: seq<Committed>, j0: set<Rejection>, r: seq<Committed>, j: set<Rejection>, selector: nat,
      done: seq<nat>, outcomes: seq<Outcome>, a: nat, r2: seq<Committed>, j2: set<Rejection>)
    requires Dealt(r0, j0, r, j, selector, done, outcomes)
    requires TookOne(r, j, r2, j2, selector, a, outcomes)
    ensures Dealt(r0, j0, r2, j2, selector, done + [a], outcomes)
  {
    assert (done + [a])[..|done|] == done;
    var entered := Entered(done, outcomes);
    forall i | 0 <= i < |entered|
      ensures RunOf(r2[|r0| + i], selector, entered[i], outcomes)
    {
      assert r2[|r0| + i] == r[|r0| + i];
    }
  }

  // ----- the loop -----

  /** What one call starts from and is given; `runs` and `rejections` are the journal it found. */
  datatype Call = Call(
    ready: seq<bool>, runs: seq<Committed>, rejections: set<Rejection>, selector: nat, commit: bool,
    newest: Option<nat>, outcomes: seq<Outcome>, verified: seq<bool>)
  {
    function DueBefore(a: nat): seq<nat>
      requires a <= |ready|
    {
      Due(ready, runs, rejections, selector, a)
    }

    ghost predicate NoneLate() {
      NoneIsLate(ready, runs, rejections, selector)
    }

    /** The archive waits, in the journal (r, j) reached so far. */
    predicate Waits(r: seq<Committed>, j: set<Rejection>, a: nat) {
      a < |ready| && ready[a] && !Journalled(r, j, selector, a)
    }
  }

  /** What the loop knows before archive a, with the journal now at (r, j). */
  ghost predicate Swept(c: Call, r: seq<Committed>, j: set<Rejection>, receipts: nat, a: nat)
    requires a <= |c.ready|
  {
    var due := c.DueBefore(a);
    && receipts == |due| && (forall i :: 0 <= i < |due| ==> Fine(due[i], c.outcomes, c.verified))
    && (if c.commit then Dealt(c.runs, c.rejections, r, j, c.selector, due, c.outcomes)
        else r == c.runs && j == c.rejections)
    && (receipts > 0 ==> c.NoneLate() && Below(r, a) && (c.newest.Some? ==> c.newest.value < a))
  }

  /** An archive waits exactly when it was due from the start. */
  lemma WaitsIsDue(c: Call, r: seq<Committed>, j: set<Rejection>, receipts: nat, a: nat)
    requires a < |c.ready| && Swept(c, r, j, receipts, a)
    ensures c.Waits(r, j, a) <==> c.Waits(c.runs, c.rejections, a)
    ensures c.DueBefore(a + 1) == if c.Waits(r, j, a) then c.DueBefore(a) + [a] else c.DueBefore(a)
  {
    if c.commit {
      DueExactly(c.ready, c.runs, c.rejections, c.selector, a, a);
      DealtIsJournalled(c.runs, c.rejections, r, j, c.selector, c.DueBefore(a), c.outcomes, a);
    }
  }

  lemma SkipKeeps(c: Call, r: seq<Committed>, j: set<Rejection>, receipts: nat, a: nat)
    requires a < |c.ready| && Swept(c, r, j, receipts, a) && !c.Waits(r, j, a)
    ensures Swept(c, r, j, receipts, a + 1)
  {
    WaitsIsDue(c, r, j, receipts, a);
  }

  lemma TakeKeeps(
      c: Call, r: seq<Committed>, j: set<Rejection>, receipts: nat, a: nat, r2: seq<Committed>, j2: set<Rejection>)
    requires a < |c.ready| && Swept(c, r, j, receipts, a) && c.Waits(r, j, a) && Fine(a, c.outcomes, c.verified)
    requires c.NoneLate() && (c.newest.Some? ==> c.newest.value < a)
    requires Below(r2, a + 1)
    requires if c.commit then TookOne(r, j, r2, j2, c.selector, a, c.outcomes) else r2 == r && j2 == j
    ensures Swept(c, r2, j2, receipts + 1, a + 1)
  {
    WaitsIsDue(c, r, j, receipts, a);
    if c.commit { DealtOneMore(c.runs, c.rejections, r, j, c.selector, c.DueBefore(a), c.outcomes, a, r2, j2); }
  }

  /** The archives taken are the ones passed when what comes next is the limit, the end or a fault. */
  lemma FrontIsPassed(due: seq<nat>, front: seq<nat>, max: nat, outcomes: seq<Outcome>, verified: seq<bool>)
    requires front <= due && |front| <= max
    requires forall i :: 0 <= i < |front| ==> Fine(front[i], outcomes, verified)
    requires |front| == max || |front| == |due| || !Fine(due[|front|], outcomes, verified)
    ensures Passed(due, max, outcomes, verified) == |front| && due[..|front|] == front
  {
    assert forall i :: 0 <= i < |front| ==> due[i] == front[i];
    PassedIs(due, max, |front|, outcomes, verified);
  }

  /** Stopped before archive a by the limit, by a fault of a, or by the end of the list. */
  lemma StoppedBefore(c: Call, r: seq<Committed>, j: set<Rejection>, receipts: nat, a: nat, max: nat)
    requires a <= |c.ready| && receipts <= max && Swept(c, r, j, receipts, a)
    requires a == |c.ready| || receipts == max || (c.Waits(r, j, a) && !Fine(a, c.outcomes, c.verified))
    ensures
      var due := c.DueBefore(|c.ready|);
      && Passed(due, max, c.outcomes, c.verified) == receipts <= |due|
      && due[..receipts] == c.DueBefore(a)
      && (receipts < max && a < |c.ready| ==> receipts < |due| && due[receipts] == a)
      && (a == |c.ready| ==> receipts == |due|)
  {
    var due := c.DueBefore(|c.ready|);
    DueFront(c.ready, c.runs, c.rejections, c.selector, a, |c.ready|);
    if receipts < max && a < |c.ready| {
      WaitsIsDue(c, r, j, receipts, a);
      DueFront(c.ready, c.runs, c.rejections, c.selector, a + 1, |c.ready|);
    }
    FrontIsPassed(due, c.DueBefore(a), max, c.outcomes, c.verified);
  }

  /** The newest committed archive, if any was committed. */
  predicate IsNewest(runs: seq<Committed>, newest: Option<nat>) {
    match newest
    case None => runs == []
    case Some(n) => Below(runs, n + 1) && exists i :: 0 <= i < |runs| && runs[i].archive == n
  }

  lemma NewerThanAll(runs: seq<Committed>, newest: Option<nat>, selector: nat, a: nat)
    requires IsNewest(runs, newest) && (newest.Some? ==> newest.value <= a)
    requires forall i :: 0 <= i < |runs| ==> runs[i].selector == selector
    requires !HasRun(runs, selector, a)
    ensures Below(runs, a) && (newest.Some? ==> newest.value < a)
  {
  }

  /** If nothing before a is due and a is newer than every run, no archive is late. */
  lemma NoneLate(ready: seq<bool>, runs: seq<Committed>, rejections: set<Rejection>, selector: nat, a: nat)
    requires a <= |ready| && Below(runs, a) && Due(ready, runs, rejections, selector, a) == []
    ensures NoneIsLate(ready, runs, rejections, selector)
  {
    forall b: nat
      ensures !LateArchive(ready, runs, rejections, selector, b)
    {
      if b < a { DueExactly(ready, runs, rejections, selector, a, b); }
    }
  }

  /** The first archive that waits shows whether any is late; after that the rest are newer than all. */
  lemma FirstIsNewest(c: Call, r: seq<Committed>, j: set<Rejection>, receipts: nat, a: nat)
    requires a < |c.ready| && Swept(c, r, j, receipts, a) && c.Waits(c.runs, c.rejections, a)
    requires IsNewest(c.runs, c.newest) && ContractKept(c.runs, c.rejections, c.selector)
    requires c.newest.Some? ==> c.newest.value <= a
    ensures c.NoneLate() && Below(r, a) && (c.newest.Some? ==> c.newest.value < a)
  {
    if receipts == 0 {
      NewerThanAll(c.runs, c.newest, c.selector, a);
      NoneLate(c.ready, c.runs, c.rejections, c.selector, a);
      assert r == c.runs;
    }
  }

  /** What a call that is not refused says and leaves behind. */
  ghost predicate Answered(c: Call, max: nat, reply: Reply, r: seq<Committed>, j: set<Rejection>) {
    var due := c.DueBefore(|c.ready|);
    var k := Passed(due, max, c.outcomes, c.verified);
    && reply == Answer(due, max, k, c.verified)
    && if c.commit then Dealt(c.runs, c.rejections, r, j, c.selector, due[..k], c.outcomes)
       else r == c.runs && j == c.rejections
  }

  /** The reply of a call whose limits and selection are in order. */
  ghost predicate Told(c: Call, max: nat, reply: Reply, r: seq<Committed>, j: set<Rejection>) {
    if c.NoneLate() then Answered(c, max, reply, r, j)
    else reply == OutOfOrder && r == c.runs && j == c.rejections
  }

  lemma LateIsTold(c: Call, r: seq<Committed>, j: set<Rejection>, receipts: nat, a: nat, max: nat)
    requires a <= |c.ready| && Swept(c, r, j, receipts, a) && !c.NoneLate()
    ensures Told(c, max, OutOfOrder, r, j)
  {
    StillNothing(c, r, j, receipts, a);
  }

  lemma NothingYet(c: Call, r: seq<Committed>, j: set<Rejection>)
    requires r == c.runs && j == c.rejections
    ensures Swept(c, r, j, 0, 0)
  {
  }

  lemma StillNothing(c: Call, r: seq<Committed>, j: set<Rejection>, receipts: nat, a: nat)
    requires a <= |c.ready| && Swept(c, r, j, receipts, a)
    ensures !c.NoneLate() || receipts == 0 ==> receipts == 0 && r == c.runs && j == c.rejections && c.DueBefore(a) == []
  {
  }

  lemma FaultAnswers(c: Call, r: seq<Committed>, j: set<Rejection>, receipts: nat, a: nat, max: nat, reply: Reply)
    requires a < |c.ready| == |c.verified| && receipts < max && Swept(c, r, j, receipts, a)
    requires c.Waits(r, j, a) && !Fine(a, c.outcomes, c.verified)
    requires reply == if c.verified[a] then DuplicatePrivateIdentity else VerifyFailed
    requires c.NoneLate()
    ensures Told(c, max, reply, r, j)
  {
    StoppedBefore(c, r, j, receipts, a, max);
  }

  /** What the turn of an archive that waits means: it is late, or it is taken, or its fault ends the call. */
  lemma TurnComes(c: Call, r: seq<Committed>, j: set<Rejection>, receipts: nat, a: nat, max: nat)
    requires a < |c.ready| == |c.verified| && receipts < max && Swept(c, r, j, receipts, a) && c.Waits(r, j, a)
    requires IsNewest(c.runs, c.newest) && ContractKept(c.runs, c.rejections, c.selector)
    ensures c.newest.Some? && a < c.newest.value ==> Told(c, max, OutOfOrder, r, j)
    ensures !(c.newest.Some? && a < c.newest.value) ==>
      && c.NoneLate() && Below(r, a) && (c.newest.Some? ==> c.newest.value < a)
      && (!Fine(a, c.outcomes, c.verified) ==>
            Told(c, max, if c.verified[a] then DuplicatePrivateIdentity else VerifyFailed, r, j))
  {
    WaitsIsDue(c, r, j, receipts, a);
    if c.newest.Some? && a < c.newest.value {
      assert LateArchive(c.ready, c.runs, c.rejections, c.selector, a);
      LateIsTold(c, r, j, receipts, a, max);
    } else {
      FirstIsNewest(c, r, j, receipts, a);
      if !Fine(a, c.outcomes, c.verified) {
        FaultAnswers(c, r, j, receipts, a, max, if c.verified[a] then DuplicatePrivateIdentity else VerifyFailed);
      }
    }
  }

  /** At the limit or at the end nothing is late, as far as the call could tell and in fact. */
  lemma EndAnswers(c: Call, r: seq<Committed>, j: set<Rejection>, receipts: nat, a: nat, max: nat)
    requires a <= |c.ready| && 1 <= max && receipts <= max && Swept(c, r, j, receipts, a)
    requires Below(c.runs, |c.ready|)
    requires a == |c.ready| || receipts == max
    ensures Told(c, max, Finished(receipts), r, j)
  {
    StoppedBefore(c, r, j, receipts, a, max);
    if receipts == 0 {
      StillNothing(c, r, j, receipts, a);
      NoneLate(c.ready, c.runs, c.rejections, c.selector, |c.ready|);
    }
  }

  /** A committing call that finished below its limit left no ready archive undone. */
  lemma FinishedIsCaughtUp(c: Call, max: nat, receipts: nat, r: seq<Committed>, j: set<Rejection>)
    requires c.commit && receipts < max && Answered(c, max, Finished(receipts), r, j)
    ensures CaughtUp(c.ready, r, j, c.selector, |c.ready|)
  {
    var due := c.DueBefore(|c.ready|);
    assert due[..|due|] == due;
    forall b | 0 <= b < |c.ready| && c.ready[b]
      ensures Journalled(r, j, c.selector, b)
    {
      DueExactly(c.ready, c.runs, c.rejections, c.selector, |c.ready|, b);
      DealtIsJournalled(c.runs, c.rejections, r, j, c.selector, due, c.outcomes, b);
    }
  }

  /** An archive is late for good: whatever is published afterwards does not help. */
  lemma LateStays(
      before: seq<bool>, after: seq<bool>, runs: seq<Committed>, rejections: set<Rejection>, selector: nat, a: nat)
    requires ReadyGrows(before, after) && LateArchive(before, runs, rejections, selector, a)
    ensures LateArchive(after, runs, rejections, selector, a)
  {
  }

  // ----- whatever happens to a scope with a late archive -----

  datatype Step =
    | Publishes(archive: Named, inspected: bool, placed: bool)
    | Inventories(selector: nat, commit: bool, max: int, outcomes: nat -> Outcome, verified: nat -> bool)

  function ShelfAfter(shelf: Shelf, steps: seq<Step>): (r: Shelf)
    requires ShelfOk(shelf)
    ensures ShelfOk(r)
  {
    if steps == [] then shelf
    else
      var last, before := steps[|steps| - 1], ShelfAfter(shelf, steps[..|steps| - 1]);
      if last.Publishes? then
        PublishKeeps(before, last.archive, last.inspected, last.placed);
        PublishOn(before, last.archive, last.inspected, last.placed).0
      else before
  }

  /** Why a call is refused when an archive is late under the scope's own selection. */
  function LateRefusal(call: Step, selector: nat): Reply
    requires call.Inventories?
  {
    if !(1 <= call.max <= 16) then InvalidLimit
    else if !call.commit && call.max != 1 then MultiArchivePreview
    else if call.selector != selector then ScopeContractChanged
    else OutOfOrder
  }

  /** One reply for every call, in order. */
  function LateRefusals(steps: seq<Step>, selector: nat): seq<Reply> {
    if steps == [] then []
    else
      LateRefusals(steps[..|steps| - 1], selector)
        + (if steps[|steps| - 1].Inventories? then [LateRefusal(steps[|steps| - 1], selector)] else [])
  }

  /** With a run committed only one selection keeps the contract, and under that one an archive is late. */
  lemma OneSelection(
      runs: seq<Committed>, rejections: set<Rejection>, selector: nat, asked: nat, ready: seq<bool>, late: nat)
    requires ContractKept(runs, rejections, selector) && LateArchive(ready, runs, rejections, selector, late)
    ensures ContractKept(runs, rejections, asked) <==> asked == selector
    ensures !NoneIsLate(ready, runs, rejections, selector)
  {
    assert runs != [] && runs[0].selector == selector;
  }

  class Inventory {
    var names: seq<Named>
    /** One flag per published archive, in order: whether it is ready. */
    var ready: seq<bool>
    var runs: seq<Committed>
    var rejections: set<Rejection>
    var latest: Table
    var revisions: map<Revision, nat>

    predicate JournalOk()
      reads `runs, `latest, `revisions
    {
      InOrder(runs) && Accounted(runs) && latest == LatestOf(runs) && revisions == RevisionsOf(runs)
    }

    predicate Valid()
      reads `runs, `latest, `revisions, `ready
    {
      JournalOk() && Below(runs, |ready|)
    }

    predicate ShelfValid()
      reads `names, `ready
    {
      ShelfOk(Shelf(names, ready))
    }

    constructor ()
      ensures Valid() && ShelfValid() && runs == [] && rejections == {} && names == [] && ready == []
    {
      names, ready, runs, rejections, latest, revisions := [], [], [], {}, map[], map[];
    }

    /** One committed run: its row, its revisions and the overridden table, all or nothing. */
    method Commit(run: Committed)
      requires JournalOk() && Below(runs, run.archive)
      requires Counts(run.receipt, latest, run.entries)
      modifies this`runs, this`latest, this`revisions
      ensures JournalOk() && runs == old(runs) + [run]
    {
      OneMoreRun(runs, run);
      OneMoreInOrder(runs, run);
      OneMoreAccounted(runs, run);
      latest := latest + run.entries;
      revisions := Revisions(run.entries) + revisions;
      runs := runs + [run];
    }

    /** The newest committed archive, or none. */
    method Checkpoint() returns (newest: Option<nat>)
      ensures IsNewest(runs, newest)
    {
      newest := None;
      for i := 0 to |runs|
        invariant newest.None? <==> i == 0
        invariant newest.Some? ==> exists k :: 0 <= k < i && runs[k].archive == newest.value
        invariant newest.Some? ==> forall k :: 0 <= k < i ==> runs[k].archive <= newest.value
      {
        if newest.None? || newest.value < runs[i].archive { newest := Some(runs[i].archive); }
      }
    }

    /** The batch of one archive, compared with the table and, unless previewed, committed. */
    method TakeBatch(selector: nat, commit: bool, a: nat, items: seq<Item>) returns (ok: bool)
      requires JournalOk() && Below(runs, a)
      modifies this`runs, this`latest, this`revisions
      ensures JournalOk()
      ensures ok <==> DistinctKeys(items)
      ensures !(ok && commit) ==> runs == old(runs)
      ensures ok && commit ==>
        exists receipt :: runs == old(runs) + [Committed(selector, a, EntriesOf(items), receipt)]
    {
      var taken := TakeInventory(latest, items);
      if taken.DuplicateIdentity? { return false; }
      if commit { Commit(Committed(selector, a, taken.entries, taken.receipt)); }
      ok := true;
    }

    /** One archive, not dealt with before: rejected, committed, or only previewed. */
    method Process(selector: nat, commit: bool, a: nat, outcomes: seq<Outcome>) returns (ok: bool)
      requires JournalOk() && Below(runs, a) && a < |outcomes|
      modifies this`runs, this`rejections, this`latest, this`revisions
      ensures JournalOk() && Below(runs, a + 1)
      ensures ok <==> (IsBatch(a, outcomes) ==> DistinctKeys(outcomes[a].items))
      ensures ok && commit ==> TookOne(old(runs), old(rejections), runs, rejections, selector, a, outcomes)
      ensures !(ok && commit) ==> runs == old(runs) && rejections == old(rejections)
    {
      if outcomes[a].Rejected? {
        if commit { rejections := rejections + {Rejection(selector, a)}; }
        return true;
      }
      ghost var before := runs;
      ok := TakeBatch(selector, commit, a, outcomes[a].items);
      if ok && commit {
        ghost var receipt :| runs == before + [Committed(selector, a, EntriesOf(outcomes[a].items), receipt)];
        EnteredOne(before, rejections, selector, a, outcomes, receipt);
      }
    }

    /** An archive that waits and is not late, its file as published. */
    method Take(c: Call, receipts: nat, a: nat) returns (ok: bool)
      requires JournalOk() && a < |c.ready| == |c.outcomes| == |c.verified|
      requires Swept(c, runs, rejections, receipts, a) && c.Waits(runs, rejections, a)
      requires c.NoneLate() && Below(runs, a) && (c.newest.Some? ==> c.newest.value < a) && c.verified[a]
      modifies this`runs, this`rejections, this`latest, this`revisions
      ensures JournalOk() && Below(runs, a + 1)
      ensures ok ==> Swept(c, runs, rejections, receipts + 1, a + 1)
      ensures !ok ==> runs == old(runs) && rejections == old(rejections)
      ensures ok <==> Fine(a, c.outcomes, c.verified)
    {
      ghost var r, j := runs, rejections;
      ok := Process(c.selector, c.commit, a, c.outcomes);
      if ok { TakeKeeps(c, r, j, receipts, a, runs, rejections); }
    }

    /** One ready archive in its turn: passed over, or processed, or the end of the call. */
    method SweepOne(c: Call, receipts: nat, a: nat, ghost max: nat) returns (stop: Option<Reply>, done: bool)
      requires Valid() && c.ready == ready && a < |ready| == |c.outcomes| == |c.verified|
      requires Swept(c, runs, rejections, receipts, a) && receipts < max
      requires IsNewest(c.runs, c.newest) && ContractKept(c.runs, c.rejections, c.selector)
      modifies this`runs, this`rejections, this`latest, this`revisions
      ensures Valid()
      ensures stop.Some? ==> Told(c, max, stop.value, runs, rejections)
      ensures stop.None? ==> Swept(c, runs, rejections, if done then receipts + 1 else receipts, a + 1)
    {
      if !ready[a] || Journalled(runs, rejections, c.selector, a) {
        SkipKeeps(c, runs, rejections, receipts, a);
        return None, false;
      }
      TurnComes(c, runs, rejections, receipts, a, max);
      if c.newest.Some? && a < c.newest.value { return Some(OutOfOrder), false; }
      if !c.verified[a] { return Some(VerifyFailed), false; }
      var ok := Take(c, receipts, a);
      if !ok { return Some(DuplicatePrivateIdentity), false; }
      return None, true;
    }

    /** Through the list, in order, until the limit, a fault or the end. */
    method Sweep(c: Call, max: nat) returns (reply: Reply)
      requires Valid() && c.ready == ready && |ready| == |c.outcomes| == |c.verified|
      requires c.runs == runs && c.rejections == rejections && 1 <= max
      requires IsNewest(c.runs, c.newest) && ContractKept(c.runs, c.rejections, c.selector)
      modifies this`runs, this`rejections, this`latest, this`revisions
      ensures Valid() && Told(c, max, reply, runs, rejections)
    {
      NothingYet(c, runs, rejections);
      assert Below(c.runs, |c.ready|);
      var receipts: nat := 0;
      var a := 0;
      while a < |ready| && receipts < max
        invariant a <= |ready| && receipts <= max && Valid()
        invariant Swept(c, runs, rejections, receipts, a)
      {
        var stop, done := SweepOne(c, receipts, a, max);
        if stop.Some? { return stop.value; }
        if done { receipts := receipts + 1; }
        a := a + 1;
      }
      EndAnswers(c, runs, rejections, receipts, a, max);
      reply := Finished(receipts);
    }

    /**
     One call. Unless it is refused outright it takes the archives that are due, in order,
     up to its limit or to the first with a fault, and says which of these it was; what it
     had committed by then stays committed. A preview changes nothing.
     */
    method InventoryReady(selector: nat, commit: bool, max: int, outcomes: seq<Outcome>, verified: seq<bool>)
      returns (reply: Reply)
      requires Valid() && |outcomes| == |ready| == |verified|
      modifies this`runs, this`rejections, this`latest, this`revisions
      ensures Valid()
      ensures old(Refusal(ready, runs, rejections, selector, commit, max)).Some? ==>
        && reply == old(Refusal(ready, runs, rejections, selector, commit, max)).value
        && runs == old(runs) && rejections == old(rejections)
      ensures old(Refusal(ready, runs, rejections, selector, commit, max)).None? ==>
        var due := old(Due(ready, runs, rejections, selector, |ready|));
        var k := Passed(due, max, outcomes, verified);
        && reply == Answer(due, max, k, verified)
        && (if commit then Dealt(old(runs), old(rejections), runs, rejections, selector, due[..k], outcomes)
            else runs == old(runs) && rejections == old(rejections))
    {
      if !(1 <= max <= 16) { return InvalidLimit; }
      if !commit && max != 1 { return MultiArchivePreview; }
      if !ContractKept(runs, rejections, selector) { return ScopeContractChanged; }
      var newest := Checkpoint();
      reply := Sweep(Call(ready, runs, rejections, selector, commit, newest, outcomes, verified), max);
    }

    /** Publication of one archive, which may stop before its file is in place and be retried. */
    method PublishArchive(archive: Named, inspected: bool, placed: bool) returns (reply: PublishReply)
      requires Valid() && ShelfValid()
      modifies this`names, this`ready
      ensures Valid() && ShelfValid()
      ensures (Shelf(names, ready), reply) == PublishOn(old(Shelf(names, ready)), archive, inspected, placed)
    {
      PublishKeeps(Shelf(names, ready), archive, inspected, placed);
      if !inspected { return StructureRejected; }
      var row := IndexOf(names, archive.sha);
      if row.Some? && names[row.value].size != archive.size { return IdentityCollision; }
      reply := if row.Some? && ready[row.value] then ExistingArchive else Published;
      var a := |names|;
      if row.Some? {
        a := row.value;
      } else {
        names, ready := names + [archive], ready + [false];
      }
      if !placed { return PublishFailed; }
      ready := ready[a := true];
      assert row.None? ==> ready == old(ready) + [true];
    }

    /** An archive is late under the selection the scope keeps. */
    predicate Blocked(selector: nat, late: nat)
      reads this
    {
      && Valid() && ShelfValid()
      && ContractKept(runs, rejections, selector) && LateArchive(ready, runs, rejections, selector, late)
    }

    /** One more publication or call. */
    method TakeStep(step: Step, selector: nat, late: nat) returns (reply: Option<Reply>)
      requires Blocked(selector, late)
      modifies this
      ensures Blocked(selector, late) && runs == old(runs) && rejections == old(rejections)
      ensures Shelf(names, ready) ==
        if step.Publishes?
        then PublishOn(old(Shelf(names, ready)), step.archive, step.inspected, step.placed).0 else old(Shelf(names, ready))
      ensures reply == if step.Inventories? then Some(LateRefusal(step, selector)) else None
    {
      match step {
        case Publishes(archive, inspected, placed) =>
          PublishKeeps(Shelf(names, ready), archive, inspected, placed);
          var _ := PublishArchive(archive, inspected, placed);
          LateStays(old(ready), ready, runs, rejections, selector, late);
          reply := None;
        case Inventories(asked, commit, max, outcomes, verified) =>
          OneSelection(runs, rejections, selector, asked, ready, late);
          var n := |ready|;
          var told := InventoryReady(
            asked, commit, max,
            seq(n, i requires 0 <= i < n => outcomes(i)), seq(n, i requires 0 <= i < n => verified(i)));
          reply := Some(told);
      }
    }

    /**
     Once an archive is late, whatever is published and however often the inventory is
     called, under any selection: each call has its refusal, no run is ever added, and the
     shelf is what the publications alone make of it.
     */
    method Continue(steps: seq<Step>, selector: nat, late: nat) returns (replies: seq<Reply>)
      requires Blocked(selector, late)
      modifies this
      ensures Blocked(selector, late) && runs == old(runs) && rejections == old(rejections)
      ensures Shelf(names, ready) == ShelfAfter(old(Shelf(names, ready)), steps)
      ensures replies == LateRefusals(steps, selector)
    {
      replies := [];
      for k := 0 to |steps|
        invariant Blocked(selector, late) && runs == old(runs) && rejections == old(rejections)
        invariant Shelf(names, ready) == ShelfAfter(old(Shelf(names, ready)), steps[..k])
        invariant replies == LateRefusals(steps[..k], selector)
      {
        assert steps[..k + 1][..k] == steps[..k];
        var reply := TakeStep(steps[k], selector, late);
        if reply.Some? { replies := replies + [reply.value]; }
      }
      assert steps[..|steps|] == steps;
    }
  }

  const First := Named(10, 1)
  const Second := Named(20, 1)
  const TwoEmpty := [Batch([]), Batch([])]

  /** A scope that gets there: the second archive is committed before the first is in place. */
  method FirstComesLate() returns (scope: Inventory)
    ensures fresh(scope) && scope.Blocked(0, 0)
  {
    scope := PublishTwo();
    CommitSecond(scope);
    FirstIsPlaced();
    var reply := scope.PublishArchive(First, true, true);
    FirstIsLate(scope.runs);
  }

  method CommitSecond(scope: Inventory)
    requires scope.Valid() && scope.ready == [false, true] && scope.runs == [] && scope.rejections == {}
    modifies scope`runs, scope`rejections, scope`latest, scope`revisions
    ensures scope.Valid() && scope.rejections == {}
    ensures |scope.runs| == 1 && scope.runs[0].archive == 1 && scope.runs[0].selector == 0
  {
    OnlySecondIsDue();
    var told := scope.InventoryReady(0, true, 2, TwoEmpty, [true, true]);
    assert told == Finished(1);
    SecondIsEntered(scope.runs, scope.rejections);
  }

  lemma FirstIsPlaced()
    ensures ShelfOk(Shelf([First, Second], [false, true]))
    ensures PublishOn(Shelf([First, Second], [false, true]), First, true, true)
         == (Shelf([First, Second], [true, true]), Published)
  {
    assert IndexOf([First, Second], First.sha) == Some(0) by {
      assert [First, Second][0] == First;
    }
    assert [false, true][0 := true] == [true, true];
  }

  method PublishTwo() returns (scope: Inventory)
    ensures fresh(scope) && scope.Valid() && scope.ShelfValid() && scope.runs == [] && scope.rejections == {}
    ensures scope.names == [First, Second] && scope.ready == [false, true]
  {
    scope := new Inventory();
    var reply := scope.PublishArchive(First, true, false);
    assert scope.names == [First] && scope.ready == [false];
    reply := scope.PublishArchive(Second, true, true);
    assert scope.names == [First, Second] && scope.ready == [false, true];
  }

  lemma OnlySecondIsDue()
    ensures Due([false, true], [], {}, 0, 2) == [1]
    ensures Refusal([false, true], [], {}, 0, true, 2).None?
    ensures Passed([1], 2, TwoEmpty, [true, true]) == 1 && [1][..1] == [1]
  {
    assert Due([false, true], [], {}, 0, 0) == [];
    assert Due([false, true], [], {}, 0, 1) == [];
    assert !Journalled([], {}, 0, 1);
    PassedIs([1], 2, 1, TwoEmpty, [true, true]);
  }

  lemma SecondIsEntered(r: seq<Committed>, j: set<Rejection>)
    requires Dealt([], {}, r, j, 0, [1], TwoEmpty)
    ensures |r| == 1 && r[0].archive == 1 && r[0].selector == 0 && j == {}
  {
    assert [1][..0] == [];
    assert Entered([1], TwoEmpty) == [1];
    var none: seq<Committed> := [];
    assert RunOf(r[|none| + 0], 0, Entered([1], TwoEmpty)[0], TwoEmpty);
  }

  lemma FirstIsLate(r: seq<Committed>)
    requires |r| == 1 && r[0].archive == 1 && r[0].selector == 0
    ensures ContractKept(r, {}, 0) && LateArchive([true, true], r, {}, 0, 0)
  {
  }
}
