/**
 The input planner's schedule: coverage cycles that work through a fixed permutation of
 the catalog, interleaved with random cycles that leave the coverage position alone.

 The shuffles are parameters: coverage order by epoch and a drawn order by cycle, both
 fixed once the catalog is.
 */
module PlannerSchedule {
  import opened Utf8Text

  const MAX_CONTEXT_BYTES := 512 * 1024
  const MAX_SOURCE_BYTES := 128 * 1024
  const MAX_BATCH_SIZE := 8

  datatype Entry = Entry(path: string, bytes: nat)

  datatype Catalog = Catalog(entries: seq<Entry>, digest: nat)

  datatype PlannerState = PlannerState(catalog: Option<nat>, epoch: nat, cursor: nat, cycle: nat)

  datatype Policy = Coverage | Random

  datatype Selection = Selection(policy: Policy, epoch: nat, cycle: nat, entries: seq<Entry>)

  datatype Settings = Settings(batch: int, coverageCycles: int, randomCycles: int)

  datatype Shuffles = Shuffles(coverage: nat -> seq<Entry>, drawn: nat -> seq<Entry>)

  datatype Choice = BadSettings | Idle(next: PlannerState) | NothingFits | Chosen(selection: Selection, next: PlannerState)

  predicate Fits(e: Entry) {
    e.bytes <= MAX_CONTEXT_BYTES
  }

  function Bytes(entries: seq<Entry>): nat {
    if entries == [] then 0 else Bytes(entries[..|entries| - 1]) + entries[|entries| - 1].bytes
  }

  /** How many entries at the front are each too large on their own. */
  function Oversize(candidates: seq<Entry>): (n: nat)
    ensures n <= |candidates|
    ensures forall i :: 0 <= i < n ==> !Fits(candidates[i])
    ensures n < |candidates| ==> Fits(candidates[n])
  {
    if candidates == [] || Fits(candidates[0]) then 0 else 1 + Oversize(candidates[1..])
  }

  /** Selected from lo: within both limits, and one more entry would break one of them. */
  predicate LongestRun(candidates: seq<Entry>, lo: nat, selected: seq<Entry>, batch: nat) {
    && lo + |selected| <= |candidates|
    && selected == candidates[lo..lo + |selected|]
    && |selected| <= batch && Bytes(selected) <= MAX_CONTEXT_BYTES
    && (lo + |selected| == |candidates| || |selected| == batch
        || Bytes(selected) + candidates[lo + |selected|].bytes > MAX_CONTEXT_BYTES)
  }

  lemma BytesOfOneMore(entries: seq<Entry>, e: Entry)
    ensures Bytes(entries + [e]) == Bytes(entries) + e.bytes
  {
    assert (entries + [e])[..|entries|] == entries;
  }

  function RunLength(candidates: seq<Entry>, batch: nat, total: nat): (n: nat)
    ensures n <= |candidates| && n <= batch
  {
    if candidates == [] || batch == 0 || total + candidates[0].bytes > MAX_CONTEXT_BYTES then 0
    else 1 + RunLength(candidates[1..], batch - 1, total + candidates[0].bytes)
  }

  function Fit(candidates: seq<Entry>, batch: nat): seq<Entry> {
    var rest := candidates[Oversize(candidates)..];
    rest[..RunLength(rest, batch, 0)]
  }

  lemma {:induction false} BytesOfFront(entries: seq<Entry>)
    requires entries != []
    ensures Bytes(entries) == entries[0].bytes + Bytes(entries[1..])
  {
    if |entries| > 1 {
      BytesOfFront(entries[..|entries| - 1]);
      assert entries[..|entries| - 1][1..] == entries[1..][..|entries| - 2];
    }
  }

  /** Only one run is longest, and it is the one the schedule uses. */
  lemma {:induction false} LongestIsFit(candidates: seq<Entry>, lo: nat, selected: seq<Entry>, batch: nat, total: nat)
    requires lo + |selected| <= |candidates| && selected == candidates[lo..lo + |selected|]
    requires |selected| <= batch && (selected != [] ==> total + Bytes(selected) <= MAX_CONTEXT_BYTES)
    requires lo + |selected| == |candidates| || |selected| == batch
      || total + Bytes(selected) + candidates[lo + |selected|].bytes > MAX_CONTEXT_BYTES
    ensures |selected| == RunLength(candidates[lo..], batch, total)
    decreases |selected|
  {
    if selected != [] {
      BytesOfFront(selected);
      assert candidates[lo + 1..] == candidates[lo..][1..];
      assert candidates[lo..][0] == selected[0];
      if |selected| == 1 { assert Bytes(selected[1..]) == 0; }
      LongestIsFit(candidates, lo + 1, selected[1..], batch - 1, total + selected[0].bytes);
    }
  }

  lemma FitEntriesIsFit(candidates: seq<Entry>, selected: seq<Entry>, batch: nat)
    requires LongestRun(candidates, Oversize(candidates), selected, batch)
    ensures selected == Fit(candidates, batch)
  {
    LongestIsFit(candidates, Oversize(candidates), selected, batch, 0);
  }

  /** What has been taken so far: nothing until an entry fits, then everything. */
  predicate TakenSoFar(candidates: seq<Entry>, lo: nat, i: nat, selected: seq<Entry>)
    requires lo <= |candidates| && i <= |candidates|
  {
    if i <= lo then selected == [] else selected == candidates[lo..i]
  }

  /** The longest run from the first entry that fits at all. */
  method FitEntries(candidates: seq<Entry>, batch: nat) returns (selected: seq<Entry>)
    requires 1 <= batch
    ensures LongestRun(candidates, Oversize(candidates), selected, batch)
    ensures selected == Fit(candidates, batch)
  {
    selected := [];
    var total := 0;
    ghost var lo := Oversize(candidates);
    var i := 0;
    while i < |candidates|
      invariant i <= |candidates| && TakenSoFar(candidates, lo, i, selected)
      invariant |selected| <= batch
      invariant total == Bytes(selected) <= MAX_CONTEXT_BYTES
    {
      if |selected| >= batch { break; }
      if total + candidates[i].bytes <= MAX_CONTEXT_BYTES {
        TakeOne(candidates, lo, i, selected);
        selected := selected + [candidates[i]];
        total := total + candidates[i].bytes;
      } else if selected != [] {
        break;
      }
      i := i + 1;
    }
    StoppedIsLongest(candidates, lo, i, selected, batch);
    FitEntriesIsFit(candidates, selected, batch);
  }

  lemma StoppedIsLongest(candidates: seq<Entry>, lo: nat, i: nat, selected: seq<Entry>, batch: nat)
    requires lo == Oversize(candidates) && i <= |candidates| && TakenSoFar(candidates, lo, i, selected)
    requires 1 <= batch && |selected| <= batch && Bytes(selected) <= MAX_CONTEXT_BYTES
    requires i == |candidates| || |selected| == batch
      || (selected != [] && Bytes(selected) + candidates[i].bytes > MAX_CONTEXT_BYTES)
    ensures LongestRun(candidates, lo, selected, batch)
  {
  }

  lemma TakeOne(candidates: seq<Entry>, lo: nat, i: nat, selected: seq<Entry>)
    requires lo == Oversize(candidates) && i < |candidates| && TakenSoFar(candidates, lo, i, selected)
    requires Bytes(selected) + candidates[i].bytes <= MAX_CONTEXT_BYTES
    ensures TakenSoFar(candidates, lo, i + 1, selected + [candidates[i]])
    ensures Bytes(selected + [candidates[i]]) == Bytes(selected) + candidates[i].bytes
  {
    BytesOfOneMore(selected, candidates[i]);
  }

  /** The selection is a prefix of its candidates exactly when the first of them fits, or none does. */
  lemma FitIsPrefix(candidates: seq<Entry>, batch: nat)
    requires 1 <= batch && DistinctEntries(candidates)
    ensures Fit(candidates, batch) <= candidates <==>
      (candidates == [] || Fits(candidates[0]) || forall i :: 0 <= i < |candidates| ==> !Fits(candidates[i]))
    ensures candidates != [] && Fits(candidates[0]) ==> Fit(candidates, batch) != []
  {
    var lo := Oversize(candidates);
    if 0 < lo < |candidates| {
      assert Fit(candidates, batch)[0] == candidates[lo] != candidates[0];
    }
  }

  predicate DistinctEntries(entries: seq<Entry>) {
    forall i, j :: 0 <= i < j < |entries| ==> entries[i] != entries[j]
  }

  // ----- one cycle -----

  predicate SettingsOk(cfg: Settings) {
    1 <= cfg.batch <= MAX_BATCH_SIZE && 1 <= cfg.coverageCycles && 0 <= cfg.randomCycles
  }

  /** The remainder of cycle by period, counted down. */
  function Phase(cycle: nat, period: nat): nat
    requires period > 0
  {
    if cycle < period then cycle else Phase(cycle - period, period)
  }

  lemma {:induction false} PhaseIsRemainder(cycle: nat, period: nat)
    requires period > 0
    ensures Phase(cycle, period) == cycle % period
  {
    if cycle >= period {
      PhaseIsRemainder(cycle - period, period);
      var x := cycle - period;
      SameRemainder(period, x / period + 1, x % period, cycle / period, cycle % period);
    }
  }

  lemma SameRemainder(p: int, a: int, r: int, b: int, t: int)
    requires 0 <= r < p && 0 <= t < p
    requires a * p + r == b * p + t
    ensures r == t
  {
    if a < b { AtLeastOne(b - a, p); } else if b < a { AtLeastOne(a - b, p); }
  }

  lemma AtLeastOne(d: int, p: int)
    requires d >= 1 && p > 0
    ensures d * p >= p
  {
  }

  predicate RandomTurn(cfg: Settings, cycle: nat)
    requires SettingsOk(cfg)
  {
    cfg.randomCycles > 0 && Phase(cycle, cfg.coverageCycles + cfg.randomCycles) >= cfg.coverageCycles
  }

  function Choose(catalog: Catalog, sh: Shuffles, given: PlannerState, cfg: Settings): Choice {
    if !SettingsOk(cfg) then BadSettings
    else if catalog.entries == [] then Idle(PlannerState(Some(catalog.digest), 1, 0, given.cycle + 1))
    else
      var state := if given.catalog == Some(catalog.digest) then given
                   else PlannerState(Some(catalog.digest), 1, 0, given.cycle);
      if RandomTurn(cfg, state.cycle) then
        Chosen(
          Selection(Random, state.epoch, state.cycle, Fit(sh.drawn(state.cycle), cfg.batch)),
          PlannerState(Some(catalog.digest), state.epoch, state.cursor, state.cycle + 1))
      else
        var over := state.cursor >= |sh.coverage(state.epoch)|;
        var epoch := if over then state.epoch + 1 else state.epoch;
        var cursor := if over then 0 else state.cursor;
        var candidates := if cursor <= |sh.coverage(epoch)| then sh.coverage(epoch)[cursor..] else [];
        var selected := Fit(candidates, cfg.batch);
        if selected == [] then NothingFits
        else Chosen(
          Selection(Coverage, epoch, state.cycle, selected),
          PlannerState(Some(catalog.digest), epoch, cursor + |selected|, state.cycle + 1))
  }

  /** A choice that is stored names the catalog and moves the cycle on by one, so it never repeats a state. */
  lemma ChoiceAdvancesTheCycle(catalog: Catalog, sh: Shuffles, s: PlannerState, cfg: Settings)
    ensures var c := Choose(catalog, sh, s, cfg);
      (c.Chosen? || c.Idle?) ==> c.next.catalog == Some(catalog.digest) && c.next.cycle == s.cycle + 1 && c.next != s
  {
  }

  /** The state kept after a choice; a failed choice stores nothing. */
  function Kept(s: PlannerState, c: Choice): PlannerState {
    if c.Chosen? || c.Idle? then c.next else s
  }

  // ----- runs over an unchanged catalog -----

  ghost predicate Shuffled(catalog: Catalog, sh: Shuffles) {
    forall e: nat :: multiset(sh.coverage(e)) == multiset(catalog.entries)
  }

  predicate AllFit(catalog: Catalog) {
    forall i :: 0 <= i < |catalog.entries| ==> Fits(catalog.entries[i])
  }

  /** A catalog all of which fits, and a permutation of it for every epoch. */
  ghost predicate Stage(catalog: Catalog, sh: Shuffles, cfg: Settings) {
    SettingsOk(cfg) && catalog.entries != [] && Shuffled(catalog, sh) && AllFit(catalog)
  }

  /** A state already working through this catalog. */
  predicate Settled(catalog: Catalog, s: PlannerState) {
    s.catalog == Some(catalog.digest) && s.cursor <= |catalog.entries|
  }

  function EndOf(s: PlannerState, run: seq<Choice>): PlannerState {
    if run == [] then s else Kept(EndOf(s, run[..|run| - 1]), run[|run| - 1])
  }

  /** The choices made cycle after cycle from s. */
  predicate IsRun(catalog: Catalog, sh: Shuffles, cfg: Settings, s: PlannerState, run: seq<Choice>) {
    run == [] || (
      && IsRun(catalog, sh, cfg, s, run[..|run| - 1])
      && run[|run| - 1] == Choose(catalog, sh, EndOf(s, run[..|run| - 1]), cfg))
  }

  /** What the coverage cycles of epoch e select during the run, in order. */
  function Covered(run: seq<Choice>, e: nat): seq<Entry> {
    if run == [] then [] else Covered(run[..|run| - 1], e) + CoveredBy(run[|run| - 1], e)
  }

  function CoveredBy(c: Choice, e: nat): seq<Entry> {
    if c.Chosen? && c.selection.policy == Coverage && c.selection.epoch == e then c.selection.entries else []
  }

  /** How far into epoch e the state has got. */
  function Reached(catalog: Catalog, s: PlannerState, e: nat): nat {
    if e < s.epoch then |catalog.entries| else if e == s.epoch then s.cursor else 0
  }

  lemma EpochsAreWhole(catalog: Catalog, sh: Shuffles, e: nat)
    requires Shuffled(catalog, sh)
    ensures |sh.coverage(e)| == |catalog.entries|
    ensures AllFit(catalog) ==> forall i :: 0 <= i < |sh.coverage(e)| ==> Fits(sh.coverage(e)[i])
  {
    assert multiset(sh.coverage(e)) == multiset(catalog.entries);
    assert |multiset(sh.coverage(e))| == |sh.coverage(e)|;
    forall i | 0 <= i < |sh.coverage(e)| && AllFit(catalog)
      ensures Fits(sh.coverage(e)[i])
    {
      assert sh.coverage(e)[i] in multiset(catalog.entries);
    }
  }

  /** One cycle: a coverage turn takes the next entries of the permutation, a random turn none. */
  lemma OneCycle(catalog: Catalog, sh: Shuffles, s: PlannerState, cfg: Settings)
    requires Stage(catalog, sh, cfg) && Settled(catalog, s)
    ensures var c := Choose(catalog, sh, s, cfg);
      && c.Chosen? && Settled(catalog, c.next)
      && c.next.cycle == s.cycle + 1
      && (c.selection.policy == Coverage <==> !RandomTurn(cfg, s.cycle))
      && (c.selection.policy == Random ==> c.next.epoch == s.epoch && c.next.cursor == s.cursor)
      && (c.selection.policy == Coverage ==>
        && c.selection.epoch == c.next.epoch
        && c.selection.entries != []
        && var from := if s.cursor < |catalog.entries| then s.cursor else 0;
        && c.next.epoch == (if s.cursor < |catalog.entries| then s.epoch else s.epoch + 1)
        && c.next.cursor == from + |c.selection.entries| <= |sh.coverage(c.next.epoch)|
        && c.selection.entries == sh.coverage(c.next.epoch)[from..c.next.cursor])
  {
    var epoch := if s.cursor < |catalog.entries| then s.epoch else s.epoch + 1;
    var from := if s.cursor < |catalog.entries| then s.cursor else 0;
    EpochsAreWhole(catalog, sh, s.epoch);
    EpochsAreWhole(catalog, sh, epoch);
    var candidates := sh.coverage(epoch)[from..];
    assert Fits(candidates[0]);
    assert Oversize(candidates) == 0;
    assert candidates[0..] == candidates;
    var n := RunLength(candidates, cfg.batch, 0);
    assert candidates[..n] == sh.coverage(epoch)[from..from + n];
  }

  /** A catalog not seen before is worked through from the start of its first epoch, whatever came before it. */
  lemma NewCatalogStartsOver(catalog: Catalog, sh: Shuffles, s: PlannerState, cfg: Settings)
    requires Stage(catalog, sh, cfg) && s.catalog != Some(catalog.digest)
    ensures var c := Choose(catalog, sh, s, cfg);
      && c.Chosen? && Settled(catalog, c.next) && c.next.epoch == 1 && c.next.cycle == s.cycle + 1
      && (c.selection.policy == Random ==> c.next.cursor == 0)
      && (c.selection.policy == Coverage ==>
        c.selection.entries == sh.coverage(1)[..c.next.cursor] && c.selection.entries != [])
  {
    var first := PlannerState(Some(catalog.digest), 1, 0, s.cycle);
    assert Choose(catalog, sh, s, cfg) == Choose(catalog, sh, first, cfg);
    OneCycle(catalog, sh, first, cfg);
  }

  /** What one cycle's choice does to the position, and what it selects in epoch e. */
  predicate Follows(catalog: Catalog, all: seq<Entry>, s: PlannerState, c: Choice, e: nat) {
    && c.Chosen? && Settled(catalog, c.next)
    && c.next.cycle == s.cycle + 1 && c.next.epoch >= s.epoch
    && Reached(catalog, s, e) <= Reached(catalog, c.next, e) <= |all|
    && CoveredBy(c, e) == all[Reached(catalog, s, e)..Reached(catalog, c.next, e)]
  }

  lemma OneCycleFollows(catalog: Catalog, sh: Shuffles, s: PlannerState, cfg: Settings, e: nat)
    requires Stage(catalog, sh, cfg) && Settled(catalog, s)
    ensures |sh.coverage(e)| == |catalog.entries|
    ensures Follows(catalog, sh.coverage(e), s, Choose(catalog, sh, s, cfg), e)
  {
    EpochsAreWhole(catalog, sh, e);
    OneCycle(catalog, sh, s, cfg);
  }

  lemma Joins(all: seq<Entry>, i: nat, j: nat, k: nat)
    requires i <= j <= k <= |all|
    ensures all[i..k] == all[i..j] + all[j..k]
  {
  }

  /** The run keeps to epoch e's permutation from where it found it to where it left it. */
  predicate KeepsTo(catalog: Catalog, all: seq<Entry>, s: PlannerState, run: seq<Choice>, e: nat) {
    var f := EndOf(s, run);
    && Settled(catalog, f)
    && f.cycle == s.cycle + |run| && f.epoch >= s.epoch
    && Reached(catalog, s, e) <= Reached(catalog, f, e) <= |all|
    && Covered(run, e) == all[Reached(catalog, s, e)..Reached(catalog, f, e)]
  }

  lemma OneMoreKeepsTo(catalog: Catalog, all: seq<Entry>, s: PlannerState, run: seq<Choice>, e: nat)
    requires run != [] && KeepsTo(catalog, all, s, run[..|run| - 1], e)
    requires Follows(catalog, all, EndOf(s, run[..|run| - 1]), run[|run| - 1], e)
    ensures KeepsTo(catalog, all, s, run, e)
  {
    var b, f := EndOf(s, run[..|run| - 1]), EndOf(s, run);
    Joins(all, Reached(catalog, s, e), Reached(catalog, b, e), Reached(catalog, f, e));
  }

  /**
   However random cycles fall among them, what the coverage cycles of an epoch select is
   exactly the stretch of the epoch's permutation between where the run found it and
   where it left it: nothing is skipped, repeated or taken out of order.
   */
  lemma {:induction false} CoverageFollowsThePermutation(
      catalog: Catalog, sh: Shuffles, cfg: Settings, s: PlannerState, run: seq<Choice>, e: nat)
    requires Stage(catalog, sh, cfg) && Settled(catalog, s)
    requires IsRun(catalog, sh, cfg, s, run)
    ensures KeepsTo(catalog, sh.coverage(e), s, run, e) && |sh.coverage(e)| == |catalog.entries|
  {
    EpochsAreWhole(catalog, sh, e);
    if run != [] {
      var front := run[..|run| - 1];
      CoverageFollowsThePermutation(catalog, sh, cfg, s, front, e);
      OneCycleFollows(catalog, sh, EndOf(s, front), cfg, e);
      OneMoreKeepsTo(catalog, sh.coverage(e), s, run, e);
    }
  }

  /** An epoch that a run has both begun and left covers every entry of the catalog exactly as often as it occurs. */
  lemma EpochCoversTheCatalog(catalog: Catalog, sh: Shuffles, cfg: Settings, s: PlannerState, run: seq<Choice>, e: nat)
    requires Stage(catalog, sh, cfg) && Settled(catalog, s)
    requires IsRun(catalog, sh, cfg, s, run)
    requires s.epoch < e < EndOf(s, run).epoch || (e == s.epoch < EndOf(s, run).epoch && s.cursor == 0)
    ensures Covered(run, e) == sh.coverage(e)
    ensures multiset(Covered(run, e)) == multiset(catalog.entries)
  {
    CoverageFollowsThePermutation(catalog, sh, cfg, s, run, e);
    assert sh.coverage(e)[0..|catalog.entries|] == sh.coverage(e);
  }

  // ----- how long an epoch lasts -----

  function CoverageTurns(cfg: Settings, cycle: nat, n: nat): nat
    requires SettingsOk(cfg)
  {
    if n == 0 then 0
    else CoverageTurns(cfg, cycle, n - 1) + CoverageTurn(cfg, cycle + n - 1)
  }

  function CoverageTurn(cfg: Settings, cycle: nat): nat
    requires SettingsOk(cfg)
  {
    if RandomTurn(cfg, cycle) then 0 else 1
  }

  /** The run is past what the given number of coverage turns guarantees. */
  predicate Progressed(s: PlannerState, f: PlannerState, turns: nat) {
    f.epoch > s.epoch || (f.epoch == s.epoch && f.cursor >= s.cursor + turns)
  }

  /** A coverage turn moves the position on by at least one entry, unless the epoch was over. */
  lemma OneTurnMore(catalog: Catalog, sh: Shuffles, s: PlannerState, b: PlannerState, cfg: Settings, turns: nat)
    requires Stage(catalog, sh, cfg) && Settled(catalog, b) && Progressed(s, b, turns)
    ensures Progressed(s, Kept(b, Choose(catalog, sh, b, cfg)), turns + CoverageTurn(cfg, b.cycle))
  {
    OneCycle(catalog, sh, b, cfg);
  }

  lemma RunStaysSettled(catalog: Catalog, sh: Shuffles, cfg: Settings, s: PlannerState, run: seq<Choice>)
    requires Stage(catalog, sh, cfg) && Settled(catalog, s)
    requires IsRun(catalog, sh, cfg, s, run)
    ensures Settled(catalog, EndOf(s, run)) && EndOf(s, run).cycle == s.cycle + |run|
  {
    CoverageFollowsThePermutation(catalog, sh, cfg, s, run, s.epoch);
  }

  lemma ProgressOneMore(catalog: Catalog, sh: Shuffles, cfg: Settings, s: PlannerState, run: seq<Choice>, turns: nat)
    requires Stage(catalog, sh, cfg) && run != []
    requires var b := EndOf(s, run[..|run| - 1]);
      && Settled(catalog, b) && Progressed(s, b, turns) && run[|run| - 1] == Choose(catalog, sh, b, cfg)
    ensures Progressed(s, EndOf(s, run), turns + CoverageTurn(cfg, EndOf(s, run[..|run| - 1]).cycle))
  {
    OneTurnMore(catalog, sh, s, EndOf(s, run[..|run| - 1]), cfg, turns);
  }

  /** Every coverage turn makes progress, so enough of them finish the epoch. */
  lemma {:induction false} TurnsMakeProgress(
      catalog: Catalog, sh: Shuffles, cfg: Settings, s: PlannerState, run: seq<Choice>)
    requires Stage(catalog, sh, cfg) && Settled(catalog, s)
    requires IsRun(catalog, sh, cfg, s, run)
    ensures Progressed(s, EndOf(s, run), CoverageTurns(cfg, s.cycle, |run|))
  {
    if run != [] {
      var front := run[..|run| - 1];
      TurnsMakeProgress(catalog, sh, cfg, s, front);
      RunStaysSettled(catalog, sh, cfg, s, front);
      ProgressOneMore(catalog, sh, cfg, s, run, CoverageTurns(cfg, s.cycle, |front|));
    }
  }

  lemma TurnIsPeriodic(cfg: Settings, cycle: nat)
    requires SettingsOk(cfg)
    ensures RandomTurn(cfg, cycle + cfg.coverageCycles + cfg.randomCycles) == RandomTurn(cfg, cycle)
  {
  }

  /** Turns counted from the start of time, to compare windows that begin anywhere. */
  function TurnsBefore(cfg: Settings, n: nat): nat
    requires SettingsOk(cfg)
  {
    if n == 0 then 0 else TurnsBefore(cfg, n - 1) + CoverageTurn(cfg, n - 1)
  }

  lemma {:induction false} TurnsSplit(cfg: Settings, cycle: nat, n: nat)
    requires SettingsOk(cfg)
    ensures TurnsBefore(cfg, cycle + n) == TurnsBefore(cfg, cycle) + CoverageTurns(cfg, cycle, n)
  {
    if n > 0 { TurnsSplit(cfg, cycle, n - 1); }
  }

  lemma {:induction false} FirstPeriod(cfg: Settings, n: nat)
    requires SettingsOk(cfg) && n <= cfg.coverageCycles + cfg.randomCycles
    ensures TurnsBefore(cfg, n) == if n <= cfg.coverageCycles then n else cfg.coverageCycles
  {
    if n > 0 {
      FirstPeriod(cfg, n - 1);
    }
  }

  lemma {:induction false} EveryPeriod(cfg: Settings, n: nat)
    requires SettingsOk(cfg)
    ensures TurnsBefore(cfg, n + cfg.coverageCycles + cfg.randomCycles) == TurnsBefore(cfg, n) + cfg.coverageCycles
  {
    if n == 0 {
      FirstPeriod(cfg, cfg.coverageCycles + cfg.randomCycles);
    } else {
      EveryPeriod(cfg, n - 1);
      TurnIsPeriodic(cfg, n - 1);
    }
  }

  /** k whole periods hold k times the coverage cycles, wherever they begin. */
  lemma {:induction false} PeriodsOfTurns(cfg: Settings, cycle: nat, k: nat, n: nat)
    requires SettingsOk(cfg) && n == k * (cfg.coverageCycles + cfg.randomCycles)
    ensures CoverageTurns(cfg, cycle, n) == k * cfg.coverageCycles
  {
    if k == 0 {
      assert n == 0;
    } else {
      var p := cfg.coverageCycles + cfg.randomCycles;
      assert n - p == (k - 1) * p;
      PeriodsOfTurns(cfg, cycle, k - 1, n - p);
      TurnsSplit(cfg, cycle, n - p);
      TurnsSplit(cfg, cycle, n);
      EveryPeriod(cfg, cycle + n - p);
      assert k * cfg.coverageCycles == (k - 1) * cfg.coverageCycles + cfg.coverageCycles;
    }
  }

  /**
   An epoch is over within k periods of coverage and random cycles, for any k whose
   coverage cycles are as many as the entries it still has.
   */
  lemma EpochEndsInTime(catalog: Catalog, sh: Shuffles, cfg: Settings, s: PlannerState, run: seq<Choice>, k: nat)
    requires Stage(catalog, sh, cfg) && Settled(catalog, s)
    requires IsRun(catalog, sh, cfg, s, run)
    requires k * cfg.coverageCycles >= |catalog.entries| - s.cursor
    requires |run| == k * (cfg.coverageCycles + cfg.randomCycles)
    ensures EndOf(s, run).epoch > s.epoch || EndOf(s, run).cursor == |catalog.entries|
  {
    TurnsMakeProgress(catalog, sh, cfg, s, run);
    PeriodsOfTurns(cfg, s.cycle, k, |run|);
    CoverageFollowsThePermutation(catalog, sh, cfg, s, run, s.epoch);
  }

  // ----- the catalog as it is scanned from the vault -----

  /** A note found in the vault, and whether its front matter asks for it to be listed. */
  datatype Note = Note(path: string, bytes: nat, active: bool)

  /** Notes larger than a source may be are passed over. */
  predicate Lists(note: Note) {
    note.active && note.bytes <= MAX_SOURCE_BYTES
  }

  function Scanned(notes: seq<Note>): seq<Entry> {
    if notes == [] then []
    else
      var last := notes[|notes| - 1];
      Scanned(notes[..|notes| - 1]) + if Lists(last) then [Entry(last.path, last.bytes)] else []
  }

  /** The scan lists exactly the active notes of admissible size, each of which fits a context. */
  lemma {:induction false} ScanListsExactly(notes: seq<Note>, e: Entry)
    ensures e in Scanned(notes) <==> exists i ::
      && 0 <= i < |notes| && notes[i].active && notes[i].bytes <= 128 * 1024
      && e == Entry(notes[i].path, notes[i].bytes)
    ensures e in Scanned(notes) ==> Fits(e)
  {
    if notes != [] {
      ScanListsExactly(notes[..|notes| - 1], e);
      assert notes == notes[..|notes| - 1] + [notes[|notes| - 1]];
      if e in Scanned(notes[..|notes| - 1]) {
        var i :| 0 <= i < |notes| - 1 && Lists(notes[i]) && e == Entry(notes[i].path, notes[i].bytes);
      }
      if i :| 0 <= i < |notes| && Lists(notes[i]) && e == Entry(notes[i].path, notes[i].bytes) {
        if i < |notes| - 1 { assert notes[..|notes| - 1][i] == notes[i]; }
      }
    }
  }

  lemma ScannedCatalogFits(notes: seq<Note>, digest: nat)
    ensures AllFit(Catalog(Scanned(notes), digest))
  {
    forall i | 0 <= i < |Scanned(notes)|
      ensures Fits(Scanned(notes)[i])
    {
      ScanListsExactly(notes, Scanned(notes)[i]);
    }
  }

  /**
   Over the catalog of any vault, with no assumption on the sizes of its notes: no turn
   fails, and an epoch begun and left in a run selects every active note of admissible size.
   */
  lemma VaultIsCovered(
      notes: seq<Note>, digest: nat, sh: Shuffles, cfg: Settings, s: PlannerState, run: seq<Choice>, e: nat, note: Note)
    requires SettingsOk(cfg) && Scanned(notes) != [] && Shuffled(Catalog(Scanned(notes), digest), sh)
    requires Settled(Catalog(Scanned(notes), digest), s)
    requires IsRun(Catalog(Scanned(notes), digest), sh, cfg, s, run)
    ensures Choose(Catalog(Scanned(notes), digest), sh, EndOf(s, run), cfg).Chosen?
    ensures s.epoch < e < EndOf(s, run).epoch || (e == s.epoch < EndOf(s, run).epoch && s.cursor == 0) ==>
      && multiset(Covered(run, e)) == multiset(Scanned(notes))
      && (note in notes && Lists(note) ==> Entry(note.path, note.bytes) in Covered(run, e))
  {
    var catalog := Catalog(Scanned(notes), digest);
    ScannedCatalogFits(notes, digest);
    CoverageFollowsThePermutation(catalog, sh, cfg, s, run, s.epoch);
    OneCycle(catalog, sh, EndOf(s, run), cfg);
    if s.epoch < e < EndOf(s, run).epoch || (e == s.epoch < EndOf(s, run).epoch && s.cursor == 0) {
      EpochCoversTheCatalog(catalog, sh, cfg, s, run, e);
      if note in notes && Lists(note) {
        ScanListsExactly(notes, Entry(note.path, note.bytes));
        assert Entry(note.path, note.bytes) in multiset(Covered(run, e));
      }
    }
  }

  // ----- a catalog with an entry too large for any context -----

  /** Where a coverage turn draws from: a catalog not seen before starts over, an epoch at its end gives way to the next. */
  function TurnFrom(catalog: Catalog, s: PlannerState): (nat, nat) {
    if s.catalog != Some(catalog.digest) then (1, 0)
    else if s.cursor < |catalog.entries| then (s.epoch, s.cursor)
    else (s.epoch + 1, 0)
  }

  /** From any state, a turn fails exactly when it is a coverage turn and everything it could draw is too large. */
  lemma FailsExactlyWhenNothingFits(catalog: Catalog, sh: Shuffles, s: PlannerState, cfg: Settings)
    requires SettingsOk(cfg) && catalog.entries != [] && Shuffled(catalog, sh)
    ensures
      var (epoch, from) := TurnFrom(catalog, s);
      && |sh.coverage(epoch)| == |catalog.entries|
      && (Choose(catalog, sh, s, cfg) == NothingFits <==>
            && !RandomTurn(cfg, s.cycle)
            && forall i :: from <= i < |catalog.entries| ==> !Fits(sh.coverage(epoch)[i]))
  {
    var (epoch, from) := TurnFrom(catalog, s);
    EpochsAreWhole(catalog, sh, epoch);
    EpochsAreWhole(catalog, sh, s.epoch);
    EpochsAreWhole(catalog, sh, 1);
    var candidates := sh.coverage(epoch)[from..];
    var lo := Oversize(candidates);
    if lo < |candidates| {
      assert candidates[lo] == sh.coverage(epoch)[from + lo];
      assert Fit(candidates, cfg.batch)[0] == candidates[lo];
    } else {
      forall i | from <= i < |catalog.entries|
        ensures !Fits(sh.coverage(epoch)[i])
      {
        assert candidates[i - from] == sh.coverage(epoch)[i];
      }
    }
  }

  lemma {:induction false} RunIsLongest(candidates: seq<Entry>, batch: nat, total: nat)
    requires total <= MAX_CONTEXT_BYTES
    ensures
      var n := RunLength(candidates, batch, total);
      && total + Bytes(candidates[..n]) <= MAX_CONTEXT_BYTES
      && (n == |candidates| || n == batch || total + Bytes(candidates[..n]) + candidates[n].bytes > MAX_CONTEXT_BYTES)
  {
    var n := RunLength(candidates, batch, total);
    if n > 0 {
      RunIsLongest(candidates[1..], batch - 1, total + candidates[0].bytes);
      assert candidates[..n][1..] == candidates[1..][..n - 1];
      BytesOfFront(candidates[..n]);
    }
  }

  lemma FitIsLongest(candidates: seq<Entry>, batch: nat)
    ensures LongestRun(candidates, Oversize(candidates), Fit(candidates, batch), batch)
  {
    var lo := Oversize(candidates);
    var rest := candidates[lo..];
    RunIsLongest(rest, batch, 0);
    var n := RunLength(rest, batch, 0);
    assert rest[..n] == candidates[lo..lo + n];
  }

  /** What a turn in this state has to choose from, in order. */
  function CandidatesOf(catalog: Catalog, sh: Shuffles, s: PlannerState, cfg: Settings): seq<Entry>
    requires SettingsOk(cfg)
  {
    var (epoch, from) := TurnFrom(catalog, s);
    if RandomTurn(cfg, s.cycle) then sh.drawn(s.cycle)
    else if from <= |sh.coverage(epoch)| then sh.coverage(epoch)[from..] else []
  }

  lemma SelectionIsFit(catalog: Catalog, sh: Shuffles, s: PlannerState, cfg: Settings)
    requires Shuffled(catalog, sh) && Choose(catalog, sh, s, cfg).Chosen?
    ensures
      var c := Choose(catalog, sh, s, cfg);
      && c.selection.cycle == s.cycle && c.selection.epoch == c.next.epoch
      && c.selection.entries == Fit(CandidatesOf(catalog, sh, s, cfg), cfg.batch)
  {
    EpochsAreWhole(catalog, sh, s.epoch);
    EpochsAreWhole(catalog, sh, 1);
  }

  /**
   What a turn selects is the longest run that fits, from the order drawn for its cycle or
   from what the epoch still has; the selection is labelled with its own epoch and cycle.
   */
  lemma SelectionIsLongestRun(catalog: Catalog, sh: Shuffles, s: PlannerState, cfg: Settings)
    requires Shuffled(catalog, sh) && Choose(catalog, sh, s, cfg).Chosen?
    ensures
      var c := Choose(catalog, sh, s, cfg);
      var candidates := CandidatesOf(catalog, sh, s, cfg);
      && c.selection.cycle == s.cycle && c.selection.epoch == c.next.epoch
      && (c.selection.policy == Random <==> RandomTurn(cfg, s.cycle))
      && LongestRun(candidates, Oversize(candidates), c.selection.entries, cfg.batch)
  {
    SelectionIsFit(catalog, sh, s, cfg);
    FitIsLongest(CandidatesOf(catalog, sh, s, cfg), cfg.batch);
  }

  /** A failed turn stores nothing, so it fails again for as long as the catalog stays as it is. */
  lemma {:induction false} FailureIsPermanent(
      catalog: Catalog, sh: Shuffles, cfg: Settings, s: PlannerState, run: seq<Choice>)
    requires Choose(catalog, sh, s, cfg) == NothingFits && IsRun(catalog, sh, cfg, s, run)
    ensures EndOf(s, run) == s
  {
    if run != [] { FailureIsPermanent(catalog, sh, cfg, s, run[..|run| - 1]); }
  }

  /**
   An entry too large, met at the cursor, is passed over without moving the cursor past
   it, so the entry after it is selected twice and the last one is put off.
   */
  lemma OversizeRepeats(big: Entry, a: Entry, b: Entry, sh: Shuffles)
    requires !Fits(big) && Fits(a) && Fits(b)
    requires sh.coverage(1) == [big, a, b]
    ensures var catalog, cfg := Catalog([big, a, b], 7), Settings(1, 1, 0);
      var s, t := PlannerState(Some(7), 1, 0, 0), PlannerState(Some(7), 1, 1, 1);
      && Choose(catalog, sh, s, cfg) == Chosen(Selection(Coverage, 1, 0, [a]), t)
      && Choose(catalog, sh, t, cfg) == Chosen(Selection(Coverage, 1, 1, [a]), PlannerState(Some(7), 1, 2, 2))
  {
    var all := [big, a, b];
    assert all[0..] == all && all[1..] == [a, b];
    FirstFits(all);
    FirstFits([a, b]);
  }

  lemma FirstFits(candidates: seq<Entry>)
    requires Oversize(candidates) < |candidates|
    ensures Fit(candidates, 1) == [candidates[Oversize(candidates)]]
  {
    var rest := candidates[Oversize(candidates)..];
    assert RunLength(rest[1..], 0, rest[0].bytes) == 0;
  }
}
