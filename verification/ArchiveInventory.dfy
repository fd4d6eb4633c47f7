/**
 The archive inventory: ready archives are taken in publication order, and each committed
 batch of conversations overrides what its scope knew before. Nothing is ever removed.
 */
module ArchiveInventory {
  type Key = nat

  /** The content and the source revision of one conversation, as digests. */
  datatype Entry = Entry(content: nat, revision: nat)

  type Table = map<Key, Entry>

  datatype Item = Item(key: Key, entry: Entry)

  datatype Change = Added | Changed | RevisionOnly | Unchanged

  datatype Receipt = Receipt(added: nat, changed: nat, revisionOnly: nat, same: nat, absentNotDeleted: nat)

  function ChangeOf(rows: Table, key: Key, entry: Entry): Change {
    if key !in rows then Added
    else if rows[key].content != entry.content then Changed
    else if rows[key].revision != entry.revision then RevisionOnly
    else Unchanged
  }

  function KeysOf(rows: Table, entries: Table, c: Change): set<Key> {
    set k | k in entries && ChangeOf(rows, k, entries[k]) == c
  }

  predicate DistinctKeys(items: seq<Item>) {
    forall i, j :: 0 <= i < j < |items| ==> items[i].key != items[j].key
  }

  function EntriesOf(items: seq<Item>): Table {
    if items == [] then map[] else EntriesOf(items[..|items| - 1])[items[|items| - 1].key := items[|items| - 1].entry]
  }

  lemma {:induction false} EntriesHold(items: seq<Item>)
    ensures forall i :: 0 <= i < |items| ==> items[i].key in EntriesOf(items)
    ensures forall k :: k in EntriesOf(items) ==> exists i :: 0 <= i < |items| && items[i].key == k
  {
    if items != [] {
      var front := items[..|items| - 1];
      EntriesHold(front);
      forall i | 0 <= i < |items|
        ensures items[i].key in EntriesOf(items)
      {
        if i < |front| { assert front[i].key in EntriesOf(front); }
      }
      forall k | k in EntriesOf(items)
        ensures exists i :: 0 <= i < |items| && items[i].key == k
      {
        if k in EntriesOf(front) {
          var i :| 0 <= i < |front| && front[i].key == k;
          assert items[i].key == k;
        } else {
          assert items[|items| - 1].key == k;
        }
      }
    }
  }

  lemma {:induction false} RepeatedKey(items: seq<Item>, n: nat)
    requires n < |items| && items[n].key in EntriesOf(items[..n])
    ensures !DistinctKeys(items)
  {
    EntriesHold(items[..n]);
    var i :| 0 <= i < n && items[..n][i].key == items[n].key;
    assert items[i].key == items[n].key;
  }

  lemma KeysWith(rows: Table, entries: Table, item: Item, c: Change)
    requires item.key !in entries
    ensures item.key !in KeysOf(rows, entries, c)
    ensures KeysOf(rows, entries[item.key := item.entry], c)
         == KeysOf(rows, entries, c) + if ChangeOf(rows, item.key, item.entry) == c then {item.key} else {}
  {
  }

  lemma KeysGrow(rows: Table, entries: Table, item: Item, c: Change)
    requires item.key !in entries
    ensures |KeysOf(rows, entries[item.key := item.entry], c)|
         == |KeysOf(rows, entries, c)| + if ChangeOf(rows, item.key, item.entry) == c then 1 else 0
  {
    KeysWith(rows, entries, item, c);
    var was := KeysOf(rows, entries, c);
    if ChangeOf(rows, item.key, item.entry) == c {
      assert |was + {item.key}| == |was| + 1;
    } else {
      assert was + {} == was;
    }
  }

  /** The receipt counts the batch against what the scope knew. */
  predicate Counts(r: Receipt, rows: Table, entries: Table) {
    && r.added == |KeysOf(rows, entries, Added)|
    && r.changed == |KeysOf(rows, entries, Changed)|
    && r.revisionOnly == |KeysOf(rows, entries, RevisionOnly)|
    && r.same == |KeysOf(rows, entries, Unchanged)|
    && r.absentNotDeleted == |rows.Keys - entries.Keys|
  }

  type Counter = map<Change, nat>

  ghost predicate Tallies(counter: Counter, rows: Table, entries: Table) {
    forall c: Change :: c in counter && counter[c] == |KeysOf(rows, entries, c)|
  }

  lemma TallyGrows(counter: Counter, rows: Table, entries: Table, item: Item, status: Change)
    requires Tallies(counter, rows, entries) && item.key !in entries && status == ChangeOf(rows, item.key, item.entry)
    ensures Tallies(counter[status := counter[status] + 1], rows, entries[item.key := item.entry])
  {
    var after := counter[status := counter[status] + 1];
    forall c: Change
      ensures c in after && after[c] == |KeysOf(rows, entries[item.key := item.entry], c)|
    {
      KeysGrow(rows, entries, item, c);
    }
  }

  datatype Taken = Taken(entries: Table, statuses: map<Key, Change>, receipt: Receipt) | DuplicateIdentity

  predicate Statuses(statuses: map<Key, Change>, rows: Table, entries: Table) {
    statuses.Keys == entries.Keys && forall k :: k in entries ==> statuses[k] == ChangeOf(rows, k, entries[k])
  }

  lemma EntriesStep(items: seq<Item>, i: nat)
    requires i < |items|
    ensures EntriesOf(items[..i + 1]) == EntriesOf(items[..i])[items[i].key := items[i].entry]
    ensures DistinctKeys(items[..i]) && items[i].key !in EntriesOf(items[..i]) ==> DistinctKeys(items[..i + 1])
  {
    assert items[..i + 1][..i] == items[..i];
    EntriesHold(items[..i]);
    if DistinctKeys(items[..i]) && items[i].key !in EntriesOf(items[..i]) {
      var front, all := items[..i], items[..i + 1];
      forall j, k | 0 <= j < k < |all|
        ensures all[j].key != all[k].key
      {
        assert front[j].key in EntriesOf(front);
        if k < i { assert front[k].key != front[j].key; }
      }
    }
  }

  /** One batch compared with the scope's table; refused exactly when an identity repeats. */
  method TakeInventory(rows: Table, items: seq<Item>) returns (r: Taken)
    ensures r.Taken? <==> DistinctKeys(items)
    ensures r.Taken? ==> r.entries == EntriesOf(items) && |r.entries| == |items|
    ensures r.Taken? ==> Counts(r.receipt, rows, r.entries) && Statuses(r.statuses, rows, r.entries)
  {
    var entries: Table, statuses: map<Key, Change> := map[], map[];
    var counter: Counter := map[Added := 0, Changed := 0, RevisionOnly := 0, Unchanged := 0];
    forall c: Change
      ensures KeysOf(rows, entries, c) == {} && c in counter
    {
      match c case Added => case Changed => case RevisionOnly => case Unchanged =>
    }
    for i := 0 to |items|
      invariant entries == EntriesOf(items[..i]) && |entries| == i && DistinctKeys(items[..i])
      invariant Statuses(statuses, rows, entries) && Tallies(counter, rows, entries)
    {
      var item := items[i];
      if item.key in entries {
        RepeatedKey(items, i);
        return DuplicateIdentity;
      }
      EntriesStep(items, i);
      var status := ChangeOf(rows, item.key, item.entry);
      TallyGrows(counter, rows, entries, item, status);
      entries, statuses := entries[item.key := item.entry], statuses[item.key := status];
      counter := counter[status := counter[status] + 1];
    }
    assert items[..|items|] == items;
    r := Taken(entries, statuses, Receipt(
      counter[Added], counter[Changed], counter[RevisionOnly], counter[Unchanged], |rows.Keys - entries.Keys|));
  }

  lemma UnionSize(a: set<Key>, b: set<Key>)
    requires a !! b
    ensures |a + b| == |a| + |b|
  {
  }

  lemma SplitBy(a: set<Key>, b: set<Key>)
    ensures |a| == |a - b| + |b * a|
  {
    UnionSize(a - b, b * a);
    assert (a - b) + (b * a) == a;
  }

  lemma JoinWith(a: set<Key>, b: set<Key>)
    ensures |a + b| == |a| + |b - a|
  {
    UnionSize(a, b - a);
    assert a + (b - a) == a + b;
  }

  lemma NewAndKnown(rows: Table, entries: Table)
    ensures |entries.Keys| == |KeysOf(rows, entries, Added)| + |rows.Keys * entries.Keys|
    ensures |rows.Keys + entries.Keys| == |rows.Keys| + |KeysOf(rows, entries, Added)|
    ensures |rows.Keys| == |rows.Keys * entries.Keys| + |rows.Keys - entries.Keys|
  {
    assert KeysOf(rows, entries, Added) == entries.Keys - rows.Keys;
    assert entries.Keys * rows.Keys == rows.Keys * entries.Keys;
    SplitBy(entries.Keys, rows.Keys);
    JoinWith(rows.Keys, entries.Keys);
    SplitBy(rows.Keys, entries.Keys);
  }

  lemma KnownKeys(rows: Table, entries: Table)
    ensures KeysOf(rows, entries, Changed) + (KeysOf(rows, entries, RevisionOnly) + KeysOf(rows, entries, Unchanged))
         == rows.Keys * entries.Keys
    ensures KeysOf(rows, entries, RevisionOnly) !! KeysOf(rows, entries, Unchanged)
    ensures KeysOf(rows, entries, Changed) !! KeysOf(rows, entries, RevisionOnly)
    ensures KeysOf(rows, entries, Changed) !! KeysOf(rows, entries, Unchanged)
  {
  }

  lemma KnownIsThreefold(rows: Table, entries: Table)
    ensures |rows.Keys * entries.Keys|
         == |KeysOf(rows, entries, Changed)| + |KeysOf(rows, entries, RevisionOnly)| + |KeysOf(rows, entries, Unchanged)|
  {
    KnownKeys(rows, entries);
    UnionSize(KeysOf(rows, entries, RevisionOnly), KeysOf(rows, entries, Unchanged));
    UnionSize(KeysOf(rows, entries, Changed), KeysOf(rows, entries, RevisionOnly) + KeysOf(rows, entries, Unchanged));
  }

  /**
   Conservation: the four counts make up the batch, the table grows by exactly the added
   ones, and the ones known before are either in the batch or counted as absent.
   */
  lemma InventoryConserves(r: Receipt, rows: Table, entries: Table)
    requires Counts(r, rows, entries)
    ensures r.added + r.changed + r.revisionOnly + r.same == |entries|
    ensures |rows + entries| == |rows| + r.added
    ensures r.changed + r.revisionOnly + r.same + r.absentNotDeleted == |rows|
  {
    NewAndKnown(rows, entries);
    KnownIsThreefold(rows, entries);
    TableSize(rows);
    TableSize(entries);
    TableSize(rows + entries);
    assert (rows + entries).Keys == rows.Keys + entries.Keys;
  }

  lemma TableSize(t: Table)
    ensures |t| == |t.Keys|
  {
  }

  // ----- what the counts mean, in terms of the two tables -----

  /** The known keys whose row is as it was once the batch overrides the table. */
  function Untouched(rows: Table, entries: Table): set<Key> {
    set k | k in entries && k in rows && (rows + entries)[k] == rows[k]
  }

  /** Those whose row is new but says the same. */
  function Reworked(rows: Table, entries: Table): set<Key> {
    set k | k in entries && k in rows && (rows + entries)[k] != rows[k] && (rows + entries)[k].content == rows[k].content
  }

  /** Those that say something else. */
  function Rewritten(rows: Table, entries: Table): set<Key> {
    set k | k in entries && k in rows && (rows + entries)[k].content != rows[k].content
  }

  function Unheard(rows: Table, entries: Table): set<Key> {
    set k | k in rows + entries && k !in rows
  }

  /** Each status says what the override does to that conversation's row. */
  lemma StatusesSayWhatChanged(statuses: map<Key, Change>, rows: Table, entries: Table)
    requires Statuses(statuses, rows, entries)
    ensures forall k :: k in statuses <==> k in entries
    ensures forall k :: k in entries ==>
      && (statuses[k] == Added <==> k in Unheard(rows, entries))
      && (statuses[k] == Changed <==> k in Rewritten(rows, entries))
      && (statuses[k] == RevisionOnly <==> k in Reworked(rows, entries))
      && (statuses[k] == Unchanged <==> k in Untouched(rows, entries))
  {
  }

  /** The receipt counts exactly those four sets, and the known conversations the batch does not mention. */
  lemma CountsSayWhatChanged(r: Receipt, rows: Table, entries: Table)
    requires Counts(r, rows, entries)
    ensures r.added == |Unheard(rows, entries)|
    ensures r.changed == |Rewritten(rows, entries)|
    ensures r.revisionOnly == |Reworked(rows, entries)|
    ensures r.same == |Untouched(rows, entries)|
    ensures r.absentNotDeleted == |rows.Keys - entries.Keys|
  {
    assert KeysOf(rows, entries, Added) == Unheard(rows, entries);
    assert KeysOf(rows, entries, Changed) == Rewritten(rows, entries);
    assert KeysOf(rows, entries, RevisionOnly) == Reworked(rows, entries);
    assert KeysOf(rows, entries, Unchanged) == Untouched(rows, entries);
  }

  // ----- the journal of one scope -----

  /** A committed run, with the position of its archive in publication order. */
  datatype Committed = Committed(selector: nat, archive: nat, entries: Table, receipt: Receipt)

  datatype Rejection = Rejection(selector: nat, archive: nat)

  datatype Outcome = Rejected | Batch(items: seq<Item>)

  datatype Revision = Revision(key: Key, revision: nat)

  /** What the table must be: the runs' batches, each overriding the ones before. */
  function LatestOf(runs: seq<Committed>): Table {
    if runs == [] then map[] else LatestOf(runs[..|runs| - 1]) + runs[|runs| - 1].entries
  }

  function Revisions(entries: Table): map<Revision, nat> {
    map r: Revision | r in (set k | k in entries :: Revision(k, entries[k].revision)) ::
      if r.key in entries then entries[r.key].content else 0
  }

  /** Every revision any run has seen, with the content it first came with. */
  function RevisionsOf(runs: seq<Committed>): map<Revision, nat> {
    if runs == [] then map[] else Revisions(runs[|runs| - 1].entries) + RevisionsOf(runs[..|runs| - 1])
  }

  predicate InOrder(runs: seq<Committed>) {
    forall i, j :: 0 <= i < j < |runs| ==> runs[i].archive < runs[j].archive
  }

  predicate Below(runs: seq<Committed>, n: nat) {
    forall i :: 0 <= i < |runs| ==> runs[i].archive < n
  }

  /** Every receipt counts its batch against what the earlier runs left. */
  predicate Accounted(runs: seq<Committed>) {
    runs == [] || (
      && Accounted(runs[..|runs| - 1])
      && Counts(runs[|runs| - 1].receipt, LatestOf(runs[..|runs| - 1]), runs[|runs| - 1].entries))
  }

  /** Nothing known is ever forgotten: keys and first-seen revisions only accumulate. */
  lemma {:induction false} NothingIsRemoved(runs: seq<Committed>, more: seq<Committed>)
    ensures LatestOf(runs).Keys <= LatestOf(runs + more).Keys
    ensures forall r :: r in RevisionsOf(runs) ==>
      r in RevisionsOf(runs + more) && RevisionsOf(runs + more)[r] == RevisionsOf(runs)[r]
  {
    if more == [] {
      assert runs + more == runs;
    } else {
      NothingIsRemoved(runs, more[..|more| - 1]);
      assert (runs + more)[..|runs + more| - 1] == runs + more[..|more| - 1];
    }
  }

  /** The i-th run is the last to mention this conversation. */
  predicate LastMention(runs: seq<Committed>, k: Key, i: nat) {
    i < |runs| && k in runs[i].entries && forall j :: i < j < |runs| ==> k !in runs[j].entries
  }

  /** The table knows exactly the conversations some run mentions, each as its last mention has it. */
  lemma {:induction false} LatestIsLastMention(runs: seq<Committed>, k: Key)
    ensures k !in LatestOf(runs) ==> forall i :: 0 <= i < |runs| ==> k !in runs[i].entries
    ensures k in LatestOf(runs) ==> exists i: nat :: LastMention(runs, k, i) && LatestOf(runs)[k] == runs[i].entries[k]
  {
    if runs != [] {
      var front, last := runs[..|runs| - 1], runs[|runs| - 1];
      LatestIsLastMention(front, k);
      if k in last.entries {
        assert LastMention(runs, k, |runs| - 1);
      } else if k in LatestOf(front) {
        var i: nat :| LastMention(front, k, i) && LatestOf(front)[k] == front[i].entries[k];
        assert LastMention(runs, k, i);
      }
    }
  }

  predicate Carries(run: Committed, r: Revision) {
    r.key in run.entries && run.entries[r.key].revision == r.revision
  }

  predicate FirstCarried(runs: seq<Committed>, r: Revision, i: nat) {
    i < |runs| && Carries(runs[i], r) && forall j :: 0 <= j < i ==> !Carries(runs[j], r)
  }

  /** Every revision that some run carries is known, with the content it was first seen with, and no other. */
  lemma {:induction false} RevisionIsFirstSeen(runs: seq<Committed>, r: Revision)
    ensures r !in RevisionsOf(runs) ==> forall i :: 0 <= i < |runs| ==> !Carries(runs[i], r)
    ensures r in RevisionsOf(runs) ==>
      exists i: nat :: FirstCarried(runs, r, i) && RevisionsOf(runs)[r] == runs[i].entries[r.key].content
  {
    if runs != [] {
      var front, last := runs[..|runs| - 1], runs[|runs| - 1];
      RevisionIsFirstSeen(front, r);
      assert r in Revisions(last.entries) <==> Carries(last, r) by {
        if Carries(last, r) { assert r.key in last.entries && Revision(r.key, last.entries[r.key].revision) == r; }
      }
      if r in RevisionsOf(front) {
        var i: nat :| FirstCarried(front, r, i) && RevisionsOf(front)[r] == front[i].entries[r.key].content;
        assert FirstCarried(runs, r, i);
      } else if Carries(last, r) {
        assert FirstCarried(runs, r, |runs| - 1);
      }
    }
  }

  function TotalAdded(runs: seq<Committed>): nat {
    if runs == [] then 0 else TotalAdded(runs[..|runs| - 1]) + runs[|runs| - 1].receipt.added
  }

  /** The table's size is the sum of what its runs report as added. */
  lemma {:induction false} TableGrowsByAdded(runs: seq<Committed>)
    requires Accounted(runs)
    ensures |LatestOf(runs)| == TotalAdded(runs)
  {
    if runs != [] {
      var front, last := runs[..|runs| - 1], runs[|runs| - 1];
      TableGrowsByAdded(front);
      InventoryConserves(last.receipt, LatestOf(front), last.entries);
    }
  }

  lemma OneMoreRun(runs: seq<Committed>, run: Committed)
    ensures LatestOf(runs + [run]) == LatestOf(runs) + run.entries
    ensures RevisionsOf(runs + [run]) == Revisions(run.entries) + RevisionsOf(runs)
  {
    assert (runs + [run])[..|runs|] == runs;
  }

  lemma OneMoreInOrder(runs: seq<Committed>, run: Committed)
    requires InOrder(runs) && Below(runs, run.archive)
    ensures InOrder(runs + [run])
  {
  }

  lemma OneMoreAccounted(runs: seq<Committed>, run: Committed)
    requires Accounted(runs) && Counts(run.receipt, LatestOf(runs), run.entries)
    ensures Accounted(runs + [run])
  {
    assert (runs + [run])[..|runs|] == runs;
  }
}
