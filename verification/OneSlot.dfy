/**
 What the operator queue and the broker are both for, without any journal: a machine
 with one slot that begins each request at most once and never begins one while an
 earlier one is unsettled.
 */
module OneSlot {
  import opened Journal

  datatype Slot = Slot(begun: seq<Id>, settled: set<Id>)

  const Fresh := Slot([], {})

  ghost predicate AllSettled(s: Slot) {
    forall i :: 0 <= i < |s.begun| ==> s.begun[i] in s.settled
  }

  ghost predicate Begins(s: Slot, t: Slot, id: Id) {
    && AllSettled(s)
    && id !in s.begun
    && t == Slot(s.begun + [id], s.settled)
  }

  ghost predicate Settles(s: Slot, t: Slot) {
    && s.begun != []
    && t == Slot(s.begun, s.settled + {s.begun[|s.begun| - 1]})
  }

  ghost predicate SlotStep(s: Slot, t: Slot) {
    t == s || Settles(s, t) || exists id :: Begins(s, t, id)
  }

  /** At most once, one at a time: only the last begun request may be unsettled. */
  ghost predicate AtMostOnce(s: Slot) {
    && (forall i, j :: 0 <= i < j < |s.begun| ==> s.begun[i] != s.begun[j])
    && (forall i :: 0 <= i < |s.begun| - 1 ==> s.begun[i] in s.settled)
    && (forall id :: id in s.settled ==> id in s.begun)
  }

  lemma SlotStepKeepsAtMostOnce(s: Slot, t: Slot)
    requires AtMostOnce(s) && SlotStep(s, t)
    ensures AtMostOnce(t)
    ensures s.begun <= t.begun && s.settled <= t.settled
  {
    if t != s && !Settles(s, t) {
      var id :| Begins(s, t, id);
      assert t.begun[..|s.begun|] == s.begun;
      forall i | 0 <= i < |t.begun| - 1 ensures t.begun[i] in t.settled {
        assert t.begun[i] == s.begun[i];
      }
    }
  }

  /** A history of the machine, from its beginning. */
  ghost predicate IsHistory(slots: seq<Slot>) {
    && slots != [] && slots[0] == Fresh
    && forall k :: 0 < k < |slots| ==> SlotStep(slots[k - 1], slots[k])
  }

  lemma {:induction false} HistoryIsAtMostOnce(slots: seq<Slot>, k: nat)
    requires IsHistory(slots) && k < |slots|
    ensures AtMostOnce(slots[k])
  {
    if k > 0 {
      HistoryIsAtMostOnce(slots, k - 1);
      SlotStepKeepsAtMostOnce(slots[k - 1], slots[k]);
    }
  }
}
