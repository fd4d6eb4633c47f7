/**
 The builder's contract leaves no choice: among the pages the check accepts from a given
 cursor, only one takes, unit by unit, all the text that the bounds allow.
 */
module SourceGreedy {
  import opened Utf8Text
  import opened SourceContract
  import opened SourceTheorems
  import opened SourceReader

  /** Unsplit evidence takes consecutive messages, one slice each. */
  lemma {:induction false} LastSlice(messages: seq<Message>, c: Cursor, evidence: seq<EvidenceSlice>)
    requires Walk(messages, c, evidence).Some? && evidence != [] && Unsplit(messages, evidence)
    ensures var last := evidence[|evidence| - 1];
      && Walk(messages, c, evidence[..|evidence| - 1]) == Some(Cursor(last.messageIndex, last.start))
      && Reads(last, messages, Cursor(last.messageIndex, last.start))
      && Walk(messages, c, evidence) == Some(After(last, messages))
      && last.messageIndex == c.index + |evidence| - 1
      && last.start == if |evidence| == 1 then c.offset else 0
  {
    var front := evidence[..|evidence| - 1];
    if front != [] {
      assert ReachesEnd(messages, evidence[|evidence| - 2]);
      LastSlice(messages, c, front);
    }
  }

  lemma {:induction false} SameEndSameEvidence(
      messages: seq<Message>, c: Cursor, d: Cursor, a: seq<EvidenceSlice>, b: seq<EvidenceSlice>)
    requires Walk(messages, c, a) == Some(d) == Walk(messages, c, b)
    requires a != [] && b != [] && Unsplit(messages, a) && Unsplit(messages, b)
    ensures a == b
    decreases |a|
  {
    LastSlice(messages, c, a);
    LastSlice(messages, c, b);
    var fa, fb := a[..|a| - 1], b[..|b| - 1];
    assert |a| == |b|;
    assert a[|a| - 1] == b[|b| - 1];
    if fa != [] {
      SameEndSameEvidence(messages, c, Cursor(a[|a| - 1].messageIndex, a[|a| - 1].start), fa, fb);
    }
    SameEnds(a, b);
  }

  lemma GlyphAt(messages: seq<Message>, d: Cursor)
    requires CursorOk(messages, d) && d.index < |messages|
    ensures 0 <= Position(messages, d) < |Flat(messages)|
    ensures Flat(messages)[Position(messages, d)].point == messages[d.index].text[d.offset]
  {
    FlatHolds(messages, d.index);
    assert Flat(messages)[Position(messages, d)] == Tagged(d.index, 0, messages[d.index].text)[d.offset];
  }

  lemma SpanBytes(evidence: seq<EvidenceSlice>, flat: seq<Glyph>, i: nat, j: nat)
    requires i <= j <= |flat| && EvidenceGlyphs(evidence) == flat[i..j]
    ensures EvidenceBytes(evidence) == Utf8Size(TextOf(flat)[i..j])
  {
    EvidenceBytesAreText(evidence);
    assert TextOf(flat[i..j]) == TextOf(flat)[i..j];
  }

  /** Reading past d takes at least the octets of the code point at d. */
  lemma ReadingPast(
      messages: seq<Message>, c: Cursor, a: seq<EvidenceSlice>, d: Cursor, b: seq<EvidenceSlice>, e: Cursor)
    requires Spoken(messages) && CursorOk(messages, c)
    requires Walk(messages, c, a) == Some(d) && Walk(messages, c, b) == Some(e)
    requires CursorOk(messages, d) && CursorOk(messages, e)
    requires Position(messages, d) < Position(messages, e)
    ensures d.index < |messages|
    ensures EvidenceBytes(b) >= EvidenceBytes(a) + Width(messages[d.index].text[d.offset])
  {
    WalkIsSpan(messages, c, a);
    WalkIsSpan(messages, c, b);
    CursorInRange(messages, d);
    GlyphAt(messages, d);
    Further(Flat(messages), Position(messages, c), Position(messages, d), Position(messages, e), a, b);
  }

  lemma Further(flat: seq<Glyph>, i: nat, j: nat, k: nat, a: seq<EvidenceSlice>, b: seq<EvidenceSlice>)
    requires i <= j < k <= |flat|
    requires EvidenceGlyphs(a) == flat[i..j] && EvidenceGlyphs(b) == flat[i..k]
    ensures EvidenceBytes(b) >= EvidenceBytes(a) + Width(flat[j].point)
  {
    SpanBytes(a, flat, i, j);
    SpanBytes(b, flat, i, k);
    SizeGrows(TextOf(flat), i, j, k);
  }

  lemma NeitherGoesFurther(
      messages: seq<Message>, c: Cursor, a: seq<EvidenceSlice>, d: Cursor, b: seq<EvidenceSlice>, e: Cursor,
      budget: int, maxSegments: int)
    requires Spoken(messages) && CursorOk(messages, c)
    requires Filled(messages, c, d, a, budget, maxSegments) && Filled(messages, c, e, b, budget, maxSegments)
    ensures Position(messages, e) <= Position(messages, d)
  {
    if Position(messages, d) < Position(messages, e) {
      ReadingPast(messages, c, a, d, b, e);
      LastSlice(messages, c, a);
      LastSlice(messages, c, b);
      if e.index < d.index { PositionsOrdered(messages, e, d); }
    }
  }

  lemma FilledIsUnique(
      messages: seq<Message>, c: Cursor, a: seq<EvidenceSlice>, d: Cursor, b: seq<EvidenceSlice>, e: Cursor,
      budget: int, maxSegments: int)
    requires Spoken(messages) && CursorOk(messages, c)
    requires Filled(messages, c, d, a, budget, maxSegments) && Filled(messages, c, e, b, budget, maxSegments)
    ensures a == b
  {
    NeitherGoesFurther(messages, c, a, d, b, e, budget, maxSegments);
    NeitherGoesFurther(messages, c, b, e, a, d, budget, maxSegments);
    CursorIsPosition(messages, d, e);
    SameEndSameEvidence(messages, c, d, a, b);
  }

  lemma {:induction false} FilledPrefix(
      conv: Conversation, scope: string, hmac: string, c: Cursor, units: seq<Unit>, b: Bounds, k: nat)
    requires FilledUnits(conv, scope, hmac, c, units, b) && k <= |units|
    ensures FilledUnits(conv, scope, hmac, c, units[..k], b)
  {
    if k == |units| {
      assert units[..k] == units;
    } else {
      var front := units[..|units| - 1];
      FilledPrefix(conv, scope, hmac, c, front, b, k);
      assert front[..k] == units[..k];
    }
  }

  /** Every unit of a greedy page is within the bounds it was asked to keep. */
  lemma {:induction false} GreedyKeepsTheBounds(
      conv: Conversation, scope: string, hmac: string, c: Cursor, units: seq<Unit>, b: Bounds, i: nat)
    requires FilledUnits(conv, scope, hmac, c, units, b) && WalkUnits(conv, scope, hmac, c, units).Some?
    requires i < |units|
    ensures 1 <= |units[i].evidence| <= b.maxSegments
    ensures 1 <= units[i].contextBytes <= b.maxUnitBytes
  {
    var front := units[..|units| - 1];
    if i < |front| {
      WalkUnitsFailsEarly(conv, scope, hmac, c, units, |front|);
      GreedyKeepsTheBounds(conv, scope, hmac, c, front, b, i);
    } else {
      var at, d := LastUnit(conv, scope, hmac, c, units);
      EvidenceTakesBytes(conv.messages, at, units[i].evidence);
    }
  }

  lemma EvidenceTakesBytes(messages: seq<Message>, c: Cursor, evidence: seq<EvidenceSlice>)
    requires Walk(messages, c, evidence).Some? && evidence != []
    ensures EvidenceBytes(evidence) >= 1
  {
    SizeBounds(evidence[|evidence| - 1].text);
  }

  lemma LastFilledAgree(
      conv: Conversation, scope: string, hmac: string, c: Cursor, p: seq<Unit>, q: seq<Unit>, b: Bounds)
    requires Spoken(conv.messages) && CursorOk(conv.messages, c)
    requires FilledUnits(conv, scope, hmac, c, p, b) && FilledUnits(conv, scope, hmac, c, q, b)
    requires p != [] && q != [] && p[..|p| - 1] == q[..|q| - 1]
    ensures p[|p| - 1].evidence == q[|q| - 1].evidence
  {
    var front := p[..|p| - 1];
    UnitsAreSpan(conv, scope, hmac, c, front);
    FilledIsUnique(
      conv.messages, WalkUnits(conv, scope, hmac, c, front).value,
      p[|p| - 1].evidence, WalkUnits(conv, scope, hmac, c, p).value,
      q[|q| - 1].evidence, WalkUnits(conv, scope, hmac, c, q).value,
      Budget(b, UnitsBytes(front)), b.maxSegments);
  }

  lemma {:induction false} SameFilledUnits(
      conv: Conversation, scope: string, hmac: string, c: Cursor, p: seq<Unit>, q: seq<Unit>, b: Bounds)
    requires Spoken(conv.messages) && CursorOk(conv.messages, c)
    requires WalkUnits(conv, scope, hmac, c, p).Some? && WalkUnits(conv, scope, hmac, c, q).Some?
    requires FilledUnits(conv, scope, hmac, c, p, b) && FilledUnits(conv, scope, hmac, c, q, b)
    requires |p| == |q|
    ensures p == q
  {
    if p != [] {
      WalkUnitsFailsEarly(conv, scope, hmac, c, p, |p| - 1);
      WalkUnitsFailsEarly(conv, scope, hmac, c, q, |q| - 1);
      SameFilledUnits(conv, scope, hmac, c, p[..|p| - 1], q[..|q| - 1], b);
      LastFilledAgree(conv, scope, hmac, c, p, q, b);
      LastUnitsAgree(conv, scope, hmac, c, p, q);
      SameEnds(p, q);
    }
  }

  lemma MoreToFill(
      messages: seq<Message>, c: Cursor, d: Option<Cursor>, evidence: seq<EvidenceSlice>, total: int, b: Bounds)
    requires Spoken(messages) && CursorOk(messages, c) && FilledNext(messages, Some(c), d, evidence, total, b)
    ensures c.index < |messages| && Budget(b, total) >= 4
  {
    LastSlice(messages, c, evidence);
    WalkIsSpan(messages, c, evidence);
    CursorInRange(messages, c);
  }

  lemma NextIsFilled(
      conv: Conversation, scope: string, hmac: string, c: Cursor, units: seq<Unit>, b: Bounds, n: nat) returns (d: Option<Cursor>)
    requires FilledUnits(conv, scope, hmac, c, units, b) && n < |units|
    requires WalkUnits(conv, scope, hmac, c, units).Some?
    ensures FilledNext(
      conv.messages, WalkUnits(conv, scope, hmac, c, units[..n]), d, units[n].evidence, UnitsBytes(units[..n]), b)
  {
    FilledPrefix(conv, scope, hmac, c, units, b, n + 1);
    var more := units[..n + 1];
    assert more[..n] == units[..n];
    d := WalkUnits(conv, scope, hmac, c, more);
  }

  lemma NotLonger(p: Page, q: Page, conv: Conversation, scope: string, hmac: string, b: Bounds)
    requires Accepts(p, conv, scope, hmac) && Accepts(q, conv, scope, hmac) && p.start == q.start
    requires Greedy(p, conv, scope, hmac, b) && Greedy(q, conv, scope, hmac, b)
    ensures |q.units| <= |p.units|
  {
    var n := |p.units|;
    if n < |q.units| {
      FilledPrefix(conv, scope, hmac, q.start, q.units, b, n);
      WalkUnitsFailsEarly(conv, scope, hmac, q.start, q.units, n);
      SameFilledUnits(conv, scope, hmac, p.start, p.units, q.units[..n], b);
      var d := NextIsFilled(conv, scope, hmac, q.start, q.units, b, n);
      MoreToFill(conv.messages, p.next, d, q.units[n].evidence, p.textBytes, b);
    }
  }

  /** There is one greedy page from each cursor, so the builder's output is fully determined. */
  lemma GreedyPageIsUnique(p: Page, q: Page, conv: Conversation, scope: string, hmac: string, b: Bounds)
    requires Accepts(p, conv, scope, hmac) && Accepts(q, conv, scope, hmac) && p.start == q.start
    requires Greedy(p, conv, scope, hmac, b) && Greedy(q, conv, scope, hmac, b)
    ensures p == q
  {
    NotLonger(p, q, conv, scope, hmac, b);
    NotLonger(q, p, conv, scope, hmac, b);
    SameFilledUnits(conv, scope, hmac, p.start, p.units, q.units, b);
  }
}
