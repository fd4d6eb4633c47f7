/**
 What an accepted page is worth, whoever made it: exactly the conversation's text between
 its two cursors. Text is compared glyph by glyph, each with the message and the offset
 it came from, so that a span attributed to the wrong message cannot pass for the right one.
 */
module SourceTheorems {
  import opened Utf8Text
  import opened SourceContract

  datatype Glyph = Glyph(message: int, offset: int, point: CodePoint)

  function Tagged(message: int, from: int, text: Text): seq<Glyph> {
    seq(|text|, k requires 0 <= k < |text| => Glyph(message, from + k, text[k]))
  }

  /** The whole conversation, in order. */
  function Flat(messages: seq<Message>): seq<Glyph> {
    if messages == [] then []
    else Flat(messages[..|messages| - 1]) + Tagged(|messages| - 1, 0, messages[|messages| - 1].text)
  }

  /** How many code points lie before the cursor. */
  function Position(messages: seq<Message>, c: Cursor): int
    requires 0 <= c.index <= |messages|
  {
    |Flat(messages[..c.index])| + c.offset
  }

  function EvidenceGlyphs(evidence: seq<EvidenceSlice>): seq<Glyph> {
    if evidence == [] then []
    else
      var last := evidence[|evidence| - 1];
      EvidenceGlyphs(evidence[..|evidence| - 1]) + Tagged(last.messageIndex, last.start, last.text)
  }

  function UnitsGlyphs(units: seq<Unit>): seq<Glyph> {
    if units == [] then []
    else UnitsGlyphs(units[..|units| - 1]) + EvidenceGlyphs(units[|units| - 1].evidence)
  }

  function ChainGlyphs(pages: seq<Page>): seq<Glyph> {
    if pages == [] then [] else ChainGlyphs(pages[..|pages| - 1]) + UnitsGlyphs(pages[|pages| - 1].units)
  }

  function TextOf(glyphs: seq<Glyph>): Text {
    seq(|glyphs|, k requires 0 <= k < |glyphs| => glyphs[k].point)
  }

  predicate Spoken(messages: seq<Message>) {
    forall i :: 0 <= i < |messages| ==> messages[i].text != []
  }

  /** The last unit of a walk, between the cursors on either side of it. */
  lemma LastUnit(conv: Conversation, scope: string, hmac: string, c: Cursor, units: seq<Unit>)
    returns (b: Cursor, d: Cursor)
    requires WalkUnits(conv, scope, hmac, c, units).Some? && units != []
    ensures WalkUnits(conv, scope, hmac, c, units[..|units| - 1]) == Some(b)
    ensures WalkUnits(conv, scope, hmac, c, units) == Some(d)
    ensures UnitReads(units[|units| - 1], conv, scope, hmac, b, d)
  {
    b := WalkUnits(conv, scope, hmac, c, units[..|units| - 1]).value;
    d := WalkUnits(conv, scope, hmac, c, units).value;
  }

  lemma {:induction false} WalkUnitsFailsEarly(
      conv: Conversation, scope: string, hmac: string, c: Cursor, units: seq<Unit>, i: nat)
    requires i <= |units|
    ensures WalkUnits(conv, scope, hmac, c, units[..i]).None? ==> WalkUnits(conv, scope, hmac, c, units).None?
  {
    if i == |units| {
      assert units[..i] == units;
    } else {
      WalkUnitsFailsEarly(conv, scope, hmac, c, units[..|units| - 1], i);
      assert units[..|units| - 1][..i] == units[..i];
    }
  }

  // ----- where a message sits in the whole text -----

  lemma {:induction false} FlatHolds(messages: seq<Message>, i: nat)
    requires i < |messages|
    ensures Flat(messages[..i + 1]) == Flat(messages[..i]) + Tagged(i, 0, messages[i].text)
    ensures Flat(messages[..i + 1]) <= Flat(messages)
  {
    assert messages[..i + 1][..i] == messages[..i];
    if i + 1 == |messages| {
      assert messages[..i + 1] == messages;
    } else {
      var front := messages[..|messages| - 1];
      FlatHolds(front, i);
      assert front[..i + 1] == messages[..i + 1];
    }
  }

  lemma {:induction false} CursorInRange(messages: seq<Message>, c: Cursor)
    requires CursorOk(messages, c)
    ensures 0 <= Position(messages, c) <= |Flat(messages)|
    ensures Position(messages, c) == |Flat(messages)| <==> c.index == |messages|
  {
    if c.index < |messages| {
      FlatHolds(messages, c.index);
    } else {
      assert messages[..c.index] == messages;
    }
  }

  /** Two cursors at the same position are the same cursor. */
  lemma {:induction false} CursorIsPosition(messages: seq<Message>, c: Cursor, d: Cursor)
    requires CursorOk(messages, c) && CursorOk(messages, d)
    ensures Position(messages, c) == Position(messages, d) <==> c == d
  {
    if c.index < d.index {
      PositionsOrdered(messages, c, d);
    } else if d.index < c.index {
      PositionsOrdered(messages, d, c);
    }
  }

  lemma PositionsOrdered(messages: seq<Message>, c: Cursor, d: Cursor)
    requires CursorOk(messages, c) && CursorOk(messages, d) && c.index < d.index
    ensures Position(messages, c) < Position(messages, d)
  {
    FlatHolds(messages, c.index);
    var front := messages[..d.index];
    FlatHolds(front, c.index);
    assert front[..c.index + 1] == messages[..c.index + 1];
  }

  /** The glyphs are the text between the two cursors. */
  predicate IsSpan(glyphs: seq<Glyph>, messages: seq<Message>, c: Cursor, d: Cursor)
    requires 0 <= c.index <= |messages|
  {
    && CursorOk(messages, d)
    && 0 <= Position(messages, c) <= Position(messages, d) <= |Flat(messages)|
    && glyphs == Flat(messages)[Position(messages, c)..Position(messages, d)]
  }

  lemma SpansJoin(g: seq<Glyph>, h: seq<Glyph>, messages: seq<Message>, c: Cursor, d: Cursor, e: Cursor)
    requires 0 <= c.index <= |messages| && CursorOk(messages, d)
    requires IsSpan(g, messages, c, d) && IsSpan(h, messages, d, e)
    ensures IsSpan(g + h, messages, c, e)
  {
    SlicesJoin(Flat(messages), Position(messages, c), Position(messages, d), Position(messages, e));
  }

  lemma SlicesJoin(flat: seq<Glyph>, i: nat, j: nat, k: nat)
    requires i <= j <= k <= |flat|
    ensures flat[i..k] == flat[i..j] + flat[j..k]
  {
  }

  lemma EmptySpan(messages: seq<Message>, c: Cursor)
    requires CursorOk(messages, c)
    ensures IsSpan([], messages, c, c)
  {
    CursorInRange(messages, c);
  }

  lemma TaggedSlice(message: int, text: Text, i: nat, j: nat)
    requires i <= j <= |text|
    ensures Tagged(message, 0, text)[i..j] == Tagged(message, i, text[i..j])
  {
  }

  /** Where a message's text lies in the whole. */
  lemma MessageLies(messages: seq<Message>, i: nat)
    requires i < |messages|
    ensures var base, text := |Flat(messages[..i])|, messages[i].text;
      && base + |text| == |Flat(messages[..i + 1])| <= |Flat(messages)|
      && Flat(messages)[base..base + |text|] == Tagged(i, 0, text)
  {
    FlatHolds(messages, i);
  }

  lemma AfterLies(sl: EvidenceSlice, messages: seq<Message>, c: Cursor)
    requires Spoken(messages) && CursorOk(messages, c) && Reads(sl, messages, c)
    ensures CursorOk(messages, After(sl, messages))
    ensures Position(messages, c) == |Flat(messages[..c.index])| + sl.start
    ensures Position(messages, After(sl, messages)) == |Flat(messages[..c.index])| + sl.end
  {
    MessageLies(messages, c.index);
  }

  /** A slice that reads at the cursor is the next stretch of the text. */
  lemma SliceIsSpan(sl: EvidenceSlice, messages: seq<Message>, c: Cursor)
    requires Spoken(messages) && CursorOk(messages, c) && Reads(sl, messages, c)
    ensures IsSpan(Tagged(sl.messageIndex, sl.start, sl.text), messages, c, After(sl, messages))
    ensures Position(messages, c) < Position(messages, After(sl, messages))
  {
    var i := c.index;
    AfterLies(sl, messages, c);
    MessageLies(messages, i);
    var base := |Flat(messages[..i])|;
    SliceOfSlice(Flat(messages), base, base + |messages[i].text|, sl.start, sl.end);
    TaggedSlice(i, messages[i].text, sl.start, sl.end);
  }

  lemma {:induction false} WalkIsSpan(messages: seq<Message>, c: Cursor, evidence: seq<EvidenceSlice>)
    requires Spoken(messages) && CursorOk(messages, c)
    requires Walk(messages, c, evidence).Some?
    ensures var d := Walk(messages, c, evidence).value;
      && IsSpan(EvidenceGlyphs(evidence), messages, c, d)
      && (evidence != [] ==> Position(messages, c) < Position(messages, d))
  {
    if evidence == [] {
      EmptySpan(messages, c);
    } else {
      var front, last := evidence[..|evidence| - 1], evidence[|evidence| - 1];
      WalkIsSpan(messages, c, front);
      var b := Walk(messages, c, front).value;
      SliceIsSpan(last, messages, b);
      SpansJoin(EvidenceGlyphs(front), Tagged(last.messageIndex, last.start, last.text), messages, c, b, After(last, messages));
    }
  }

  lemma {:induction false} UnitsAreSpan(conv: Conversation, scope: string, hmac: string, c: Cursor, units: seq<Unit>)
    requires Spoken(conv.messages) && CursorOk(conv.messages, c)
    requires WalkUnits(conv, scope, hmac, c, units).Some?
    ensures var d := WalkUnits(conv, scope, hmac, c, units).value;
      && IsSpan(UnitsGlyphs(units), conv.messages, c, d)
      && (units != [] ==> Position(conv.messages, c) < Position(conv.messages, d))
  {
    if units == [] {
      EmptySpan(conv.messages, c);
    } else {
      var front, last := units[..|units| - 1], units[|units| - 1];
      UnitsAreSpan(conv, scope, hmac, c, front);
      var b, d := LastUnit(conv, scope, hmac, c, units);
      WalkIsSpan(conv.messages, b, last.evidence);
      SpansJoin(UnitsGlyphs(front), EvidenceGlyphs(last.evidence), conv.messages, c, b, d);
    }
  }

  // ----- pages -----

  /**
   An accepted page, however produced, is exactly the text between its cursors; it moves
   forward unless the text is finished, and complete means finished.
   */
  lemma AcceptedPageIsSpan(page: Page, conv: Conversation, scope: string, hmac: string)
    requires Accepts(page, conv, scope, hmac)
    ensures IsSpan(UnitsGlyphs(page.units), conv.messages, page.start, page.next)
    ensures page.complete <==> Position(conv.messages, page.next) == |Flat(conv.messages)|
    ensures Position(conv.messages, page.start) < |Flat(conv.messages)|
        ==> Position(conv.messages, page.start) < Position(conv.messages, page.next)
    ensures page.textBytes == Utf8Size(TextOf(UnitsGlyphs(page.units)))
  {
    SoundIsSpoken(conv.messages);
    UnitsAreSpan(conv, scope, hmac, page.start, page.units);
    CursorInRange(conv.messages, page.next);
    CursorInRange(conv.messages, page.start);
    UnitsBytesAreText(conv, scope, hmac, page.start, page.units);
  }

  lemma SoundIsSpoken(messages: seq<Message>)
    requires MessagesOk(messages)
    ensures Spoken(messages)
  {
    assert forall i :: 0 <= i < |messages| ==> MessageSound(messages[i]);
  }

  lemma BytesJoin(a: seq<Glyph>, b: seq<Glyph>)
    ensures Utf8Size(TextOf(a + b)) == Utf8Size(TextOf(a)) + Utf8Size(TextOf(b))
  {
    assert TextOf(a + b) == TextOf(a) + TextOf(b);
    SizeOfConcat(TextOf(a), TextOf(b));
  }

  lemma {:induction false} EvidenceBytesAreText(evidence: seq<EvidenceSlice>)
    ensures EvidenceBytes(evidence) == Utf8Size(TextOf(EvidenceGlyphs(evidence)))
  {
    if evidence != [] {
      var front, last := evidence[..|evidence| - 1], evidence[|evidence| - 1];
      EvidenceBytesAreText(front);
      var tagged := Tagged(last.messageIndex, last.start, last.text);
      assert TextOf(tagged) == last.text;
      BytesJoin(EvidenceGlyphs(front), tagged);
    }
  }

  lemma {:induction false} UnitsBytesAreText(conv: Conversation, scope: string, hmac: string, c: Cursor, units: seq<Unit>)
    requires WalkUnits(conv, scope, hmac, c, units).Some?
    ensures UnitsBytes(units) == Utf8Size(TextOf(UnitsGlyphs(units)))
  {
    if units != [] {
      var front, last := units[..|units| - 1], units[|units| - 1];
      var b, d := LastUnit(conv, scope, hmac, c, units);
      UnitsBytesAreText(conv, scope, hmac, c, front);
      EvidenceBytesAreText(last.evidence);
      BytesJoin(UnitsGlyphs(front), EvidenceGlyphs(last.evidence));
    }
  }

  /** Pages read one after another, each from where the last one stopped. */
  predicate Chained(pages: seq<Page>, conv: Conversation, scope: string, hmac: string, from: Cursor) {
    && (forall i :: 0 <= i < |pages| ==> Accepts(pages[i], conv, scope, hmac))
    && (pages != [] ==> pages[0].start == from)
    && forall i :: 1 <= i < |pages| ==> pages[i].start == pages[i - 1].next
  }

  lemma ChainedFront(pages: seq<Page>, conv: Conversation, scope: string, hmac: string, from: Cursor)
    requires pages != [] && Chained(pages, conv, scope, hmac, from)
    ensures var front, last := pages[..|pages| - 1], pages[|pages| - 1];
      && Chained(front, conv, scope, hmac, from)
      && Accepts(last, conv, scope, hmac)
      && last.start == if front == [] then from else front[|front| - 1].next
  {
  }

  lemma {:induction false} ChainIsSpan(pages: seq<Page>, conv: Conversation, scope: string, hmac: string, from: Cursor)
    requires CursorOk(conv.messages, from)
    requires pages != [] && Chained(pages, conv, scope, hmac, from)
    ensures IsSpan(ChainGlyphs(pages), conv.messages, from, pages[|pages| - 1].next)
  {
    var front, last := pages[..|pages| - 1], pages[|pages| - 1];
    ChainedFront(pages, conv, scope, hmac, from);
    AcceptedPageIsSpan(last, conv, scope, hmac);
    if front == [] {
      assert ChainGlyphs(pages) == UnitsGlyphs(last.units);
    } else {
      ChainIsSpan(front, conv, scope, hmac, from);
      SpansJoin(ChainGlyphs(front), UnitsGlyphs(last.units), conv.messages, from, last.start, last.next);
    }
  }

  /** Following the cursor from the beginning to a complete page loses and repeats nothing. */
  lemma PagingIsLossless(pages: seq<Page>, conv: Conversation, scope: string, hmac: string)
    requires pages != [] && Chained(pages, conv, scope, hmac, Cursor(0, 0))
    requires pages[|pages| - 1].complete
    ensures ChainGlyphs(pages) == Flat(conv.messages)
  {
    assert Accepts(pages[0], conv, scope, hmac);
    ChainIsSpan(pages, conv, scope, hmac, Cursor(0, 0));
    AcceptedPageIsSpan(pages[|pages| - 1], conv, scope, hmac);
  }

  /** A chain that is not complete before its end has no more pages than there is text. */
  lemma {:induction false} PagingTerminates(
      pages: seq<Page>, conv: Conversation, scope: string, hmac: string, from: Cursor)
    requires CursorOk(conv.messages, from)
    requires Chained(pages, conv, scope, hmac, from)
    requires forall i :: 0 <= i < |pages| ==> !pages[i].complete
    ensures |pages| <= |Flat(conv.messages)| - Position(conv.messages, from)
    decreases |pages|
  {
    CursorInRange(conv.messages, from);
    if pages != [] {
      AcceptedPageIsSpan(pages[0], conv, scope, hmac);
      PagingTerminates(pages[1..], conv, scope, hmac, pages[0].next);
    }
  }

  /** Every message's text is there to be read back, whole, from the flat text. */
  lemma FlatKeepsMessages(messages: seq<Message>, i: nat)
    requires i < |messages|
    ensures var b := |Flat(messages[..i])|;
      && b + |messages[i].text| <= |Flat(messages)|
      && TextOf(Flat(messages)[b..b + |messages[i].text|]) == messages[i].text
  {
    FlatHolds(messages, i);
    var b := |Flat(messages[..i])|;
    assert Flat(messages)[b..b + |messages[i].text|] == Tagged(i, 0, messages[i].text);
  }

  // ----- nothing on an accepted page is left unchecked -----

  /** How long each slice of each unit is. */
  function Cut(evidence: seq<EvidenceSlice>): seq<nat> {
    seq(|evidence|, i requires 0 <= i < |evidence| => |evidence[i].text|)
  }

  lemma {:induction false} EvidenceIsItsCut(
      messages: seq<Message>, c: Cursor, a: seq<EvidenceSlice>, b: seq<EvidenceSlice>)
    requires Walk(messages, c, a).Some? && Walk(messages, c, b).Some?
    requires Cut(a) == Cut(b)
    ensures a == b
  {
    assert |a| == |Cut(a)| == |Cut(b)| == |b|;
    if a != [] {
      var fa, fb := a[..|a| - 1], b[..|b| - 1];
      assert Cut(fa) == Cut(a)[..|a| - 1] == Cut(fb);
      EvidenceIsItsCut(messages, c, fa, fb);
      assert Cut(a)[|a| - 1] == |a[|a| - 1].text| && Cut(b)[|a| - 1] == |b[|a| - 1].text|;
      assert a == fa + [a[|a| - 1]] && b == fb + [b[|a| - 1]];
    }
  }

  lemma SameUnit(conv: Conversation, scope: string, hmac: string, c: Cursor, u: Unit, d: Cursor, v: Unit, e: Cursor)
    requires UnitReads(u, conv, scope, hmac, c, d) && UnitReads(v, conv, scope, hmac, c, e)
    requires u.evidence == v.evidence
    ensures u == v
  {
  }

  lemma LastUnitsAgree(conv: Conversation, scope: string, hmac: string, c: Cursor, a: seq<Unit>, b: seq<Unit>)
    requires WalkUnits(conv, scope, hmac, c, a).Some? && WalkUnits(conv, scope, hmac, c, b).Some?
    requires a != [] && b != [] && a[..|a| - 1] == b[..|b| - 1]
    requires a[|a| - 1].evidence == b[|b| - 1].evidence
    ensures a[|a| - 1] == b[|b| - 1]
  {
    var at, d := LastUnit(conv, scope, hmac, c, a);
    var also, e := LastUnit(conv, scope, hmac, c, b);
    SameUnit(conv, scope, hmac, at, a[|a| - 1], d, b[|b| - 1], e);
  }

  lemma LastEvidenceWalks(conv: Conversation, scope: string, hmac: string, c: Cursor, units: seq<Unit>) returns (at: Cursor)
    requires WalkUnits(conv, scope, hmac, c, units).Some? && units != []
    ensures WalkUnits(conv, scope, hmac, c, units[..|units| - 1]) == Some(at)
    ensures Walk(conv.messages, at, units[|units| - 1].evidence).Some?
  {
    var d;
    at, d := LastUnit(conv, scope, hmac, c, units);
  }

  lemma {:induction false} UnitsAreTheirCuts(
      conv: Conversation, scope: string, hmac: string, c: Cursor, a: seq<Unit>, b: seq<Unit>)
    requires WalkUnits(conv, scope, hmac, c, a).Some? && WalkUnits(conv, scope, hmac, c, b).Some?
    requires |a| == |b| && forall i :: 0 <= i < |a| ==> Cut(a[i].evidence) == Cut(b[i].evidence)
    ensures a == b
  {
    if a != [] {
      var at := LastEvidenceWalks(conv, scope, hmac, c, a);
      var also := LastEvidenceWalks(conv, scope, hmac, c, b);
      UnitsAreTheirCuts(conv, scope, hmac, c, a[..|a| - 1], b[..|b| - 1]);
      EvidenceIsItsCut(conv.messages, at, a[|a| - 1].evidence, b[|b| - 1].evidence);
      LastUnitsAgree(conv, scope, hmac, c, a, b);
      SameEnds(a, b);
    }
  }

  /**
   Two accepted pages that start at the same cursor and cut the text at the same places
   are equal in every field.
   */
  lemma AcceptedPageIsItsCuts(p: Page, q: Page, conv: Conversation, scope: string, hmac: string)
    requires Accepts(p, conv, scope, hmac) && Accepts(q, conv, scope, hmac)
    requires p.start == q.start && |p.units| == |q.units|
    requires forall i :: 0 <= i < |p.units| ==> Cut(p.units[i].evidence) == Cut(q.units[i].evidence)
    ensures p == q
  {
    UnitsAreTheirCuts(conv, scope, hmac, p.start, p.units, q.units);
  }
}
