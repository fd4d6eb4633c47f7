/**
 The separate check that re-reads a page against the conversation, and why the builder's
 page is the only one that takes all the text the bounds allow.
 */
module SourceChecker {
  import opened Utf8Text
  import opened SourceContract
  import opened SourceTheorems
  import opened SourceReader

  lemma {:induction false} WalkFailsEarly(messages: seq<Message>, c: Cursor, evidence: seq<EvidenceSlice>, i: nat)
    requires i <= |evidence|
    ensures Walk(messages, c, evidence[..i]).None? ==> Walk(messages, c, evidence).None?
  {
    if i == |evidence| {
      assert evidence[..i] == evidence;
    } else {
      WalkFailsEarly(messages, c, evidence[..|evidence| - 1], i);
      assert evidence[..|evidence| - 1][..i] == evidence[..i];
    }
  }

  method CheckSlice(sl: EvidenceSlice, messages: seq<Message>, c: Cursor) returns (fault: Option<SourceError>)
    ensures fault.None? <==> Reads(sl, messages, c)
  {
    if sl.messageIndex < 0 || sl.messageIndex >= |messages| { return Some(ContextSpan); }
    var m := messages[sl.messageIndex];
    if sl.nodeId != m.nodeId || sl.messageId != m.messageId || sl.role != m.role
      || sl.attribution != AttributionOf(m.role) || sl.source != m.textDigest
      || !(0 <= sl.start < sl.end <= |m.text|)
    {
      return Some(ContextProvenance);
    }
    if sl.messageIndex != c.index || sl.start != c.offset { return Some(ContextGap); }
    if sl.text != m.text[sl.start..sl.end] { return Some(ContextContent); }
    if TextDigest(sl.text) != sl.textDigest { return Some(ContextContentDigest); }
    return None;
  }

  method CheckEvidence(evidence: seq<EvidenceSlice>, messages: seq<Message>, c: Cursor)
    returns (fault: Option<SourceError>, d: Cursor, subtotal: nat)
    ensures fault.None? <==> Walk(messages, c, evidence).Some?
    ensures fault.None? ==> Walk(messages, c, evidence) == Some(d) && subtotal == EvidenceBytes(evidence)
  {
    d, subtotal := c, 0;
    for i := 0 to |evidence|
      invariant Walk(messages, c, evidence[..i]) == Some(d)
      invariant subtotal == EvidenceBytes(evidence[..i])
    {
      assert evidence[..i + 1][..i] == evidence[..i];
      WalkFailsEarly(messages, c, evidence, i + 1);
      fault := CheckSlice(evidence[i], messages, d);
      if fault.Some? { return; }
      subtotal := subtotal + Utf8Size(evidence[i].text);
      d := After(evidence[i], messages);
    }
    assert evidence[..|evidence|] == evidence;
    fault := None;
  }

  predicate UnitsBound(units: seq<Unit>, scope: string, hmac: string) {
    forall i :: 0 <= i < |units| ==> units[i].hmac == hmac && units[i].scope == scope
  }

  predicate UnitsUnauthorized(units: seq<Unit>) {
    forall i :: 0 <= i < |units| ==> !units[i].authorized
  }

  method CheckUnit(u: Unit, conv: Conversation, scope: string, hmac: string, c: Cursor)
    returns (fault: Option<SourceError>, d: Cursor, subtotal: nat)
    requires u.hmac == hmac && u.scope == scope && !u.authorized
    ensures fault.None? ==> UnitReads(u, conv, scope, hmac, c, d) && subtotal == u.contextBytes
    ensures fault.Some? ==> forall e :: !UnitReads(u, conv, scope, hmac, c, e)
  {
    subtotal, d := 0, c;
    if u.header != ExternalSourceV0 || u.content != conv.content || u.revision != conv.revision {
      return Some(ContextContract), d, 0;
    }
    if u.evidence == [] || |u.evidence| > MAX_UNIT_SEGMENTS { return Some(ContextSegments), d, 0; }
    if u.previous != DigestAt(conv.messages, c.index - 1) { return Some(ContextAdjacent), d, 0; }
    fault, d, subtotal := CheckEvidence(u.evidence, conv.messages, c);
    if fault.Some? { return; }
    if u.unitId != UnitIdOf(scope, hmac, conv.content, u.evidence) { return Some(ContextUnitDigest), d, 0; }
    if u.following != DigestAt(conv.messages, d.index) { return Some(ContextAdjacent), d, 0; }
    if subtotal != u.contextBytes || subtotal > MAX_UNIT_BYTES { return Some(ContextUnitBytes), d, 0; }
  }

  method CheckUnits(units: seq<Unit>, conv: Conversation, scope: string, hmac: string, c: Cursor)
    returns (fault: Option<SourceError>, d: Cursor, consumed: nat)
    requires UnitsBound(units, scope, hmac) && UnitsUnauthorized(units)
    ensures fault.None? <==> WalkUnits(conv, scope, hmac, c, units).Some?
    ensures fault.None? ==> WalkUnits(conv, scope, hmac, c, units) == Some(d) && consumed == UnitsBytes(units)
  {
    d, consumed := c, 0;
    for i := 0 to |units|
      invariant WalkUnits(conv, scope, hmac, c, units[..i]) == Some(d)
      invariant consumed == UnitsBytes(units[..i])
    {
      assert units[..i + 1][..i] == units[..i];
      WalkUnitsFailsEarly(conv, scope, hmac, c, units, i + 1);
      var e, subtotal;
      fault, e, subtotal := CheckUnit(units[i], conv, scope, hmac, d);
      if fault.Some? { return; }
      d, consumed := e, consumed + subtotal;
    }
    assert units[..|units|] == units;
    fault := None;
  }

  lemma {:induction false} AcceptedUnitsAreBound(
      conv: Conversation, scope: string, hmac: string, c: Cursor, units: seq<Unit>)
    requires WalkUnits(conv, scope, hmac, c, units).Some?
    ensures UnitsBound(units, scope, hmac) && UnitsUnauthorized(units)
  {
    if units != [] {
      var front, last := units[..|units| - 1], units[|units| - 1];
      AcceptedUnitsAreBound(conv, scope, hmac, c, front);
      var b, d := LastUnit(conv, scope, hmac, c, units);
      assert units == front + [last];
    }
  }

  /** The page is passed exactly when it meets every demand. */
  method ValidateSourceContextPage(page: Page, conv: Conversation, scope: string, hmac: string)
    returns (fault: Option<SourceError>)
    ensures fault.None? <==> Accepts(page, conv, scope, hmac)
  {
    fault := ValidateConversation(conv);
    if fault.Some? { return; }
    if page.header != ExternalSourceV0 || page.scope != scope || !ScopeOk(scope) || !HmacOk(hmac) {
      return Some(ContextMetadata);
    }
    if page.hmac != hmac || !UnitsBound(page.units, scope, hmac) {
      Unbound(page, conv, scope, hmac);
      return Some(ContextSource);
    }
    if page.authorized || !UnitsUnauthorized(page.units) {
      Unbound(page, conv, scope, hmac);
      return Some(ContextAuthority);
    }
    if page.coverage != conv.coverage { return Some(ContextCoverage); }
    if |page.units| > MAX_PAGE_UNITS || page.textBytes < 0 || page.textBytes > MAX_PAGE_BYTES {
      return Some(ContextBounds);
    }
    if !CursorOk(conv.messages, page.start) { return Some(InvalidCursor); }
    var d, consumed;
    fault, d, consumed := CheckUnits(page.units, conv, scope, hmac, page.start);
    if fault.Some? { return; }
    if consumed != page.textBytes { return Some(ContextPageBytes); }
    if page.units == [] && d.index < |conv.messages| { return Some(ContextNoProgress); }
    if page.next != d { return Some(ContextNextCursor); }
    if page.complete != (d.index == |conv.messages|) { return Some(ContextCompletion); }
  }

  lemma Unbound(page: Page, conv: Conversation, scope: string, hmac: string)
    requires page.hmac != hmac || page.authorized || !UnitsBound(page.units, scope, hmac) || !UnitsUnauthorized(page.units)
    ensures !Accepts(page, conv, scope, hmac)
  {
    if Accepts(page, conv, scope, hmac) {
      AcceptedUnitsAreBound(conv, scope, hmac, page.start, page.units);
    }
  }
}
