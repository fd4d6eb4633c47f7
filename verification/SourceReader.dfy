/**
 Cutting one conversation into bounded pages with a resumable cursor, and the separate
 check that re-reads a page against the conversation.
 */
module SourceReader {
  import opened Utf8Text
  import opened SourceContract
  import opened SourceTheorems

  // ----- validating the conversation -----

  lemma {:induction false} TextBytesGrow(messages: seq<Message>, i: nat)
    requires i <= |messages|
    ensures TextBytes(messages[..i]) <= TextBytes(messages)
  {
    if i == |messages| {
      assert messages[..i] == messages;
    } else {
      TextBytesGrow(messages[..|messages| - 1], i);
      assert messages[..|messages| - 1][..i] == messages[..i];
    }
  }

  lemma TextBytesStep(messages: seq<Message>, i: nat)
    requires i < |messages|
    ensures TextBytes(messages[..i + 1]) == TextBytes(messages[..i]) + Utf8Size(messages[i].text)
    ensures PathOf(messages[..i + 1])
         == PathOf(messages[..i]) + [PathStep(messages[i].role, messages[i].contentType, messages[i].textDigest)]
  {
    assert messages[..i + 1][..i] == messages[..i];
  }

  /** A refusal is never raised against a valid conversation. */
  lemma BlamedIsInvalid(e: SourceError, conv: Conversation)
    requires Blames(e, conv)
    ensures !ValidConversation(conv)
  {
  }

  method CheckMessage(m: Message, seen: set<string>, total: nat) returns (fault: Option<SourceError>)
    ensures fault.None? <==>
      MessageSound(m) && m.messageId !in seen && total + Utf8Size(m.text) <= MAX_PRIVATE_CONVERSATION_BYTES
    ensures fault.Some? ==>
      || MessageBlames(fault.value, m)
      || (fault.value == DuplicateMessageId && m.messageId in seen)
      || (fault.value == TextLimit && total + Utf8Size(m.text) > MAX_PRIVATE_CONVERSATION_BYTES)
  {
    if !MessageOk(m) { return Some(InvalidMessage); }
    if m.messageId in seen { return Some(DuplicateMessageId); }
    if !Encodable(m.text) { return Some(InvalidEncoding); }
    var encoded := Utf8Size(m.text);
    if encoded > MAX_MESSAGE_BYTES { return Some(MessageLimit); }
    if total + encoded > MAX_PRIVATE_CONVERSATION_BYTES { return Some(TextLimit); }
    if TextDigest(m.text) != m.textDigest { return Some(TextDigestMismatch); }
    return None;
  }

  predicate DistinctBelow(messages: seq<Message>, n: nat)
    requires n <= |messages|
  {
    forall j, k :: 0 <= j < k < n ==> messages[j].messageId != messages[k].messageId
  }

  predicate SeenBelow(seen: set<string>, messages: seq<Message>, n: nat)
    requires n <= |messages|
  {
    && (forall k :: 0 <= k < n ==> messages[k].messageId in seen)
    && forall id :: id in seen ==> exists k :: 0 <= k < n && messages[k].messageId == id
  }

  /** Everything the loop knows after n messages. */
  predicate CheckedSoFar(seen: set<string>, total: nat, semantic: seq<PathStep>, messages: seq<Message>, n: nat)
    requires n <= |messages|
  {
    && SeenBelow(seen, messages, n) && DistinctBelow(messages, n)
    && (forall k :: 0 <= k < n ==> MessageSound(messages[k]))
    && total == TextBytes(messages[..n]) <= MAX_PRIVATE_CONVERSATION_BYTES
    && semantic == PathOf(messages[..n])
  }

  lemma SeenGrows(seen: set<string>, messages: seq<Message>, n: nat)
    requires n < |messages| && SeenBelow(seen, messages, n) && DistinctBelow(messages, n)
    requires messages[n].messageId !in seen
    ensures SeenBelow(seen + {messages[n].messageId}, messages, n + 1) && DistinctBelow(messages, n + 1)
  {
    forall j, k | 0 <= j < k < n + 1
      ensures messages[j].messageId != messages[k].messageId
    {
      if k == n { assert messages[j].messageId in seen; }
    }
  }

  lemma CheckedGrows(seen: set<string>, total: nat, semantic: seq<PathStep>, messages: seq<Message>, n: nat)
    requires n < |messages| && CheckedSoFar(seen, total, semantic, messages, n)
    requires MessageSound(messages[n]) && messages[n].messageId !in seen
    requires total + Utf8Size(messages[n].text) <= MAX_PRIVATE_CONVERSATION_BYTES
    ensures var m := messages[n];
      CheckedSoFar(seen + {m.messageId}, total + Utf8Size(m.text),
        semantic + [PathStep(m.role, m.contentType, m.textDigest)], messages, n + 1)
  {
    TextBytesStep(messages, n);
    SeenGrows(seen, messages, n);
  }

  lemma RefusedForCause(
      fault: SourceError, seen: set<string>, total: nat, semantic: seq<PathStep>, messages: seq<Message>, n: nat)
    requires n < |messages| && CheckedSoFar(seen, total, semantic, messages, n)
    requires MessageBlames(fault, messages[n])
      || (fault == DuplicateMessageId && messages[n].messageId in seen)
      || (fault == TextLimit && total + Utf8Size(messages[n].text) > MAX_PRIVATE_CONVERSATION_BYTES)
    ensures MessagesBlamed(fault, messages)
  {
    TextBytesStep(messages, n);
    TextBytesGrow(messages, n + 1);
  }

  predicate MessagesBlamed(fault: SourceError, messages: seq<Message>) {
    || SomeMessageBlamed(fault, messages)
    || (fault == DuplicateMessageId && !DistinctIds(messages))
    || (fault == TextLimit && TextBytes(messages) > MAX_PRIVATE_CONVERSATION_BYTES)
  }

  lemma AllChecked(seen: set<string>, total: nat, semantic: seq<PathStep>, messages: seq<Message>)
    requires CheckedSoFar(seen, total, semantic, messages, |messages|)
    ensures MessagesOk(messages) && semantic == PathOf(messages)
  {
    assert messages[..|messages|] == messages;
  }

  method CheckMessages(messages: seq<Message>) returns (fault: Option<SourceError>, semantic: seq<PathStep>)
    ensures fault.None? ==> MessagesOk(messages) && semantic == PathOf(messages)
    ensures fault.Some? ==> MessagesBlamed(fault.value, messages)
  {
    semantic := [];
    var total: nat := 0;
    var seen: set<string> := {};
    for i := 0 to |messages|
      invariant CheckedSoFar(seen, total, semantic, messages, i)
    {
      var m := messages[i];
      fault := CheckMessage(m, seen, total);
      if fault.Some? {
        RefusedForCause(fault.value, seen, total, semantic, messages, i);
        return;
      }
      CheckedGrows(seen, total, semantic, messages, i);
      seen := seen + {m.messageId};
      total := total + Utf8Size(m.text);
      semantic := semantic + [PathStep(m.role, m.contentType, m.textDigest)];
    }
    AllChecked(seen, total, semantic, messages);
    fault := None;
  }

  method ValidateConversation(conv: Conversation) returns (fault: Option<SourceError>)
    ensures fault.None? <==> ValidConversation(conv)
    ensures fault.Some? ==> Blames(fault.value, conv)
  {
    if conv.conversationId == "" || conv.content.NotADigest? || conv.revision.NotADigest? {
      return Some(InvalidIdentity);
    }
    if |conv.messages| > MAX_SOURCE_MESSAGES { return Some(MessageLimit); }
    if conv.selectedPathNodes < 0 || conv.coverage.offBranchNodes < 0 || conv.coverage.unverifiedChildLinks < 0 {
      return Some(InvalidCoverage);
    }
    var semantic;
    fault, semantic := CheckMessages(conv.messages);
    if fault.Some? {
      BlamedIsInvalid(fault.value, conv);
    } else if ConversationDigest(conv.conversationId, semantic) != conv.content {
      fault := Some(SemanticDigestMismatch);
    }
  }

  // ----- cutting -----

  /** The longest run of code points from position that fits in limit octets. */
  method Prefix(text: Text, position: nat, limit: nat) returns (end: nat, consumed: nat)
    requires position <= |text| && Encodable(text)
    ensures position <= end <= |text|
    ensures consumed == Utf8Size(text[position..end]) <= limit
    ensures end < |text| ==> consumed + Width(text[end]) > limit
    ensures forall e :: position <= e <= |text| ==> (Utf8Size(text[position..e]) <= limit <==> e <= end)
  {
    end, consumed := position, 0;
    while end < |text|
      invariant position <= end <= |text|
      invariant consumed == Utf8Size(text[position..end]) <= limit
    {
      var size := Width(text[end]);
      if consumed + size > limit { break; }
      SizeOfOneMore(text[position..end], text[end]);
      assert text[position..end + 1] == text[position..end] + [text[end]];
      consumed := consumed + size;
      end := end + 1;
    }
    forall e | position <= e <= |text|
      ensures Utf8Size(text[position..e]) <= limit <==> e <= end
    {
      if e <= end { SizeGrows(text, position, e, end); } else { SizeGrows(text, position, end, e); }
    }
  }

  /** Every slice but the last runs to the end of its message. */
  predicate Unsplit(messages: seq<Message>, evidence: seq<EvidenceSlice>) {
    forall i :: 0 <= i < |evidence| - 1 ==> ReachesEnd(messages, evidence[i])
  }

  predicate ReachesEnd(messages: seq<Message>, sl: EvidenceSlice) {
    0 <= sl.messageIndex < |messages| && sl.end == |messages[sl.messageIndex].text|
  }

  /** No more text can be added: the text is finished, the next code point does not fit, or no slice is left. */
  predicate Exhausted(messages: seq<Message>, d: Cursor, evidence: seq<EvidenceSlice>, budget: int, maxSegments: int)
    requires CursorOk(messages, d)
  {
    || d.index == |messages|
    || EvidenceBytes(evidence) + Width(messages[d.index].text[d.offset]) > budget
    || (d.offset == 0 && |evidence| == maxSegments)
  }

  /** The evidence from c to d is as much as one unit can take. */
  predicate Filled(
      messages: seq<Message>, c: Cursor, d: Cursor, evidence: seq<EvidenceSlice>, budget: int, maxSegments: int)
  {
    && Walk(messages, c, evidence) == Some(d)
    && 1 <= |evidence| <= maxSegments
    && EvidenceBytes(evidence) <= budget
    && Unsplit(messages, evidence)
    && CursorOk(messages, d)
    && Exhausted(messages, d, evidence, budget, maxSegments)
  }

  function Budget(b: Bounds, total: int): int {
    if b.maxUnitBytes <= b.maxPageBytes - total then b.maxUnitBytes else b.maxPageBytes - total
  }

  /** The units from start are each filled in turn, within the page's budget. */
  predicate FilledUnits(
      conv: Conversation, scope: string, hmac: string, start: Cursor, units: seq<Unit>, b: Bounds)
  {
    units == [] || (
      var front := units[..|units| - 1];
      && FilledUnits(conv, scope, hmac, start, front, b)
      && FilledNext(conv.messages, WalkUnits(conv, scope, hmac, start, front), WalkUnits(conv, scope, hmac, start, units),
        units[|units| - 1].evidence, UnitsBytes(front), b))
  }

  /** One more unit, from c to d, after total octets of the page are used. */
  predicate FilledNext(
      messages: seq<Message>, c: Option<Cursor>, d: Option<Cursor>, evidence: seq<EvidenceSlice>, total: int, b: Bounds)
  {
    && c.Some? && d.Some?
    && Budget(b, total) >= 4
    && Filled(messages, c.value, d.value, evidence, Budget(b, total), b.maxSegments)
  }

  /** The page takes as much as the bounds allow. */
  predicate Greedy(page: Page, conv: Conversation, scope: string, hmac: string, b: Bounds) {
    && |page.units| <= b.maxUnits
    && page.textBytes <= b.maxPageBytes
    && FilledUnits(conv, scope, hmac, page.start, page.units, b)
    && (page.next.index < |conv.messages| ==> |page.units| == b.maxUnits || Budget(b, page.textBytes) < 4)
  }

  function SliceOf(messages: seq<Message>, i: nat, begin: nat, end: nat): EvidenceSlice
    requires i < |messages| && begin <= end <= |messages[i].text|
  {
    var m, text := messages[i], messages[i].text[begin..end];
    EvidenceSlice(i, m.nodeId, m.messageId, m.role, AttributionOf(m.role), m.textDigest, begin, end, text, TextDigest(text))
  }

  lemma SliceReads(messages: seq<Message>, c: Cursor, end: nat)
    requires CursorOk(messages, c) && c.index < |messages|
    requires c.offset < end <= |messages[c.index].text|
    ensures var sl := SliceOf(messages, c.index, c.offset, end);
      && Reads(sl, messages, c)
      && sl.text == messages[c.index].text[c.offset..end]
      && sl.messageIndex == c.index && sl.end == end
  {
  }

  lemma EvidenceGrows(messages: seq<Message>, c: Cursor, evidence: seq<EvidenceSlice>, sl: EvidenceSlice)
    requires Walk(messages, c, evidence).Some?
    requires Reads(sl, messages, Walk(messages, c, evidence).value)
    ensures Walk(messages, c, evidence + [sl]) == Some(After(sl, messages))
    ensures EvidenceBytes(evidence + [sl]) == EvidenceBytes(evidence) + Utf8Size(sl.text)
  {
    assert (evidence + [sl])[..|evidence|] == evidence;
  }

  /** Whole messages taken so far, from c to d. */
  predicate WholeSoFar(messages: seq<Message>, c: Cursor, d: Cursor, evidence: seq<EvidenceSlice>) {
    && Walk(messages, c, evidence) == Some(d)
    && CursorOk(messages, d)
    && (if evidence == [] then d == c else d.offset == 0)
    && forall i :: 0 <= i < |evidence| ==> ReachesEnd(messages, evidence[i])
  }

  lemma TakeSlice(messages: seq<Message>, c: Cursor, d: Cursor, evidence: seq<EvidenceSlice>, end: nat)
    requires Spoken(messages) && WholeSoFar(messages, c, d, evidence) && d.index < |messages|
    requires d.offset < end <= |messages[d.index].text|
    ensures var sl := SliceOf(messages, d.index, d.offset, end);
      && Walk(messages, c, evidence + [sl]) == Some(After(sl, messages))
      && EvidenceBytes(evidence + [sl]) == EvidenceBytes(evidence) + Utf8Size(messages[d.index].text[d.offset..end])
      && CursorOk(messages, After(sl, messages))
      && Unsplit(messages, evidence + [sl])
      && (end == |messages[d.index].text| ==> WholeSoFar(messages, c, After(sl, messages), evidence + [sl]))
      && (end < |messages[d.index].text| ==> After(sl, messages) == Cursor(d.index, end))
  {
    SliceReads(messages, d, end);
    EvidenceGrows(messages, c, evidence, SliceOf(messages, d.index, d.offset, end));
  }

  /** One unit's worth of slices from the cursor. */
  method FillUnit(messages: seq<Message>, c: Cursor, budget: nat, maxSegments: nat)
    returns (evidence: seq<EvidenceSlice>, d: Cursor, unitBytes: nat)
    requires forall i :: 0 <= i < |messages| ==> MessageSound(messages[i])
    requires CursorOk(messages, c) && c.index < |messages|
    requires 4 <= budget && 1 <= maxSegments
    ensures Filled(messages, c, d, evidence, budget, maxSegments)
    ensures unitBytes == EvidenceBytes(evidence)
  {
    assert Spoken(messages);
    evidence, d, unitBytes := [], c, 0;
    while d.index < |messages| && |evidence| < maxSegments && unitBytes < budget
      invariant WholeSoFar(messages, c, d, evidence)
      invariant |evidence| <= maxSegments
      invariant unitBytes == EvidenceBytes(evidence) <= budget
      decreases |messages| - d.index
    {
      var text := messages[d.index].text;
      assert MessageSound(messages[d.index]);
      var end, consumed := Prefix(text, d.offset, budget - unitBytes);
      if end <= d.offset { break; }
      TakeSlice(messages, c, d, evidence, end);
      var slice := SliceOf(messages, d.index, d.offset, end);
      evidence, d, unitBytes := evidence + [slice], After(slice, messages), unitBytes + consumed;
      if end < |text| { return; }
    }
  }

  lemma UnitsGrow(
      conv: Conversation, scope: string, hmac: string, c: Cursor, units: seq<Unit>, u: Unit, d: Cursor, e: Cursor)
    requires WalkUnits(conv, scope, hmac, c, units) == Some(d)
    requires UnitReads(u, conv, scope, hmac, d, e)
    ensures WalkUnits(conv, scope, hmac, c, units + [u]) == Some(e)
    ensures UnitsBytes(units + [u]) == UnitsBytes(units) + u.contextBytes
  {
    assert (units + [u])[..|units|] == units;
  }

  /** The unit made of this evidence. */
  function UnitOf(
      conv: Conversation, scope: string, hmac: string, evidence: seq<EvidenceSlice>, c: Cursor, d: Cursor): Unit
  {
    Unit(
      UnitIdOf(scope, hmac, conv.content, evidence), ExternalSourceV0, scope, hmac, conv.content, conv.revision,
      evidence, EvidenceBytes(evidence), DigestAt(conv.messages, c.index - 1), DigestAt(conv.messages, d.index), false)
  }

  /** What the loop over units knows: where it is, how much is used, and that each unit was filled. */
  predicate Paged(
      conv: Conversation, scope: string, hmac: string, start: Cursor, at: Cursor, units: seq<Unit>, total: int, b: Bounds)
  {
    && CursorOk(conv.messages, at)
    && WalkUnits(conv, scope, hmac, start, units) == Some(at)
    && 0 <= total == UnitsBytes(units) <= b.maxPageBytes
    && FilledUnits(conv, scope, hmac, start, units, b)
  }

  lemma PagedGrows(
      conv: Conversation, scope: string, hmac: string, start: Cursor, at: Cursor, units: seq<Unit>, total: int, b: Bounds,
      evidence: seq<EvidenceSlice>, next: Cursor)
    requires BoundsOk(b) && Paged(conv, scope, hmac, start, at, units, total, b)
    requires Budget(b, total) >= 4
    requires Filled(conv.messages, at, next, evidence, Budget(b, total), b.maxSegments)
    ensures Paged(
      conv, scope, hmac, start, next, units + [UnitOf(conv, scope, hmac, evidence, at, next)],
      total + EvidenceBytes(evidence), b)
  {
    var u := UnitOf(conv, scope, hmac, evidence, at, next);
    UnitsGrow(conv, scope, hmac, start, units, u, at, next);
    FilledUnitsGrow(conv, scope, hmac, start, units, u, at, next, b);
  }

  lemma FilledUnitsGrow(
      conv: Conversation, scope: string, hmac: string, c: Cursor, units: seq<Unit>, u: Unit, d: Cursor, e: Cursor, b: Bounds)
    requires WalkUnits(conv, scope, hmac, c, units) == Some(d)
    requires UnitReads(u, conv, scope, hmac, d, e)
    requires FilledUnits(conv, scope, hmac, c, units, b)
    requires Budget(b, UnitsBytes(units)) >= 4
    requires Filled(conv.messages, d, e, u.evidence, Budget(b, UnitsBytes(units)), b.maxSegments)
    ensures FilledUnits(conv, scope, hmac, c, units + [u], b)
  {
    assert (units + [u])[..|units|] == units;
    UnitsGrow(conv, scope, hmac, c, units, u, d, e);
  }

  function PageOf(
      conv: Conversation, scope: string, hmac: string, start: Cursor, at: Cursor, units: seq<Unit>, total: int): Page
  {
    Page(ExternalSourceV0, hmac, scope, units, start, at, at.index == |conv.messages|, total, conv.coverage, false)
  }

  /** When the loop stops, for whichever reason, the page is acceptable and as full as it may be. */
  lemma PageOk(
      conv: Conversation, scope: string, hmac: string, start: Cursor, at: Cursor, units: seq<Unit>, total: int, b: Bounds)
    requires ArgumentsOk(conv, scope, hmac, start, b)
    requires Paged(conv, scope, hmac, start, at, units, total, b) && |units| <= b.maxUnits
    requires units == [] ==> at == start && total == 0
    requires at.index == |conv.messages| || |units| == b.maxUnits || Budget(b, total) < 4
    ensures Accepts(PageOf(conv, scope, hmac, start, at, units, total), conv, scope, hmac)
    ensures Greedy(PageOf(conv, scope, hmac, start, at, units, total), conv, scope, hmac, b)
  {
  }

  function StartOf(cursor: Option<Cursor>): Cursor {
    if cursor.Some? then cursor.value else Cursor(0, 0)
  }

  predicate ArgumentsOk(conv: Conversation, scope: string, hmac: string, start: Cursor, b: Bounds) {
    ScopeOk(scope) && HmacOk(hmac) && BoundsOk(b) && ValidConversation(conv) && CursorOk(conv.messages, start)
  }

  /** What each refusal says is wrong with the arguments. */
  predicate Refuses(e: SourceError, conv: Conversation, scope: string, hmac: string, start: Cursor, b: Bounds) {
    match e
    case InvalidScope => !ScopeOk(scope)
    case InvalidHmac => !HmacOk(hmac)
    case InvalidBounds => !BoundsOk(b)
    case InvalidCursor => !CursorOk(conv.messages, start)
    case _ => Blames(e, conv)
  }

  /**
   One page from the cursor. Whatever the legal bounds, the page is one the independent
   check accepts and takes all the text that fits; nothing but a bad argument is refused.
   */
  method BuildSourceContextPage(conv: Conversation, scope: string, hmac: string, cursor: Option<Cursor>, b: Bounds)
    returns (r: Result<Page>)
    ensures r.Ok? <==> ArgumentsOk(conv, scope, hmac, StartOf(cursor), b)
    ensures r.Err? ==> Refuses(r.error, conv, scope, hmac, StartOf(cursor), b)
    ensures r.Ok? ==> r.value.start == match cursor case Some(c) => c case None => Cursor(0, 0)
    ensures r.Ok? ==> Accepts(r.value, conv, scope, hmac) && Greedy(r.value, conv, scope, hmac, b)
  {
    if !ScopeOk(scope) { return Err(InvalidScope); }
    if !HmacOk(hmac) { return Err(InvalidHmac); }
    if !BoundsOk(b) { return Err(InvalidBounds); }
    var start := StartOf(cursor);
    var fault := ValidateConversation(conv);
    if fault.Some? { return Err(fault.value); }
    var messages := conv.messages;
    if !CursorOk(messages, start) { return Err(InvalidCursor); }
    var at, total := start, 0;
    var units: seq<Unit> := [];
    while at.index < |messages| && |units| < b.maxUnits
      invariant Paged(conv, scope, hmac, start, at, units, total, b)
      invariant |units| <= b.maxUnits
      invariant units == [] ==> at == start && total == 0
      decreases b.maxUnits - |units|
    {
      var budget := Budget(b, total);
      if budget < 4 { break; }
      var evidence, next, unitBytes := FillUnit(messages, at, budget, b.maxSegments);
      // A budget of four octets holds any code point, so there is always at least one slice.
      PagedGrows(conv, scope, hmac, start, at, units, total, b, evidence, next);
      units := units + [UnitOf(conv, scope, hmac, evidence, at, next)];
      at, total := next, total + unitBytes;
      if total >= b.maxPageBytes { break; }
    }
    PageOk(conv, scope, hmac, start, at, units, total, b);
    return Ok(PageOf(conv, scope, hmac, start, at, units, total));
  }
}
