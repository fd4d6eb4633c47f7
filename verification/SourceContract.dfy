/**
 The bounded source contract over one selected conversation: what makes a conversation
 valid, and what a page of evidence must say to be read against it.

 A digest is the value it was computed from, so two digests of the same kind agree
 exactly when their inputs do.
 */
module SourceContract {
  import opened Utf8Text

  const MAX_UNIT_BYTES := 16 * 1024
  const MAX_PAGE_BYTES := 64 * 1024
  const MAX_PAGE_UNITS := 8
  const MAX_UNIT_SEGMENTS := 16
  const MAX_MESSAGE_BYTES := 128 * 1024
  const MAX_PRIVATE_CONVERSATION_BYTES := 24 * 1024 * 1024
  const MAX_SOURCE_MESSAGES := 500_000

  datatype Role = User | Assistant | OtherRole(name: string)

  datatype ContentType = PlainText | Multimodal | OtherContent(name: string)

  datatype Attribution = UserReport | AssistantClaim | OtherAttribution(name: string)

  /** contract_version, source_kind and trust_level, which are always checked together. */
  datatype Header = ExternalSourceV0 | OtherHeader(name: string)

  datatype PathStep = PathStep(role: Role, contentType: ContentType, text: Digest)

  datatype Span = Span(position: int, role: Role, start: int, end: int, digest: Digest)

  datatype Digest =
    | TextDigest(text: Text)
    | ConversationDigest(conversation: string, path: seq<PathStep>)
    | UnitDigest(scope: string, hmac: string, semantic: Digest, spans: seq<Span>)
    | RevisionDigest(revision: nat)
    | NotADigest(name: string)

  datatype Message = Message(
    nodeId: string, messageId: string, role: Role, contentType: ContentType, text: Text, textDigest: Digest)

  /** Why a node of the selected path has no message among the conversation's. */
  datatype Reason =
    | Placeholder | NonconversationRole | HiddenMessage | NonfinalAssistant | UnsupportedContent
    | InternalReasoning | NontextParts | EmptyText | OversizeText

  /** What the path left out and could not check; carried through to every page. */
  datatype Coverage = Coverage(omitted: multiset<Reason>, unverifiedChildLinks: int, offBranchNodes: int)

  datatype Conversation = Conversation(
    conversationId: string,
    messages: seq<Message>,
    selectedPathNodes: int,
    coverage: Coverage,
    content: Digest,
    revision: Digest)

  datatype Cursor = Cursor(index: int, offset: int)

  datatype EvidenceSlice = EvidenceSlice(
    messageIndex: int, nodeId: string, messageId: string, role: Role, attribution: Attribution,
    source: Digest, start: int, end: int, text: Text, textDigest: Digest)

  datatype Unit = Unit(
    unitId: Digest, header: Header, scope: string, hmac: string, content: Digest, revision: Digest,
    evidence: seq<EvidenceSlice>, contextBytes: int, previous: Option<Digest>, following: Option<Digest>,
    authorized: bool)

  datatype Page = Page(
    header: Header, hmac: string, scope: string, units: seq<Unit>, start: Cursor, next: Cursor,
    complete: bool, textBytes: int, coverage: Coverage, authorized: bool)

  datatype Bounds = Bounds(maxUnits: int, maxUnitBytes: int, maxPageBytes: int, maxSegments: int)

  datatype SourceError =
    | InvalidScope | InvalidHmac | InvalidBounds | InvalidCursor
    | InvalidIdentity | MessageLimit | InvalidCoverage | InvalidMessage | DuplicateMessageId
    | InvalidEncoding | TextLimit | TextDigestMismatch | SemanticDigestMismatch
    | ContextMetadata | ContextSource | ContextAuthority | ContextCoverage | ContextBounds
    | ContextContract | ContextSegments | ContextAdjacent | ContextSpan | ContextProvenance
    | ContextGap | ContextContent | ContextContentDigest | ContextUnitDigest
    | ContextUnitBytes | ContextPageBytes | ContextNoProgress | ContextNextCursor | ContextCompletion

  datatype Result<T> = Ok(value: T) | Err(error: SourceError)

  predicate LowerOrDigit(c: char) {
    'a' <= c <= 'z' || '0' <= c <= '9'
  }

  predicate ScopeOk(scope: string) {
    && 1 <= |scope| <= 64
    && LowerOrDigit(scope[0])
    && forall i :: 1 <= i < |scope| ==> LowerOrDigit(scope[i]) || scope[i] in "._-"
  }

  predicate HmacOk(hmac: string) {
    && |hmac| == 64
    && forall i :: 0 <= i < |hmac| ==> '0' <= hmac[i] <= '9' || 'a' <= hmac[i] <= 'f'
  }

  predicate BoundsOk(b: Bounds) {
    && 1 <= b.maxUnits <= MAX_PAGE_UNITS
    && 4 <= b.maxUnitBytes <= MAX_UNIT_BYTES
    && 4 <= b.maxPageBytes <= MAX_PAGE_BYTES
    && 1 <= b.maxSegments <= MAX_UNIT_SEGMENTS
  }

  // ----- the conversation -----

  predicate MessageOk(m: Message) {
    && !m.role.OtherRole?
    && !m.contentType.OtherContent?
    && m.nodeId != "" && m.messageId != "" && m.text != []
  }

  function TextBytes(messages: seq<Message>): nat {
    if messages == [] then 0
    else TextBytes(messages[..|messages| - 1]) + Utf8Size(messages[|messages| - 1].text)
  }

  function PathOf(messages: seq<Message>): seq<PathStep> {
    seq(|messages|, i requires 0 <= i < |messages| =>
      PathStep(messages[i].role, messages[i].contentType, messages[i].textDigest))
  }

  predicate IdentityOk(conv: Conversation) {
    conv.conversationId != "" && !conv.content.NotADigest? && !conv.revision.NotADigest?
  }

  predicate CoverageOk(conv: Conversation) {
    && conv.selectedPathNodes >= 0
    && conv.coverage.offBranchNodes >= 0
    && conv.coverage.unverifiedChildLinks >= 0
  }

  predicate DistinctIds(messages: seq<Message>) {
    forall i, j :: 0 <= i < j < |messages| ==> messages[i].messageId != messages[j].messageId
  }

  predicate MessageSound(m: Message) {
    && MessageOk(m)
    && Encodable(m.text)
    && Utf8Size(m.text) <= MAX_MESSAGE_BYTES
    && m.textDigest == TextDigest(m.text)
  }

  predicate MessagesOk(messages: seq<Message>) {
    && DistinctIds(messages)
    && (forall i :: 0 <= i < |messages| ==> MessageSound(messages[i]))
    && TextBytes(messages) <= MAX_PRIVATE_CONVERSATION_BYTES
  }

  predicate ValidConversation(conv: Conversation) {
    && IdentityOk(conv)
    && |conv.messages| <= MAX_SOURCE_MESSAGES
    && CoverageOk(conv)
    && MessagesOk(conv.messages)
    && conv.content == ConversationDigest(conv.conversationId, PathOf(conv.messages))
  }

  predicate MessageBlames(e: SourceError, m: Message) {
    match e
    case InvalidMessage => !MessageOk(m)
    case InvalidEncoding => !Encodable(m.text)
    case MessageLimit => Utf8Size(m.text) > MAX_MESSAGE_BYTES
    case TextDigestMismatch => m.textDigest != TextDigest(m.text)
    case _ => false
  }

  predicate SomeMessageBlamed(e: SourceError, messages: seq<Message>) {
    exists i :: 0 <= i < |messages| && MessageBlames(e, messages[i])
  }

  /** What each refusal says is wrong with the conversation. */
  predicate Blames(e: SourceError, conv: Conversation) {
    match e
    case InvalidIdentity => !IdentityOk(conv)
    case MessageLimit => |conv.messages| > MAX_SOURCE_MESSAGES || SomeMessageBlamed(e, conv.messages)
    case InvalidCoverage => !CoverageOk(conv)
    case DuplicateMessageId => !DistinctIds(conv.messages)
    case TextLimit => TextBytes(conv.messages) > MAX_PRIVATE_CONVERSATION_BYTES
    case SemanticDigestMismatch => conv.content != ConversationDigest(conv.conversationId, PathOf(conv.messages))
    case _ => SomeMessageBlamed(e, conv.messages)
  }

  // ----- cursors and slices -----

  predicate CursorOk(messages: seq<Message>, c: Cursor) {
    && 0 <= c.index <= |messages|
    && (c.index == |messages| ==> c.offset == 0)
    && (c.index < |messages| ==> 0 <= c.offset < |messages[c.index].text|)
  }

  function AttributionOf(role: Role): Attribution {
    if role.User? then UserReport else AssistantClaim
  }

  function DigestAt(messages: seq<Message>, i: int): Option<Digest> {
    if 0 <= i < |messages| then Some(messages[i].textDigest) else None
  }

  function SpansOf(evidence: seq<EvidenceSlice>): seq<Span> {
    seq(|evidence|, i requires 0 <= i < |evidence| =>
      Span(evidence[i].messageIndex, evidence[i].role, evidence[i].start, evidence[i].end, evidence[i].textDigest))
  }

  function UnitIdOf(scope: string, hmac: string, semantic: Digest, evidence: seq<EvidenceSlice>): Digest {
    UnitDigest(scope, hmac, semantic, SpansOf(evidence))
  }

  /** The slice reads the conversation's own text, starting exactly at the cursor. */
  predicate Reads(sl: EvidenceSlice, messages: seq<Message>, c: Cursor) {
    && 0 <= sl.messageIndex < |messages|
    && var m := messages[sl.messageIndex];
    && sl.nodeId == m.nodeId && sl.messageId == m.messageId && sl.role == m.role
    && sl.attribution == AttributionOf(m.role)
    && sl.source == m.textDigest
    && 0 <= sl.start < sl.end <= |m.text|
    && sl.messageIndex == c.index && sl.start == c.offset
    && sl.text == m.text[sl.start..sl.end]
    && sl.textDigest == TextDigest(sl.text)
  }

  /** Where reading resumes after a slice. */
  function After(sl: EvidenceSlice, messages: seq<Message>): Cursor
    requires 0 <= sl.messageIndex < |messages|
  {
    if sl.end == |messages[sl.messageIndex].text| then Cursor(sl.messageIndex + 1, 0)
    else Cursor(sl.messageIndex, sl.end)
  }

  function Walk(messages: seq<Message>, c: Cursor, evidence: seq<EvidenceSlice>): Option<Cursor> {
    if evidence == [] then Some(c)
    else
      var last := evidence[|evidence| - 1];
      match Walk(messages, c, evidence[..|evidence| - 1])
      case None => None
      case Some(d) => if Reads(last, messages, d) then Some(After(last, messages)) else None
  }

  function EvidenceBytes(evidence: seq<EvidenceSlice>): nat {
    if evidence == [] then 0
    else EvidenceBytes(evidence[..|evidence| - 1]) + Utf8Size(evidence[|evidence| - 1].text)
  }

  // ----- units and pages -----

  /** The unit, read from c, ends at d. */
  predicate UnitReads(u: Unit, conv: Conversation, scope: string, hmac: string, c: Cursor, d: Cursor) {
    && u.hmac == hmac && u.scope == scope && !u.authorized
    && u.header == ExternalSourceV0
    && u.content == conv.content && u.revision == conv.revision
    && 1 <= |u.evidence| <= MAX_UNIT_SEGMENTS
    && u.previous == DigestAt(conv.messages, c.index - 1)
    && Walk(conv.messages, c, u.evidence) == Some(d)
    && u.unitId == UnitIdOf(scope, hmac, conv.content, u.evidence)
    && u.following == DigestAt(conv.messages, d.index)
    && u.contextBytes == EvidenceBytes(u.evidence) <= MAX_UNIT_BYTES
  }

  function WalkUnits(conv: Conversation, scope: string, hmac: string, c: Cursor, units: seq<Unit>): Option<Cursor> {
    if units == [] then Some(c)
    else
      var last := units[|units| - 1];
      match WalkUnits(conv, scope, hmac, c, units[..|units| - 1])
      case None => None
      case Some(d) =>
        match Walk(conv.messages, d, last.evidence)
        case None => None
        case Some(e) => if UnitReads(last, conv, scope, hmac, d, e) then Some(e) else None
  }

  function UnitsBytes(units: seq<Unit>): int {
    if units == [] then 0 else UnitsBytes(units[..|units| - 1]) + units[|units| - 1].contextBytes
  }

  /** Everything the independent page check demands. */
  predicate Accepts(page: Page, conv: Conversation, scope: string, hmac: string) {
    && ValidConversation(conv)
    && page.header == ExternalSourceV0 && page.scope == scope && ScopeOk(scope) && HmacOk(hmac)
    && page.hmac == hmac
    && !page.authorized
    && page.coverage == conv.coverage
    && |page.units| <= MAX_PAGE_UNITS
    && 0 <= page.textBytes <= MAX_PAGE_BYTES
    && CursorOk(conv.messages, page.start)
    && WalkUnits(conv, scope, hmac, page.start, page.units) == Some(page.next)
    && UnitsBytes(page.units) == page.textBytes
    && (page.units == [] ==> page.next.index == |conv.messages|)
    && page.complete == (page.next.index == |conv.messages|)
  }
}
