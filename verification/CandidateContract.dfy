/**
 Evidence candidates: every untrusted proposal is bound to an exact span of an accepted
 page, and a batch is accepted only if it can be rebuilt from the source.
 */
module CandidateContract {
  import opened Utf8Text
  import opened SourceContract
  import opened SourceTheorems

  const MAX_CANDIDATES_PER_PAGE := 16
  const MAX_EXCERPT_BYTES := 4096
  const MAX_PROPOSAL_BYTES := 4096
  const MAX_TOTAL_PROPOSAL_BYTES := 32768

  datatype Kind =
    | Unclassified | Question | Hypothesis | Correction | Decision | Outcome | FeatureChange
    | OtherKind(name: string)

  datatype Proposal = Proposal(
    unitIndex: int, sliceIndex: int, quoteStart: int, quoteEnd: int, quote: Text, summary: Text, kind: Kind)

  datatype CandidateDigest =
    | Anchor(
        scope: string, hmac: string, semantic: Digest, unitId: Digest, messageIndex: int, role: Role,
        start: int, end: int, excerpt: Digest)
    | Identity(anchor: CandidateDigest, kind: Kind, summary: Digest)
    | OtherDigest(name: string)

  /** review_state, authority and the two approval flags: a batch may only carry the first of each. */
  datatype Standing = NeedsReviewNoAuthority | OtherStanding(name: string)

  datatype CandidateHeader = EvidenceCandidateV0 | OtherCandidateHeader(name: string)

  datatype Candidate = Candidate(
    candidateId: CandidateDigest, anchor: CandidateDigest, header: CandidateHeader, scope: string, hmac: string,
    content: Digest, revision: Digest, unitId: Digest, unitIndex: int, sliceIndex: int, messageIndex: int,
    nodeId: string, messageId: string, role: Role, attribution: Attribution, quoteStart: int, quoteEnd: int,
    source: Digest, excerpt: Text, excerptDigest: Digest, summary: Text, kind: Kind, standing: Standing)

  datatype Batch = Batch(
    header: CandidateHeader, scope: string, hmac: string, candidates: seq<Candidate>,
    excerptBytes: int, proposalBytes: int, standing: Standing)

  /** The white space that str.strip removes. */
  predicate IsSpace(c: CodePoint) {
    || 0x09 <= c <= 0x0D || 0x1C <= c <= 0x20 || c == 0x85 || c == 0xA0 || c == 0x1680
    || 0x2000 <= c <= 0x200A || c == 0x2028 || c == 0x2029 || c == 0x202F || c == 0x205F || c == 0x3000
  }

  /** Without the white space at either end. */
  function Stripped(t: Text): Text {
    if t == [] then t
    else if IsSpace(t[0]) then Stripped(t[1..])
    else if IsSpace(t[|t| - 1]) then Stripped(t[..|t| - 1])
    else t
  }

  predicate SafeText(t: Text, bound: nat) {
    Stripped(t) != [] && 0 !in t && Encodable(t) && Utf8Size(t) <= bound
  }

  /** Text worth showing to whoever reviews it: something visible, no NUL, encodable, and small. */
  predicate Presentable(t: Text, octets: nat) {
    && (exists i :: 0 <= i < |t| && !IsSpace(t[i]))
    && (forall i :: 0 <= i < |t| ==> t[i] != 0)
    && Encodable(t) && Utf8Size(t) <= octets
  }

  lemma {:induction false} StrippedIsVisible(t: Text)
    ensures Stripped(t) != [] <==> exists i :: 0 <= i < |t| && !IsSpace(t[i])
  {
    if t != [] {
      if IsSpace(t[0]) {
        StrippedIsVisible(t[1..]);
        assert forall i :: 0 < i < |t| ==> t[1..][i - 1] == t[i];
      } else if IsSpace(t[|t| - 1]) {
        assert Stripped(t[..|t| - 1]) != [] by { StrippedIsVisible(t[..|t| - 1]); assert t[..|t| - 1][0] == t[0]; }
      }
    }
  }

  lemma SafeIsPresentable(t: Text, bound: nat)
    ensures SafeText(t, bound) <==> Presentable(t, bound)
  {
    StrippedIsVisible(t);
  }

  predicate InPage(page: Page, unitIndex: int, sliceIndex: int) {
    0 <= unitIndex < |page.units| && 0 <= sliceIndex < |page.units[unitIndex].evidence|
  }

  predicate ProposalOk(p: Proposal, page: Page) {
    && InPage(page, p.unitIndex, p.sliceIndex)
    && var text := page.units[p.unitIndex].evidence[p.sliceIndex].text;
    && 0 <= p.quoteStart < p.quoteEnd <= |text|
    && p.quote == text[p.quoteStart..p.quoteEnd]
    && SafeText(p.quote, MAX_EXCERPT_BYTES)
    && SafeText(p.summary, MAX_PROPOSAL_BYTES)
    && !p.kind.OtherKind?
  }

  function AnchorOf(page: Page, u: Unit, sl: EvidenceSlice, start: int, end: int, excerpt: Text): CandidateDigest {
    Anchor(page.scope, page.hmac, u.content, u.unitId, sl.messageIndex, sl.role, start, end, TextDigest(excerpt))
  }

  function CandidateOf(p: Proposal, page: Page): Candidate
    requires ProposalOk(p, page)
  {
    var u := page.units[p.unitIndex];
    var sl := u.evidence[p.sliceIndex];
    var start, end := sl.start + p.quoteStart, sl.start + p.quoteEnd;
    var anchor := AnchorOf(page, u, sl, start, end, p.quote);
    Candidate(
      Identity(anchor, p.kind, TextDigest(p.summary)), anchor, EvidenceCandidateV0, page.scope, page.hmac,
      u.content, u.revision, u.unitId, p.unitIndex, p.sliceIndex, sl.messageIndex,
      sl.nodeId, sl.messageId, sl.role, sl.attribution, start, end,
      sl.source, p.quote, TextDigest(p.quote), p.summary, p.kind, NeedsReviewNoAuthority)
  }

  /** The proposal a candidate claims to come from. */
  function ProposalOf(c: Candidate, page: Page): Proposal
    requires InPage(page, c.unitIndex, c.sliceIndex)
  {
    var from := page.units[c.unitIndex].evidence[c.sliceIndex].start;
    Proposal(c.unitIndex, c.sliceIndex, c.quoteStart - from, c.quoteEnd - from, c.excerpt, c.summary, c.kind)
  }

  datatype Coordinates = Coordinates(unitIndex: int, sliceIndex: int, quoteStart: int, quoteEnd: int)

  function CoordinatesOf(p: Proposal): Coordinates {
    Coordinates(p.unitIndex, p.sliceIndex, p.quoteStart, p.quoteEnd)
  }

  predicate DistinctProposals(proposals: seq<Proposal>) {
    forall i, j :: 0 <= i < j < |proposals| ==> CoordinatesOf(proposals[i]) != CoordinatesOf(proposals[j])
  }

  function QuoteBytes(proposals: seq<Proposal>): nat {
    if proposals == [] then 0
    else QuoteBytes(proposals[..|proposals| - 1]) + Utf8Size(proposals[|proposals| - 1].quote)
  }

  function SummaryBytes(proposals: seq<Proposal>): nat {
    if proposals == [] then 0
    else SummaryBytes(proposals[..|proposals| - 1]) + Utf8Size(proposals[|proposals| - 1].summary)
  }

  predicate ProposalsOk(proposals: seq<Proposal>, page: Page) {
    && |proposals| <= MAX_CANDIDATES_PER_PAGE
    && (forall i :: 0 <= i < |proposals| ==> ProposalOk(proposals[i], page))
    && DistinctProposals(proposals)
    && QuoteBytes(proposals) <= MAX_TOTAL_PROPOSAL_BYTES
    && SummaryBytes(proposals) <= MAX_TOTAL_PROPOSAL_BYTES
  }

  function CandidatesOf(proposals: seq<Proposal>, page: Page): seq<Candidate>
    requires forall i :: 0 <= i < |proposals| ==> ProposalOk(proposals[i], page)
  {
    seq(|proposals|, i requires 0 <= i < |proposals| => CandidateOf(proposals[i], page))
  }

  function BatchOf(proposals: seq<Proposal>, page: Page, scope: string, hmac: string): Batch
    requires forall i :: 0 <= i < |proposals| ==> ProposalOk(proposals[i], page)
  {
    Batch(EvidenceCandidateV0, scope, hmac, CandidatesOf(proposals, page),
      QuoteBytes(proposals), SummaryBytes(proposals), NeedsReviewNoAuthority)
  }

  /** The batch is what some legal proposals bind to on an accepted page. */
  ghost predicate Genuine(batch: Batch, page: Page, conv: Conversation, scope: string, hmac: string) {
    && Accepts(page, conv, scope, hmac)
    && exists proposals :: ProposalsOk(proposals, page) && batch == BatchOf(proposals, page, scope, hmac)
  }

  lemma CandidateNamesItsProposal(p: Proposal, page: Page)
    requires ProposalOk(p, page)
    ensures ProposalOf(CandidateOf(p, page), page) == p
  {
  }

  // ----- what a genuine candidate is worth -----

  lemma {:induction false} SlicesRead(messages: seq<Message>, c: Cursor, evidence: seq<EvidenceSlice>, i: nat)
    requires Walk(messages, c, evidence).Some? && i < |evidence|
    ensures Reads(evidence[i], messages, Cursor(evidence[i].messageIndex, evidence[i].start))
  {
    var front := evidence[..|evidence| - 1];
    if i < |front| { SlicesRead(messages, c, front, i); }
  }

  lemma {:induction false} UnitsRead(
      conv: Conversation, scope: string, hmac: string, c: Cursor, units: seq<Unit>, i: nat, j: nat)
    requires WalkUnits(conv, scope, hmac, c, units).Some?
    requires i < |units| && j < |units[i].evidence|
    ensures var sl := units[i].evidence[j];
      Reads(sl, conv.messages, Cursor(sl.messageIndex, sl.start))
  {
    var front := units[..|units| - 1];
    if i < |front| {
      UnitsRead(conv, scope, hmac, c, front, i, j);
    } else {
      SlicesRead(conv.messages, WalkUnits(conv, scope, hmac, c, front).value, units[i].evidence, j);
    }
  }

  /** The candidate's excerpt is the original message's text at the recorded offsets, under its true author. */
  predicate Grounded(c: Candidate, messages: seq<Message>) {
    && 0 <= c.messageIndex < |messages|
    && var m := messages[c.messageIndex];
    && 0 <= c.quoteStart < c.quoteEnd <= |m.text|
    && c.excerpt == m.text[c.quoteStart..c.quoteEnd]
    && c.nodeId == m.nodeId && c.messageId == m.messageId && c.role == m.role
    && NamesAuthor(c.attribution, m.role) && c.source == m.textDigest
  }

  /** What a user wrote is reported by the user; what an assistant wrote is claimed by the assistant. */
  predicate NamesAuthor(attribution: Attribution, role: Role) {
    && (role == User ==> attribution == UserReport)
    && (role == Assistant ==> attribution == AssistantClaim)
  }

  /** Every slice of an accepted page, however produced, names the author of the message it is cut from. */
  lemma SlicesNameTheirAuthors(page: Page, conv: Conversation, scope: string, hmac: string, i: int, j: int)
    requires Accepts(page, conv, scope, hmac) && InPage(page, i, j)
    ensures
      var sl := page.units[i].evidence[j];
      && 0 <= sl.messageIndex < |conv.messages|
      && var role := conv.messages[sl.messageIndex].role;
      && sl.role == role && (role == User || role == Assistant)
      && (sl.attribution == UserReport <==> role == User)
      && (sl.attribution == AssistantClaim <==> role == Assistant)
  {
    AcceptedSliceReads(page, conv, scope, hmac, i, j);
    var sl := page.units[i].evidence[j];
    assert MessageSound(conv.messages[sl.messageIndex]);
  }

  lemma QuoteIsGrounded(p: Proposal, page: Page, messages: seq<Message>)
    requires ProposalOk(p, page)
    requires var sl := page.units[p.unitIndex].evidence[p.sliceIndex];
      Reads(sl, messages, Cursor(sl.messageIndex, sl.start))
    ensures Grounded(CandidateOf(p, page), messages)
  {
    var sl := page.units[p.unitIndex].evidence[p.sliceIndex];
    SliceOfSlice(messages[sl.messageIndex].text, sl.start, sl.end, p.quoteStart, p.quoteEnd);
  }

  lemma CandidateFromProposal(
      batch: Batch, proposals: seq<Proposal>, page: Page, scope: string, hmac: string, i: nat)
    requires ProposalsOk(proposals, page) && batch == BatchOf(proposals, page, scope, hmac)
    requires i < |batch.candidates|
    ensures |batch.candidates| == |proposals|
    ensures ProposalOk(proposals[i], page)
    ensures batch.candidates[i] == CandidateOf(proposals[i], page)
  {
  }

  lemma AcceptedSliceReads(page: Page, conv: Conversation, scope: string, hmac: string, i: int, j: int)
    requires Accepts(page, conv, scope, hmac) && InPage(page, i, j)
    ensures var sl := page.units[i].evidence[j]; Reads(sl, conv.messages, Cursor(sl.messageIndex, sl.start))
  {
    UnitsRead(conv, scope, hmac, page.start, page.units, i, j);
  }

  /** Every candidate of a genuine batch is grounded in the conversation itself. */
  lemma CandidatesAreGrounded(batch: Batch, page: Page, conv: Conversation, scope: string, hmac: string, i: nat)
    requires Genuine(batch, page, conv, scope, hmac) && i < |batch.candidates|
    ensures Grounded(batch.candidates[i], conv.messages)
    ensures
      var c := batch.candidates[i];
      var role := conv.messages[c.messageIndex].role;
      && (c.attribution == UserReport <==> role == User)
      && (c.attribution == AssistantClaim <==> role == Assistant)
  {
    var proposals: seq<Proposal> :| ProposalsOk(proposals, page) && batch == BatchOf(proposals, page, scope, hmac);
    CandidateFromProposal(batch, proposals, page, scope, hmac, i);
    var p := proposals[i];
    AcceptedSliceReads(page, conv, scope, hmac, p.unitIndex, p.sliceIndex);
    QuoteIsGrounded(p, page, conv.messages);
    SlicesNameTheirAuthors(page, conv, scope, hmac, p.unitIndex, p.sliceIndex);
  }

  /** A candidate stands for its conversation and scope, asks only for review, and is bounded. */
  predicate Accountable(c: Candidate, conv: Conversation, scope: string, hmac: string) {
    && c.header == EvidenceCandidateV0 && c.standing == NeedsReviewNoAuthority
    && c.scope == scope && c.hmac == hmac
    && c.content == conv.content && c.revision == conv.revision
    && Presentable(c.excerpt, 4096) && Presentable(c.summary, 4096)
    && c.excerptDigest == TextDigest(c.excerpt)
    && !c.kind.OtherKind?
  }

  lemma {:induction false} UnitsStandFor(
      conv: Conversation, scope: string, hmac: string, c: Cursor, units: seq<Unit>, i: nat)
    requires WalkUnits(conv, scope, hmac, c, units).Some? && i < |units|
    ensures units[i].content == conv.content && units[i].revision == conv.revision
    ensures units[i].unitId == UnitIdOf(scope, hmac, conv.content, units[i].evidence)
  {
    if i < |units| - 1 { UnitsStandFor(conv, scope, hmac, c, units[..|units| - 1], i); }
  }

  lemma CandidatesAreAccountable(batch: Batch, page: Page, conv: Conversation, scope: string, hmac: string, i: nat)
    requires Genuine(batch, page, conv, scope, hmac) && i < |batch.candidates|
    ensures Accountable(batch.candidates[i], conv, scope, hmac)
  {
    var proposals: seq<Proposal> :| ProposalsOk(proposals, page) && batch == BatchOf(proposals, page, scope, hmac);
    CandidateFromProposal(batch, proposals, page, scope, hmac, i);
    UnitsStandFor(conv, scope, hmac, page.start, page.units, proposals[i].unitIndex);
    SafeIsPresentable(proposals[i].quote, 4096);
    SafeIsPresentable(proposals[i].summary, 4096);
  }

  /** Octets of the excerpts and of the summaries of the candidates. */
  function ExcerptTotal(candidates: seq<Candidate>): nat {
    if candidates == [] then 0
    else ExcerptTotal(candidates[..|candidates| - 1]) + Utf8Size(candidates[|candidates| - 1].excerpt)
  }

  function SummaryTotal(candidates: seq<Candidate>): nat {
    if candidates == [] then 0
    else SummaryTotal(candidates[..|candidates| - 1]) + Utf8Size(candidates[|candidates| - 1].summary)
  }

  lemma {:induction false} TotalsOfCandidates(proposals: seq<Proposal>, page: Page)
    requires forall i :: 0 <= i < |proposals| ==> ProposalOk(proposals[i], page)
    ensures ExcerptTotal(CandidatesOf(proposals, page)) == QuoteBytes(proposals)
    ensures SummaryTotal(CandidatesOf(proposals, page)) == SummaryBytes(proposals)
  {
    if proposals != [] {
      var front := proposals[..|proposals| - 1];
      TotalsOfCandidates(front, page);
      assert CandidatesOf(proposals, page)[..|front|] == CandidatesOf(front, page);
    }
  }

  /** A batch states what it carries: at most sixteen candidates, with the octets of their excerpts and summaries. */
  lemma BatchStatesItsTotals(batch: Batch, page: Page, conv: Conversation, scope: string, hmac: string)
    requires Genuine(batch, page, conv, scope, hmac)
    ensures |batch.candidates| <= 16 && batch.header == EvidenceCandidateV0 && batch.standing == NeedsReviewNoAuthority
    ensures batch.scope == scope && batch.hmac == hmac
    ensures batch.excerptBytes == ExcerptTotal(batch.candidates) <= 32768
    ensures batch.proposalBytes == SummaryTotal(batch.candidates) <= 32768
  {
    var proposals: seq<Proposal> :| ProposalsOk(proposals, page) && batch == BatchOf(proposals, page, scope, hmac);
    TotalsOfCandidates(proposals, page);
  }

  /** The anchor names the place and the quote, the identity adds what is said of it. */
  predicate NamesItself(c: Candidate) {
    && c.anchor == Anchor(
         c.scope, c.hmac, c.content, c.unitId, c.messageIndex, c.role, c.quoteStart, c.quoteEnd, TextDigest(c.excerpt))
    && c.candidateId == Identity(c.anchor, c.kind, TextDigest(c.summary))
  }

  lemma CandidateNamesItself(p: Proposal, page: Page)
    requires ProposalOk(p, page)
    ensures NamesItself(CandidateOf(p, page))
    ensures CandidateOf(p, page).scope == page.scope && CandidateOf(p, page).hmac == page.hmac
  {
  }

  lemma GenuineNamesItself(batch: Batch, page: Page, conv: Conversation, scope: string, hmac: string, i: nat)
    requires Genuine(batch, page, conv, scope, hmac) && i < |batch.candidates|
    ensures NamesItself(batch.candidates[i])
    ensures batch.candidates[i].scope == scope && batch.candidates[i].hmac == hmac
  {
    var proposals: seq<Proposal> :| ProposalsOk(proposals, page) && batch == BatchOf(proposals, page, scope, hmac);
    CandidateFromProposal(batch, proposals, page, scope, hmac, i);
    CandidateNamesItself(proposals[i], page);
  }

  /** They quote the same place of the same evidence unit. */
  predicate SamePlace(a: Candidate, b: Candidate) {
    && a.content == b.content && a.unitId == b.unitId && a.messageIndex == b.messageIndex && a.role == b.role
    && a.quoteStart == b.quoteStart && a.quoteEnd == b.quoteEnd && a.excerpt == b.excerpt
  }

  /**
   The identity of a candidate is what it claims: two candidates of genuine batches have the
   same one if and only if they quote the same place of the same evidence unit and say the
   same of it, wherever in a page they were bound.
   */
  lemma IdentityIsTheClaim(
      b1: Batch, p1: Page, i: nat, b2: Batch, p2: Page, j: nat,
      conv: Conversation, other: Conversation, scope: string, hmac: string)
    requires Genuine(b1, p1, conv, scope, hmac) && i < |b1.candidates|
    requires Genuine(b2, p2, other, scope, hmac) && j < |b2.candidates|
    ensures
      var a, b := b1.candidates[i], b2.candidates[j];
      && (a.anchor == b.anchor <==> SamePlace(a, b))
      && (a.candidateId == b.candidateId <==> SamePlace(a, b) && a.kind == b.kind && a.summary == b.summary)
  {
    GenuineNamesItself(b1, p1, conv, scope, hmac, i);
    GenuineNamesItself(b2, p2, other, scope, hmac, j);
  }

  // ----- no span is bound twice -----

  /** s ends at or before the place where t starts. */
  predicate Before(s: EvidenceSlice, t: EvidenceSlice) {
    s.messageIndex < t.messageIndex || (s.messageIndex == t.messageIndex && s.end <= t.start)
  }

  predicate NotPast(sl: EvidenceSlice, d: Cursor) {
    sl.messageIndex < d.index || (sl.messageIndex == d.index && sl.end <= d.offset)
  }

  predicate Within(sl: EvidenceSlice, c: Cursor) {
    c.index < sl.messageIndex || (c.index == sl.messageIndex && c.offset <= sl.start)
  }

  lemma {:induction false} EvidenceOrdered(messages: seq<Message>, c: Cursor, evidence: seq<EvidenceSlice>)
    requires Walk(messages, c, evidence).Some?
    ensures var d := Walk(messages, c, evidence).value;
      && (c.index < d.index || (c.index == d.index && c.offset <= d.offset))
      && (forall i :: 0 <= i < |evidence| ==> Within(evidence[i], c) && NotPast(evidence[i], d))
    ensures forall i, j :: 0 <= i < j < |evidence| ==> Before(evidence[i], evidence[j])
  {
    if evidence != [] {
      var front := evidence[..|evidence| - 1];
      EvidenceOrdered(messages, c, front);
      forall i, j | 0 <= i < j < |evidence|
        ensures Before(evidence[i], evidence[j])
      {
        assert evidence[i] == front[i];
        if j < |front| { assert evidence[j] == front[j]; }
      }
    }
  }

  predicate AllNotPast(units: seq<Unit>, d: Cursor) {
    forall u, i :: 0 <= u < |units| && 0 <= i < |units[u].evidence| ==> NotPast(units[u].evidence[i], d)
  }

  predicate AllBefore(units: seq<Unit>, v: nat)
    requires v < |units|
  {
    forall u, i, j :: 0 <= u < v && 0 <= i < |units[u].evidence| && 0 <= j < |units[v].evidence| ==>
      Before(units[u].evidence[i], units[v].evidence[j])
  }

  lemma LastIsAfter(units: seq<Unit>, b: Cursor, d: Cursor)
    requires units != [] && AllNotPast(units[..|units| - 1], b)
    requires var evidence := units[|units| - 1].evidence;
      forall i :: 0 <= i < |evidence| ==> Within(evidence[i], b) && NotPast(evidence[i], d)
    requires b.index < d.index || (b.index == d.index && b.offset <= d.offset)
    ensures AllNotPast(units, d) && AllBefore(units, |units| - 1)
  {
    var front := units[..|units| - 1];
    forall u, i | 0 <= u < |front| && 0 <= i < |units[u].evidence|
      ensures NotPast(units[u].evidence[i], b)
    {
      assert NotPast(front[u].evidence[i], b);
    }
  }

  lemma {:induction false} UnitsOrdered(
      conv: Conversation, scope: string, hmac: string, c: Cursor, units: seq<Unit>, v: nat)
    requires WalkUnits(conv, scope, hmac, c, units).Some? && v < |units|
    ensures AllNotPast(units, WalkUnits(conv, scope, hmac, c, units).value)
    ensures AllBefore(units, v)
  {
    var front, last := units[..|units| - 1], units[|units| - 1];
    var b, d := LastUnit(conv, scope, hmac, c, units);
    EvidenceOrdered(conv.messages, b, last.evidence);
    if front != [] {
      UnitsOrdered(conv, scope, hmac, c, front, if v < |front| then v else 0);
    }
    LastIsAfter(units, b, d);
    if v < |front| {
      forall u, i, j | 0 <= u < v && 0 <= i < |units[u].evidence| && 0 <= j < |units[v].evidence|
        ensures Before(units[u].evidence[i], units[v].evidence[j])
      {
        assert Before(front[u].evidence[i], front[v].evidence[j]);
      }
    }
  }

  lemma {:induction false} EvidenceOfUnit(
      conv: Conversation, scope: string, hmac: string, c: Cursor, units: seq<Unit>, u: nat) returns (at: Cursor)
    requires WalkUnits(conv, scope, hmac, c, units).Some? && u < |units|
    ensures Walk(conv.messages, at, units[u].evidence).Some?
  {
    var front := units[..|units| - 1];
    if u < |front| {
      at := EvidenceOfUnit(conv, scope, hmac, c, front, u);
    } else {
      at := WalkUnits(conv, scope, hmac, c, front).value;
    }
  }

  lemma SlicesDisjoint(
      conv: Conversation, scope: string, hmac: string, c: Cursor, units: seq<Unit>, u: nat, i: nat, v: nat, j: nat)
    requires WalkUnits(conv, scope, hmac, c, units).Some?
    requires u < |units| && i < |units[u].evidence| && v < |units| && j < |units[v].evidence|
    requires u != v || i != j
    ensures Before(units[u].evidence[i], units[v].evidence[j]) || Before(units[v].evidence[j], units[u].evidence[i])
  {
    if u == v {
      var at := EvidenceOfUnit(conv, scope, hmac, c, units, u);
      EvidenceOrdered(conv.messages, at, units[u].evidence);
    } else {
      UnitsOrdered(conv, scope, hmac, c, units, u);
      UnitsOrdered(conv, scope, hmac, c, units, v);
    }
  }

  /** No two candidates of a genuine batch rest on the same span, so their identities differ. */
  lemma CandidatesAreDistinct(
      batch: Batch, page: Page, conv: Conversation, scope: string, hmac: string, i: nat, j: nat)
    requires Genuine(batch, page, conv, scope, hmac)
    requires i < j < |batch.candidates|
    ensures batch.candidates[i].anchor != batch.candidates[j].anchor
    ensures batch.candidates[i].candidateId != batch.candidates[j].candidateId
  {
    var proposals: seq<Proposal> :| ProposalsOk(proposals, page) && batch == BatchOf(proposals, page, scope, hmac);
    BoundApart(batch, proposals, page, conv, scope, hmac, i, j);
  }

  lemma BoundApart(
      batch: Batch, proposals: seq<Proposal>, page: Page, conv: Conversation, scope: string, hmac: string, i: nat, j: nat)
    requires Accepts(page, conv, scope, hmac)
    requires ProposalsOk(proposals, page) && batch == BatchOf(proposals, page, scope, hmac)
    requires i < j < |batch.candidates|
    ensures batch.candidates[i].anchor != batch.candidates[j].anchor
    ensures batch.candidates[i].candidateId != batch.candidates[j].candidateId
  {
    CandidateFromProposal(batch, proposals, page, scope, hmac, i);
    CandidateFromProposal(batch, proposals, page, scope, hmac, j);
    ProposalsBindApart(proposals[i], proposals[j], page, conv, scope, hmac);
  }

  lemma ProposalsBindApart(p: Proposal, q: Proposal, page: Page, conv: Conversation, scope: string, hmac: string)
    requires Accepts(page, conv, scope, hmac)
    requires ProposalOk(p, page) && ProposalOk(q, page) && CoordinatesOf(p) != CoordinatesOf(q)
    ensures CandidateOf(p, page).anchor != CandidateOf(q, page).anchor
    ensures CandidateOf(p, page).candidateId != CandidateOf(q, page).candidateId
  {
    if p.unitIndex != q.unitIndex || p.sliceIndex != q.sliceIndex {
      SlicesDisjoint(conv, scope, hmac, page.start, page.units, p.unitIndex, p.sliceIndex, q.unitIndex, q.sliceIndex);
      AcceptedSliceReads(page, conv, scope, hmac, p.unitIndex, p.sliceIndex);
      AcceptedSliceReads(page, conv, scope, hmac, q.unitIndex, q.sliceIndex);
      DisjointQuotes(p, q, page);
    }
  }

  lemma DisjointQuotes(p: Proposal, q: Proposal, page: Page)
    requires ProposalOk(p, page) && ProposalOk(q, page)
    requires var s, t := page.units[p.unitIndex].evidence[p.sliceIndex], page.units[q.unitIndex].evidence[q.sliceIndex];
      && (Before(s, t) || Before(t, s))
      && |s.text| == s.end - s.start && |t.text| == t.end - t.start
    ensures CandidateOf(p, page).messageIndex != CandidateOf(q, page).messageIndex
         || CandidateOf(p, page).quoteEnd <= CandidateOf(q, page).quoteStart
         || CandidateOf(q, page).quoteEnd <= CandidateOf(p, page).quoteStart
    ensures CandidateOf(p, page).anchor != CandidateOf(q, page).anchor
  {
  }
}
