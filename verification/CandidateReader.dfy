/**
 Binding untrusted proposals to a page, and checking a batch by rebuilding it.
 */
module CandidateReader {
  import opened Utf8Text
  import opened SourceContract
  import opened SourceChecker
  import opened CandidateContract

  datatype CandidateError =
    | SourceRefused(error: SourceError)
    | BatchLimit | DuplicateEvidence | ContractMismatch | AuthorityForbidden | EvidenceMismatch
    | ProposalUnit | ProposalSlice | ProposalSpan | ExcerptLimit | QuoteMismatch | SummaryInvalid | KindInvalid

  datatype Built = Built(batch: Batch) | Failed(error: CandidateError)

  /** What each refusal says is wrong with a proposal. */
  predicate ProposalFault(error: CandidateError, p: Proposal, page: Page) {
    match error
    case ProposalUnit => !(0 <= p.unitIndex < |page.units|)
    case ProposalSlice => 0 <= p.unitIndex < |page.units| && !InPage(page, p.unitIndex, p.sliceIndex)
    case ProposalSpan =>
      && InPage(page, p.unitIndex, p.sliceIndex)
      && !(0 <= p.quoteStart < p.quoteEnd <= |page.units[p.unitIndex].evidence[p.sliceIndex].text|)
    case ExcerptLimit =>
      || !Presentable(p.quote, 4096)
      || (InPage(page, p.unitIndex, p.sliceIndex)
          && var text := page.units[p.unitIndex].evidence[p.sliceIndex].text;
             0 <= p.quoteStart < p.quoteEnd <= |text| && !Presentable(text[p.quoteStart..p.quoteEnd], 4096))
    case QuoteMismatch =>
      && InPage(page, p.unitIndex, p.sliceIndex)
      && var text := page.units[p.unitIndex].evidence[p.sliceIndex].text;
         0 <= p.quoteStart < p.quoteEnd <= |text| && p.quote != text[p.quoteStart..p.quoteEnd]
    case SummaryInvalid => !Presentable(p.summary, 4096)
    case KindInvalid => p.kind.OtherKind?
    case _ => false
  }

  /** Why one proposal cannot be bound; checked in this order. */
  method SafeProposal(p: Proposal, page: Page) returns (fault: Option<CandidateError>)
    ensures fault.None? <==> ProposalOk(p, page)
    ensures fault.Some? ==> ProposalFault(fault.value, p, page)
  {
    if p.unitIndex < 0 || p.unitIndex >= |page.units| { return Some(ProposalUnit); }
    var u := page.units[p.unitIndex];
    if p.sliceIndex < 0 || p.sliceIndex >= |u.evidence| { return Some(ProposalSlice); }
    var text := u.evidence[p.sliceIndex].text;
    if !(0 <= p.quoteStart < p.quoteEnd <= |text|) { return Some(ProposalSpan); }
    var excerpt := text[p.quoteStart..p.quoteEnd];
    SafeIsPresentable(excerpt, MAX_EXCERPT_BYTES);
    SafeIsPresentable(p.quote, MAX_EXCERPT_BYTES);
    SafeIsPresentable(p.summary, MAX_PROPOSAL_BYTES);
    if !SafeText(excerpt, MAX_EXCERPT_BYTES) || !SafeText(p.quote, MAX_EXCERPT_BYTES) { return Some(ExcerptLimit); }
    if excerpt != p.quote { return Some(QuoteMismatch); }
    if !SafeText(p.summary, MAX_PROPOSAL_BYTES) { return Some(SummaryInvalid); }
    if p.kind.OtherKind? { return Some(KindInvalid); }
    return None;
  }

  lemma {:induction false} TotalsGrow(proposals: seq<Proposal>, i: nat)
    requires i <= |proposals|
    ensures QuoteBytes(proposals[..i]) <= QuoteBytes(proposals)
    ensures SummaryBytes(proposals[..i]) <= SummaryBytes(proposals)
  {
    if i == |proposals| {
      assert proposals[..i] == proposals;
    } else {
      TotalsGrow(proposals[..|proposals| - 1], i);
      assert proposals[..|proposals| - 1][..i] == proposals[..i];
    }
  }

  lemma TotalsStep(proposals: seq<Proposal>, i: nat)
    requires i < |proposals|
    ensures QuoteBytes(proposals[..i + 1]) == QuoteBytes(proposals[..i]) + Utf8Size(proposals[i].quote)
    ensures SummaryBytes(proposals[..i + 1]) == SummaryBytes(proposals[..i]) + Utf8Size(proposals[i].summary)
  {
    assert proposals[..i + 1][..i] == proposals[..i];
  }

  predicate DistinctBelow(proposals: seq<Proposal>, n: nat)
    requires n <= |proposals|
  {
    forall i, j :: 0 <= i < j < n ==> CoordinatesOf(proposals[i]) != CoordinatesOf(proposals[j])
  }

  predicate SeenBelow(seen: set<Coordinates>, proposals: seq<Proposal>, n: nat)
    requires n <= |proposals|
  {
    && (forall k :: 0 <= k < n ==> CoordinatesOf(proposals[k]) in seen)
    && forall key :: key in seen ==> exists k :: 0 <= k < n && CoordinatesOf(proposals[k]) == key
  }

  lemma SeenGrows(seen: set<Coordinates>, proposals: seq<Proposal>, i: nat)
    requires i < |proposals| && SeenBelow(seen, proposals, i) && DistinctBelow(proposals, i)
    requires CoordinatesOf(proposals[i]) !in seen
    ensures SeenBelow(seen + {CoordinatesOf(proposals[i])}, proposals, i + 1)
    ensures DistinctBelow(proposals, i + 1)
  {
    forall j, k | 0 <= j < k < i + 1
      ensures CoordinatesOf(proposals[j]) != CoordinatesOf(proposals[k])
    {
      if k == i { assert CoordinatesOf(proposals[j]) in seen; }
    }
  }

  lemma RepeatIsRefused(seen: set<Coordinates>, proposals: seq<Proposal>, i: nat)
    requires i < |proposals| && SeenBelow(seen, proposals, i)
    requires CoordinatesOf(proposals[i]) in seen
    ensures !DistinctProposals(proposals)
  {
  }

  predicate BoundBelow(proposals: seq<Proposal>, page: Page, n: nat)
    requires n <= |proposals|
  {
    forall k :: 0 <= k < n ==> ProposalOk(proposals[k], page)
  }

  predicate Bindings(out: seq<Candidate>, proposals: seq<Proposal>, page: Page, n: nat)
    requires n <= |proposals| && BoundBelow(proposals, page, n)
  {
    |out| == n && forall k :: 0 <= k < n ==> out[k] == CandidateOf(proposals[k], page)
  }

  lemma BindingsGrow(out: seq<Candidate>, proposals: seq<Proposal>, page: Page, n: nat)
    requires n < |proposals| && BoundBelow(proposals, page, n) && Bindings(out, proposals, page, n)
    requires ProposalOk(proposals[n], page)
    ensures BoundBelow(proposals, page, n + 1)
    ensures Bindings(out + [CandidateOf(proposals[n], page)], proposals, page, n + 1)
  {
  }

  lemma BindingsAreAll(out: seq<Candidate>, proposals: seq<Proposal>, page: Page)
    requires BoundBelow(proposals, page, |proposals|) && Bindings(out, proposals, page, |proposals|)
    ensures out == CandidatesOf(proposals, page)
  {
  }

  /** Everything the loop knows after n proposals. */
  predicate BoundSoFar(
      out: seq<Candidate>, quoted: nat, summarised: nat, seen: set<Coordinates>, proposals: seq<Proposal>, page: Page, n: nat)
    requires n <= |proposals|
  {
    && BoundBelow(proposals, page, n) && Bindings(out, proposals, page, n)
    && SeenBelow(seen, proposals, n) && DistinctBelow(proposals, n)
    && quoted == QuoteBytes(proposals[..n]) <= MAX_TOTAL_PROPOSAL_BYTES
    && summarised == SummaryBytes(proposals[..n]) <= MAX_TOTAL_PROPOSAL_BYTES
  }

  lemma BoundGrows(
      out: seq<Candidate>, quoted: nat, summarised: nat, seen: set<Coordinates>, proposals: seq<Proposal>, page: Page, n: nat)
    requires n < |proposals| && BoundSoFar(out, quoted, summarised, seen, proposals, page, n)
    requires ProposalOk(proposals[n], page) && CoordinatesOf(proposals[n]) !in seen
    requires quoted + Utf8Size(proposals[n].quote) <= MAX_TOTAL_PROPOSAL_BYTES
    requires summarised + Utf8Size(proposals[n].summary) <= MAX_TOTAL_PROPOSAL_BYTES
    ensures var p := proposals[n];
      BoundSoFar(out + [CandidateOf(p, page)], quoted + Utf8Size(p.quote), summarised + Utf8Size(p.summary),
        seen + {CoordinatesOf(p)}, proposals, page, n + 1)
  {
    TotalsStep(proposals, n);
    SeenGrows(seen, proposals, n);
    BindingsGrow(out, proposals, page, n);
  }

  /** Whatever stops the loop is something no legal list of proposals has. */
  lemma StoppedIsRefused(
      out: seq<Candidate>, quoted: nat, summarised: nat, seen: set<Coordinates>, proposals: seq<Proposal>, page: Page, n: nat)
    requires n < |proposals| && BoundSoFar(out, quoted, summarised, seen, proposals, page, n)
    ensures ProposalsOk(proposals, page) ==>
      && ProposalOk(proposals[n], page) && CoordinatesOf(proposals[n]) !in seen
      && quoted + Utf8Size(proposals[n].quote) <= MAX_TOTAL_PROPOSAL_BYTES
      && summarised + Utf8Size(proposals[n].summary) <= MAX_TOTAL_PROPOSAL_BYTES
  {
    TotalsStep(proposals, n);
    TotalsGrow(proposals, n + 1);
    if CoordinatesOf(proposals[n]) in seen { RepeatIsRefused(seen, proposals, n); }
  }

  /** One proposal in its turn: legal, its coordinates new, and within both totals. */
  method CheckProposal(p: Proposal, page: Page, seen: set<Coordinates>, quoted: nat, summarised: nat)
    returns (fault: Option<CandidateError>)
    ensures fault.None? <==>
      && ProposalOk(p, page) && CoordinatesOf(p) !in seen
      && quoted + Utf8Size(p.quote) <= MAX_TOTAL_PROPOSAL_BYTES
      && summarised + Utf8Size(p.summary) <= MAX_TOTAL_PROPOSAL_BYTES
  {
    fault := SafeProposal(p, page);
    if fault.Some? { return; }
    if CoordinatesOf(p) in seen { return Some(DuplicateEvidence); }
    if quoted + Utf8Size(p.quote) > MAX_TOTAL_PROPOSAL_BYTES
      || summarised + Utf8Size(p.summary) > MAX_TOTAL_PROPOSAL_BYTES
    {
      return Some(BatchLimit);
    }
  }

  /** The loop over the proposals: each bound in turn, repeated coordinates and the running totals refused. */
  method BindProposals(page: Page, proposals: seq<Proposal>)
    returns (fault: Option<CandidateError>, out: seq<Candidate>, quoted: nat, summarised: nat)
    ensures fault.None? ==> exists seen :: BoundSoFar(out, quoted, summarised, seen, proposals, page, |proposals|)
    ensures fault.Some? ==> !ProposalsOk(proposals, page)
  {
    out, quoted, summarised := [], 0, 0;
    var seen: set<Coordinates> := {};
    for i := 0 to |proposals|
      invariant BoundSoFar(out, quoted, summarised, seen, proposals, page, i)
    {
      var p := proposals[i];
      StoppedIsRefused(out, quoted, summarised, seen, proposals, page, i);
      fault := CheckProposal(p, page, seen, quoted, summarised);
      if fault.Some? { return; }
      BoundGrows(out, quoted, summarised, seen, proposals, page, i);
      seen, quoted, summarised := seen + {CoordinatesOf(p)}, quoted + Utf8Size(p.quote), summarised + Utf8Size(p.summary);
      out := out + [CandidateOf(p, page)];
    }
    fault := None;
  }

  lemma AllBound(
      out: seq<Candidate>, quoted: nat, summarised: nat, seen: set<Coordinates>, proposals: seq<Proposal>, page: Page)
    requires |proposals| <= MAX_CANDIDATES_PER_PAGE
    requires BoundSoFar(out, quoted, summarised, seen, proposals, page, |proposals|)
    ensures ProposalsOk(proposals, page)
    ensures out == CandidatesOf(proposals, page)
    ensures quoted == QuoteBytes(proposals) && summarised == SummaryBytes(proposals)
  {
    assert proposals[..|proposals|] == proposals;
    BindingsAreAll(out, proposals, page);
  }

  /** A batch is built exactly from legal proposals on an accepted page. */
  method BuildCandidateBatch(page: Page, conv: Conversation, scope: string, hmac: string, proposals: seq<Proposal>)
    returns (r: Built)
    ensures r.Built? <==> Accepts(page, conv, scope, hmac) && ProposalsOk(proposals, page)
    ensures r.Built? ==> r.batch == BatchOf(proposals, page, scope, hmac)
    ensures r.Built? ==> Genuine(r.batch, page, conv, scope, hmac)
  {
    var source := ValidateSourceContextPage(page, conv, scope, hmac);
    if source.Some? { return Failed(SourceRefused(source.value)); }
    if |proposals| > MAX_CANDIDATES_PER_PAGE { return Failed(BatchLimit); }
    var fault, out, quoted, summarised := BindProposals(page, proposals);
    if fault.Some? { return Failed(fault.value); }
    ghost var seen :| BoundSoFar(out, quoted, summarised, seen, proposals, page, |proposals|);
    AllBound(out, quoted, summarised, seen, proposals, page);
    r := Built(Batch(EvidenceCandidateV0, scope, hmac, out, quoted, summarised, NeedsReviewNoAuthority));
  }

  /** The indices a batch must have right before its candidates can be read back as proposals. */
  predicate Legible(batch: Batch, page: Page) {
    forall i :: 0 <= i < |batch.candidates| ==> InPage(page, batch.candidates[i].unitIndex, batch.candidates[i].sliceIndex)
  }

  function ProposalsOf(batch: Batch, page: Page): seq<Proposal>
    requires Legible(batch, page)
  {
    seq(|batch.candidates|, i requires 0 <= i < |batch.candidates| => ProposalOf(batch.candidates[i], page))
  }

  /** Reading a built batch back gives the proposals it was built from. */
  lemma BatchNamesItsProposals(proposals: seq<Proposal>, page: Page, scope: string, hmac: string)
    requires ProposalsOk(proposals, page)
    ensures Legible(BatchOf(proposals, page, scope, hmac), page)
    ensures ProposalsOf(BatchOf(proposals, page, scope, hmac), page) == proposals
  {
    var batch := BatchOf(proposals, page, scope, hmac);
    forall i | 0 <= i < |proposals|
      ensures InPage(page, batch.candidates[i].unitIndex, batch.candidates[i].sliceIndex)
      ensures ProposalOf(batch.candidates[i], page) == proposals[i]
    {
      CandidateNamesItsProposal(proposals[i], page);
    }
  }

  lemma BuiltIsLegible(batch: Batch, proposals: seq<Proposal>, page: Page, scope: string, hmac: string)
    requires ProposalsOk(proposals, page) && batch == BatchOf(proposals, page, scope, hmac)
    ensures Legible(batch, page) && Unpromoted(batch)
    ensures ProposalsOf(batch, page) == proposals
  {
    BatchNamesItsProposals(proposals, page, scope, hmac);
  }

  predicate Unpromoted(batch: Batch) {
    forall i :: 0 <= i < |batch.candidates| ==> batch.candidates[i].standing == NeedsReviewNoAuthority
  }

  /** A genuine batch has one origin, which can be read off the batch itself. */
  lemma GenuineHasOneOrigin(batch: Batch, page: Page, conv: Conversation, scope: string, hmac: string)
    requires Genuine(batch, page, conv, scope, hmac)
    ensures Legible(batch, page) && Unpromoted(batch)
    ensures ProposalsOk(ProposalsOf(batch, page), page)
    ensures batch == BatchOf(ProposalsOf(batch, page), page, scope, hmac)
  {
    var proposals: seq<Proposal> :| ProposalsOk(proposals, page) && batch == BatchOf(proposals, page, scope, hmac);
    BuiltIsLegible(batch, proposals, page, scope, hmac);
  }

  method ReadBack(batch: Batch, page: Page) returns (fault: Option<CandidateError>, proposals: seq<Proposal>)
    ensures fault.None? <==> Unpromoted(batch) && Legible(batch, page)
    ensures fault.None? ==> proposals == ProposalsOf(batch, page)
  {
    proposals := [];
    for i := 0 to |batch.candidates|
      invariant forall k :: 0 <= k < i ==> batch.candidates[k].standing == NeedsReviewNoAuthority
      invariant forall k :: 0 <= k < i ==> InPage(page, batch.candidates[k].unitIndex, batch.candidates[k].sliceIndex)
      invariant |proposals| == i && forall k :: 0 <= k < i ==> proposals[k] == ProposalOf(batch.candidates[k], page)
    {
      var c := batch.candidates[i];
      if c.standing != NeedsReviewNoAuthority { return Some(AuthorityForbidden), proposals; }
      if !(0 <= c.unitIndex < |page.units|) { return Some(ProposalUnit), proposals; }
      if !(0 <= c.sliceIndex < |page.units[c.unitIndex].evidence|) { return Some(ProposalSlice), proposals; }
      proposals := proposals + [ProposalOf(c, page)];
    }
    fault := None;
  }

  /**
   A batch passes exactly when it is genuine: every built batch passes unchanged, and
   nothing else does.
   */
  method ValidateCandidateBatch(batch: Batch, page: Page, conv: Conversation, scope: string, hmac: string)
    returns (fault: Option<CandidateError>)
    ensures fault.None? <==> Genuine(batch, page, conv, scope, hmac)
  {
    if Genuine(batch, page, conv, scope, hmac) { GenuineHasOneOrigin(batch, page, conv, scope, hmac); }
    if batch.header != EvidenceCandidateV0 || batch.scope != scope || batch.hmac != hmac { return Some(ContractMismatch); }
    if batch.standing != NeedsReviewNoAuthority { return Some(AuthorityForbidden); }
    if |batch.candidates| > MAX_CANDIDATES_PER_PAGE { return Some(BatchLimit); }
    if batch.excerptBytes < 0 || batch.proposalBytes < 0
      || batch.excerptBytes > MAX_TOTAL_PROPOSAL_BYTES || batch.proposalBytes > MAX_TOTAL_PROPOSAL_BYTES
    {
      return Some(BatchLimit);
    }
    var proposals;
    fault, proposals := ReadBack(batch, page);
    if fault.Some? { return; }
    var expected := BuildCandidateBatch(page, conv, scope, hmac, proposals);
    if expected.Failed? { return Some(expected.error); }
    if batch != expected.batch { return Some(EvidenceMismatch); }
  }
}
