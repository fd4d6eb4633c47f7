/**
 What the fields of an accepted page mean: its neighbours, its identities, and that it
 claims no authority. All of it holds of any accepted page, whoever made it.
 */
module SourceUnits {
  import opened Utf8Text
  import opened SourceContract
  import opened SourceTheorems

  lemma {:induction false} UnitReadsAt(
      conv: Conversation, scope: string, hmac: string, start: Cursor, units: seq<Unit>, i: nat)
    returns (c: Cursor, d: Cursor)
    requires WalkUnits(conv, scope, hmac, start, units).Some? && i < |units|
    ensures UnitReads(units[i], conv, scope, hmac, c, d)
  {
    if i < |units| - 1 {
      c, d := UnitReadsAt(conv, scope, hmac, start, units[..|units| - 1], i);
    } else {
      c, d := LastUnit(conv, scope, hmac, start, units);
    }
  }

  /** A walk begins with its first slice and ends after its last. */
  lemma {:induction false} WalkEnds(messages: seq<Message>, c: Cursor, evidence: seq<EvidenceSlice>)
    requires evidence != [] && Walk(messages, c, evidence).Some?
    ensures evidence[0].messageIndex == c.index && evidence[0].start == c.offset
    ensures 0 <= evidence[|evidence| - 1].messageIndex < |messages|
    ensures Walk(messages, c, evidence).value == After(evidence[|evidence| - 1], messages)
  {
    if |evidence| > 1 { WalkEnds(messages, c, evidence[..|evidence| - 1]); }
  }

  /** The first message the reader has not been given after this slice. */
  predicate ReadsOnFrom(sl: EvidenceSlice, messages: seq<Message>, i: int)
    requires 0 <= sl.messageIndex < |messages|
  {
    i == if sl.end < |messages[sl.messageIndex].text| then sl.messageIndex else sl.messageIndex + 1
  }

  predicate NamesMessage(digest: Option<Digest>, messages: seq<Message>, i: int) {
    match digest
    case Some(value) => 0 <= i < |messages| && value == TextDigest(messages[i].text)
    case None => !(0 <= i < |messages|)
  }

  /** The unit names the message before its first slice and the one its reader goes on with, if there are any. */
  ghost predicate NamesItsNeighbours(u: Unit, messages: seq<Message>) {
    && u.evidence != []
    && var first, last := u.evidence[0], u.evidence[|u.evidence| - 1];
    && NamesMessage(u.previous, messages, first.messageIndex - 1)
    && 0 <= last.messageIndex < |messages|
    && exists next :: ReadsOnFrom(last, messages, next) && NamesMessage(u.following, messages, next)
  }

  lemma ReadUnitNamesItsNeighbours(u: Unit, conv: Conversation, scope: string, hmac: string, c: Cursor, d: Cursor)
    requires ValidConversation(conv) && UnitReads(u, conv, scope, hmac, c, d)
    ensures NamesItsNeighbours(u, conv.messages)
  {
    WalkEnds(conv.messages, c, u.evidence);
    assert forall k :: 0 <= k < |conv.messages| ==> MessageSound(conv.messages[k]);
    assert ReadsOnFrom(u.evidence[|u.evidence| - 1], conv.messages, d.index);
  }

  lemma UnitNeighbours(page: Page, conv: Conversation, scope: string, hmac: string, i: nat)
    requires Accepts(page, conv, scope, hmac) && i < |page.units|
    ensures NamesItsNeighbours(page.units[i], conv.messages)
  {
    var c, d := UnitReadsAt(conv, scope, hmac, page.start, page.units, i);
    ReadUnitNamesItsNeighbours(page.units[i], conv, scope, hmac, c, d);
  }

  /** The slice as a reader sees it, apart from the opaque identifiers of its message. */
  predicate SameReading(a: EvidenceSlice, b: EvidenceSlice) {
    && a.messageIndex == b.messageIndex && a.role == b.role
    && a.start == b.start && a.end == b.end && a.text == b.text
  }

  lemma {:induction false} WalkedSlicesDigest(messages: seq<Message>, c: Cursor, evidence: seq<EvidenceSlice>, k: nat)
    requires Walk(messages, c, evidence).Some? && k < |evidence|
    ensures evidence[k].textDigest == TextDigest(evidence[k].text)
  {
    if k < |evidence| - 1 { WalkedSlicesDigest(messages, c, evidence[..|evidence| - 1], k); }
  }

  lemma SpansAreReadings(a: seq<EvidenceSlice>, b: seq<EvidenceSlice>)
    requires forall k :: 0 <= k < |a| ==> a[k].textDigest == TextDigest(a[k].text)
    requires forall k :: 0 <= k < |b| ==> b[k].textDigest == TextDigest(b[k].text)
    ensures SpansOf(a) == SpansOf(b) <==> |a| == |b| && forall k :: 0 <= k < |a| ==> SameReading(a[k], b[k])
  {
    if SpansOf(a) == SpansOf(b) {
      assert |a| == |SpansOf(a)| == |SpansOf(b)| == |b|;
      forall k | 0 <= k < |a|
        ensures SameReading(a[k], b[k])
      {
        assert SpansOf(a)[k] == SpansOf(b)[k];
      }
    }
  }

  /**
   The identity of a unit is its conversation and what is read in it: units of two accepted
   pages have the same identity if and only if they show the same text at the same places of
   the same content, whatever the opaque identifiers of nodes and messages are.
   */
  lemma UnitIdIsItsReading(
      p: Page, i: nat, conv: Conversation, q: Page, j: nat, other: Conversation, scope: string, hmac: string)
    requires Accepts(p, conv, scope, hmac) && i < |p.units|
    requires Accepts(q, other, scope, hmac) && j < |q.units|
    ensures
      var u, v := p.units[i], q.units[j];
      u.unitId == v.unitId <==>
        && conv.content == other.content
        && |u.evidence| == |v.evidence|
        && forall k :: 0 <= k < |u.evidence| ==> SameReading(u.evidence[k], v.evidence[k])
  {
    var c, d := UnitReadsAt(conv, scope, hmac, p.start, p.units, i);
    var c2, d2 := UnitReadsAt(other, scope, hmac, q.start, q.units, j);
    var a, b := p.units[i].evidence, q.units[j].evidence;
    forall k | 0 <= k < |a|
      ensures a[k].textDigest == TextDigest(a[k].text)
    {
      WalkedSlicesDigest(conv.messages, c, a, k);
    }
    forall k | 0 <= k < |b|
      ensures b[k].textDigest == TextDigest(b[k].text)
    {
      WalkedSlicesDigest(other.messages, c2, b, k);
    }
    SpansAreReadings(a, b);
  }

  /** What a valid conversation may be relied on for: known authors and kinds, named and readable messages, bounded text. */
  lemma ValidIsReadable(conv: Conversation, i: nat)
    requires ValidConversation(conv)
    ensures conv.conversationId != "" && |conv.messages| <= 500_000 && TextBytes(conv.messages) <= 24 * 1024 * 1024
    ensures i < |conv.messages| ==>
      var m := conv.messages[i];
      && m.role in {User, Assistant} && m.contentType in {PlainText, Multimodal}
      && m.nodeId != "" && m.messageId != "" && m.text != []
      && Encodable(m.text) && Utf8Size(m.text) <= 128 * 1024 && m.textDigest == TextDigest(m.text)
  {
    assert i < |conv.messages| ==> MessageSound(conv.messages[i]);
  }

  /** The content of two valid conversations has one digest exactly when they say the same in the same roles and kinds. */
  lemma ContentIsWhatIsSaid(a: Conversation, b: Conversation)
    requires ValidConversation(a) && ValidConversation(b)
    ensures a.content == b.content <==>
      && a.conversationId == b.conversationId && |a.messages| == |b.messages|
      && forall k :: 0 <= k < |a.messages| ==>
           && a.messages[k].role == b.messages[k].role && a.messages[k].contentType == b.messages[k].contentType
           && a.messages[k].text == b.messages[k].text
  {
    assert forall k :: 0 <= k < |a.messages| ==> MessageSound(a.messages[k]);
    assert forall k :: 0 <= k < |b.messages| ==> MessageSound(b.messages[k]);
    if PathOf(a.messages) == PathOf(b.messages) {
      assert |a.messages| == |PathOf(a.messages)| == |PathOf(b.messages)| == |b.messages|;
      forall k | 0 <= k < |a.messages|
        ensures a.messages[k].role == b.messages[k].role && a.messages[k].contentType == b.messages[k].contentType
        ensures a.messages[k].textDigest == b.messages[k].textDigest
      {
        assert PathOf(a.messages)[k] == PathOf(b.messages)[k];
      }
    }
  }

  /** Nothing on an accepted page is authorised for anything, and all of it is marked as untrusted external source. */
  lemma PageClaimsNothing(page: Page, conv: Conversation, scope: string, hmac: string, i: nat)
    requires Accepts(page, conv, scope, hmac)
    ensures !page.authorized && page.header == ExternalSourceV0 && page.scope == scope && page.hmac == hmac
    ensures page.coverage == conv.coverage
    ensures i < |page.units| ==>
      var u := page.units[i];
      && !u.authorized && u.header == ExternalSourceV0 && u.scope == scope && u.hmac == hmac
      && u.content == conv.content && u.revision == conv.revision
      && u.contextBytes == Utf8Size(TextOf(EvidenceGlyphs(u.evidence)))
  {
    if i < |page.units| {
      var c, d := UnitReadsAt(conv, scope, hmac, page.start, page.units, i);
      EvidenceBytesAreText(page.units[i].evidence);
    }
  }
}
