/**
 Reducing an exported conversation to the visible messages of its selected branch, and a
 whole export to a batch of such conversations. Everything a batch contains is a valid
 source conversation.
 */
module ExportNormalize {
  import opened Utf8Text
  import opened SourceContract
  import opened BranchSelection

  /**
   `restEncodes` says whether everything in the exported object other than message parts,
   identifiers and titles included, can be encoded for the revision digest.
   */
  datatype RawConversation = RawConversation(
    id: RawText, conversationId: RawText, mappingOk: bool, mapping: Mapping, current: RawText, restEncodes: bool,
    revision: nat)

  /** One entry of the export's list. */
  datatype Item = EmptySlot | NotAConversation | Item(raw: RawConversation)

  datatype Limits = Limits(conversations: nat, nodes: nat)

  datatype NormalizeError =
    | InvalidConversation | InvalidConversationId | ConversationIdMismatch | InvalidMapping | BranchError(error: PathError)
    | InvalidSelectedMessage | InvalidMessageId | InvalidAuthor | UnknownRole | InvalidMetadata | InvalidVisibility
    | InvalidRecipient | InvalidChannel | InvalidTimestamp | DuplicateSelectedId | Unreadable
    | ConversationLimit | NodeLimit | DuplicateConversation | SelectedTextLimit

  datatype Selection = Keep(message: Message) | Omit(reason: Reason) | Bad(error: NormalizeError)

  predicate IdOk(id: RawText) {
    id.RawText? && Identifier(id.value)
  }

  predicate TextOrNone(t: RawText) {
    t == Absent || t == Null || t.RawText?
  }

  function Join(parts: seq<Text>): Text {
    if parts == [] then [] else if |parts| == 1 then parts[0] else parts[0] + [0x0A] + Join(parts[1..])
  }

  lemma {:induction false} JoinedIsNonempty(parts: seq<Text>, i: nat)
    requires i < |parts| && parts[i] != []
    ensures Join(parts) != []
  {
    if i > 0 { JoinedIsNonempty(parts[1..], i - 1); }
  }

  /** Where part i begins in the joined text: after the parts before it, and one line feed for each. */
  function Offset(parts: seq<Text>, i: nat): nat
    requires i <= |parts|
  {
    if i == 0 then 0 else Offset(parts, i - 1) + |parts[i - 1]| + 1
  }

  /** Part i stands whole at its place, after a line feed unless it is the first. */
  predicate PartStands(text: Text, parts: seq<Text>, i: nat)
    requires i < |parts|
  {
    var from := Offset(parts, i);
    && from + |parts[i]| <= |text|
    && text[from..from + |parts[i]|] == parts[i]
    && (i > 0 ==> from > 0 && text[from - 1] == 0x0A)
  }

  /** The parts whole and in order, one line feed between neighbours, and nothing else. */
  predicate Consists(text: Text, parts: seq<Text>) {
    |text| + 1 == Offset(parts, |parts|) && forall i :: 0 <= i < |parts| ==> PartStands(text, parts, i)
  }

  lemma {:induction false} OffsetLater(parts: seq<Text>, i: nat)
    requires 0 < i <= |parts|
    ensures Offset(parts, i) == |parts[0]| + 1 + Offset(parts[1..], i - 1)
  {
    if i > 1 { OffsetLater(parts, i - 1); }
  }

  lemma PartStandsLater(first: Text, tail: Text, parts: seq<Text>, i: nat)
    requires 0 < i < |parts| && |first| == |parts[0]| + 1 && first[|parts[0]|] == 0x0A
    requires PartStands(tail, parts[1..], i - 1)
    ensures PartStands(first + tail, parts, i)
  {
    OffsetLater(parts, i);
    var text, from := first + tail, Offset(parts[1..], i - 1);
    assert parts[1..][i - 1] == parts[i];
    assert text[|first| + from..|first| + from + |parts[i]|] == tail[from..from + |parts[i]|];
    if i == 1 {
      assert text[|first| - 1] == first[|parts[0]|];
    } else {
      assert text[|first| + from - 1] == tail[from - 1];
    }
  }

  lemma FirstStands(tail: Text, parts: seq<Text>)
    requires parts != []
    ensures PartStands(parts[0] + tail, parts, 0)
  {
    assert Offset(parts, 0) == 0;
  }

  /** The joined text can be taken apart again: each part stands where it should, and nothing else is there. */
  lemma {:induction false} JoinConsists(parts: seq<Text>)
    requires parts != []
    ensures Consists(Join(parts), parts)
  {
    if |parts| == 1 {
      assert Offset(parts, 1) == Offset(parts, 0) + |parts[0]| + 1;
      assert parts[0] + [] == Join(parts);
      FirstStands([], parts);
    } else {
      var tail, first := Join(parts[1..]), parts[0] + [0x0A];
      JoinConsists(parts[1..]);
      assert Join(parts) == first + tail == parts[0] + ([0x0A] + tail);
      OffsetLater(parts, |parts|);
      FirstStands([0x0A] + tail, parts);
      forall i | 0 < i < |parts|
        ensures PartStands(Join(parts), parts, i)
      {
        assert PartStands(tail, parts[1..], i - 1);
        PartStandsLater(first, tail, parts, i);
      }
    }
  }

  /** What becomes of one node of the selected branch; the checks are made in this order. */
  function SelectMessage(nodeId: string, raw: RawMessage): Selection {
    if raw.NoMessage? then Omit(Placeholder)
    else if raw.MessageInvalid? then Bad(InvalidSelectedMessage)
    else if !IdOk(raw.id) then Bad(InvalidMessageId)
    else if raw.author.AuthorInvalid? then Bad(InvalidAuthor)
    else if raw.author.RoleUnknown? then Bad(UnknownRole)
    else if raw.author.RoleOther? then Omit(NonconversationRole)
    else if raw.visibility.MetadataInvalid? then Bad(InvalidMetadata)
    else if raw.visibility.FlagInvalid? then Bad(InvalidVisibility)
    else if raw.visibility.Hidden? then Omit(HiddenMessage)
    else if !TextOrNone(raw.recipient) then Bad(InvalidRecipient)
    else if !TextOrNone(raw.channel) then Bad(InvalidChannel)
    else if raw.author.RoleAssistant? && !Final(raw) then Omit(NonfinalAssistant)
    else SelectContent(nodeId, raw)
  }

  predicate Final(raw: RawMessage)
    requires raw.RawMessage?
  {
    && (!raw.recipient.RawText? || raw.recipient.value == "all")
    && (!raw.channel.RawText? || raw.channel.value == "final")
  }

  function SelectContent(nodeId: string, raw: RawMessage): Selection
    requires raw.RawMessage? && raw.id.RawText? && (raw.author.RoleUser? || raw.author.RoleAssistant?)
  {
    if raw.content.ContentInvalid? then Omit(UnsupportedContent)
    else if raw.content.kind.TypeInternal? then
      Omit(if raw.author.RoleAssistant? then InternalReasoning else UnsupportedContent)
    else if raw.content.kind.TypeOther? then Omit(UnsupportedContent)
    else if raw.content.parts.PartsInvalid? then Omit(NontextParts)
    else if forall i :: 0 <= i < |raw.content.parts.parts| ==> raw.content.parts.parts[i] == [] then Omit(EmptyText)
    else
      var text := Join(raw.content.parts.parts);
      if !Encodable(text) then Bad(Unreadable)
      else if Utf8Size(text) > MAX_MESSAGE_BYTES then Omit(OversizeText)
      else if !raw.createTimeOk then Bad(InvalidTimestamp)
      else Keep(Message(
        nodeId, raw.id.value, if raw.author.RoleUser? then User else Assistant,
        if raw.content.kind.TypePlain? then PlainText else Multimodal, text, TextDigest(text)))
  }

  /** A message that is kept is sound, and comes from the node it names. */
  lemma KeptIsSound(nodeId: string, raw: RawMessage)
    requires SelectMessage(nodeId, raw).Keep? && nodeId != ""
    ensures var m := SelectMessage(nodeId, raw).message;
      MessageSound(m) && m.nodeId == nodeId && raw.RawMessage? && raw.id == RawText(m.messageId)
  {
    var parts := raw.content.parts.parts;
    var i :| 0 <= i < |parts| && parts[i] != [];
    JoinedIsNonempty(parts, i);
  }

  /** What a user or the final answer of an assistant says in plain sight, and can be stored. */
  predicate Showable(raw: RawMessage) {
    && raw.RawMessage? && IdOk(raw.id)
    && raw.visibility.Visible?
    && (raw.author.RoleUser? || (raw.author.RoleAssistant? && Final(raw)))
    && TextOrNone(raw.recipient) && TextOrNone(raw.channel)
    && raw.content.RawContent? && (raw.content.kind.TypePlain? || raw.content.kind.TypeMultimodal?)
    && raw.content.parts.Parts?
    && var text := Join(raw.content.parts.parts);
    && (exists i :: 0 <= i < |raw.content.parts.parts| && raw.content.parts.parts[i] != [])
    && Encodable(text) && Utf8Size(text) <= MAX_MESSAGE_BYTES
    && raw.createTimeOk
  }

  /** Exactly the showable messages are kept, each with its own text and under its own author. */
  lemma KeptExactlyWhenShowable(nodeId: string, raw: RawMessage)
    ensures SelectMessage(nodeId, raw).Keep? <==> Showable(raw)
  {
  }

  lemma KeptAsShown(nodeId: string, raw: RawMessage)
    requires Showable(raw) && SelectMessage(nodeId, raw).Keep?
    ensures ShownAs(SelectMessage(nodeId, raw).message, nodeId, raw)
  {
    JoinConsists(raw.content.parts.parts);
  }

  /** The message says what the node says, under the node's author and identifiers. */
  predicate ShownAs(m: Message, nodeId: string, raw: RawMessage)
    requires Showable(raw)
  {
    && m.nodeId == nodeId && m.messageId == raw.id.value
    && Consists(m.text, raw.content.parts.parts) && m.textDigest == TextDigest(m.text)
    && m.role == (if raw.author.RoleUser? then User else Assistant)
    && m.contentType == (if raw.content.kind.TypePlain? then PlainText else Multimodal)
  }

  /** Why a message is not kept, each reason read off the node alone. */
  ghost predicate Applies(verdict: Selection, raw: RawMessage) {
    match verdict
    case Keep(_) => Showable(raw)
    case Omit(reason) => Unwanted(reason, raw)
    case Bad(error) => Faulted(error, raw)
  }

  ghost predicate Unwanted(reason: Reason, raw: RawMessage) {
    match reason
    case Placeholder => raw.NoMessage?
    case NonconversationRole => raw.RawMessage? && raw.author.RoleOther?
    case HiddenMessage => raw.RawMessage? && raw.visibility.Hidden?
    case NonfinalAssistant =>
      && raw.RawMessage? && raw.author.RoleAssistant?
      && ((raw.recipient.RawText? && raw.recipient.value != "all") || (raw.channel.RawText? && raw.channel.value != "final"))
    case UnsupportedContent =>
      && raw.RawMessage?
      && (raw.content.ContentInvalid? || raw.content.kind.TypeOther?
          || (raw.content.kind.TypeInternal? && raw.author.RoleUser?))
    case InternalReasoning =>
      raw.RawMessage? && raw.content.RawContent? && raw.content.kind.TypeInternal? && raw.author.RoleAssistant?
    case NontextParts => raw.RawMessage? && raw.content.RawContent? && raw.content.parts.PartsInvalid?
    case EmptyText =>
      && raw.RawMessage? && raw.content.RawContent? && raw.content.parts.Parts?
      && forall part :: part in raw.content.parts.parts ==> part == []
    case OversizeText => exists text :: Says(raw, text) && Utf8Size(text) > 128 * 1024
  }

  ghost predicate Faulted(error: NormalizeError, raw: RawMessage) {
    match error
    case InvalidSelectedMessage => raw.MessageInvalid?
    case InvalidMessageId => raw.RawMessage? && !(raw.id.RawText? && 1 <= |raw.id.value| <= 1024)
    case InvalidAuthor => raw.RawMessage? && raw.author.AuthorInvalid?
    case UnknownRole => raw.RawMessage? && raw.author.RoleUnknown?
    case InvalidMetadata => raw.RawMessage? && raw.visibility.MetadataInvalid?
    case InvalidVisibility => raw.RawMessage? && raw.visibility.FlagInvalid?
    case InvalidRecipient => raw.RawMessage? && raw.recipient.NotText?
    case InvalidChannel => raw.RawMessage? && raw.channel.NotText?
    case Unreadable => exists text :: Says(raw, text) && !Encodable(text)
    case InvalidTimestamp => raw.RawMessage? && !raw.createTimeOk
    case _ => false
  }

  /** The text consists of the message's parts. */
  predicate Says(raw: RawMessage, text: Text) {
    raw.RawMessage? && raw.content.RawContent? && raw.content.parts.Parts? && Consists(text, raw.content.parts.parts)
  }

  /** The grounds for not keeping a message, in the order in which they are looked for. */
  function Rank(ground: Selection): nat {
    match ground
    case Omit(Placeholder) => 0
    case Bad(InvalidSelectedMessage) => 1
    case Bad(InvalidMessageId) => 2
    case Bad(InvalidAuthor) => 3
    case Bad(UnknownRole) => 4
    case Omit(NonconversationRole) => 5
    case Bad(InvalidMetadata) => 6
    case Bad(InvalidVisibility) => 7
    case Omit(HiddenMessage) => 8
    case Bad(InvalidRecipient) => 9
    case Bad(InvalidChannel) => 10
    case Omit(NonfinalAssistant) => 11
    case Omit(UnsupportedContent) => 12
    case Omit(InternalReasoning) => 13
    case Omit(NontextParts) => 14
    case Omit(EmptyText) => 15
    case Bad(Unreadable) => 16
    case Omit(OversizeText) => 17
    case Bad(InvalidTimestamp) => 18
    case _ => 19
  }

  /** What the parts make of a text is one text only. */
  lemma ConsistsOnce(a: Text, b: Text, parts: seq<Text>)
    requires parts != [] && Consists(a, parts) && Consists(b, parts)
    ensures a == b
  {
    SameUpTo(a, b, parts, |parts|);
  }

  lemma {:induction false} SameUpTo(a: Text, b: Text, parts: seq<Text>, n: nat)
    requires 0 < n <= |parts| && Consists(a, parts) && Consists(b, parts)
    ensures Offset(parts, n) - 1 <= |a| == |b|
    ensures a[..Offset(parts, n) - 1] == b[..Offset(parts, n) - 1]
  {
    var from := Offset(parts, n - 1);
    var to := from + |parts[n - 1]|;
    assert PartStands(a, parts, n - 1) && PartStands(b, parts, n - 1);
    assert a[from..to] == b[from..to];
    if n == 1 {
      assert a[..to] == a[from..to] && b[..to] == b[from..to];
    } else {
      SameUpTo(a, b, parts, n - 1);
      assert a[..to] == a[..from - 1] + [a[from - 1]] + a[from..to];
      assert b[..to] == b[..from - 1] + [b[from - 1]] + b[from..to];
    }
  }

  lemma JoinIsWhatItSays(raw: RawMessage, text: Text)
    requires Says(raw, text) && raw.content.parts.parts != []
    ensures text == Join(raw.content.parts.parts)
  {
    JoinConsists(raw.content.parts.parts);
    ConsistsOnce(text, Join(raw.content.parts.parts), raw.content.parts.parts);
  }

  /** No ground of these ranks applies. */
  ghost predicate NoGround(raw: RawMessage, from: nat, to: nat) {
    forall ground: Selection :: from <= Rank(ground) < to ==> !Applies(ground, raw)
  }

  lemma GroundsOfContent(nodeId: string, raw: RawMessage)
    requires raw.RawMessage? && raw.id.RawText? && (raw.author.RoleUser? || raw.author.RoleAssistant?)
    ensures
      var s := SelectContent(nodeId, raw);
      && NoGround(raw, 12, Rank(s))
      && (!s.Keep? ==> Rank(s) < 19 && Applies(s, raw))
  {
    if raw.content.RawContent? && raw.content.parts.Parts? && raw.content.parts.parts != [] {
      var text := Join(raw.content.parts.parts);
      JoinConsists(raw.content.parts.parts);
      assert Says(raw, text);
      forall t | Says(raw, t)
        ensures t == text
      {
        JoinIsWhatItSays(raw, t);
      }
      forall i | 0 <= i < |raw.content.parts.parts|
        ensures raw.content.parts.parts[i] in raw.content.parts.parts
      {
      }
    }
  }

  /** A message is kept if no ground applies; otherwise its ground applies, and none that is looked for earlier. */
  lemma FirstGroundDecides(nodeId: string, raw: RawMessage)
    ensures
      var s := SelectMessage(nodeId, raw);
      && NoGround(raw, 0, Rank(s))
      && (s.Keep? <==> Rank(s) == 19)
      && (!s.Keep? ==> Applies(s, raw))
  {
    if raw.RawMessage? && IdOk(raw.id) && (raw.author.RoleUser? || raw.author.RoleAssistant?) {
      GroundsOfContent(nodeId, raw);
    }
  }

  // ----- the branch as a whole -----

  function At(mapping: Mapping, id: string): Selection {
    if Present(mapping, id) then SelectMessage(id, mapping[id].message) else Bad(InvalidSelectedMessage)
  }

  /** The messages kept along the path, in order. */
  function Kept(mapping: Mapping, path: seq<string>): seq<Message> {
    if path == [] then []
    else
      var last := At(mapping, path[|path| - 1]);
      Kept(mapping, path[..|path| - 1]) + if last.Keep? then [last.message] else []
  }

  function Omitted(mapping: Mapping, path: seq<string>): multiset<Reason> {
    if path == [] then multiset{}
    else
      var last := At(mapping, path[|path| - 1]);
      Omitted(mapping, path[..|path| - 1]) + if last.Omit? then multiset{last.reason} else multiset{}
  }

  /** The nodes of the path whose messages are in plain sight, in order. */
  function ShownOn(mapping: Mapping, path: seq<string>): seq<string> {
    if path == [] then []
    else
      var last := path[|path| - 1];
      ShownOn(mapping, path[..|path| - 1])
        + if Present(mapping, last) && Showable(mapping[last].message) then [last] else []
  }

  /** What is kept along a path is what is in plain sight on it: nothing else, nothing left out, in order. */
  lemma {:induction false} KeptAreTheShown(mapping: Mapping, path: seq<string>)
    ensures |Kept(mapping, path)| == |ShownOn(mapping, path)|
    ensures forall i :: 0 <= i < |Kept(mapping, path)| ==>
      var id := ShownOn(mapping, path)[i];
      Present(mapping, id) && Showable(mapping[id].message) && ShownAs(Kept(mapping, path)[i], id, mapping[id].message)
  {
    if path != [] {
      var last := path[|path| - 1];
      KeptAreTheShown(mapping, path[..|path| - 1]);
      if Present(mapping, last) {
        KeptExactlyWhenShowable(last, mapping[last].message);
        if Showable(mapping[last].message) { KeptAsShown(last, mapping[last].message); }
      }
    }
  }

  predicate NoneBad(mapping: Mapping, path: seq<string>) {
    forall k :: 0 <= k < |path| ==> !At(mapping, path[k]).Bad?
  }

  function MessageIdAt(mapping: Mapping, id: string): Option<string> {
    if Present(mapping, id) && mapping[id].message.RawMessage? && mapping[id].message.id.RawText?
    then Some(mapping[id].message.id.value)
    else None
  }

  /** No message identifier occurs twice on the path, whether or not its message is kept. */
  predicate IdsDistinct(mapping: Mapping, path: seq<string>) {
    forall j, k :: 0 <= j < k < |path| && MessageIdAt(mapping, path[j]).Some?
      ==> MessageIdAt(mapping, path[j]) != MessageIdAt(mapping, path[k])
  }

  /** Every node of the path is either kept or omitted for a stated reason. */
  lemma {:induction false} NodesAreConserved(mapping: Mapping, path: seq<string>)
    requires NoneBad(mapping, path)
    ensures |Kept(mapping, path)| + |Omitted(mapping, path)| == |path|
  {
    if path != [] {
      var front := path[..|path| - 1];
      assert forall k :: 0 <= k < |front| ==> front[k] == path[k];
      NodesAreConserved(mapping, front);
      assert !At(mapping, path[|path| - 1]).Bad?;
    }
  }

  /** Which node of the path each kept message comes from. */
  lemma {:induction false} KeptComesFrom(mapping: Mapping, path: seq<string>, i: nat) returns (k: nat)
    requires i < |Kept(mapping, path)|
    ensures k < |path| && At(mapping, path[k]) == Keep(Kept(mapping, path)[i])
    ensures i <= k
  {
    var front := path[..|path| - 1];
    if i < |Kept(mapping, front)| {
      k := KeptComesFrom(mapping, front, i);
    } else {
      k := |path| - 1;
      KeptFits(mapping, front);
    }
  }

  lemma {:induction false} KeptFits(mapping: Mapping, path: seq<string>)
    ensures |Kept(mapping, path)| <= |path|
  {
    if path != [] { KeptFits(mapping, path[..|path| - 1]); }
  }

  lemma {:induction false} KeptInOrder(mapping: Mapping, path: seq<string>, i: nat, j: nat) returns (k: nat, l: nat)
    requires i < j < |Kept(mapping, path)|
    ensures k < l < |path|
    ensures At(mapping, path[k]) == Keep(Kept(mapping, path)[i])
    ensures At(mapping, path[l]) == Keep(Kept(mapping, path)[j])
  {
    var front := path[..|path| - 1];
    if j < |Kept(mapping, front)| {
      k, l := KeptInOrder(mapping, front, i, j);
    } else {
      k := KeptComesFrom(mapping, front, i);
      l := |path| - 1;
    }
  }

  lemma KeptAreSound(mapping: Mapping, path: seq<string>)
    requires forall k :: 0 <= k < |path| ==> Identifier(path[k])
    ensures forall i :: 0 <= i < |Kept(mapping, path)| ==> MessageSound(Kept(mapping, path)[i])
  {
    forall i | 0 <= i < |Kept(mapping, path)|
      ensures MessageSound(Kept(mapping, path)[i])
    {
      var k := KeptComesFrom(mapping, path, i);
      KeptIsSound(path[k], mapping[path[k]].message);
    }
  }

  lemma KeptIdsDistinct(mapping: Mapping, path: seq<string>)
    requires forall k :: 0 <= k < |path| ==> Identifier(path[k])
    requires IdsDistinct(mapping, path)
    ensures DistinctIds(Kept(mapping, path))
  {
    var kept := Kept(mapping, path);
    forall i, j | 0 <= i < j < |kept|
      ensures kept[i].messageId != kept[j].messageId
    {
      var k, l := KeptInOrder(mapping, path, i, j);
      KeptIsSound(path[k], mapping[path[k]].message);
      KeptIsSound(path[l], mapping[path[l]].message);
      assert MessageIdAt(mapping, path[k]) == Some(kept[i].messageId);
    }
  }

  // ----- one conversation -----

  function ConversationId(raw: RawConversation): RawText {
    if raw.id == Absent then raw.conversationId else raw.id
  }

  predicate PartsEncode(raw: RawMessage) {
    raw.RawMessage? && raw.content.RawContent? && raw.content.parts.Parts? ==>
      forall i :: 0 <= i < |raw.content.parts.parts| ==> Encodable(raw.content.parts.parts[i])
  }

  /** The revision digest is taken of the whole object, with what is omitted or off the branch. */
  predicate Hashable(raw: RawConversation) {
    && raw.restEncodes
    && forall id :: id in raw.mapping && raw.mapping[id].Node? ==> PartsEncode(raw.mapping[id].message)
  }

  /** What the exported conversation must be for it to be accepted, given its branch. */
  predicate Acceptable(raw: RawConversation, nodes: nat, path: seq<string>) {
    Readable(raw, nodes, path) && Hashable(raw)
  }

  /** What the branch itself, and the identifiers, must be. */
  predicate Readable(raw: RawConversation, nodes: nat, path: seq<string>) {
    && IdOk(ConversationId(raw))
    && (raw.conversationId == Absent || raw.conversationId == ConversationId(raw))
    && raw.mappingOk && 1 <= |raw.mapping| <= nodes
    && Branch(raw.mapping, raw.current, path)
    && NoneBad(raw.mapping, path)
    && IdsDistinct(raw.mapping, path)
  }

  /** The conversation read off the branch. */
  function SelectedOf(raw: RawConversation, path: seq<string>): Conversation
    requires ConversationId(raw).RawText?
  {
    var messages := Kept(raw.mapping, path);
    Conversation(
      ConversationId(raw).value, messages, |path|,
      Coverage(Omitted(raw.mapping, path), UnverifiedLinks(raw.mapping, path), |raw.mapping| - |path|),
      ConversationDigest(ConversationId(raw).value, PathOf(messages)),
      RevisionDigest(raw.revision))
  }

  datatype Normalized = Normalized(conv: Conversation) | NotNormalized(error: NormalizeError)

  lemma KeptStep(mapping: Mapping, path: seq<string>, i: nat)
    requires i < |path|
    ensures var s := At(mapping, path[i]);
      && Kept(mapping, path[..i + 1]) == Kept(mapping, path[..i]) + (if s.Keep? then [s.message] else [])
      && Omitted(mapping, path[..i + 1]) == Omitted(mapping, path[..i]) + if s.Omit? then multiset{s.reason} else multiset{}
  {
    assert path[..i + 1][..i] == path[..i];
  }

  predicate IdsSeen(mapping: Mapping, path: seq<string>, n: nat, seen: set<string>)
    requires n <= |path|
  {
    && (forall k :: 0 <= k < n && MessageIdAt(mapping, path[k]).Some? ==> MessageIdAt(mapping, path[k]).value in seen)
    && forall id :: id in seen ==> exists k :: 0 <= k < n && MessageIdAt(mapping, path[k]) == Some(id)
  }

  lemma RepeatedId(mapping: Mapping, path: seq<string>, n: nat, seen: set<string>)
    requires n < |path| && IdsSeen(mapping, path, n, seen)
    requires MessageIdAt(mapping, path[n]).Some? && MessageIdAt(mapping, path[n]).value in seen
    ensures !IdsDistinct(mapping, path)
  {
    var k :| 0 <= k < n && MessageIdAt(mapping, path[k]) == Some(MessageIdAt(mapping, path[n]).value);
  }

  lemma FreshId(mapping: Mapping, path: seq<string>, n: nat, seen: set<string>)
    requires n < |path| && IdsSeen(mapping, path, n, seen) && IdsDistinct(mapping, path[..n])
    requires MessageIdAt(mapping, path[n]).Some? ==> MessageIdAt(mapping, path[n]).value !in seen
    ensures IdsDistinct(mapping, path[..n + 1])
    ensures var id := MessageIdAt(mapping, path[n]);
      IdsSeen(mapping, path, n + 1, if id.Some? then seen + {id.value} else seen)
  {
    var id := MessageIdAt(mapping, path[n]);
    forall j, k | 0 <= j < k < n + 1 && MessageIdAt(mapping, path[j]).Some?
      ensures MessageIdAt(mapping, path[j]) != MessageIdAt(mapping, path[k])
    {
      if k < n { assert path[..n][j] == path[j] && path[..n][k] == path[k]; }
    }
    var after := if id.Some? then seen + {id.value} else seen;
    forall x | x in after
      ensures exists k :: 0 <= k < n + 1 && MessageIdAt(mapping, path[k]) == Some(x)
    {
      if id == Some(x) { assert MessageIdAt(mapping, path[n]) == Some(x); }
    }
  }

  ghost predicate FaultedAt(error: NormalizeError, mapping: Mapping, id: string) {
    Present(mapping, id) && Faulted(error, mapping[id].message)
  }

  /** Some message of the path has this fault, or an identifier occurs twice on it. */
  ghost predicate PathFaulted(error: NormalizeError, mapping: Mapping, path: seq<string>) {
    if error == DuplicateSelectedId then !IdsDistinct(mapping, path)
    else exists k :: 0 <= k < |path| && FaultedAt(error, mapping, path[k])
  }

  /** What each refusal of a conversation says is wrong with it; `path` is its branch, if it has one. */
  ghost predicate Refutes(error: NormalizeError, raw: RawConversation, nodes: nat, path: seq<string>) {
    match error
    case InvalidConversationId => !IdOk(ConversationId(raw))
    case ConversationIdMismatch => raw.id != Absent && raw.conversationId != Absent && raw.conversationId != raw.id
    case InvalidMapping => !raw.mappingOk || |raw.mapping| == 0 || |raw.mapping| > nodes
    case BranchError(fault) => MeetsFault(fault, raw.mapping, raw.current)
    case Unreadable => !Hashable(raw) || (Branch(raw.mapping, raw.current, path) && PathFaulted(error, raw.mapping, path))
    case _ => Branch(raw.mapping, raw.current, path) && PathFaulted(error, raw.mapping, path)
  }

  /** The loop over the branch. */
  method CollectMessages(mapping: Mapping, path: seq<string>)
    returns (fault: Option<NormalizeError>, retained: seq<Message>, omissions: multiset<Reason>)
    requires forall k :: 0 <= k < |path| ==> Present(mapping, path[k])
    ensures fault.None? <==> NoneBad(mapping, path) && IdsDistinct(mapping, path)
    ensures fault.None? ==> retained == Kept(mapping, path) && omissions == Omitted(mapping, path)
    ensures fault.Some? ==> PathFaulted(fault.value, mapping, path)
  {
    retained, omissions := [], multiset{};
    var seen: set<string> := {};
    for i := 0 to |path|
      invariant forall k :: 0 <= k < i ==> !At(mapping, path[k]).Bad?
      invariant IdsSeen(mapping, path, i, seen) && IdsDistinct(mapping, path[..i])
      invariant retained == Kept(mapping, path[..i]) && omissions == Omitted(mapping, path[..i])
    {
      KeptStep(mapping, path, i);
      var item := SelectMessage(path[i], mapping[path[i]].message);
      if item.Bad? {
        FirstGroundDecides(path[i], mapping[path[i]].message);
        assert At(mapping, path[i]).Bad? && FaultedAt(item.error, mapping, path[i]);
        return Some(item.error), retained, omissions;
      }
      var id := MessageIdAt(mapping, path[i]);
      if id.Some? && id.value in seen {
        RepeatedId(mapping, path, i, seen);
        return Some(DuplicateSelectedId), retained, omissions;
      }
      FreshId(mapping, path, i, seen);
      if id.Some? { seen := seen + {id.value}; }
      if item.Omit? {
        omissions := omissions + multiset{item.reason};
      } else {
        retained := retained + [item.message];
      }
    }
    assert path[..|path|] == path;
    fault := None;
  }

  /** Accepted exactly when it has an acceptable branch, and then it is what that branch says; each refusal is true of it. */
  method NormalizeOne(raw: RawConversation, limits: Limits) returns (r: Normalized, ghost path: seq<string>)
    ensures r.Normalized? ==> Acceptable(raw, limits.nodes, path) && r.conv == SelectedOf(raw, path)
    ensures r.NotNormalized? ==> forall p :: !Acceptable(raw, limits.nodes, p)
    ensures r.NotNormalized? ==> Refutes(r.error, raw, limits.nodes, path)
  {
    path := [];
    if !IdOk(ConversationId(raw)) { return NotNormalized(InvalidConversationId), []; }
    if raw.conversationId != Absent && raw.conversationId != ConversationId(raw) {
      return NotNormalized(ConversationIdMismatch), [];
    }
    if !raw.mappingOk || |raw.mapping| == 0 || |raw.mapping| > limits.nodes { return NotNormalized(InvalidMapping), []; }
    var selected := SelectedPath(raw.mapping, raw.current);
    if selected.Unselected? { return NotNormalized(BranchError(selected.error)), []; }
    path := selected.path;
    var fault, retained, omissions := CollectMessages(raw.mapping, selected.path);
    if fault.Some? {
      OnlyThisBranch(raw, limits.nodes, path);
      return NotNormalized(fault.value), path;
    }
    if !Hashable(raw) { return NotNormalized(Unreadable), path; }
    var id := ConversationId(raw).value;
    r := Normalized(Conversation(
      id, retained, |selected.path|,
      Coverage(omissions, selected.unverified, |raw.mapping| - |selected.path|),
      ConversationDigest(id, PathOf(retained)), RevisionDigest(raw.revision)));
  }

  lemma OnlyThisBranch(raw: RawConversation, nodes: nat, path: seq<string>)
    requires Branch(raw.mapping, raw.current, path)
    ensures forall p :: Acceptable(raw, nodes, p) ==> p == path
  {
    forall p | Acceptable(raw, nodes, p)
      ensures p == path
    {
      PathIsUnique(raw.mapping, raw.current, p, path);
    }
  }

  /**
   An accepted conversation conserves the branch and the mapping, and is a valid source
   conversation as soon as it is small enough.
   */
  lemma AcceptedIsValid(raw: RawConversation, nodes: nat, path: seq<string>)
    requires Acceptable(raw, nodes, path)
    ensures var conv := SelectedOf(raw, path);
      && |conv.messages| + |conv.coverage.omitted| == conv.selectedPathNodes
      && conv.selectedPathNodes + conv.coverage.offBranchNodes == |raw.mapping|
      && (ValidConversation(conv) <==>
        TextBytes(conv.messages) <= MAX_PRIVATE_CONVERSATION_BYTES && |conv.messages| <= MAX_SOURCE_MESSAGES)
      && (nodes <= MAX_SOURCE_MESSAGES ==> |conv.messages| <= MAX_SOURCE_MESSAGES)
  {
    assert forall k :: 0 <= k < |path| ==> NodeOk(raw.mapping, path[k]);
    NodesAreConserved(raw.mapping, path);
    PathFits(raw.mapping, raw.current, path);
    KeptAreSound(raw.mapping, path);
    KeptIdsDistinct(raw.mapping, path);
    KeptFits(raw.mapping, path);
  }

  /** Every identifier the export states for the conversation is the one it is accepted under, and one is stated. */
  lemma StatedIdsAgree(raw: RawConversation, nodes: nat, path: seq<string>)
    requires Acceptable(raw, nodes, path)
    ensures
      var id := SelectedOf(raw, path).conversationId;
      && 1 <= |id| <= 1024
      && (raw.id == RawText(id) || raw.id == Absent)
      && (raw.conversationId == RawText(id) || raw.conversationId == Absent)
      && !(raw.id == Absent && raw.conversationId == Absent)
  {
  }

  /** No part of any message of an accepted conversation holds a surrogate, kept or not, on the branch or off it. */
  lemma AcceptedIsEncodable(raw: RawConversation, nodes: nat, path: seq<string>, id: string, i: nat, j: nat)
    requires Acceptable(raw, nodes, path)
    ensures raw.restEncodes
    ensures
      && Present(raw.mapping, id) && raw.mapping[id].message.RawMessage? && raw.mapping[id].message.content.RawContent?
      && raw.mapping[id].message.content.parts.Parts?
      && i < |raw.mapping[id].message.content.parts.parts|
      && j < |raw.mapping[id].message.content.parts.parts[i]|
      ==> !(0xD800 <= raw.mapping[id].message.content.parts.parts[i][j] <= 0xDFFF)
  {
    if Present(raw.mapping, id) { assert PartsEncode(raw.mapping[id].message); }
  }

  /** What becomes of each node of the path, in order. */
  function FatesOf(mapping: Mapping, path: seq<string>): seq<Selection> {
    if path == [] then [] else FatesOf(mapping, path[..|path| - 1]) + [At(mapping, path[|path| - 1])]
  }

  /** The nodes omitted for this reason. */
  function OmittedAt(fates: seq<Selection>, reason: Reason): set<nat> {
    set k: nat | k < |fates| && fates[k] == Omit(reason)
  }

  lemma OneMoreOmitted(fates: seq<Selection>, last: Selection, reason: Reason)
    ensures |OmittedAt(fates + [last], reason)| == |OmittedAt(fates, reason)| + if last == Omit(reason) then 1 else 0
  {
    var before := OmittedAt(fates, reason);
    assert |fates| !in before;
    assert OmittedAt(fates + [last], reason) == before + if last == Omit(reason) then {|fates|} else {};
  }

  /** Coverage counts each reason as often as it occurs on the path. */
  lemma {:induction false} OmissionsAreCounted(mapping: Mapping, path: seq<string>, reason: Reason)
    ensures |FatesOf(mapping, path)| == |path|
    ensures Omitted(mapping, path)[reason] == |OmittedAt(FatesOf(mapping, path), reason)|
  {
    if path == [] {
      assert OmittedAt([], reason) == {};
    } else {
      var front := path[..|path| - 1];
      OmissionsAreCounted(mapping, front, reason);
      OneMoreOmitted(FatesOf(mapping, front), At(mapping, path[|path| - 1]), reason);
    }
  }

  /** The parents on the path that list no children, so that the link below them could not be checked. */
  function ChildlessParents(mapping: Mapping, path: seq<string>): set<nat> {
    set k: nat | k + 1 < |path| && ListsNone(mapping, path[k])
  }

  lemma {:induction false} LinksFromTheEnd(mapping: Mapping, path: seq<string>)
    requires |path| > 1
    ensures UnverifiedLinks(mapping, path)
         == UnverifiedLinks(mapping, path[..|path| - 1]) + if ListsNone(mapping, path[|path| - 2]) then 1 else 0
  {
    if |path| > 2 {
      LinksFromTheEnd(mapping, path[1..]);
      assert path[1..][..|path| - 2] == path[..|path| - 1][1..];
    }
  }

  /** The coverage counts exactly those links. */
  lemma {:induction false} UnverifiedAreCounted(mapping: Mapping, path: seq<string>)
    ensures UnverifiedLinks(mapping, path) == |ChildlessParents(mapping, path)|
  {
    if |path| <= 1 {
      assert ChildlessParents(mapping, path) == {};
    } else {
      var n := |path| - 1;
      UnverifiedAreCounted(mapping, path[..n]);
      LinksFromTheEnd(mapping, path);
      var before := ChildlessParents(mapping, path[..n]);
      assert n - 1 !in before;
      assert ChildlessParents(mapping, path) == before + if ListsNone(mapping, path[n - 1]) then {n - 1} else {};
    }
  }

  // ----- what is off the branch, or omitted on it -----

  /** The two agree on their identifiers, on the size of their mappings and on every node of the path. */
  predicate SameBranch(a: RawConversation, b: RawConversation, path: seq<string>) {
    && a.id == b.id && a.conversationId == b.conversationId && a.current == b.current
    && a.mappingOk == b.mappingOk && |a.mapping| == |b.mapping|
    && forall k :: 0 <= k < |path| ==> path[k] in a.mapping && path[k] in b.mapping && a.mapping[path[k]] == b.mapping[path[k]]
  }

  lemma {:induction false} KeptAlike(m: Mapping, n: Mapping, path: seq<string>)
    requires forall k :: 0 <= k < |path| ==> path[k] in m && path[k] in n && m[path[k]] == n[path[k]]
    ensures Kept(m, path) == Kept(n, path) && Omitted(m, path) == Omitted(n, path)
  {
    if path != [] {
      var front := path[..|path| - 1];
      assert forall k :: 0 <= k < |front| ==> front[k] == path[k];
      KeptAlike(m, n, front);
    }
  }

  lemma {:induction false} LinksAlike(m: Mapping, n: Mapping, path: seq<string>)
    requires forall k :: 0 <= k < |path| ==> path[k] in m && path[k] in n && m[path[k]] == n[path[k]]
    ensures UnverifiedLinks(m, path) == UnverifiedLinks(n, path)
  {
    if |path| > 1 {
      assert forall k :: 0 <= k < |path[1..]| ==> path[1..][k] == path[k + 1];
      LinksAlike(m, n, path[1..]);
    }
  }

  /**
   What lies off the branch decides only whether the whole can be hashed, and the revision:
   apart from that it changes neither acceptance nor anything that is read off the branch.
   */
  lemma OffBranchMattersOnlyByHash(a: RawConversation, b: RawConversation, nodes: nat, path: seq<string>)
    requires SameBranch(a, b, path) && Acceptable(a, nodes, path)
    ensures Acceptable(b, nodes, path) <==> Hashable(b)
    ensures SelectedOf(b, path) == SelectedOf(a, path).(revision := RevisionDigest(b.revision))
  {
    assert Readable(b, nodes, path) by {
      assert forall k :: 0 <= k < |path| ==> At(a.mapping, path[k]) == At(b.mapping, path[k]);
      assert forall k :: 0 <= k < |path| ==> MessageIdAt(a.mapping, path[k]) == MessageIdAt(b.mapping, path[k]);
    }
    KeptAlike(a.mapping, b.mapping, path);
    LinksAlike(a.mapping, b.mapping, path);
  }

  /** A conversation that cannot be hashed refuses the whole export it is part of. */
  lemma {:induction false} UnhashableRefusesAll(items: seq<Item>, i: nat, batch: seq<Conversation>, limits: Limits)
    requires i < |items| && items[i].Item? && !Hashable(items[i].raw)
    ensures !Convertible(items, batch, limits)
  {
    if Aligned(items, batch, limits.nodes) {
      EachIsConverted(items, batch, limits.nodes, i);
    }
  }

  lemma {:induction false} EachIsConverted(items: seq<Item>, batch: seq<Conversation>, nodes: nat, i: nat)
    requires Aligned(items, batch, nodes) && i < |items| && items[i].Item?
    ensures exists path :: Acceptable(items[i].raw, nodes, path)
  {
    var front := items[..|items| - 1];
    if i < |front| {
      EachIsConverted(front, if items[|items| - 1].EmptySlot? then batch else batch[..|batch| - 1], nodes, i);
    }
  }

  /** A conversation of one node, a tool's message that is omitted, with a lone surrogate in it. */
  const Surrogate := RawConversation(
    RawText("c"), Absent, true,
    map["n" := Node(Absent, Null, NoChildren, RawMessage(
      RawText("m"), RoleOther, Visible, Absent, Absent, RawContent(TypePlain, Parts([[0xD800]])), true))],
    RawText("n"), true, 0)

  /** Its branch is in order and nothing of it would be kept, yet it is refused, and its whole export with it. */
  lemma OmittedTextRefuses(limits: Limits, batch: seq<Conversation>)
    requires limits.nodes >= 1
    ensures Readable(Surrogate, limits.nodes, ["n"]) && Kept(Surrogate.mapping, ["n"]) == []
    ensures !Acceptable(Surrogate, limits.nodes, ["n"])
    ensures !Convertible([Item(Surrogate)], batch, limits)
  {
    assert IsSurrogate(Surrogate.mapping["n"].message.content.parts.parts[0][0]);
    assert !PartsEncode(Surrogate.mapping["n"].message);
    assert Branch(Surrogate.mapping, Surrogate.current, ["n"]);
    assert ["n"][..0] == [];
    UnhashableRefusesAll([Item(Surrogate)], 0, batch, limits);
  }

  // ----- the whole export -----

  function BatchBytes(batch: seq<Conversation>): nat {
    if batch == [] then 0 else BatchBytes(batch[..|batch| - 1]) + TextBytes(batch[|batch| - 1].messages)
  }

  lemma {:induction false} EachFits(batch: seq<Conversation>, i: nat)
    requires i < |batch|
    ensures TextBytes(batch[i].messages) <= BatchBytes(batch)
  {
    if i < |batch| - 1 { EachFits(batch[..|batch| - 1], i); }
  }

  predicate DistinctConversations(batch: seq<Conversation>) {
    forall i, j :: 0 <= i < j < |batch| ==> batch[i].conversationId != batch[j].conversationId
  }

  datatype Consumed = Consumed(normalized: seq<Conversation>, quarantined: nat) | NotConsumed(error: NormalizeError)

  ghost predicate FromItem(conv: Conversation, item: Item, nodes: nat) {
    item.Item? && exists path :: Acceptable(item.raw, nodes, path) && conv == SelectedOf(item.raw, path)
  }

  /** The i-th real item is the i-th conversation: nothing is dropped, reordered or repeated. */
  ghost predicate Aligned(items: seq<Item>, batch: seq<Conversation>, nodes: nat) {
    if items == [] then batch == []
    else if items[|items| - 1].EmptySlot? then Aligned(items[..|items| - 1], batch, nodes)
    else
      && batch != []
      && FromItem(batch[|batch| - 1], items[|items| - 1], nodes)
      && Aligned(items[..|items| - 1], batch[..|batch| - 1], nodes)
  }

  predicate BatchOk(batch: seq<Conversation>) {
    && DistinctConversations(batch)
    && BatchBytes(batch) <= MAX_PRIVATE_CONVERSATION_BYTES
  }

  /** Nodes in the mappings of the items, which an export may not exceed. */
  function NodeTotal(items: seq<Item>): nat {
    if items == [] then 0
    else
      var last := items[|items| - 1];
      NodeTotal(items[..|items| - 1]) + if last.Item? && last.raw.mappingOk then |last.raw.mapping| else 0
  }

  /** Everything the loop knows after n items. */
  ghost predicate ConsumedSoFar(
      items: seq<Item>, n: nat, batch: seq<Conversation>, quarantined: nat, nodeCount: nat, textBytes: nat,
      seen: set<string>, limits: Limits)
    requires n <= |items|
  {
    && Aligned(items[..n], batch, limits.nodes) && BatchOk(batch)
    && (forall k :: 0 <= k < |batch| ==> batch[k].conversationId in seen)
    && (forall id :: id in seen ==> exists k :: 0 <= k < |batch| && batch[k].conversationId == id)
    && textBytes == BatchBytes(batch) && nodeCount == NodeTotal(items[..n]) <= limits.nodes
    && |batch| + quarantined == n <= limits.conversations
  }

  lemma BatchGrows(batch: seq<Conversation>, conv: Conversation, seen: set<string>)
    requires DistinctConversations(batch) && conv.conversationId !in seen
    requires forall i :: 0 <= i < |batch| ==> batch[i].conversationId in seen
    ensures DistinctConversations(batch + [conv])
    ensures BatchBytes(batch + [conv]) == BatchBytes(batch) + TextBytes(conv.messages)
  {
    assert (batch + [conv])[..|batch|] == batch;
    forall i, j | 0 <= i < j < |batch| + 1
      ensures (batch + [conv])[i].conversationId != (batch + [conv])[j].conversationId
    {
      assert batch[i].conversationId in seen;
    }
  }

  lemma SlotGrows(
      items: seq<Item>, n: nat, batch: seq<Conversation>, quarantined: nat, nodeCount: nat, textBytes: nat,
      seen: set<string>, limits: Limits)
    requires n < |items| && items[n].EmptySlot? && n < limits.conversations
    requires ConsumedSoFar(items, n, batch, quarantined, nodeCount, textBytes, seen, limits)
    ensures ConsumedSoFar(items, n + 1, batch, quarantined + 1, nodeCount, textBytes, seen, limits)
  {
    assert items[..n + 1][..n] == items[..n];
  }

  lemma AlignedGrows(items: seq<Item>, n: nat, batch: seq<Conversation>, conv: Conversation, nodes: nat)
    requires n < |items| && items[n].Item? && Aligned(items[..n], batch, nodes) && FromItem(conv, items[n], nodes)
    ensures Aligned(items[..n + 1], batch + [conv], nodes)
    ensures NodeTotal(items[..n + 1]) == NodeTotal(items[..n]) + if items[n].raw.mappingOk then |items[n].raw.mapping| else 0
  {
    assert items[..n + 1][..n] == items[..n];
    assert (batch + [conv])[..|batch|] == batch;
  }

  lemma ConversationGrows(
      items: seq<Item>, n: nat, batch: seq<Conversation>, quarantined: nat, nodeCount: nat, textBytes: nat,
      seen: set<string>, limits: Limits, conv: Conversation)
    requires n < |items| && items[n].Item? && n < limits.conversations
    requires ConsumedSoFar(items, n, batch, quarantined, nodeCount, textBytes, seen, limits)
    requires FromItem(conv, items[n], limits.nodes) && conv.conversationId !in seen
    requires textBytes + TextBytes(conv.messages) <= MAX_PRIVATE_CONVERSATION_BYTES
    requires nodeCount + (if items[n].raw.mappingOk then |items[n].raw.mapping| else 0) <= limits.nodes
    ensures ConsumedSoFar(
      items, n + 1, batch + [conv], quarantined,
      nodeCount + (if items[n].raw.mappingOk then |items[n].raw.mapping| else 0),
      textBytes + TextBytes(conv.messages), seen + {conv.conversationId}, limits)
  {
    BatchGrows(batch, conv, seen);
    AlignedGrows(items, n, batch, conv, limits.nodes);
    var more := batch + [conv];
    forall id | id in seen + {conv.conversationId}
      ensures exists k :: 0 <= k < |more| && more[k].conversationId == id
    {
      if id in seen {
        var k :| 0 <= k < |batch| && batch[k].conversationId == id;
        assert more[k].conversationId == id;
      } else {
        assert more[|batch|].conversationId == id;
      }
    }
  }

  // ----- nothing acceptable is refused -----

  lemma FromItemIsUnique(a: Conversation, b: Conversation, item: Item, nodes: nat)
    requires FromItem(a, item, nodes) && FromItem(b, item, nodes)
    ensures a == b
  {
    var p :| Acceptable(item.raw, nodes, p) && a == SelectedOf(item.raw, p);
    var q :| Acceptable(item.raw, nodes, q) && b == SelectedOf(item.raw, q);
    PathIsUnique(item.raw.mapping, item.raw.current, p, q);
  }

  lemma {:induction false} AlignedIsUnique(items: seq<Item>, a: seq<Conversation>, b: seq<Conversation>, nodes: nat)
    requires Aligned(items, a, nodes) && Aligned(items, b, nodes)
    ensures a == b
  {
    if items != [] {
      var front, last := items[..|items| - 1], items[|items| - 1];
      if last.EmptySlot? {
        AlignedIsUnique(front, a, b, nodes);
      } else {
        AlignedIsUnique(front, a[..|a| - 1], b[..|b| - 1], nodes);
        FromItemIsUnique(a[|a| - 1], b[|b| - 1], last, nodes);
        assert |a[..|a| - 1]| == |b[..|b| - 1]|;
        SameEnds(a, b);
      }
    }
  }

  /** The first items of an aligned export are aligned with the first conversations. */
  lemma {:induction false} AlignedFront(items: seq<Item>, n: nat, batch: seq<Conversation>, nodes: nat) returns (k: nat)
    requires Aligned(items, batch, nodes) && n <= |items|
    ensures k <= |batch| && Aligned(items[..n], batch[..k], nodes)
  {
    if n == |items| {
      k := |batch|;
      assert items[..n] == items && batch[..k] == batch;
    } else {
      var front := items[..|items| - 1];
      assert front[..n] == items[..n];
      if items[|items| - 1].EmptySlot? {
        k := AlignedFront(front, n, batch, nodes);
      } else {
        k := AlignedFront(front, n, batch[..|batch| - 1], nodes);
        assert batch[..|batch| - 1][..k] == batch[..k];
      }
    }
  }

  lemma {:induction false} TotalsGrow(items: seq<Item>, n: nat)
    requires n <= |items|
    ensures NodeTotal(items[..n]) <= NodeTotal(items)
  {
    if n == |items| {
      assert items[..n] == items;
    } else {
      TotalsGrow(items[..|items| - 1], n);
      assert items[..|items| - 1][..n] == items[..n];
    }
  }

  lemma {:induction false} BytesGrow(batch: seq<Conversation>, k: nat)
    requires k <= |batch|
    ensures BatchBytes(batch[..k]) <= BatchBytes(batch)
  {
    if k == |batch| {
      assert batch[..k] == batch;
    } else {
      BytesGrow(batch[..|batch| - 1], k);
      assert batch[..|batch| - 1][..k] == batch[..k];
    }
  }

  /** The export as a whole can be turned into this batch. */
  ghost predicate Convertible(items: seq<Item>, batch: seq<Conversation>, limits: Limits) {
    && Aligned(items, batch, limits.nodes) && BatchOk(batch)
    && |items| <= limits.conversations && NodeTotal(items) <= limits.nodes
  }

  /** Where the loop stands, the batch the whole export converts to goes on with the next item's conversation. */
  lemma NextOfBatch(
      items: seq<Item>, n: nat, batch: seq<Conversation>, quarantined: nat, nodeCount: nat, textBytes: nat,
      seen: set<string>, limits: Limits, whole: seq<Conversation>)
    requires n < |items| && ConsumedSoFar(items, n, batch, quarantined, nodeCount, textBytes, seen, limits)
    requires Convertible(items, whole, limits)
    ensures items[n].EmptySlot? || (
      && items[n].Item? && |batch| < |whole| && whole[..|batch|] == batch
      && FromItem(whole[|batch|], items[n], limits.nodes))
  {
    var k := AlignedFront(items, n, whole, limits.nodes);
    AlignedIsUnique(items[..n], batch, whole[..k], limits.nodes);
    var m := AlignedFront(items, n + 1, whole, limits.nodes);
    assert items[..n + 1][..n] == items[..n];
    if !items[n].EmptySlot? {
      AlignedIsUnique(items[..n], batch, whole[..m][..m - 1], limits.nodes);
      assert whole[..m][..m - 1] == whole[..m - 1];
    }
  }

  /** So the next item passes every check the loop makes of it. */
  lemma NextIsAcceptable(
      items: seq<Item>, n: nat, batch: seq<Conversation>, quarantined: nat, nodeCount: nat, textBytes: nat,
      seen: set<string>, limits: Limits, whole: seq<Conversation>, conv: Conversation)
    requires n < |items| && ConsumedSoFar(items, n, batch, quarantined, nodeCount, textBytes, seen, limits)
    requires Convertible(items, whole, limits)
    requires items[n].Item? && FromItem(conv, items[n], limits.nodes)
    ensures conv.conversationId !in seen
    ensures textBytes + TextBytes(conv.messages) <= MAX_PRIVATE_CONVERSATION_BYTES
  {
    NextOfBatch(items, n, batch, quarantined, nodeCount, textBytes, seen, limits, whole);
    FromItemIsUnique(conv, whole[|batch|], items[n], limits.nodes);
    NextIsBounded(batch, seen, whole);
  }

  lemma NextIsBounded(batch: seq<Conversation>, seen: set<string>, whole: seq<Conversation>)
    requires BatchOk(whole) && |batch| < |whole| && whole[..|batch|] == batch
    requires forall id :: id in seen ==> exists k :: 0 <= k < |batch| && batch[k].conversationId == id
    ensures whole[|batch|].conversationId !in seen
    ensures BatchBytes(batch) + TextBytes(whole[|batch|].messages) <= MAX_PRIVATE_CONVERSATION_BYTES
  {
    var n := |batch|;
    BytesGrow(whole, n + 1);
    assert whole[..n + 1][..n] == batch;
    forall k | 0 <= k < n
      ensures batch[k].conversationId != whole[n].conversationId
    {
      assert batch[k] == whole[k];
    }
  }

  /** Nor can the node limit stop it. */
  lemma NextFits(
      items: seq<Item>, n: nat, batch: seq<Conversation>, quarantined: nat, nodeCount: nat, textBytes: nat,
      seen: set<string>, limits: Limits, whole: seq<Conversation>)
    requires n < |items| && ConsumedSoFar(items, n, batch, quarantined, nodeCount, textBytes, seen, limits)
    requires Convertible(items, whole, limits)
    ensures items[n].EmptySlot? || items[n].Item?
    ensures items[n].Item? ==>
      && nodeCount + (if items[n].raw.mappingOk then |items[n].raw.mapping| else 0) <= limits.nodes
      && exists path :: Acceptable(items[n].raw, limits.nodes, path)
  {
    NextOfBatch(items, n, batch, quarantined, nodeCount, textBytes, seen, limits, whole);
    TotalsGrow(items, n + 1);
    assert items[..n + 1][..n] == items[..n];
  }

  /** The item cannot be taken in its turn. */
  ghost predicate Faulty(
      item: Item, conv: Conversation, seen: set<string>, nodeCount: nat, textBytes: nat, limits: Limits)
    requires !item.EmptySlot?
  {
    || item.NotAConversation?
    || nodeCount + (if item.raw.mappingOk then |item.raw.mapping| else 0) > limits.nodes
    || (forall path :: !Acceptable(item.raw, limits.nodes, path))
    || (FromItem(conv, item, limits.nodes) && (conv.conversationId in seen
        || textBytes + TextBytes(conv.messages) > MAX_PRIVATE_CONVERSATION_BYTES))
  }

  /** Then no batch converts the export as a whole. */
  lemma FaultyIsRefused(
      items: seq<Item>, n: nat, batch: seq<Conversation>, quarantined: nat, nodeCount: nat, textBytes: nat,
      seen: set<string>, limits: Limits, conv: Conversation)
    requires n < |items| && ConsumedSoFar(items, n, batch, quarantined, nodeCount, textBytes, seen, limits)
    requires !items[n].EmptySlot? && Faulty(items[n], conv, seen, nodeCount, textBytes, limits)
    ensures forall whole :: !Convertible(items, whole, limits)
  {
    forall whole | Convertible(items, whole, limits)
      ensures false
    {
      NextFits(items, n, batch, quarantined, nodeCount, textBytes, seen, limits, whole);
      if FromItem(conv, items[n], limits.nodes) {
        NextIsAcceptable(items, n, batch, quarantined, nodeCount, textBytes, seen, limits, whole, conv);
      }
    }
  }

  /** One item in its turn: its conversation, or why it cannot be taken. */
  method ConsumeItem(item: Item, seen: set<string>, nodeCount: nat, textBytes: nat, limits: Limits)
    returns (fault: Option<NormalizeError>, conv: Conversation)
    requires !item.EmptySlot?
    ensures fault.None? ==>
      && FromItem(conv, item, limits.nodes) && conv.conversationId !in seen
      && nodeCount + (if item.raw.mappingOk then |item.raw.mapping| else 0) <= limits.nodes
      && textBytes + TextBytes(conv.messages) <= MAX_PRIVATE_CONVERSATION_BYTES
    ensures fault.Some? ==> Faulty(item, conv, seen, nodeCount, textBytes, limits)
  {
    conv := Conversation("", [], 0, Coverage(multiset{}, 0, 0), NotADigest(""), NotADigest(""));
    if item.NotAConversation? { return Some(InvalidConversation), conv; }
    var raw := item.raw;
    if nodeCount + (if raw.mappingOk then |raw.mapping| else 0) > limits.nodes { return Some(NodeLimit), conv; }
    ghost var path;
    var one;
    one, path := NormalizeOne(raw, limits);
    if one.NotNormalized? { return Some(one.error), conv; }
    conv := one.conv;
    assert FromItem(conv, item, limits.nodes);
    if conv.conversationId in seen { return Some(DuplicateConversation), conv; }
    if textBytes + TextBytes(conv.messages) > MAX_PRIVATE_CONVERSATION_BYTES { return Some(SelectedTextLimit), conv; }
    fault := None;
  }

  /**
   The conversations of one export, in order; an empty slot is set aside and counted. The
   export is refused only if it cannot be converted as a whole.
   */
  method Consume(items: seq<Item>, limits: Limits) returns (r: Consumed)
    ensures r.Consumed? ==> Convertible(items, r.normalized, limits) && |r.normalized| + r.quarantined == |items|
    ensures r.NotConsumed? ==> forall batch :: !Convertible(items, batch, limits)
  {
    var normalized: seq<Conversation> := [];
    var quarantined: nat, nodeCount: nat, textBytes: nat := 0, 0, 0;
    var seen: set<string> := {};
    for i := 0 to |items|
      invariant ConsumedSoFar(items, i, normalized, quarantined, nodeCount, textBytes, seen, limits)
    {
      if |normalized| + quarantined >= limits.conversations { return NotConsumed(ConversationLimit); }
      if items[i].EmptySlot? {
        SlotGrows(items, i, normalized, quarantined, nodeCount, textBytes, seen, limits);
        quarantined := quarantined + 1;
        continue;
      }
      var fault, conv := ConsumeItem(items[i], seen, nodeCount, textBytes, limits);
      if fault.Some? {
        FaultyIsRefused(items, i, normalized, quarantined, nodeCount, textBytes, seen, limits, conv);
        return NotConsumed(fault.value);
      }
      ConversationGrows(items, i, normalized, quarantined, nodeCount, textBytes, seen, limits, conv);
      normalized, seen := normalized + [conv], seen + {conv.conversationId};
      nodeCount := nodeCount + if items[i].raw.mappingOk then |items[i].raw.mapping| else 0;
      textBytes := textBytes + TextBytes(conv.messages);
    }
    assert items[..|items|] == items;
    r := Consumed(normalized, quarantined);
  }

  /**
   Every conversation of an accepted batch passes the source contract's own validation,
   whenever the node limit is at most the contract's message limit, as the default is.
   */
  lemma {:induction false} BatchIsValidSource(items: seq<Item>, batch: seq<Conversation>, limits: Limits, i: nat)
    requires Aligned(items, batch, limits.nodes) && BatchOk(batch)
    requires limits.nodes <= MAX_SOURCE_MESSAGES && i < |batch|
    ensures ValidConversation(batch[i])
  {
    EachFits(batch, i);
    var item := ItemOf(items, batch, limits.nodes, i);
    var path :| Acceptable(item.raw, limits.nodes, path) && batch[i] == SelectedOf(item.raw, path);
    AcceptedIsValid(item.raw, limits.nodes, path);
  }

  lemma {:induction false} ItemOf(items: seq<Item>, batch: seq<Conversation>, nodes: nat, i: nat) returns (item: Item)
    requires Aligned(items, batch, nodes) && i < |batch|
    ensures item in items && FromItem(batch[i], item, nodes)
  {
    var front := items[..|items| - 1];
    if items[|items| - 1].EmptySlot? {
      item := ItemOf(front, batch, nodes, i);
    } else if i == |batch| - 1 {
      item := items[|items| - 1];
    } else {
      item := ItemOf(front, batch[..|batch| - 1], nodes, i);
    }
  }
}
