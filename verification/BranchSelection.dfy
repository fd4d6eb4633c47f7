/**
 The selected branch of an exported conversation: follow the parents from the current
 node to a root. The export is untrusted, so links may be missing, malformed or circular.
 */
module BranchSelection {
  import opened Utf8Text

  datatype RawText = Absent | Null | NotText | RawText(value: string)

  datatype Author = AuthorInvalid | RoleUnknown | RoleUser | RoleAssistant | RoleOther

  datatype Visibility = MetadataInvalid | FlagInvalid | Visible | Hidden

  datatype RawType = TypePlain | TypeMultimodal | TypeInternal | TypeOther

  datatype Parts = PartsInvalid | Parts(parts: seq<Text>)

  datatype RawContent = ContentInvalid | RawContent(kind: RawType, parts: Parts)

  datatype RawMessage =
    | NoMessage
    | MessageInvalid
    | RawMessage(
        id: RawText, author: Author, visibility: Visibility, recipient: RawText, channel: RawText,
        content: RawContent, createTimeOk: bool)

  datatype Children = NoChildren | ChildrenInvalid | Children(ids: seq<string>)

  datatype Entry = NotAnObject | Node(stated: RawText, parent: RawText, children: Children, message: RawMessage)

  type Mapping = map<string, Entry>

  predicate Identifier(id: string) {
    1 <= |id| <= 1024
  }

  predicate Distinct(path: seq<string>) {
    forall i, j :: 0 <= i < j < |path| ==> path[i] != path[j]
  }

  predicate Present(mapping: Mapping, id: string) {
    id in mapping && mapping[id].Node?
  }

  predicate LinksTo(mapping: Mapping, child: string, parent: string) {
    Present(mapping, child) && mapping[child].parent == RawText(parent)
  }

  /** A path of true parent links from a root down to the current node, without repetition. */
  predicate ParentPath(mapping: Mapping, current: RawText, path: seq<string>) {
    && path != []
    && current == RawText(path[|path| - 1])
    && (forall k :: 0 <= k < |path| ==> Present(mapping, path[k]))
    && mapping[path[0]].parent == Null
    && (forall k :: 0 < k < |path| ==> LinksTo(mapping, path[k], path[k - 1]))
    && Distinct(path)
  }

  /** What one node says about itself. */
  predicate NodeOk(mapping: Mapping, id: string) {
    && Identifier(id) && Present(mapping, id)
    && (mapping[id].stated == Absent || mapping[id].stated == RawText(id))
    && !mapping[id].children.ChildrenInvalid?
  }

  /** If the parent lists its children at all, the child is among them. */
  predicate Reciprocal(mapping: Mapping, parent: string, child: string) {
    Present(mapping, parent) && (mapping[parent].children.Children? ==> child in mapping[parent].children.ids)
  }

  predicate Branch(mapping: Mapping, current: RawText, path: seq<string>) {
    && ParentPath(mapping, current, path)
    && (forall k :: 0 <= k < |path| ==> NodeOk(mapping, path[k]))
    && (forall k :: 0 < k < |path| ==> Reciprocal(mapping, path[k - 1], path[k]))
  }

  /**
   What a branch may be relied on for: each node is in the mapping under the identifier it
   states, if it states one, names its predecessor as its parent, and is listed by it, if
   it lists its children at all.
   */
  lemma BranchIsConsistent(mapping: Mapping, current: RawText, path: seq<string>, k: nat)
    requires Branch(mapping, current, path) && k < |path|
    ensures path[k] in mapping && mapping[path[k]].Node? && 1 <= |path[k]| <= 1024
    ensures mapping[path[k]].stated == Absent || mapping[path[k]].stated == RawText(path[k])
    ensures mapping[path[k]].parent == if k == 0 then Null else RawText(path[k - 1])
    ensures k > 0 ==> match mapping[path[k - 1]].children
      case NoChildren => true
      case ChildrenInvalid => false
      case Children(ids) => path[k] in ids
    ensures current == RawText(path[|path| - 1])
  {
    assert NodeOk(mapping, path[k]);
    if k > 0 {
      assert LinksTo(mapping, path[k], path[k - 1]) && Reciprocal(mapping, path[k - 1], path[k]);
      assert NodeOk(mapping, path[k - 1]);
    }
  }

  /** The nodes visited so far, child first, and the id to visit next. */
  predicate Climbed(mapping: Mapping, current: RawText, walked: seq<string>, next: string) {
    && current == RawText(if walked == [] then next else walked[0])
    && (forall k :: 0 <= k < |walked| - 1 ==> LinksTo(mapping, walked[k], walked[k + 1]))
    && (walked != [] ==> LinksTo(mapping, walked[|walked| - 1], next))
    && Distinct(walked)
  }

  /** Parent links leave no choice, so every path to the current node goes through what was visited. */
  lemma {:induction false} PathGoesThrough(
      mapping: Mapping, current: RawText, path: seq<string>, walked: seq<string>, next: string)
    requires ParentPath(mapping, current, path) && Climbed(mapping, current, walked, next)
    ensures |walked| < |path|
    ensures forall k :: 0 <= k < |walked| ==> path[|path| - 1 - k] == walked[k]
    ensures path[|path| - 1 - |walked|] == next
  {
    if walked != [] {
      var n := |walked| - 1;
      PathGoesThrough(mapping, current, path, walked[..n], walked[n]);
      var at := |path| - 1 - n;
      assert path[at] == walked[n];
      if at > 0 {
        assert LinksTo(mapping, path[at], path[at - 1]);
      }
      forall k | 0 <= k < |walked|
        ensures path[|path| - 1 - k] == walked[k]
      {
        if k < n { assert walked[..n][k] == walked[k]; }
      }
    }
  }

  /** There is at most one path, so there is at most one branch. */
  lemma PathIsUnique(mapping: Mapping, current: RawText, p: seq<string>, q: seq<string>)
    requires ParentPath(mapping, current, p) && ParentPath(mapping, current, q)
    ensures p == q
  {
    NoLonger(mapping, current, p, q);
    NoLonger(mapping, current, q, p);
    forall k | 0 <= k < |p|
      ensures p[k] == q[k]
    {
      SuffixAgrees(mapping, current, p, q, |p| - 1 - k);
    }
  }

  lemma NoLonger(mapping: Mapping, current: RawText, p: seq<string>, q: seq<string>)
    requires ParentPath(mapping, current, p) && ParentPath(mapping, current, q)
    ensures |q| <= |p|
  {
    if |p| < |q| {
      HasParent(mapping, current, q, |q| - |p|);
      SuffixAgrees(mapping, current, p, q, |p| - 1);
    }
  }

  lemma HasParent(mapping: Mapping, current: RawText, path: seq<string>, k: nat)
    requires ParentPath(mapping, current, path) && 0 < k < |path|
    ensures mapping[path[k]].parent == RawText(path[k - 1])
  {
    assert LinksTo(mapping, path[k], path[k - 1]);
  }

  lemma {:induction false} SuffixAgrees(mapping: Mapping, current: RawText, p: seq<string>, q: seq<string>, k: nat)
    requires ParentPath(mapping, current, p) && ParentPath(mapping, current, q)
    requires k < |p| <= |q|
    ensures p[|p| - 1 - k] == q[|q| - 1 - k]
  {
    if k > 0 {
      SuffixAgrees(mapping, current, p, q, k - 1);
      assert LinksTo(mapping, p[|p| - k], p[|p| - k - 1]);
      assert LinksTo(mapping, q[|q| - k], q[|q| - k - 1]);
    }
  }

  lemma {:induction false} DistinctFits(path: seq<string>, keys: set<string>)
    requires Distinct(path) && forall k :: 0 <= k < |path| ==> path[k] in keys
    ensures |path| <= |keys|
  {
    if path != [] {
      var last := path[|path| - 1];
      DistinctFits(path[..|path| - 1], keys - {last});
    }
  }

  /** No path is longer than the mapping has nodes. */
  lemma PathFits(mapping: Mapping, current: RawText, path: seq<string>)
    requires ParentPath(mapping, current, path)
    ensures |path| <= |mapping|
  {
    DistinctFits(path, mapping.Keys);
  }

  // ----- the search for the branch -----

  datatype PathError =
    | MissingCurrent | BranchCycle | MissingNode | NodeIdMismatch | InvalidChildren
    | NonreciprocalEdge | MissingParent | InvalidParent

  datatype Selected = Selected(path: seq<string>, unverified: nat) | Unselected(error: PathError)

  /** Links on the path whose parent does not list any children. */
  function UnverifiedLinks(mapping: Mapping, path: seq<string>): nat
  {
    if |path| <= 1 then 0
    else (if ListsNone(mapping, path[0]) then 1 else 0) + UnverifiedLinks(mapping, path[1..])
  }

  predicate ListsNone(mapping: Mapping, id: string) {
    Present(mapping, id) && mapping[id].children.NoChildren?
  }

  predicate Checked(mapping: Mapping, walked: seq<string>) {
    && (forall k :: 0 <= k < |walked| ==> NodeOk(mapping, walked[k]))
    && (forall k :: 0 < k < |walked| ==> Reciprocal(mapping, walked[k], walked[k - 1]))
  }

  function Reversed(s: seq<string>): (r: seq<string>)
    ensures |r| == |s|
    ensures forall k :: 0 <= k < |s| ==> r[k] == s[|s| - 1 - k]
  {
    if s == [] then [] else [s[|s| - 1]] + Reversed(s[..|s| - 1])
  }

  predicate Fails(mapping: Mapping, walked: seq<string>, next: string) {
    || next in walked
    || !NodeOk(mapping, next)
    || (walked != [] && !Reciprocal(mapping, next, walked[|walked| - 1]))
    || !(mapping[next].parent == Null || (mapping[next].parent.RawText? && Identifier(mapping[next].parent.value)))
  }

  /** A branch through what was visited goes on through the next node without a fault. */
  lemma BranchGoesOn(mapping: Mapping, current: RawText, walked: seq<string>, next: string, path: seq<string>)
    requires Climbed(mapping, current, walked, next) && Branch(mapping, current, path)
    ensures !Fails(mapping, walked, next)
  {
    PathGoesOn(mapping, current, walked, next, path);
    PathGoesThrough(mapping, current, path, walked, next);
    var at := |path| - 1 - |walked|;
    assert NodeOk(mapping, path[at]);
    if at > 0 {
      HasParent(mapping, current, path, at);
      assert NodeOk(mapping, path[at - 1]);
    }
    if walked != [] {
      assert path[at + 1] == walked[|walked| - 1];
      assert Reciprocal(mapping, path[at], path[at + 1]);
    }
  }

  lemma PathGoesOn(mapping: Mapping, current: RawText, walked: seq<string>, next: string, path: seq<string>)
    requires Climbed(mapping, current, walked, next) && ParentPath(mapping, current, path)
    ensures next !in walked && Present(mapping, next)
    ensures mapping[next].parent == Null || mapping[next].parent.RawText?
  {
    PathGoesThrough(mapping, current, path, walked, next);
    var at := |path| - 1 - |walked|;
    if at > 0 { HasParent(mapping, current, path, at); }
    forall k | 0 <= k < |walked|
      ensures walked[k] != next
    {
      assert path[|path| - 1 - k] == walked[k];
    }
  }

  /** Whatever stops the climb rules out every branch. */
  lemma FailureIsFinal(mapping: Mapping, current: RawText, walked: seq<string>, next: string)
    requires Climbed(mapping, current, walked, next)
    ensures Fails(mapping, walked, next) ==> forall path :: !Branch(mapping, current, path)
  {
    forall path | Branch(mapping, current, path)
      ensures !Fails(mapping, walked, next)
    {
      BranchGoesOn(mapping, current, walked, next, path);
    }
  }

  /** The climb, turned around at the root, is the branch. */
  lemma ClimbIsBranch(mapping: Mapping, current: RawText, walked: seq<string>, root: string)
    requires Climbed(mapping, current, walked, root) && Checked(mapping, walked + [root])
    requires root !in walked && Present(mapping, root) && mapping[root].parent == Null
    ensures Branch(mapping, current, Reversed(walked + [root]))
  {
    var all := walked + [root];
    var path := Reversed(all);
    assert forall k :: 0 <= k < |path| ==> path[k] == all[|all| - 1 - k];
    forall k | 0 < k < |path|
      ensures LinksTo(mapping, path[k], path[k - 1]) && Reciprocal(mapping, path[k - 1], path[k])
    {
      var j := |all| - 1 - k;
      assert LinksTo(mapping, all[j], all[j + 1]);
      assert Reciprocal(mapping, all[j + 1], all[j]);
    }
    forall k | 0 <= k < |path|
      ensures NodeOk(mapping, path[k])
    {
      assert NodeOk(mapping, all[|all| - 1 - k]);
    }
  }

  lemma CheckedGrows(mapping: Mapping, walked: seq<string>, next: string)
    requires Checked(mapping, walked) && NodeOk(mapping, next)
    requires walked != [] ==> Reciprocal(mapping, next, walked[|walked| - 1])
    ensures Checked(mapping, walked + [next])
    ensures UnverifiedLinks(mapping, Reversed(walked + [next]))
         == UnverifiedLinks(mapping, Reversed(walked)) + (if walked != [] && ListsNone(mapping, next) then 1 else 0)
  {
    assert (walked + [next])[..|walked|] == walked;
    assert Reversed(walked + [next]) == [next] + Reversed(walked);
    assert ([next] + Reversed(walked))[1..] == Reversed(walked);
  }

  /** Where the climb stands: what was visited, all of it checked, and the node to visit next. */
  ghost predicate ClimbedSoFar(mapping: Mapping, current: RawText, walked: seq<string>, next: string, unverified: nat) {
    && Climbed(mapping, current, walked, next) && Identifier(next)
    && Checked(mapping, walked)
    && unverified == UnverifiedLinks(mapping, Reversed(walked))
  }

  lemma ClimbGrows(mapping: Mapping, current: RawText, walked: seq<string>, next: string, unverified: nat)
    requires ClimbedSoFar(mapping, current, walked, next, unverified) && !Fails(mapping, walked, next)
    ensures
      var all := walked + [next];
      var counted := unverified + if walked != [] && ListsNone(mapping, next) then 1 else 0;
      && Checked(mapping, all) && counted == UnverifiedLinks(mapping, Reversed(all))
      && (mapping[next].parent.RawText? ==>
            |all| <= |mapping| && ClimbedSoFar(mapping, current, all, mapping[next].parent.value, counted))
      && (mapping[next].parent == Null ==> Branch(mapping, current, Reversed(all)))
  {
    CheckedGrows(mapping, walked, next);
    if mapping[next].parent.RawText? {
      ClimbFits(mapping, walked + [next]);
    } else {
      ClimbIsBranch(mapping, current, walked, next);
    }
  }

  /** What each refusal says is wrong with the next node of the climb. */
  predicate PathFault(error: PathError, mapping: Mapping, walked: seq<string>, next: string) {
    match error
    case MissingCurrent => false
    case BranchCycle => next in walked
    case MissingNode => !Present(mapping, next)
    case NodeIdMismatch => Present(mapping, next) && mapping[next].stated != Absent && mapping[next].stated != RawText(next)
    case InvalidChildren => Present(mapping, next) && mapping[next].children.ChildrenInvalid?
    case NonreciprocalEdge =>
      && Present(mapping, next) && mapping[next].children.Children?
      && walked != [] && walked[|walked| - 1] !in mapping[next].children.ids
    case MissingParent => Present(mapping, next) && mapping[next].parent == Absent
    case InvalidParent =>
      && Present(mapping, next)
      && (mapping[next].parent.NotText? || (mapping[next].parent.RawText? && !(1 <= |mapping[next].parent.value| <= 1024)))
  }

  /** The checks on one node of the climb, each of them final. */
  method CheckNode(mapping: Mapping, walked: seq<string>, nodeId: string) returns (fault: Option<PathError>)
    requires Identifier(nodeId)
    ensures fault.Some? <==> Fails(mapping, walked, nodeId)
    ensures fault.Some? ==> PathFault(fault.value, mapping, walked, nodeId)
  {
    if nodeId in walked { return Some(BranchCycle); }
    if nodeId !in mapping || mapping[nodeId].NotAnObject? { return Some(MissingNode); }
    var node := mapping[nodeId];
    if node.stated != Absent && node.stated != RawText(nodeId) { return Some(NodeIdMismatch); }
    if !node.children.NoChildren? {
      if node.children.ChildrenInvalid? { return Some(InvalidChildren); }
      if walked != [] && walked[|walked| - 1] !in node.children.ids { return Some(NonreciprocalEdge); }
    }
    if node.parent == Absent { return Some(MissingParent); }
    if node.parent != Null && !(node.parent.RawText? && Identifier(node.parent.value)) { return Some(InvalidParent); }
    fault := None;
  }

  /** The climb from the current node meets this fault. */
  ghost predicate MeetsFault(error: PathError, mapping: Mapping, current: RawText) {
    if error == MissingCurrent then !(current.RawText? && Identifier(current.value))
    else exists walked, next :: Climbed(mapping, current, walked, next) && PathFault(error, mapping, walked, next)
  }

  /** Climb from the current node; the branch is returned exactly when there is one, and a refusal is true of the climb. */
  method SelectedPath(mapping: Mapping, current: RawText) returns (r: Selected)
    ensures r.Selected? ==> Branch(mapping, current, r.path) && r.unverified == UnverifiedLinks(mapping, r.path)
    ensures r.Unselected? ==> forall path :: !Branch(mapping, current, path)
    ensures r.Unselected? ==> MeetsFault(r.error, mapping, current)
  {
    if !(current.RawText? && Identifier(current.value)) { return Unselected(MissingCurrent); }
    var nodeId := current.value;
    var walked: seq<string> := [];
    var unverified := 0;
    while true
      invariant ClimbedSoFar(mapping, current, walked, nodeId, unverified)
      decreases |mapping| - |walked|
    {
      FailureIsFinal(mapping, current, walked, nodeId);
      var fault := CheckNode(mapping, walked, nodeId);
      if fault.Some? { return Unselected(fault.value); }
      ClimbGrows(mapping, current, walked, nodeId, unverified);
      if mapping[nodeId].children.NoChildren? && walked != [] { unverified := unverified + 1; }
      walked := walked + [nodeId];
      if mapping[nodeId].parent == Null { return Selected(Reversed(walked), unverified); }
      nodeId := mapping[nodeId].parent.value;
    }
  }

  lemma ClimbFits(mapping: Mapping, walked: seq<string>)
    requires Distinct(walked) && Checked(mapping, walked)
    ensures |walked| <= |mapping|
  {
    DistinctFits(walked, mapping.Keys);
  }

  // ----- the inspector's own walk -----

  datatype ChainStatus = ChainMissingCurrent | ChainInvalidParent | ChainCycle | ChainMissingParent | ChainInvalidNode | Resolved

  predicate Stuck(mapping: Mapping, walked: seq<string>, next: string) {
    || next in walked
    || !Present(mapping, next)
    || !(mapping[next].parent == Null || mapping[next].parent.RawText?)
  }

  lemma StuckIsFinal(mapping: Mapping, current: RawText, walked: seq<string>, next: string)
    requires Climbed(mapping, current, walked, next)
    ensures Stuck(mapping, walked, next) ==> forall path :: !ParentPath(mapping, current, path)
  {
    forall path | ParentPath(mapping, current, path)
      ensures !Stuck(mapping, walked, next)
    {
      PathGoesOn(mapping, current, walked, next, path);
    }
  }

  lemma ClimbIsPath(mapping: Mapping, current: RawText, walked: seq<string>, root: string)
    requires Climbed(mapping, current, walked, root)
    requires root !in walked && Present(mapping, root) && mapping[root].parent == Null
    ensures ParentPath(mapping, current, Reversed(walked + [root]))
  {
    var all := walked + [root];
    var path := Reversed(all);
    assert forall k :: 0 <= k < |path| ==> path[k] == all[|all| - 1 - k];
    forall k | 0 < k < |path|
      ensures LinksTo(mapping, path[k], path[k - 1])
    {
      var j := |all| - 1 - k;
      assert LinksTo(mapping, all[j], all[j + 1]);
    }
    forall k | 0 <= k < |path|
      ensures Present(mapping, path[k])
    {
      if k > 0 { assert LinksTo(mapping, path[k], path[k - 1]); }
    }
  }

  /** The walk resolves exactly when a parent path exists, and counts its nodes. */
  method Chain(mapping: Mapping, current: RawText) returns (status: ChainStatus, length: nat)
    ensures status == Resolved ==> exists path :: ParentPath(mapping, current, path) && |path| == length
    ensures status != Resolved ==> forall path :: !ParentPath(mapping, current, path)
    ensures length <= |mapping|
  {
    if !(current.RawText? && current.value in mapping) { return ChainMissingCurrent, 0; }
    var at := current;
    ghost var last := current.value;
    var seen: seq<string> := [];
    while at != Null
      invariant Distinct(seen) && forall k :: 0 <= k < |seen| ==> seen[k] in mapping
      invariant at.RawText? ==> Climbed(mapping, current, seen, at.value)
      invariant !at.RawText? ==> seen != [] && last == seen[|seen| - 1] && Present(mapping, last)
      invariant !at.RawText? ==> mapping[last].parent == at && at != Absent
      invariant !at.RawText? ==> Climbed(mapping, current, seen[..|seen| - 1], last) && last !in seen[..|seen| - 1]
      decreases |mapping| - |seen|
    {
      DistinctFits(seen, mapping.Keys);
      if !at.RawText? {
        StuckIsFinal(mapping, current, seen[..|seen| - 1], last);
        return ChainInvalidParent, |seen|;
      }
      var id := at.value;
      StuckIsFinal(mapping, current, seen, id);
      if id in seen { return ChainCycle, |seen|; }
      if id !in mapping { return ChainMissingParent, |seen|; }
      ghost var before := seen;
      seen, last := seen + [id], id;
      DistinctFits(seen, mapping.Keys);
      if mapping[id].NotAnObject? || mapping[id].parent == Absent { return ChainInvalidNode, |seen|; }
      at := mapping[id].parent;
      assert seen[..|seen| - 1] == before;
    }
    DistinctFits(seen, mapping.Keys);
    ClimbIsPath(mapping, current, seen[..|seen| - 1], last);
    assert seen[..|seen| - 1] + [last] == seen;
    return Resolved, |seen|;
  }

  /** Where both succeed they follow the same path; a branch always resolves. */
  lemma BranchResolves(mapping: Mapping, current: RawText, branch: seq<string>, path: seq<string>)
    requires Branch(mapping, current, branch)
    requires ParentPath(mapping, current, path)
    ensures path == branch && |path| <= |mapping|
  {
    PathIsUnique(mapping, current, branch, path);
    PathFits(mapping, current, path);
  }
}
