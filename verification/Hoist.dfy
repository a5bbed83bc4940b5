/**
 `hoist_from_leaves`: the in-place pass loop over the node array, proved to turn a
 well-formed update into the `Hoisted` forest whatever the order of the nodes.
 */
module Hoist {
  import opened Forests
  import opened AccessTree

  /** `index` sends every id of the array to a place where it occurs. */
  ghost predicate Indexes(nodes: seq<Node>, index: map<NodeId, nat>) {
    && (forall i :: 0 <= i < |nodes| ==> nodes[i].id in index)
    && (forall id :: id in index ==> index[id] < |nodes| && nodes[index[id]].id == id)
  }

  /** The state between two inner-loop rounds. */
  ghost predicate Progress(nodes: seq<Node>, f: Forest, parents: map<NodeId, NodeId>, position: nat) {
    && WellFormed(nodes, f)
    && ParentsRecorded(nodes, parents) && ParentsReal(nodes, parents)
    && position <= |nodes|
    && (forall j :: 0 <= j < position ==> Done(nodes, parents, j))
  }

  ghost function Moved(nodes: seq<Node>, position: nat, above: nat, kept: seq<NodeId>, lifted: seq<NodeId>): seq<Node>
    requires position < |nodes| && above < |nodes|
  {
    var trimmed := nodes[position := nodes[position].(children := kept)];
    trimmed[above := trimmed[above].(children := SpliceAfter(trimmed[above].children, nodes[position].id, lifted))]
  }

  // ----- sequences -----

  lemma {:induction false} FilterIn(s: seq<NodeId>, keep: set<NodeId>, want: bool)
    ensures forall c :: c in Filter(s, keep, want) <==> c in s && (c in keep) == want
  {
    if s != [] {
      FilterIn(s[1..], keep, want);
      assert s == [s[0]] + s[1..];
    }
  }

  lemma {:induction false} FilterAppend(s: seq<NodeId>, c: NodeId, keep: set<NodeId>, want: bool)
    ensures Filter(s + [c], keep, want) == Filter(s, keep, want) + (if (c in keep) == want then [c] else [])
  {
    if s == [] {
    } else {
      assert (s + [c])[1..] == s[1..] + [c];
      FilterAppend(s[1..], c, keep, want);
    }
  }

  lemma {:induction false} SpliceIn(s: seq<NodeId>, x: NodeId, lifted: seq<NodeId>)
    ensures forall c :: c in SpliceAfter(s, x, lifted) <==> c in s || c in lifted
  {
    if s != [] {
      assert s == [s[0]] + s[1..];
      SpliceIn(s[1..], x, lifted);
    }
  }

  // ----- one move -----

  /** Everything the move at `position` relies on. */
  ghost predicate Moving(nodes: seq<Node>, f: Forest, parents: map<NodeId, NodeId>, position: nat, above: nat,
                         kept: seq<NodeId>, lifted: seq<NodeId>)
  {
    && Progress(nodes, f, parents, position)
    && position < |nodes| && above < |nodes|
    && IsLeafElement(nodes[position])
    && nodes[position].id in parents && nodes[above].id == parents[nodes[position].id]
    && kept == Filter(nodes[position].children, TextIds(nodes), true)
    && lifted == Filter(nodes[position].children, TextIds(nodes), false)
    && lifted != []
  }

  lemma {:induction false} MoverFacts(nodes: seq<Node>, f: Forest, parents: map<NodeId, NodeId>, position: nat,
                                      above: nat, kept: seq<NodeId>, lifted: seq<NodeId>)
    requires Moving(nodes, f, parents, position, above, kept, lifted)
    ensures var x := nodes[position].id;
            && x in nodes[above].children && x !in Roots(f) && x != nodes[above].id && above != position
            && x !in TextIds(nodes) && x in LeafIds(nodes)
  {
    var x := nodes[position].id;
    var i :| 0 <= i < |nodes| && nodes[i].id == parents[x] && x in nodes[i].children;
    assert i == above;
    ChildFacts(nodes, f, above, above, x);
    FilterIn(nodes[position].children, TextIds(nodes), false);
    assert lifted[0] in lifted;
    assert !nodes[position].role.TextRun?;
    assert forall k :: 0 <= k < |nodes| && nodes[k].id == x ==> k == position;
  }

  lemma {:induction false} MoveSameNodes(nodes: seq<Node>, position: nat, above: nat, kept: seq<NodeId>,
                                         lifted: seq<NodeId>)
    requires position < |nodes| && above < |nodes|
    ensures SameNodes(nodes, Moved(nodes, position, above, kept, lifted))
  {}

  lemma {:induction false} MoveLinks(nodes: seq<Node>, position: nat, above: nat, kept: seq<NodeId>,
                                     lifted: seq<NodeId>)
    requires position < |nodes| && above < |nodes| && position != above && DistinctIds(nodes)
    ensures var nodes' := Moved(nodes, position, above, kept, lifted);
            var x, p := nodes[position].id, nodes[above].id;
            && DistinctIds(nodes')
            && ChildrenOf(Links(nodes'), x) == kept
            && ChildrenOf(Links(nodes'), p) == SpliceAfter(nodes[above].children, x, lifted)
            && forall v :: v != x && v != p ==> ChildrenOf(Links(nodes'), v) == ChildrenOf(Links(nodes), v)
  {
    var nodes' := Moved(nodes, position, above, kept, lifted);
    MoveSameNodes(nodes, position, above, kept, lifted);
    SameNodesIds(nodes, nodes');
    LinkAt(nodes', position);
    LinkAt(nodes', above);
    forall v | v != nodes[position].id && v != nodes[above].id
      ensures ChildrenOf(Links(nodes'), v) == ChildrenOf(Links(nodes), v)
    {
      LinksElsewhere(nodes, nodes', position, above, v);
    }
  }

  lemma {:induction false} MoveKeepsForest(nodes: seq<Node>, f: Forest, parents: map<NodeId, NodeId>, position: nat,
                                           above: nat, kept: seq<NodeId>, lifted: seq<NodeId>)
    requires Moving(nodes, f, parents, position, above, kept, lifted)
    ensures IsForest(Moved(nodes, position, above, kept, lifted), Lift(f, nodes[position].id, TextIds(nodes)))
  {
    var nodes' := Moved(nodes, position, above, kept, lifted);
    var x, p, texts := nodes[position].id, nodes[above].id, TextIds(nodes);
    MoverFacts(nodes, f, parents, position, above, kept, lifted);
    MoveLinks(nodes, position, above, kept, lifted);
    LinkAt(nodes, position);
    LinkAt(nodes, above);
    forall q | q in Ids(f) && x in ChildrenOf(Links(nodes), q) ensures q == p {
      var i := NodeOf(nodes, q, x);
    }
    MatchesLift(Links(nodes), Links(nodes'), f, x, p, nodes[position].children, texts);
    LiftKeepsIds(f, x, texts);
    MoveSameNodes(nodes, position, above, kept, lifted);
  }

  lemma {:induction false} LinksElsewhere(nodes: seq<Node>, nodes': seq<Node>, position: nat, above: nat, v: NodeId)
    requires DistinctIds(nodes) && DistinctIds(nodes') && |nodes| == |nodes'| && position < |nodes| && above < |nodes|
    requires forall i :: 0 <= i < |nodes| ==> nodes'[i].id == nodes[i].id
    requires forall i :: 0 <= i < |nodes| && i != position && i != above ==> nodes'[i] == nodes[i]
    requires v != nodes[position].id && v != nodes[above].id
    ensures ChildrenOf(Links(nodes'), v) == ChildrenOf(Links(nodes), v)
  {
    if i :| 0 <= i < |nodes| && nodes[i].id == v {
      LinkAt(nodes, i);
      LinkAt(nodes', i);
    } else {
      assert v !in Links(nodes) && v !in Links(nodes');
    }
  }

  function Reparented(parents: map<NodeId, NodeId>, lifted: seq<NodeId>, p: NodeId): map<NodeId, NodeId> {
    parents + map c | c in lifted :: p
  }

  /** `nodes'` is `nodes` after `lifted`, some children of `position`, moved to `above`. */
  ghost predicate Relinked(nodes: seq<Node>, nodes': seq<Node>, position: nat, above: nat, lifted: seq<NodeId>) {
    && |nodes'| == |nodes| && position < |nodes| && above < |nodes| && position != above
    && (forall i :: 0 <= i < |nodes| ==> nodes'[i].id == nodes[i].id)
    && (forall i :: 0 <= i < |nodes| && i != position && i != above ==> nodes'[i].children == nodes[i].children)
    && (forall c :: c in lifted ==> c in nodes[position].children)
    && (forall c :: c in nodes'[position].children <==> c in nodes[position].children && c !in lifted)
    && (forall c :: c in nodes'[above].children <==> c in nodes[above].children || c in lifted)
  }

  lemma {:induction false} MoveRelinks(nodes: seq<Node>, f: Forest, parents: map<NodeId, NodeId>, position: nat,
                                       above: nat, kept: seq<NodeId>, lifted: seq<NodeId>)
    requires Moving(nodes, f, parents, position, above, kept, lifted)
    ensures Relinked(nodes, Moved(nodes, position, above, kept, lifted), position, above, lifted)
    ensures forall c :: c in lifted ==> c !in TextIds(nodes)
  {
    MoverFacts(nodes, f, parents, position, above, kept, lifted);
    FilterIn(nodes[position].children, TextIds(nodes), true);
    FilterIn(nodes[position].children, TextIds(nodes), false);
    SpliceIn(nodes[above].children, nodes[position].id, lifted);
  }

  lemma {:induction false} RelinkKeepsRecorded(nodes: seq<Node>, nodes': seq<Node>, parents: map<NodeId, NodeId>,
                                               position: nat, above: nat, lifted: seq<NodeId>)
    requires Relinked(nodes, nodes', position, above, lifted)
    requires DistinctIds(nodes) && ParentsRecorded(nodes, parents)
    ensures ParentsRecorded(nodes', Reparented(parents, lifted, nodes[above].id))
  {
    var parents' := Reparented(parents, lifted, nodes[above].id);
    forall i, c | 0 <= i < |nodes'| && c in nodes'[i].children
      ensures c in parents' && parents'[c] == nodes'[i].id
    {
      if i != position && i != above {
        assert c in nodes[i].children;
        assert parents[c] != nodes[position].id;
      }
    }
  }

  lemma {:induction false} RelinkKeepsReal(nodes: seq<Node>, nodes': seq<Node>, parents: map<NodeId, NodeId>,
                                           position: nat, above: nat, lifted: seq<NodeId>)
    requires Relinked(nodes, nodes', position, above, lifted)
    requires ParentsReal(nodes, parents)
    ensures ParentsReal(nodes', Reparented(parents, lifted, nodes[above].id))
  {
    var parents' := Reparented(parents, lifted, nodes[above].id);
    forall c | c in parents'
      ensures exists i :: 0 <= i < |nodes'| && nodes'[i].id == parents'[c] && c in nodes'[i].children
    {
      if c in lifted {
        assert nodes'[above].id == parents'[c] && c in nodes'[above].children;
      } else {
        var i :| 0 <= i < |nodes| && nodes[i].id == parents[c] && c in nodes[i].children;
        assert nodes'[i].id == parents'[c] && c in nodes'[i].children;
      }
    }
  }

  lemma {:induction false} MoveKeepsTexts(nodes: seq<Node>, f: Forest, parents: map<NodeId, NodeId>, position: nat,
                                          above: nat, kept: seq<NodeId>, lifted: seq<NodeId>)
    requires Moving(nodes, f, parents, position, above, kept, lifted)
    ensures TextRunsHoldTextRuns(Moved(nodes, position, above, kept, lifted))
  {
    var nodes' := Moved(nodes, position, above, kept, lifted);
    MoverFacts(nodes, f, parents, position, above, kept, lifted);
    MoveSameNodes(nodes, position, above, kept, lifted);
    SameNodesIds(nodes, nodes');
    FilterIn(nodes[position].children, TextIds(nodes), true);
    forall i, c | 0 <= i < |nodes'| && nodes'[i].role.TextRun? && c in nodes'[i].children
      ensures c in TextIds(nodes')
    {
    }
  }

  /** Rounds already made stay made: a processed leaf element never regains content. */
  lemma {:induction false} RelinkKeepsDone(nodes: seq<Node>, nodes': seq<Node>, parents: map<NodeId, NodeId>,
                                           position: nat, above: nat, lifted: seq<NodeId>, j: nat)
    requires Relinked(nodes, nodes', position, above, lifted) && SameNodes(nodes, nodes')
    requires TextIds(nodes') == TextIds(nodes)
    requires ParentsRecorded(nodes, parents) && j < |nodes|
    requires j == position ==> forall c :: c in nodes'[position].children ==> c in TextIds(nodes)
    requires j != position ==> Done(nodes, parents, j)
    requires nodes[position].id in nodes[above].children && nodes[position].id !in TextIds(nodes)
    ensures Done(nodes', Reparented(parents, lifted, nodes[above].id), j)
  {
    if j != position && nodes[j].id in lifted {
      assert nodes[j].id in nodes[position].children;
    }
    assert IsLeafElement(nodes'[j]) == IsLeafElement(nodes[j]);
  }

  lemma {:induction false} MoveKeepsProgress(nodes: seq<Node>, f: Forest, parents: map<NodeId, NodeId>, position: nat,
                                             above: nat, kept: seq<NodeId>, lifted: seq<NodeId>)
    requires Moving(nodes, f, parents, position, above, kept, lifted)
    ensures var nodes' := Moved(nodes, position, above, kept, lifted);
            var f' := Lift(f, nodes[position].id, TextIds(nodes));
            && Progress(nodes', f', Reparented(parents, lifted, nodes[above].id), position + 1)
            && Result(nodes', f') == Result(nodes, f)
            && !SettledBelowRoots(f, TextIds(nodes), LeafIds(nodes))
  {
    var nodes' := Moved(nodes, position, above, kept, lifted);
    var x := nodes[position].id;
    MoverFacts(nodes, f, parents, position, above, kept, lifted);
    MoveSameNodes(nodes, position, above, kept, lifted);
    SameNodesIds(nodes, nodes');
    MoveKeepsForest(nodes, f, parents, position, above, kept, lifted);
    MoveRelinks(nodes, f, parents, position, above, kept, lifted);
    RelinkKeepsRecorded(nodes, nodes', parents, position, above, lifted);
    RelinkKeepsReal(nodes, nodes', parents, position, above, lifted);
    FilterIn(nodes[position].children, TextIds(nodes), true);
    MoveKeepsTexts(nodes, f, parents, position, above, kept, lifted);
    forall j | 0 <= j < position + 1
      ensures Done(nodes', Reparented(parents, lifted, nodes[above].id), j)
    {
      RelinkKeepsDone(nodes, nodes', parents, position, above, lifted, j);
    }
    TextClosedFromLinks(nodes, f);
    LiftKeepsHoisted(f, x, TextIds(nodes), LeafIds(nodes));
    if SettledBelowRoots(f, TextIds(nodes), LeafIds(nodes)) {
      LinkAt(nodes, position);
      KidsFacts(Links(nodes), f, x);
      SettledKids(f, x, TextIds(nodes), LeafIds(nodes));
      OnlyFacts(Kids(f, x), TextIds(nodes), false);
    }
  }

  lemma {:induction false} SettledKids(f: Forest, p: NodeId, texts: set<NodeId>, leaves: set<NodeId>)
    requires p in Ids(f) && p in leaves
    requires Settled(f, texts, leaves) || (SettledBelowRoots(f, texts, leaves) && p !in Roots(f))
    ensures Only(Kids(f, p), texts, false) == Nil
  {
    var Tree(id, kids, rest) := f;
    assert Roots(f)[0] == id;
    assert forall y :: y in Roots(rest) ==> y in Roots(f);
    if id == p {
    } else if p in Ids(kids) {
      SettledKids(kids, p, texts, leaves);
    } else {
      SettledKids(rest, p, texts, leaves);
    }
  }

  /** A pass that reached the end has produced the reference result. */
  lemma {:induction false} ProgressEnd(nodes: seq<Node>, f: Forest, parents: map<NodeId, NodeId>)
    requires Progress(nodes, f, parents, |nodes|)
    ensures Result(nodes, f) == f
  {
    forall v | v in Ids(f) && v !in Roots(f) ensures v in parents {
      var i := NonRootHasNode(nodes, f, v);
    }
    BelowRootsSettled(nodes, parents, f);
    SettledHoistedIsFixed(f, TextIds(nodes), LeafIds(nodes));
  }

  // ----- the code -----

  method PartitionChildren(nodes: array<Node>, index: map<NodeId, nat>, children: seq<NodeId>)
    returns (kept: seq<NodeId>, lifted: seq<NodeId>)
    requires Indexes(nodes[..], index)
    ensures DistinctIds(nodes[..]) ==>
              && kept == Filter(children, TextIds(nodes[..]), true)
              && lifted == Filter(children, TextIds(nodes[..]), false)
    ensures lifted == [] ==> kept == children
  {
    kept, lifted := [], [];
    ghost var texts := set id | id in index && nodes[index[id]].role.TextRun?;
    for at := 0 to |children|
      invariant kept == Filter(children[..at], texts, true)
      invariant lifted == Filter(children[..at], texts, false)
      invariant lifted == [] ==> kept == children[..at]
    {
      var child := children[at];
      assert children[..at + 1] == children[..at] + [child];
      FilterAppend(children[..at], child, texts, true);
      FilterAppend(children[..at], child, texts, false);
      if child in index && nodes[index[child]].role.TextRun? {
        kept := kept + [child];
      } else {
        lifted := lifted + [child];
      }
    }
    assert children[..|children|] == children;
    if DistinctIds(nodes[..]) {
      assert texts == TextIds(nodes[..]);
    }
  }

  method InsertAfter(siblings: seq<NodeId>, id: NodeId, lifted: seq<NodeId>) returns (spliced: seq<NodeId>)
    ensures spliced == SpliceAfter(siblings, id, lifted)
  {
    var at := 0;
    while at < |siblings| && siblings[at] != id
      invariant at <= |siblings|
      invariant SpliceAfter(siblings, id, lifted) == siblings[..at] + SpliceAfter(siblings[at..], id, lifted)
    {
      assert siblings[at..][1..] == siblings[at + 1..];
      assert siblings[..at + 1] == siblings[..at] + [siblings[at]];
      at := at + 1;
    }
    var after := if at < |siblings| then at + 1 else |siblings|;
    spliced := siblings[..after] + lifted + siblings[after..];
    if at < |siblings| {
      assert siblings[at..][1..] == siblings[after..] && siblings[..after] == siblings[..at] + [id];
    }
  }

  method BuildIndex(nodes: array<Node>) returns (index: map<NodeId, nat>)
    ensures Indexes(nodes[..], index)
  {
    index := map[];
    for at := 0 to nodes.Length
      invariant forall i :: 0 <= i < at ==> nodes[i].id in index
      invariant forall id :: id in index ==> index[id] < at && nodes[index[id]].id == id
    {
      index := index[nodes[at].id := at];
    }
  }

  /** Every child met so far has a recorded parent that lists it. */
  ghost predicate Recorded(nodes: seq<Node>, parents: map<NodeId, NodeId>, at: nat) {
    && ParentsReal(nodes, parents)
    && forall i, c :: 0 <= i < at <= |nodes| && c in nodes[i].children ==> c in parents
  }

  method BuildParents(nodes: array<Node>) returns (parents: map<NodeId, NodeId>)
    ensures Recorded(nodes[..], parents, nodes.Length)
  {
    parents := map[];
    for at := 0 to nodes.Length
      invariant Recorded(nodes[..], parents, at)
    {
      var children := nodes[at].children;
      for k := 0 to |children|
        invariant Recorded(nodes[..], parents, at)
        invariant forall c :: c in children[..k] ==> c in parents
      {
        ghost var earlier := parents;
        parents := parents[children[k] := nodes[at].id];
        RecordOne(nodes[..], earlier, at, children[k]);
        assert children[..k + 1] == children[..k] + [children[k]];
      }
      assert children[..|children|] == children;
    }
  }

  lemma {:induction false} RecordOne(nodes: seq<Node>, parents: map<NodeId, NodeId>, at: nat, child: NodeId)
    requires at < |nodes| && child in nodes[at].children && Recorded(nodes, parents, at)
    ensures Recorded(nodes, parents[child := nodes[at].id], at)
  {
    var parents' := parents[child := nodes[at].id];
    forall c | c in parents'
      ensures exists i :: 0 <= i < |nodes| && nodes[i].id == parents'[c] && c in nodes[i].children
    {
      if c == child {
        assert nodes[at].id == parents'[c];
      } else {
        assert c in parents;
      }
    }
  }

  lemma {:induction false} RecordedInForest(nodes: seq<Node>, parents: map<NodeId, NodeId>, f: Forest)
    requires IsForest(nodes, f) && Recorded(nodes, parents, |nodes|)
    ensures ParentsRecorded(nodes, parents)
  {
    forall i, c | 0 <= i < |nodes| && c in nodes[i].children
      ensures c in parents && parents[c] == nodes[i].id
    {
      var j :| 0 <= j < |nodes| && nodes[j].id == parents[c] && c in nodes[j].children;
      ChildFacts(nodes, f, i, j, c);
    }
  }

  /** One sweep over the array. */
  method Sweep(nodes: array<Node>, ghost f: Forest) returns (moved: bool)
    modifies nodes
    ensures SameNodes(old(nodes[..]), nodes[..])
    ensures !moved ==> nodes[..] == old(nodes[..])
    ensures WellFormed(old(nodes[..]), f) ==>
              WellFormed(nodes[..], Result(old(nodes[..]), f)) && (moved <==> Unsettled(nodes[..], f))
  {
    ghost var before := nodes[..];
    var index := BuildIndex(nodes);
    var parents := BuildParents(nodes);
    SweepStart(before, f, parents);
    ghost var g := f;
    moved := false;
    for position := 0 to nodes.Length
      invariant Indexes(nodes[..], index)
      invariant forall c :: c in parents ==> parents[c] in index
      invariant Sweeping(before, f, nodes[..], g, parents, position, moved)
    {
      ghost var nodes0, g0, parents0 := nodes[..], g, parents;
      var lifts;
      parents, lifts, g := Round(nodes, index, parents, position, g);
      SweepStep(before, f, nodes0, g0, parents0, position, moved, nodes[..], g, parents, lifts);
      moved := moved || lifts;
    }
    SweepEnd(before, f, nodes[..], g, parents, moved);
  }

  /** A sweep before the turn of `position`: where it stands, and that the reference result is the same. */
  ghost predicate Sweeping(before: seq<Node>, f: Forest, nodes: seq<Node>, g: Forest, parents: map<NodeId, NodeId>,
                           position: nat, moved: bool)
  {
    && SameNodes(before, nodes)
    && (!moved ==> nodes == before && g == f)
    && (WellFormed(before, f) ==>
          && Progress(nodes, g, parents, position)
          && Result(nodes, g) == Result(before, f)
          && (moved ==> Unsettled(before, f)))
  }

  lemma {:induction false} SweepStart(nodes: seq<Node>, f: Forest, parents: map<NodeId, NodeId>)
    requires Recorded(nodes, parents, |nodes|)
    ensures Sweeping(nodes, f, nodes, f, parents, 0, false)
  {
    if WellFormed(nodes, f) {
      RecordedInForest(nodes, parents, f);
    }
  }

  lemma {:induction false} SweepStep(before: seq<Node>, f: Forest, nodes: seq<Node>, g: Forest,
                                     parents: map<NodeId, NodeId>, position: nat, moved: bool,
                                     nodes': seq<Node>, g': Forest, parents': map<NodeId, NodeId>, lifts: bool)
    requires Sweeping(before, f, nodes, g, parents, position, moved)
    requires SameNodes(nodes, nodes') && (!lifts ==> nodes' == nodes && g' == g)
    requires RoundDone(nodes, g, parents, position, nodes', g', parents', lifts)
    ensures Sweeping(before, f, nodes', g', parents', position + 1, moved || lifts)
  {}

  lemma {:induction false} SweepEnd(before: seq<Node>, f: Forest, nodes: seq<Node>, g: Forest,
                                    parents: map<NodeId, NodeId>, moved: bool)
    requires Sweeping(before, f, nodes, g, parents, |nodes|, moved)
    ensures WellFormed(before, f) ==> WellFormed(nodes, Result(before, f)) && (moved <==> Unsettled(nodes, f))
  {
    if WellFormed(before, f) {
      SameNodesIds(before, nodes);
      ProgressEnd(nodes, g, parents);
      ResultIsSettled(before, f);
    }
  }

  /** What one round of the inner loop achieves. */
  ghost predicate RoundDone(before: seq<Node>, f: Forest, parents: map<NodeId, NodeId>, position: nat,
                            nodes: seq<Node>, f': Forest, parents': map<NodeId, NodeId>, moved: bool)
  {
    Progress(before, f, parents, position) ==>
      && Progress(nodes, f', parents', position + 1)
      && Result(nodes, f') == Result(before, f)
      && (moved ==> !SettledBelowRoots(f, TextIds(before), LeafIds(before)))
  }

  /** The inner-loop body for one node. */
  method Round(nodes: array<Node>, index: map<NodeId, nat>, parents: map<NodeId, NodeId>, position: nat,
               ghost f: Forest)
    returns (parents': map<NodeId, NodeId>, moved: bool, ghost f': Forest)
    requires position < nodes.Length && Indexes(nodes[..], index)
    requires forall c :: c in parents ==> parents[c] in index
    modifies nodes
    ensures forall c :: c in parents' ==> parents'[c] in index
    ensures SameNodes(old(nodes[..]), nodes[..])
    ensures !moved ==> nodes[..] == old(nodes[..]) && f' == f
    ensures RoundDone(old(nodes[..]), f, parents, position, nodes[..], f', parents', moved)
  {
    ghost var before := nodes[..];
    parents', moved, f' := parents, false, f;
    var node := nodes[position];
    if !IsLeafElement(node) || node.id !in parents {
      NothingToMove(before, f, parents, position);
      return;
    }
    var parent := parents[node.id];
    var kept, lifted := PartitionChildren(nodes, index, node.children);
    if lifted == [] {
      NothingToMove(before, f, parents, position);
      return;
    }
    // Every recorded parent is indexed, so the source's early `continue` here never runs.
    moved := true;
    parents', f' := MoveUp(nodes, parents, position, index[parent], kept, lifted, f);
  }

  /** The rest of a round that moves something: the two child lists, then the parent map. */
  method MoveUp(nodes: array<Node>, parents: map<NodeId, NodeId>, position: nat, above: nat,
                kept: seq<NodeId>, lifted: seq<NodeId>, ghost f: Forest)
    returns (parents': map<NodeId, NodeId>, ghost f': Forest)
    requires position < nodes.Length && above < nodes.Length && IsLeafElement(nodes[position]) && lifted != []
    requires nodes[position].id in parents && nodes[above].id == parents[nodes[position].id]
    requires DistinctIds(nodes[..]) ==>
               && kept == Filter(nodes[position].children, TextIds(nodes[..]), true)
               && lifted == Filter(nodes[position].children, TextIds(nodes[..]), false)
    modifies nodes
    ensures parents' == Reparented(parents, lifted, parents[old(nodes[position].id)])
    ensures SameNodes(old(nodes[..]), nodes[..])
    ensures RoundDone(old(nodes[..]), f, parents, position, nodes[..], f', parents', true)
  {
    ghost var before := nodes[..];
    var parent := parents[nodes[position].id];
    f' := Lift(f, nodes[position].id, TextIds(before));
    Move(nodes, position, above, kept, lifted);
    parents' := Reparented(parents, lifted, parent);
    MoveSameNodes(before, position, above, kept, lifted);
    MoveIsRound(before, f, parents, position, above, kept, lifted);
  }

  /** Trim the node at `position`, then give its parent what was taken. */
  method Move(nodes: array<Node>, position: nat, above: nat, kept: seq<NodeId>, lifted: seq<NodeId>)
    requires position < nodes.Length && above < nodes.Length
    modifies nodes
    ensures nodes[..] == Moved(old(nodes[..]), position, above, kept, lifted)
  {
    nodes[position] := nodes[position].(children := kept);
    var siblings := InsertAfter(nodes[above].children, nodes[position].id, lifted);
    nodes[above] := nodes[above].(children := siblings);
  }

  lemma {:induction false} NothingToMove(nodes: seq<Node>, f: Forest, parents: map<NodeId, NodeId>, position: nat)
    requires position < |nodes|
    requires IsLeafElement(nodes[position]) && nodes[position].id in parents && DistinctIds(nodes) ==>
               Filter(nodes[position].children, TextIds(nodes), false) == []
    ensures RoundDone(nodes, f, parents, position, nodes, f, parents, false)
  {
    if Progress(nodes, f, parents, position) {
      FilterIn(nodes[position].children, TextIds(nodes), false);
      assert Done(nodes, parents, position);
    }
  }

  lemma {:induction false} MoveIsRound(nodes: seq<Node>, f: Forest, parents: map<NodeId, NodeId>, position: nat,
                                       above: nat, kept: seq<NodeId>, lifted: seq<NodeId>)
    requires position < |nodes| && above < |nodes|
    requires IsLeafElement(nodes[position])
    requires nodes[position].id in parents && nodes[above].id == parents[nodes[position].id]
    requires DistinctIds(nodes) ==>
               && kept == Filter(nodes[position].children, TextIds(nodes), true)
               && lifted == Filter(nodes[position].children, TextIds(nodes), false)
    requires lifted != []
    ensures RoundDone(nodes, f, parents, position,
                      Moved(nodes, position, above, kept, lifted), Lift(f, nodes[position].id, TextIds(nodes)),
                      Reparented(parents, lifted, nodes[above].id), true)
  {
    if Progress(nodes, f, parents, position) {
      MoveKeepsProgress(nodes, f, parents, position, above, kept, lifted);
    }
  }

  /** The whole rewrite.  On a well-formed update it yields exactly the reference forest,
      and no more than two sweeps of the eight ever run. */
  method HoistFromLeaves(nodes: array<Node>, ghost f: Forest) returns (ghost sweeps: nat)
    modifies nodes
    ensures SameNodes(old(nodes[..]), nodes[..])
    ensures WellFormed(old(nodes[..]), f) ==>
              && WellFormed(nodes[..], Result(old(nodes[..]), f))
              && sweeps == if Unsettled(old(nodes[..]), f) then 2 else 1
  {
    ghost var before := nodes[..];
    sweeps := 0;
    var pass := 0;
    while pass < 8
      invariant pass <= 8 && sweeps == pass
      invariant Passed(before, f, nodes[..], pass)
    {
      ghost var start := nodes[..];
      var moved := Sweep(nodes, Stage(before, f, pass));
      sweeps := sweeps + 1;
      PassStep(before, f, start, nodes[..], pass, moved);
      if !moved {
        break;
      }
      pass := pass + 1;
    }
  }

  /** The forest before pass number `pass`. */
  ghost function Stage(before: seq<Node>, f: Forest, pass: nat): Forest {
    if pass == 0 then f else Result(before, f)
  }

  ghost predicate Unsettled(nodes: seq<Node>, f: Forest) {
    !SettledBelowRoots(f, TextIds(nodes), LeafIds(nodes))
  }

  ghost predicate Passed(before: seq<Node>, f: Forest, nodes: seq<Node>, pass: nat) {
    && SameNodes(before, nodes)
    && (WellFormed(before, f) ==> pass <= 1 && WellFormed(nodes, Stage(before, f, pass)))
    && (WellFormed(before, f) && pass == 1 ==> Unsettled(before, f))
  }

  /** A pass that moves is the first one; the pass after it finds nothing to move. */
  lemma {:induction false} PassStep(before: seq<Node>, f: Forest, start: seq<Node>, nodes: seq<Node>, pass: nat,
                                    moved: bool)
    requires Passed(before, f, start, pass) && SameNodes(start, nodes)
    requires WellFormed(start, Stage(before, f, pass)) ==>
               && WellFormed(nodes, Result(start, Stage(before, f, pass)))
               && (moved <==> Unsettled(nodes, Stage(before, f, pass)))
    ensures SameNodes(before, nodes)
    ensures moved ==> Passed(before, f, nodes, pass + 1)
    ensures WellFormed(before, f) ==> WellFormed(nodes, Result(before, f))
    ensures WellFormed(before, f) && !moved ==> pass + 1 == if Unsettled(before, f) then 2 else 1
  {
    if WellFormed(before, f) {
      SameNodesIds(before, start);
      SameNodesIds(before, nodes);
      ResultIsSettled(before, f);
    }
  }

  lemma {:induction false} ResultIsSettled(nodes: seq<Node>, f: Forest)
    requires WellFormed(nodes, f)
    ensures !Unsettled(nodes, Result(nodes, f)) && Result(nodes, Result(nodes, f)) == Result(nodes, f)
  {
    TextClosedFromLinks(nodes, f);
    HoistedShape(f, TextIds(nodes), LeafIds(nodes));
    SettledHoistedIsFixed(Result(nodes, f), TextIds(nodes), LeafIds(nodes));
  }

  // ----- what the rewrite keeps -----

  /** The forest behind a node list is determined by its roots. */
  lemma {:induction false} UnfoldingIsUnique(links: map<NodeId, seq<NodeId>>, f: Forest, g: Forest)
    requires Matches(links, f) && Matches(links, g) && Roots(f) == Roots(g)
    ensures f == g
  {
    match f
    case Nil =>
    case Tree(id, kids, rest) =>
      assert Roots(f)[0] == id && Roots(f)[1..] == Roots(rest);
      assert g.Tree? && Roots(g)[0] == g.id && Roots(g)[1..] == Roots(g.rest);
      UnfoldingIsUnique(links, kids, g.kids);
      UnfoldingIsUnique(links, rest, g.rest);
  }

  /** Any two updates with the same nodes in any order have the same result. */
  lemma {:induction false} OrderIsIrrelevant(a: seq<Node>, b: seq<Node>, f: Forest)
    requires WellFormed(a, f) && DistinctIds(b)
    requires forall node :: node in a <==> node in b
    ensures WellFormed(b, f) && Result(b, f) == Result(a, f)
  {
    assert TextIds(a) == TextIds(b) by { SameMembers(a, b); SameMembers(b, a); }
    assert LeafIds(a) == LeafIds(b) by { SameMembers(a, b); SameMembers(b, a); }
    assert Links(a) == Links(b) by {
      SameLinks(a, b);
      SameLinks(b, a);
    }
    forall i | 0 <= i < |b| ensures b[i].id in Ids(f) {
      assert b[i] in a;
    }
    forall i, c | 0 <= i < |b| && b[i].role.TextRun? && c in b[i].children ensures c in TextIds(b) {
      assert b[i] in a;
    }
  }

  lemma {:induction false} SameMembers(a: seq<Node>, b: seq<Node>)
    requires forall node :: node in a ==> node in b
    ensures TextIds(a) <= TextIds(b) && LeafIds(a) <= LeafIds(b)
  {
    forall i | 0 <= i < |a| ensures exists j :: 0 <= j < |b| && b[j] == a[i] {
      assert a[i] in b;
    }
  }

  lemma {:induction false} SameLinks(a: seq<Node>, b: seq<Node>)
    requires DistinctIds(a) && DistinctIds(b) && forall node :: node in a ==> node in b
    ensures forall id :: id in Links(a) ==> id in Links(b) && Links(b)[id] == Links(a)[id]
  {
    forall id | id in Links(a) ensures id in Links(b) && Links(b)[id] == Links(a)[id] {
      var i :| 0 <= i < |a| && a[i].id == id;
      assert a[i] in b;
      var j :| 0 <= j < |b| && b[j] == a[i];
      LinkAt(a, i);
      LinkAt(b, j);
    }
  }

  /** The guarantees of the source's comment, for the forest the rewrite produces. */
  lemma {:induction false} HoistGuarantees(nodes: seq<Node>, f: Forest, v: NodeId)
    requires WellFormed(nodes, f)
    ensures var g := Result(nodes, f);
            var texts, leaves := TextIds(nodes), LeafIds(nodes);
            && Reading(g, texts) == Reading(f, texts)
            && SameTrees(f, g) && Distinct(g) && Ids(g) == Ids(f)
            && Above(g, v) <= Above(f, v)
            && (v !in texts ==> Above(g, v) == Above(f, v) - (leaves - RootSet(f)))
            && SettledBelowRoots(g, texts, leaves)
            && Result(nodes, g) == g
  {
    var texts, leaves := TextIds(nodes), LeafIds(nodes);
    TextClosedFromLinks(nodes, f);
    HoistedShape(f, texts, leaves);
    HoistedReading(f, texts, leaves);
    HoistedAbove(f, texts, leaves, v);
    SettledHoistedIsFixed(Result(nodes, f), texts, leaves);
  }
}
