/**
 The accessibility tree update and its in-place rewrite, `hoist_from_leaves`.

 The update is an array of nodes in arbitrary order; links are child ids.  A node
 list is a forest when it unfolds from an inductive `Forest` without repeated ids.
 */
module AccessTree {
  import opened Forests

  datatype Role = TextRun | OtherRole(kind: nat)

  datatype Action =
    | Click | Focus | Increment | Decrement | Expand | Collapse | CustomAction
    | ReplaceSelectedText | SetTextSelection | SetValue
    | OtherAction(kind: nat)

  datatype Node = Node(
    id: NodeId,
    role: Role,
    actions: set<Action>,
    toggled: bool,
    hasValue: bool,
    hasNumericValue: bool,
    children: seq<NodeId>)

  const LEAF_ACTIONS: set<Action> :=
    {Click, Focus, Increment, Decrement, Expand, Collapse, CustomAction,
     ReplaceSelectedText, SetTextSelection, SetValue}

  predicate IsLeafElement(node: Node) {
    || LEAF_ACTIONS * node.actions != {}
    || node.toggled || node.hasValue || node.hasNumericValue
  }

  /** A node is a leaf element exactly if it supports one of the named actions, whatever others it has, or carries a
      toggle, a value or a number. */
  lemma {:induction false} LeafElementsExactly(node: Node)
    ensures IsLeafElement(node) <==>
              || (exists action :: action in node.actions && !action.OtherAction?)
              || node.toggled || node.hasValue || node.hasNumericValue
  {
    forall action | action in node.actions && !action.OtherAction? ensures action in LEAF_ACTIONS * node.actions {
      assert action in LEAF_ACTIONS;
    }
    if LEAF_ACTIONS * node.actions != {} {
      var action :| action in LEAF_ACTIONS * node.actions;
      assert action in node.actions && !action.OtherAction?;
    }
  }

  // ----- reading a node list -----

  ghost predicate DistinctIds(nodes: seq<Node>) {
    forall i, j :: 0 <= i < j < |nodes| ==> nodes[i].id != nodes[j].id
  }

  ghost function TextIds(nodes: seq<Node>): set<NodeId> {
    set i | 0 <= i < |nodes| && nodes[i].role.TextRun? :: nodes[i].id
  }

  ghost function LeafIds(nodes: seq<Node>): set<NodeId> {
    set i | 0 <= i < |nodes| && IsLeafElement(nodes[i]) :: nodes[i].id
  }

  ghost function Links(nodes: seq<Node>): map<NodeId, seq<NodeId>>
    requires DistinctIds(nodes)
  {
    map i | 0 <= i < |nodes| :: nodes[i].id := nodes[i].children
  }

  ghost function ChildrenOf(links: map<NodeId, seq<NodeId>>, id: NodeId): seq<NodeId> {
    if id in links then links[id] else []
  }

  /** `f` unfolds from the child lists; an id without a node has no children. */
  ghost predicate Matches(links: map<NodeId, seq<NodeId>>, f: Forest) {
    match f
    case Nil => true
    case Tree(id, kids, rest) =>
      ChildrenOf(links, id) == Roots(kids) && Matches(links, kids) && Matches(links, rest)
  }

  ghost predicate IsForest(nodes: seq<Node>, f: Forest) {
    && DistinctIds(nodes)
    && Distinct(f)
    && Matches(Links(nodes), f)
    && (forall i :: 0 <= i < |nodes| ==> nodes[i].id in Ids(f))
  }

  ghost predicate TextRunsHoldTextRuns(nodes: seq<Node>) {
    forall i, c :: 0 <= i < |nodes| && nodes[i].role.TextRun? && c in nodes[i].children ==> c in TextIds(nodes)
  }

  /** The update the source means: a forest whose text runs hold only text runs. */
  ghost predicate WellFormed(nodes: seq<Node>, f: Forest) {
    IsForest(nodes, f) && TextRunsHoldTextRuns(nodes)
  }

  ghost function Result(nodes: seq<Node>, f: Forest): Forest {
    Hoisted(f, TextIds(nodes), LeafIds(nodes))
  }

  /** Same nodes in the same places; only child lists may differ. */
  ghost predicate SameNodes(a: seq<Node>, b: seq<Node>) {
    |a| == |b| && forall i :: 0 <= i < |a| ==> b[i] == a[i].(children := b[i].children)
  }

  lemma {:induction false} SameNodesIds(a: seq<Node>, b: seq<Node>)
    requires SameNodes(a, b)
    ensures TextIds(a) == TextIds(b) && LeafIds(a) == LeafIds(b)
    ensures DistinctIds(a) == DistinctIds(b)
  {
    assert forall i :: 0 <= i < |a| ==>
             b[i].id == a[i].id && b[i].role == a[i].role && IsLeafElement(b[i]) == IsLeafElement(a[i]);
  }

  // ----- the forest behind the child lists -----

  ghost function Kids(f: Forest, p: NodeId): Forest {
    match f
    case Nil => Nil
    case Tree(id, kids, rest) =>
      if id == p then kids else if p in Ids(kids) then Kids(kids, p) else Kids(rest, p)
  }

  lemma {:induction false} KidsFacts(links: map<NodeId, seq<NodeId>>, f: Forest, p: NodeId)
    requires Matches(links, f) && p in Ids(f)
    ensures ChildrenOf(links, p) == Roots(Kids(f, p)) && Ids(Kids(f, p)) <= Ids(f)
    ensures Matches(links, Kids(f, p))
  {
    var Tree(id, kids, rest) := f;
    if id == p {
    } else if p in Ids(kids) {
      KidsFacts(links, kids, p);
    } else {
      KidsFacts(links, rest, p);
    }
  }

  /** In a forest a child lies strictly below a root, on the side of its parent. */
  lemma {:induction false} ChildPlace(f: Forest, p: NodeId, x: NodeId)
    requires Distinct(f) && p in Ids(f) && x in Roots(Kids(f, p))
    ensures x in Ids(f) && x !in Roots(f)
    ensures f.Tree? && (p == f.id || p in Ids(f.kids) ==> x in Ids(f.kids)) && (p in Ids(f.rest) ==> x in Ids(f.rest))
  {
    var Tree(id, kids, rest) := f;
    RootsAreIds(kids);
    RootsAreIds(rest);
    if p == id {
    } else if p in Ids(kids) {
      ChildPlace(kids, p, x);
    } else {
      ChildPlace(rest, p, x);
    }
  }

  lemma {:induction false} OneParent(f: Forest, p: NodeId, q: NodeId, x: NodeId)
    requires Distinct(f) && p in Ids(f) && q in Ids(f)
    requires x in Roots(Kids(f, p)) && x in Roots(Kids(f, q))
    ensures p == q
  {
    var Tree(id, kids, rest) := f;
    ChildPlace(f, p, x);
    ChildPlace(f, q, x);
    if p in Ids(rest) {
      OneParent(rest, p, q, x);
    } else if p in Ids(kids) && q in Ids(kids) {
      OneParent(kids, p, q, x);
    } else if p in Ids(kids) {
      ChildPlace(kids, p, x);
    } else if q in Ids(kids) {
      ChildPlace(kids, q, x);
    }
  }

  lemma {:induction false} NonRootHasParent(f: Forest, x: NodeId) returns (p: NodeId)
    requires x in Ids(f) && x !in Roots(f) && Distinct(f)
    ensures p in Ids(f) && x in Roots(Kids(f, p))
  {
    var Tree(id, kids, rest) := f;
    assert id == Roots(f)[0];
    assert forall y :: y in Roots(rest) ==> y in Roots(f);
    if x in Roots(kids) {
      p := id;
    } else if x in Ids(kids) {
      p := NonRootHasParent(kids, x);
    } else {
      p := NonRootHasParent(rest, x);
    }
  }

  lemma {:induction false} MatchesFrame(links: map<NodeId, seq<NodeId>>, links': map<NodeId, seq<NodeId>>, f: Forest)
    requires Matches(links, f)
    requires forall v :: v in Ids(f) ==> ChildrenOf(links', v) == ChildrenOf(links, v)
    ensures Matches(links', f)
  {
    match f
    case Nil =>
    case Tree(_, kids, rest) =>
      MatchesFrame(links, links', kids);
      MatchesFrame(links, links', rest);
  }

  lemma {:induction false} MatchesOnly(links: map<NodeId, seq<NodeId>>, f: Forest, keep: set<NodeId>, want: bool)
    requires Matches(links, f)
    ensures Matches(links, Only(f, keep, want))
  {
    if f.Tree? {
      MatchesOnly(links, f.rest, keep, want);
    }
  }

  lemma {:induction false} MatchesAppend(links: map<NodeId, seq<NodeId>>, f: Forest, g: Forest)
    requires Matches(links, f) && Matches(links, g)
    ensures Matches(links, Append(f, g))
  {
    if f.Tree? {
      MatchesAppend(links, f.rest, g);
    }
  }

  // ----- one move on the child lists is one `Lift` on the forest -----

  /** `insert` spliced into `s` just after its first `x`, or at the end without one. */
  ghost function SpliceAfter(s: seq<NodeId>, x: NodeId, insert: seq<NodeId>): seq<NodeId> {
    if s == [] then insert
    else if s[0] == x then [x] + insert + s[1..]
    else [s[0]] + SpliceAfter(s[1..], x, insert)
  }

  lemma {:induction false} SpliceIsLift(f: Forest, x: NodeId, texts: set<NodeId>)
    requires Distinct(f) && x in Roots(f)
    ensures Roots(Lift(f, x, texts)) ==
            SpliceAfter(Roots(f), x, Filter(Roots(Kids(f, x)), texts, false))
  {
    var Tree(id, kids, rest) := f;
    var inserted := Filter(Roots(Kids(f, x)), texts, false);
    assert Roots(f)[0] == id && Roots(f)[1..] == Roots(rest);
    if id == x {
      OnlyFacts(kids, texts, false);
      AppendFacts(Only(kids, texts, false), rest);
      assert SpliceAfter(Roots(f), x, inserted) == [x] + inserted + Roots(rest);
    } else {
      RootsAreIds(rest);
      SpliceIsLift(rest, x, texts);
      assert Kids(f, x) == Kids(rest, x);
      assert SpliceAfter(Roots(f), x, inserted) == [id] + SpliceAfter(Roots(rest), x, inserted);
    }
  }

  lemma {:induction false} MatchesLift(links: map<NodeId, seq<NodeId>>, links': map<NodeId, seq<NodeId>>,
                                       f: Forest, x: NodeId, p: NodeId, content: seq<NodeId>, texts: set<NodeId>)
    requires Distinct(f) && Matches(links, f) && x != p
    requires p !in Ids(f) || x !in Roots(f)
    requires forall q :: q in Ids(f) && x in ChildrenOf(links, q) ==> q == p
    requires content == ChildrenOf(links, x)
    requires ChildrenOf(links', x) == Filter(content, texts, true)
    requires ChildrenOf(links', p) == SpliceAfter(ChildrenOf(links, p), x, Filter(content, texts, false))
    requires p in Ids(f) ==> x in ChildrenOf(links, p)
    requires forall v :: v != x && v != p ==> ChildrenOf(links', v) == ChildrenOf(links, v)
    ensures Matches(links', Lift(f, x, texts))
  {
    match f
    case Nil =>
    case Tree(id, kids, rest) =>
      assert forall y :: y in Roots(rest) ==> y in Roots(f);
      assert id == Roots(f)[0];
      RootsAreIds(kids);
      if id == x {
        OnlyFacts(kids, texts, true);
        OnlyFacts(kids, texts, false);
        MatchesFrame(links, links', kids);
        MatchesFrame(links, links', rest);
        MatchesOnly(links', kids, texts, true);
        MatchesOnly(links', kids, texts, false);
        MatchesAppend(links', Only(kids, texts, false), rest);
      } else {
        MatchesLift(links, links', kids, x, p, content, texts);
        MatchesLift(links, links', rest, x, p, content, texts);
        if id == p {
          SpliceIsLift(kids, x, texts);
          KidsFacts(links, kids, x);
        } else {
          LiftKeepsRoots(kids, x, texts);
        }
      }
  }

  // ----- text runs -----

  lemma {:induction false} TextClosedFromLinks(nodes: seq<Node>, f: Forest)
    requires DistinctIds(nodes) && Matches(Links(nodes), f) && TextRunsHoldTextRuns(nodes)
    ensures TextClosed(f, TextIds(nodes))
    ensures (forall r :: r in Roots(f) ==> r in TextIds(nodes)) ==> Ids(f) <= TextIds(nodes)
  {
    match f
    case Nil =>
    case Tree(id, kids, rest) =>
      TextClosedFromLinks(nodes, kids);
      TextClosedFromLinks(nodes, rest);
      assert Roots(f)[0] == id;
      assert forall y :: y in Roots(rest) ==> y in Roots(f);
      if id in TextIds(nodes) {
        var i :| 0 <= i < |nodes| && nodes[i].role.TextRun? && nodes[i].id == id;
        assert nodes[i].children == Links(nodes)[id] == Roots(kids);
      }
  }

  // ----- the parent table -----

  /** Whoever lists `c` as a child is the recorded parent of `c`. */
  ghost predicate ParentsRecorded(nodes: seq<Node>, parents: map<NodeId, NodeId>) {
    forall i, c :: 0 <= i < |nodes| && c in nodes[i].children ==> c in parents && parents[c] == nodes[i].id
  }

  /** Every recorded parent lists its child. */
  ghost predicate ParentsReal(nodes: seq<Node>, parents: map<NodeId, NodeId>) {
    forall c :: c in parents ==> exists i :: 0 <= i < |nodes| && nodes[i].id == parents[c] && c in nodes[i].children
  }

  /** The node at `position` is no leaf below a parent, or holds text runs only. */
  ghost predicate Done(nodes: seq<Node>, parents: map<NodeId, NodeId>, position: nat)
    requires position < |nodes|
  {
    IsLeafElement(nodes[position]) && nodes[position].id in parents ==>
      forall c :: c in nodes[position].children ==> c in TextIds(nodes)
  }

  lemma {:induction false} LinkAt(nodes: seq<Node>, i: nat)
    requires DistinctIds(nodes) && i < |nodes|
    ensures ChildrenOf(Links(nodes), nodes[i].id) == nodes[i].children
  {
    assert nodes[i].id in Links(nodes);
  }

  lemma {:induction false} ChildFacts(nodes: seq<Node>, f: Forest, i: nat, j: nat, x: NodeId)
    requires IsForest(nodes, f) && i < |nodes| && j < |nodes|
    requires x in nodes[i].children && x in nodes[j].children
    ensures x !in Roots(f) && x in Ids(f) && x != nodes[i].id && i == j
  {
    var p, q := nodes[i].id, nodes[j].id;
    LinkAt(nodes, i);
    LinkAt(nodes, j);
    KidsFacts(Links(nodes), f, p);
    KidsFacts(Links(nodes), f, q);
    ChildPlace(f, p, x);
    OneParent(f, p, q, x);
    NotOwnChild(f, p);
  }

  lemma {:induction false} NotOwnChild(f: Forest, x: NodeId)
    requires Distinct(f) && x in Ids(f)
    ensures x !in Ids(Kids(f, x)) && x !in Roots(Kids(f, x))
  {
    var Tree(id, kids, rest) := f;
    RootsAreIds(Kids(f, x));
    if id == x {
    } else if x in Ids(kids) {
      NotOwnChild(kids, x);
    } else {
      NotOwnChild(rest, x);
    }
  }

  lemma {:induction false} DoneIsSettled(nodes: seq<Node>, parents: map<NodeId, NodeId>, f: Forest)
    requires DistinctIds(nodes) && forall j :: 0 <= j < |nodes| ==> Done(nodes, parents, j)
    requires Matches(Links(nodes), f)
    requires forall v :: v in Ids(f) ==> v in parents
    ensures Settled(f, TextIds(nodes), LeafIds(nodes))
  {
    match f
    case Nil =>
    case Tree(id, kids, rest) =>
      DoneIsSettled(nodes, parents, kids);
      DoneIsSettled(nodes, parents, rest);
      if id in LeafIds(nodes) {
        var i :| 0 <= i < |nodes| && IsLeafElement(nodes[i]) && nodes[i].id == id;
        LinkAt(nodes, i);
        assert Done(nodes, parents, i);
        NoneLeft(kids, TextIds(nodes));
      }
  }

  lemma {:induction false} NoneLeft(f: Forest, keep: set<NodeId>)
    requires forall r :: r in Roots(f) ==> r in keep
    ensures Only(f, keep, false) == Nil
  {
    match f
    case Nil =>
    case Tree(id, _, rest) =>
      assert Roots(f)[0] == id;
      assert forall y :: y in Roots(rest) ==> y in Roots(f);
      NoneLeft(rest, keep);
  }

  lemma {:induction false} BelowRootsSettled(nodes: seq<Node>, parents: map<NodeId, NodeId>, f: Forest)
    requires DistinctIds(nodes) && forall j :: 0 <= j < |nodes| ==> Done(nodes, parents, j)
    requires Matches(Links(nodes), f)
    requires forall v :: v in Ids(f) && v !in Roots(f) ==> v in parents
    requires Distinct(f)
    ensures SettledBelowRoots(f, TextIds(nodes), LeafIds(nodes))
  {
    match f
    case Nil =>
    case Tree(id, kids, rest) =>
      RootsAreIds(rest);
      assert Roots(f)[0] == id && Roots(f)[1..] == Roots(rest);
      assert forall v :: v in Roots(f) ==> v == id || v in Roots(rest);
      DoneIsSettled(nodes, parents, kids);
      BelowRootsSettled(nodes, parents, rest);
  }

  lemma {:induction false} NodeOf(nodes: seq<Node>, p: NodeId, x: NodeId) returns (i: nat)
    requires DistinctIds(nodes) && x in ChildrenOf(Links(nodes), p)
    ensures i < |nodes| && nodes[i].id == p && x in nodes[i].children
  {
    i :| 0 <= i < |nodes| && nodes[i].id == p;
    LinkAt(nodes, i);
  }

  lemma {:induction false} NonRootHasNode(nodes: seq<Node>, f: Forest, v: NodeId) returns (i: nat)
    requires DistinctIds(nodes) && Distinct(f) && Matches(Links(nodes), f) && v in Ids(f) && v !in Roots(f)
    ensures i < |nodes| && v in nodes[i].children
  {
    var links := Links(nodes);
    var p := NonRootHasParent(f, v);
    KidsFacts(links, f, p);
    i := NodeOf(nodes, p, v);
  }
}
