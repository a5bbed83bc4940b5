/**
 Ordered forests, the mathematical side of the accessibility tree rewrite.

 A forest is kept in first-child / next-sibling form, so every function below is
 plain structural recursion.  `texts` is the set of ids whose role is TextRun,
 `leaves` the set of ids the platform treats as leaf elements.
 */
module Forests {

  type NodeId = nat

  datatype Forest = Nil | Tree(id: NodeId, kids: Forest, rest: Forest)

  // ----- shape -----

  ghost function Roots(f: Forest): seq<NodeId> {
    match f
    case Nil => []
    case Tree(id, _, rest) => [id] + Roots(rest)
  }

  ghost function Ids(f: Forest): set<NodeId> {
    match f
    case Nil => {}
    case Tree(id, kids, rest) => {id} + Ids(kids) + Ids(rest)
  }

  /** No id occurs twice: every node has at most one parent and lies on no cycle. */
  ghost predicate Distinct(f: Forest) {
    match f
    case Nil => true
    case Tree(id, kids, rest) =>
      id !in Ids(kids) && id !in Ids(rest) && Ids(kids) !! Ids(rest) && Distinct(kids) && Distinct(rest)
  }

  ghost function Append(f: Forest, g: Forest): Forest {
    match f
    case Nil => g
    case Tree(id, kids, rest) => Tree(id, kids, Append(rest, g))
  }

  /** The trees of `f` whose root is (or, for `want == false`, is not) in `keep`. */
  ghost function Only(f: Forest, keep: set<NodeId>, want: bool): Forest {
    match f
    case Nil => Nil
    case Tree(id, kids, rest) =>
      if (id in keep) == want then Tree(id, kids, Only(rest, keep, want)) else Only(rest, keep, want)
  }

  ghost function Filter(s: seq<NodeId>, keep: set<NodeId>, want: bool): seq<NodeId> {
    if s == [] then []
    else if (s[0] in keep) == want then [s[0]] + Filter(s[1..], keep, want)
    else Filter(s[1..], keep, want)
  }

  /** Text runs have only text runs below them. */
  ghost predicate TextClosed(f: Forest, texts: set<NodeId>) {
    match f
    case Nil => true
    case Tree(id, kids, rest) =>
      (id in texts ==> Ids(kids) <= texts) && TextClosed(kids, texts) && TextClosed(rest, texts)
  }

  // ----- what a screen reader sees -----

  /** Preorder traversal without the text runs. */
  ghost function Reading(f: Forest, texts: set<NodeId>): seq<NodeId> {
    match f
    case Nil => []
    case Tree(id, kids, rest) =>
      (if id in texts then [] else [id]) + Reading(kids, texts) + Reading(rest, texts)
  }

  /** The proper ancestors of `v`. */
  ghost function Above(f: Forest, v: NodeId): set<NodeId> {
    match f
    case Nil => {}
    case Tree(id, kids, rest) =>
      if v in Ids(kids) then {id} + Above(kids, v) else Above(rest, v)
  }

  /** Every leaf element of `f` holds nothing but text runs. */
  ghost predicate Settled(f: Forest, texts: set<NodeId>, leaves: set<NodeId>) {
    match f
    case Nil => true
    case Tree(id, kids, rest) =>
      && (id in leaves ==> Only(kids, texts, false) == Nil)
      && Settled(kids, texts, leaves) && Settled(rest, texts, leaves)
  }

  // ----- the reference definition of the rewrite -----

  /** What a list of siblings below some parent becomes: a leaf element keeps its
      text runs and is followed by everything else it held. */
  ghost function Settle(f: Forest, texts: set<NodeId>, leaves: set<NodeId>): Forest {
    match f
    case Nil => Nil
    case Tree(id, kids, rest) =>
      if id in leaves then
        Tree(id, Only(kids, texts, true),
             Append(Only(Settle(kids, texts, leaves), texts, false), Settle(rest, texts, leaves)))
      else
        Tree(id, Settle(kids, texts, leaves), Settle(rest, texts, leaves))
  }

  /** Roots have no parent to lift into, so they keep their content. */
  ghost function Hoisted(f: Forest, texts: set<NodeId>, leaves: set<NodeId>): Forest {
    match f
    case Nil => Nil
    case Tree(id, kids, rest) => Tree(id, Settle(kids, texts, leaves), Hoisted(rest, texts, leaves))
  }

  /** One elementary move: the content of `x` becomes the siblings right after it. */
  ghost function Lift(f: Forest, x: NodeId, texts: set<NodeId>): Forest {
    match f
    case Nil => Nil
    case Tree(id, kids, rest) =>
      if id == x then Tree(id, Only(kids, texts, true), Append(Only(kids, texts, false), rest))
      else Tree(id, Lift(kids, x, texts), Lift(rest, x, texts))
  }

  // ----- small facts -----

  lemma {:induction false} AppendFacts(f: Forest, g: Forest)
    ensures Ids(Append(f, g)) == Ids(f) + Ids(g)
    ensures Roots(Append(f, g)) == Roots(f) + Roots(g)
  {
    match f
    case Nil =>
    case Tree(_, _, rest) => AppendFacts(rest, g);
  }

  lemma {:induction false} OnlyFacts(f: Forest, keep: set<NodeId>, want: bool)
    ensures Ids(Only(f, keep, want)) <= Ids(f)
    ensures Roots(Only(f, keep, want)) == Filter(Roots(f), keep, want)
    ensures Distinct(f) ==> Distinct(Only(f, keep, want))
    ensures Only(Only(f, keep, want), keep, want) == Only(f, keep, want)
    ensures Only(Only(f, keep, want), keep, !want) == Nil
  {
    match f
    case Nil =>
    case Tree(id, kids, rest) =>
      OnlyFacts(rest, keep, want);
      assert Roots(f)[1..] == Roots(rest);
  }

  lemma {:induction false} OnlyPartition(f: Forest, keep: set<NodeId>)
    ensures Ids(Only(f, keep, true)) + Ids(Only(f, keep, false)) == Ids(f)
    ensures Distinct(f) ==> Ids(Only(f, keep, true)) !! Ids(Only(f, keep, false))
  {
    match f
    case Nil =>
    case Tree(id, kids, rest) =>
      OnlyPartition(rest, keep);
      OnlyFacts(rest, keep, true);
      OnlyFacts(rest, keep, false);
  }

  lemma {:induction false} RootsAreIds(f: Forest)
    ensures forall x :: x in Roots(f) ==> x in Ids(f)
  {
    if f.Tree? {
      RootsAreIds(f.rest);
    }
  }

  lemma {:induction false} LiftAbsent(f: Forest, x: NodeId, texts: set<NodeId>)
    requires x !in Ids(f)
    ensures Lift(f, x, texts) == f
  {
    if f.Tree? {
      LiftAbsent(f.kids, x, texts);
      LiftAbsent(f.rest, x, texts);
    }
  }

  lemma {:induction false} AppendDistinct(f: Forest, g: Forest)
    requires Distinct(f) && Distinct(g) && Ids(f) !! Ids(g)
    ensures Distinct(Append(f, g))
  {
    match f
    case Nil =>
    case Tree(_, _, rest) => AppendDistinct(rest, g); AppendFacts(rest, g);
  }

  lemma {:induction false} AllText(f: Forest, texts: set<NodeId>)
    requires Ids(f) <= texts
    ensures Reading(f, texts) == []
    ensures Only(f, texts, true) == f && Only(f, texts, false) == Nil
    ensures TextClosed(f, texts)
  {
    if f.Tree? {
      AllText(f.kids, texts);
      AllText(f.rest, texts);
    }
  }

  // ----- the elementary move keeps a forest -----

  lemma {:induction false} LiftKeepsIds(f: Forest, x: NodeId, texts: set<NodeId>)
    ensures Ids(Lift(f, x, texts)) == Ids(f)
    ensures Distinct(f) ==> Distinct(Lift(f, x, texts))
  {
    match f
    case Nil =>
    case Tree(id, kids, rest) =>
      LiftKeepsIds(kids, x, texts);
      LiftKeepsIds(rest, x, texts);
      if id == x {
        OnlyPartition(kids, texts);
        OnlyFacts(kids, texts, true);
        OnlyFacts(kids, texts, false);
        AppendFacts(Only(kids, texts, false), rest);
        if Distinct(f) {
          AppendDistinct(Only(kids, texts, false), rest);
        }
      }
  }

  lemma {:induction false} LiftKeepsRoots(f: Forest, x: NodeId, texts: set<NodeId>)
    requires x !in Roots(f)
    ensures Roots(Lift(f, x, texts)) == Roots(f)
  {
    match f
    case Nil =>
    case Tree(id, kids, rest) =>
      assert forall y :: y in Roots(rest) ==> y in Roots(f);
      assert id == Roots(f)[0];
      LiftKeepsRoots(rest, x, texts);
  }

  // ----- the elementary move does not change where everything ends up -----

  lemma {:induction false} SettleAppend(f: Forest, g: Forest, texts: set<NodeId>, leaves: set<NodeId>)
    ensures Settle(Append(f, g), texts, leaves) == Append(Settle(f, texts, leaves), Settle(g, texts, leaves))
  {
    match f
    case Nil =>
    case Tree(id, kids, rest) =>
      SettleAppend(rest, g, texts, leaves);
      if id in leaves {
        AppendAssoc(Only(Settle(kids, texts, leaves), texts, false), Settle(rest, texts, leaves),
                    Settle(g, texts, leaves));
      }
  }

  lemma {:induction false} AppendAssoc(f: Forest, g: Forest, h: Forest)
    ensures Append(Append(f, g), h) == Append(f, Append(g, h))
  {
    if f.Tree? {
      AppendAssoc(f.rest, g, h);
    }
  }

  lemma {:induction false} OnlyAppend(f: Forest, g: Forest, keep: set<NodeId>, want: bool)
    ensures Only(Append(f, g), keep, want) == Append(Only(f, keep, want), Only(g, keep, want))
  {
    match f
    case Nil =>
    case Tree(_, _, rest) => OnlyAppend(rest, g, keep, want);
  }

  lemma {:induction false} SettleAllText(f: Forest, texts: set<NodeId>, leaves: set<NodeId>)
    requires Ids(f) <= texts
    ensures Settle(f, texts, leaves) == f
  {
    match f
    case Nil =>
    case Tree(id, kids, rest) =>
      SettleAllText(kids, texts, leaves);
      SettleAllText(rest, texts, leaves);
      AllText(kids, texts);
  }

  lemma {:induction false} SettleOnly(f: Forest, texts: set<NodeId>, leaves: set<NodeId>)
    requires TextClosed(f, texts)
    ensures Only(Settle(f, texts, leaves), texts, true) == Only(f, texts, true)
    ensures Settle(Only(f, texts, false), texts, leaves) == Only(Settle(f, texts, leaves), texts, false)
  {
    match f
    case Nil =>
    case Tree(id, kids, rest) =>
      SettleOnly(rest, texts, leaves);
      var s := Settle(kids, texts, leaves);
      var r := Settle(rest, texts, leaves);
      OnlyFacts(s, texts, false);
      OnlyAppend(Only(s, texts, false), r, texts, true);
      OnlyAppend(Only(s, texts, false), r, texts, false);
      if id in texts {
        SettleAllText(kids, texts, leaves);
        AllText(kids, texts);
      }
  }

  lemma {:induction false} OnlyTextLift(f: Forest, x: NodeId, texts: set<NodeId>)
    requires TextClosed(f, texts) && x !in texts
    ensures Only(Lift(f, x, texts), texts, true) == Only(f, texts, true)
  {
    match f
    case Nil =>
    case Tree(id, kids, rest) =>
      OnlyTextLift(rest, x, texts);
      if id == x {
        OnlyAppend(Only(kids, texts, false), rest, texts, true);
        OnlyFacts(kids, texts, false);
      } else if id in texts {
        LiftAbsent(kids, x, texts);
      }
  }

  lemma {:induction false} LiftKeepsSettle(f: Forest, x: NodeId, texts: set<NodeId>, leaves: set<NodeId>)
    requires TextClosed(f, texts) && x !in texts && x in leaves
    ensures Settle(Lift(f, x, texts), texts, leaves) == Settle(f, texts, leaves)
  {
    match f
    case Nil =>
    case Tree(id, kids, rest) =>
      LiftKeepsSettle(kids, x, texts, leaves);
      LiftKeepsSettle(rest, x, texts, leaves);
      if id == x {
        var t, n := Only(kids, texts, true), Only(kids, texts, false);
        OnlyFacts(kids, texts, true);
        SettleAppend(n, rest, texts, leaves);
        SettleOnly(kids, texts, leaves);
        TextRootsAllText(kids, texts);
        SettleAllText(t, texts, leaves);
      } else {
        OnlyTextLift(kids, x, texts);
      }
  }

  lemma {:induction false} TextRootsAllText(f: Forest, texts: set<NodeId>)
    requires TextClosed(f, texts)
    ensures Ids(Only(f, texts, true)) <= texts
  {
    if f.Tree? {
      TextRootsAllText(f.rest, texts);
    }
  }

  /** Any single move leaves the final result unchanged, so the order of moves is irrelevant. */
  lemma {:induction false} LiftKeepsHoisted(f: Forest, x: NodeId, texts: set<NodeId>, leaves: set<NodeId>)
    requires TextClosed(f, texts) && x !in texts && x in leaves && x !in Roots(f)
    ensures Hoisted(Lift(f, x, texts), texts, leaves) == Hoisted(f, texts, leaves)
  {
    match f
    case Nil =>
    case Tree(id, kids, rest) =>
      assert id == Roots(f)[0];
      assert forall y :: y in Roots(rest) ==> y in Roots(f);
      LiftKeepsSettle(kids, x, texts, leaves);
      LiftKeepsHoisted(rest, x, texts, leaves);
  }

  lemma {:induction false} OnlyTextClosed(f: Forest, texts: set<NodeId>, want: bool)
    requires TextClosed(f, texts)
    ensures TextClosed(Only(f, texts, want), texts)
  {
    if f.Tree? {
      OnlyTextClosed(f.rest, texts, want);
    }
  }

  lemma {:induction false} AppendTextClosed(f: Forest, g: Forest, texts: set<NodeId>)
    requires TextClosed(f, texts) && TextClosed(g, texts)
    ensures TextClosed(Append(f, g), texts)
  {
    if f.Tree? {
      AppendTextClosed(f.rest, g, texts);
    }
  }

  // ----- what the reference result guarantees -----

  lemma {:induction false} SettleKeepsIds(f: Forest, texts: set<NodeId>, leaves: set<NodeId>)
    requires TextClosed(f, texts)
    ensures Ids(Settle(f, texts, leaves)) == Ids(f)
    ensures Distinct(f) ==> Distinct(Settle(f, texts, leaves))
    ensures TextClosed(Settle(f, texts, leaves), texts)
  {
    match f
    case Nil =>
    case Tree(id, kids, rest) =>
      SettleKeepsIds(kids, texts, leaves);
      SettleKeepsIds(rest, texts, leaves);
      if id in leaves {
        var s, r := Settle(kids, texts, leaves), Settle(rest, texts, leaves);
        SettleOnly(kids, texts, leaves);
        OnlyPartition(s, texts);
        OnlyFacts(s, texts, true);
        OnlyFacts(s, texts, false);
        AppendFacts(Only(s, texts, false), r);
        OnlyTextClosed(s, texts, true);
        OnlyTextClosed(s, texts, false);
        AppendTextClosed(Only(s, texts, false), r, texts);
        if Distinct(f) {
          AppendDistinct(Only(s, texts, false), r);
        }
        TextRootsAllText(kids, texts);
      }
  }

  lemma {:induction false} ReadingAppend(f: Forest, g: Forest, texts: set<NodeId>)
    ensures Reading(Append(f, g), texts) == Reading(f, texts) + Reading(g, texts)
  {
    match f
    case Nil =>
    case Tree(_, _, rest) => ReadingAppend(rest, g, texts);
  }

  lemma {:induction false} ReadingSkipsTexts(f: Forest, texts: set<NodeId>)
    requires TextClosed(f, texts)
    ensures Reading(Only(f, texts, false), texts) == Reading(f, texts)
  {
    match f
    case Nil =>
    case Tree(id, kids, rest) =>
      ReadingSkipsTexts(rest, texts);
      if id in texts {
        AllText(kids, texts);
      }
  }

  lemma {:induction false} SettleKeepsReading(f: Forest, texts: set<NodeId>, leaves: set<NodeId>)
    requires TextClosed(f, texts)
    ensures Reading(Settle(f, texts, leaves), texts) == Reading(f, texts)
  {
    match f
    case Nil =>
    case Tree(id, kids, rest) =>
      SettleKeepsReading(kids, texts, leaves);
      SettleKeepsReading(rest, texts, leaves);
      if id in leaves {
        var s, r := Settle(kids, texts, leaves), Settle(rest, texts, leaves);
        SettleKeepsIds(kids, texts, leaves);
        ReadingSkipsTexts(s, texts);
        ReadingAppend(Only(s, texts, false), r, texts);
        TextRootsAllText(kids, texts);
        AllText(Only(kids, texts, true), texts);
      }
  }

  lemma {:induction false} SettledAppend(f: Forest, g: Forest, texts: set<NodeId>, leaves: set<NodeId>)
    requires Settled(f, texts, leaves) && Settled(g, texts, leaves)
    ensures Settled(Append(f, g), texts, leaves)
  {
    match f
    case Nil =>
    case Tree(_, _, rest) => SettledAppend(rest, g, texts, leaves);
  }

  lemma {:induction false} AllTextSettled(f: Forest, texts: set<NodeId>, leaves: set<NodeId>)
    requires Ids(f) <= texts
    ensures Settled(f, texts, leaves)
  {
    match f
    case Nil =>
    case Tree(_, kids, rest) =>
      AllText(kids, texts);
      AllTextSettled(kids, texts, leaves);
      AllTextSettled(rest, texts, leaves);
  }

  lemma {:induction false} SettledOnly(f: Forest, texts: set<NodeId>, leaves: set<NodeId>, want: bool)
    requires Settled(f, texts, leaves)
    ensures Settled(Only(f, texts, want), texts, leaves)
  {
    if f.Tree? {
      SettledOnly(f.rest, texts, leaves, want);
    }
  }

  lemma {:induction false} SettleSettles(f: Forest, texts: set<NodeId>, leaves: set<NodeId>)
    requires TextClosed(f, texts)
    ensures Settled(Settle(f, texts, leaves), texts, leaves)
  {
    match f
    case Nil =>
    case Tree(id, kids, rest) =>
      SettleSettles(kids, texts, leaves);
      SettleSettles(rest, texts, leaves);
      if id in leaves {
        var s, r := Settle(kids, texts, leaves), Settle(rest, texts, leaves);
        SettledOnly(s, texts, leaves, false);
        SettledAppend(Only(s, texts, false), r, texts, leaves);
        OnlyFacts(kids, texts, true);
        TextRootsAllText(kids, texts);
        AllTextSettled(Only(kids, texts, true), texts, leaves);
      }
  }

  lemma {:induction false} SettledIsFixed(f: Forest, texts: set<NodeId>, leaves: set<NodeId>)
    requires Settled(f, texts, leaves)
    ensures Settle(f, texts, leaves) == f
  {
    match f
    case Nil =>
    case Tree(id, kids, rest) =>
      SettledIsFixed(kids, texts, leaves);
      SettledIsFixed(rest, texts, leaves);
      if id in leaves {
        OnlyNoneRest(kids, texts);
      }
  }

  lemma {:induction false} OnlyNoneRest(f: Forest, keep: set<NodeId>)
    requires Only(f, keep, false) == Nil
    ensures Only(f, keep, true) == f
  {
    if f.Tree? {
      OnlyNoneRest(f.rest, keep);
    }
  }

  lemma {:induction false} AboveAppend(f: Forest, g: Forest, v: NodeId)
    requires Ids(f) !! Ids(g)
    ensures Above(Append(f, g), v) == if v in Ids(f) then Above(f, v) else Above(g, v)
  {
    match f
    case Nil =>
    case Tree(_, kids, rest) =>
      AboveAppend(rest, g, v);
      AppendFacts(rest, g);
      if v !in Ids(rest) && v !in Ids(kids) && v in Ids(f) {
        AboveAbsent(g, v);
        AboveAbsent(rest, v);
      }
  }

  lemma {:induction false} AboveAbsent(f: Forest, v: NodeId)
    requires v !in Ids(f)
    ensures Above(f, v) == {}
  {
    if f.Tree? {
      AboveAbsent(f.kids, v);
      AboveAbsent(f.rest, v);
    }
  }

  lemma {:induction false} AboveOnly(f: Forest, keep: set<NodeId>, want: bool, v: NodeId)
    requires Distinct(f) && v in Ids(Only(f, keep, want))
    ensures Above(Only(f, keep, want), v) == Above(f, v)
  {
    match f
    case Nil =>
    case Tree(id, kids, rest) =>
      OnlyFacts(rest, keep, want);
      if v in Ids(Only(rest, keep, want)) {
        AboveOnly(rest, keep, want, v);
      } else {
        AboveAbsent(Only(rest, keep, want), v);
        if v == id {
          AboveAbsent(rest, v);
        }
      }
  }

  /** Settling removes exactly the leaf elements from the ancestors of visible content,
      and never adds an ancestor to anything. */
  lemma {:induction false} SettleAbove(f: Forest, texts: set<NodeId>, leaves: set<NodeId>, v: NodeId)
    requires TextClosed(f, texts) && Distinct(f)
    ensures Above(Settle(f, texts, leaves), v) <= Above(f, v)
    ensures v !in texts ==> Above(Settle(f, texts, leaves), v) == Above(f, v) - leaves
  {
    match f
    case Nil =>
    case Tree(id, kids, rest) =>
      SettleAbove(kids, texts, leaves, v);
      SettleAbove(rest, texts, leaves, v);
      SettleKeepsIds(kids, texts, leaves);
      SettleKeepsIds(rest, texts, leaves);
      if id in leaves {
        SettleAboveLeaf(id, kids, rest, texts, leaves, v);
      }
  }

  lemma {:induction false} SettleAboveLeaf(id: NodeId, kids: Forest, rest: Forest, texts: set<NodeId>,
                                           leaves: set<NodeId>, v: NodeId)
    requires var f := Tree(id, kids, rest); TextClosed(f, texts) && Distinct(f) && id in leaves
    requires forall g :: g == kids || g == rest ==>
               && Above(Settle(g, texts, leaves), v) <= Above(g, v)
               && (v !in texts ==> Above(Settle(g, texts, leaves), v) == Above(g, v) - leaves)
    ensures var f := Tree(id, kids, rest);
            && Above(Settle(f, texts, leaves), v) <= Above(f, v)
            && (v !in texts ==> Above(Settle(f, texts, leaves), v) == Above(f, v) - leaves)
  {
    var s, r := Settle(kids, texts, leaves), Settle(rest, texts, leaves);
    var t, n := Only(kids, texts, true), Only(s, texts, false);
    assert Above(s, v) <= Above(kids, v) && Above(r, v) <= Above(rest, v);
    SettleKeepsIds(kids, texts, leaves);
    SettleKeepsIds(rest, texts, leaves);
    SettleOnly(kids, texts, leaves);
    OnlyPartition(s, texts);
    OnlyFacts(kids, texts, true);
    OnlyFacts(s, texts, false);
    AppendFacts(n, r);
    AboveAppend(n, r, v);
    TextRootsAllText(kids, texts);
    if v in Ids(t) {
      AboveOnly(kids, texts, true, v);
    } else if v in Ids(n) {
      AboveOnly(s, texts, false, v);
    }
  }

  /** `Hoisted` keeps, root by root, exactly the nodes below that root. */
  ghost predicate SameTrees(f: Forest, g: Forest) {
    match (f, g)
    case (Nil, Nil) => true
    case (Tree(a, ka, ra), Tree(b, kb, rb)) => a == b && Ids(ka) == Ids(kb) && SameTrees(ra, rb)
    case _ => false
  }

  ghost predicate SettledBelowRoots(f: Forest, texts: set<NodeId>, leaves: set<NodeId>) {
    match f
    case Nil => true
    case Tree(_, kids, rest) => Settled(kids, texts, leaves) && SettledBelowRoots(rest, texts, leaves)
  }

  lemma {:induction false} HoistedShape(f: Forest, texts: set<NodeId>, leaves: set<NodeId>)
    requires TextClosed(f, texts)
    ensures SameTrees(f, Hoisted(f, texts, leaves))
    ensures Ids(Hoisted(f, texts, leaves)) == Ids(f) && Roots(Hoisted(f, texts, leaves)) == Roots(f)
    ensures Distinct(f) ==> Distinct(Hoisted(f, texts, leaves))
    ensures TextClosed(Hoisted(f, texts, leaves), texts)
    ensures SettledBelowRoots(Hoisted(f, texts, leaves), texts, leaves)
  {
    match f
    case Nil =>
    case Tree(id, kids, rest) =>
      SettleKeepsIds(kids, texts, leaves);
      SettleSettles(kids, texts, leaves);
      HoistedShape(rest, texts, leaves);
  }

  lemma {:induction false} SettledHoistedIsFixed(f: Forest, texts: set<NodeId>, leaves: set<NodeId>)
    requires SettledBelowRoots(f, texts, leaves)
    ensures Hoisted(f, texts, leaves) == f
  {
    match f
    case Nil =>
    case Tree(_, kids, rest) =>
      SettledIsFixed(kids, texts, leaves);
      SettledHoistedIsFixed(rest, texts, leaves);
  }

  lemma {:induction false} HoistedReading(f: Forest, texts: set<NodeId>, leaves: set<NodeId>)
    requires TextClosed(f, texts)
    ensures Reading(Hoisted(f, texts, leaves), texts) == Reading(f, texts)
  {
    match f
    case Nil =>
    case Tree(_, kids, rest) =>
      SettleKeepsReading(kids, texts, leaves);
      HoistedReading(rest, texts, leaves);
  }

  ghost function RootSet(f: Forest): set<NodeId> {
    set x | x in Roots(f)
  }

  lemma {:induction false} HoistedAbove(f: Forest, texts: set<NodeId>, leaves: set<NodeId>, v: NodeId)
    requires TextClosed(f, texts) && Distinct(f)
    ensures Above(Hoisted(f, texts, leaves), v) <= Above(f, v)
    ensures v !in texts ==>
              Above(Hoisted(f, texts, leaves), v) == Above(f, v) - (leaves - RootSet(f))
  {
    match f
    case Nil =>
    case Tree(id, kids, rest) =>
      SettleAbove(kids, texts, leaves, v);
      SettleKeepsIds(kids, texts, leaves);
      HoistedAbove(rest, texts, leaves, v);
      RootsAreIds(rest);
      AboveInIds(kids, v);
      AboveInIds(rest, v);
      assert id == Roots(f)[0];
      assert RootSet(f) == {id} + RootSet(rest);
  }

  lemma {:induction false} AboveInIds(f: Forest, v: NodeId)
    ensures Above(f, v) <= Ids(f)
  {
    if f.Tree? {
      AboveInIds(f.kids, v);
      AboveInIds(f.rest, v);
    }
  }
}
