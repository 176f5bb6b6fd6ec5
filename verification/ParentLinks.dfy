/** Rows that name their parent: the chain above a row, the rows below it, and when such links form a forest. */
module ParentLinks {
  import opened Basics
  import opened Reachability

  // What each known row names as its parent; a named parent need not be known.
  type Links = map<int, Option<int>>

  // The rows from x upwards, nearest first, stopping at the first row that is unknown or already seen.
  function Chain(links: Links, x: Option<int>, seen: set<int>): (r: seq<int>)
    ensures forall y :: y in r ==> y in links && y !in seen
    ensures Distinct(r)
    decreases links.Keys - seen
  {
    if x.None? || x.value !in links || x.value in seen then []
    else
      assert links.Keys - (seen + {x.value}) < links.Keys - seen by { assert x.value in links.Keys - seen; }
      var rest := Chain(links, links[x.value], seen + {x.value});
      assert x.value !in rest;
      [x.value] + rest
  }

  function AncestorsOrSelf(links: Links, x: Option<int>): seq<int> {
    Chain(links, x, {})
  }

  // The topmost row above x; an unknown row is its own.
  function RootOf(links: Links, x: int): int {
    var chain := AncestorsOrSelf(links, Some(x));
    if chain == [] then x else chain[|chain| - 1]
  }

  ghost function Subtree(links: Links, top: int): set<int> {
    set x | x in links && top in AncestorsOrSelf(links, Some(x))
  }

  // Whether hanging x under `parent` would put it above itself.
  predicate WouldCycle(links: Links, x: int, parent: Option<int>) {
    parent.Some? && x in AncestorsOrSelf(links, parent)
  }

  // No row is above itself.
  ghost predicate Forest(links: Links) {
    forall x :: x in links ==> x !in AncestorsOrSelf(links, links[x])
  }

  // Every named parent is there.
  ghost predicate ParentsKnown(links: Links) {
    forall x :: x in links && links[x].Some? ==> links[x].value in links
  }

  // ---- chains --------------------------------------------------------------------------------

  // Rows that the chain does not meet do not matter to it.
  lemma {:induction false} ChainIgnoresUnmet(links: Links, x: Option<int>, seen: set<int>, others: set<int>)
    requires forall y :: y in Chain(links, x, seen) ==> y !in others
    ensures Chain(links, x, seen + others) == Chain(links, x, seen)
    decreases links.Keys - seen
  {
    if x.None? || x.value !in links || x.value in seen {
    } else {
      assert x.value in Chain(links, x, seen);
      assert links.Keys - (seen + {x.value}) < links.Keys - seen by { assert x.value in links.Keys - seen; }
      assert seen + others + {x.value} == seen + {x.value} + others;
      var rest := Chain(links, links[x.value], seen + {x.value});
      assert Chain(links, x, seen) == [x.value] + rest;
      var y := x.value;
      assert y in Chain(links, x, seen);
      assert y !in others;
      ChainIgnoresUnmet(links, links[x.value], seen + {x.value}, others);
      assert Chain(links, x, seen + others) == [x.value] + Chain(links, links[x.value], seen + others + {x.value});
    }
  }

  /** In a forest the chain above a row is the row and the chain above its parent. */
  lemma ChainUnfolds(links: Links, x: int)
    requires Forest(links) && x in links
    ensures AncestorsOrSelf(links, Some(x)) == [x] + AncestorsOrSelf(links, links[x])
  {
    ChainIgnoresUnmet(links, links[x], {}, {x});
    assert {} + {x} == {x};
  }

  ghost function Depth(links: Links, x: Option<int>): nat {
    |AncestorsOrSelf(links, x)|
  }

  // A measure that falls towards the parent rules out rings.
  ghost predicate Falls(links: Links, rank: map<int, int>) {
    && rank.Keys >= links.Keys
    && forall x :: x in links && links[x].Some? && links[x].value in links ==> rank[links[x].value] < rank[x]
  }

  lemma {:induction false} ChainFalls(links: Links, rank: map<int, int>, x: Option<int>, seen: set<int>)
    requires Falls(links, rank)
    ensures forall y :: y in Chain(links, x, seen) ==> rank[y] <= rank[x.value]
    decreases links.Keys - seen
  {
    if x.None? || x.value !in links || x.value in seen {
    } else {
      assert links.Keys - (seen + {x.value}) < links.Keys - seen by { assert x.value in links.Keys - seen; }
      var rest := Chain(links, links[x.value], seen + {x.value});
      assert Chain(links, x, seen) == [x.value] + rest;
      if rest != [] { ChainFalls(links, rank, links[x.value], seen + {x.value}); }
      forall y | y in Chain(links, x, seen)
        ensures rank[y] <= rank[x.value]
      {
        assert y == x.value || y in rest;
      }
    }
  }

  lemma FallingIsForest(links: Links, rank: map<int, int>)
    requires Falls(links, rank)
    ensures Forest(links)
  {
    forall x | x in links
      ensures x !in AncestorsOrSelf(links, links[x])
    {
      ChainFalls(links, rank, links[x], {});
    }
  }

  lemma ForestFalls(links: Links)
    requires Forest(links)
    ensures Falls(links, map x | x in links :: Depth(links, Some(x)))
  {
    forall x | x in links && links[x].Some? && links[x].value in links
      ensures Depth(links, links[x]) < Depth(links, Some(x))
    {
      ChainUnfolds(links, x);
      assert links[x] == Some(links[x].value);
    }
  }

  // ---- the rows below ---------------------------------------------------------------------------

  function Up(links: Links): Graph {
    map x | x in links :: if links[x].Some? then [links[x].value] else []
  }

  ghost predicate IsReverse(g: Graph, h: Graph) {
    forall x, y :: y in Next(g, x) <==> x in Next(h, y)
  }

  lemma ReverseReaches(g: Graph, h: Graph, a: int, b: int)
    requires IsReverse(g, h) && Reachable(g, a, b)
    ensures Reachable(h, b, a)
  {
    var p :| WalkBetween(g, a, b, p);
    var k := 0;
    ReachesItself(h, a);
    while k < |p| - 1
      invariant 0 <= k < |p| && Reachable(h, p[k], a)
    {
      assert Linked(g, p, k);
      assert p[k] in Next(h, p[k + 1]);
      ReachesFromNext(h, p[k + 1], p[k], a);
      k := k + 1;
    }
  }

  lemma {:induction false} ChainIsReachable(links: Links, x: int, y: int, seen: set<int>)
    requires y in Chain(links, Some(x), seen)
    ensures Reachable(Up(links), x, y)
    decreases links.Keys - seen
  {
    ReachesItself(Up(links), x);
    if y != x {
      assert links.Keys - (seen + {x}) < links.Keys - seen by { assert x in links.Keys - seen; }
      var parent := links[x].value;
      ChainIsReachable(links, parent, y, seen + {x});
      assert parent in Next(Up(links), x);
      ReachesFromNext(Up(links), x, parent, y);
    }
  }

  // A chain is closed: the known parent of a row on it is on it or was seen before.
  lemma {:induction false} ChainIsClosed(links: Links, x: Option<int>, seen: set<int>, y: int)
    requires y in Chain(links, x, seen) && links[y].Some? && links[y].value in links
    ensures links[y].value in Chain(links, x, seen) || links[y].value in seen
    decreases links.Keys - seen
  {
    assert links.Keys - (seen + {x.value}) < links.Keys - seen by { assert x.value in links.Keys - seen; }
    var rest := Chain(links, links[x.value], seen + {x.value});
    if y != x.value {
      ChainIsClosed(links, links[x.value], seen + {x.value}, y);
    }
  }

  lemma ReachableIsInChain(links: Links, x: int, y: int)
    requires x in links && y in links && Reachable(Up(links), x, y)
    ensures y in AncestorsOrSelf(links, Some(x))
  {
    var chain := AncestorsOrSelf(links, Some(x));
    var outside := Vertices(Up(links)) - links.Keys;
    var closed := ToSet(chain) + outside;
    forall a, b | a in closed && b in Next(Up(links), a)
      ensures b in closed
    {
      NextIsVertex(Up(links), a, b);
      if b in links { ChainIsClosed(links, Some(x), {}, a); }
    }
    ClosedSetKeepsWalks(Up(links), closed, x, y);
  }

  /** Looking down and looking up agree, rings or not: the rows found below `top` are those whose chain passes it. */
  lemma BelowIsSubtree(links: Links, children: Graph, top: int)
    requires IsReverse(Up(links), children) && top in links
    ensures From(children, top) == Subtree(links, top)
  {
    forall x
      ensures x in From(children, top) <==> x in Subtree(links, top)
    {
      if x in Subtree(links, top) {
        ChainIsReachable(links, x, top, {});
        ReverseReaches(Up(links), children, x, top);
      }
      if x in From(children, top) {
        if x != top {
          var above := LastStep(children, top, x);
          assert above in Next(Up(links), x);
        }
        ReverseReaches(children, Up(links), top, x);
        ReachableIsInChain(links, x, top);
      }
    }
  }

  /** The two ways of asking whether a move makes a ring give the same answer. */
  lemma WouldCycleIsBelow(links: Links, x: int, parent: int)
    requires x in links && parent in links
    ensures WouldCycle(links, x, Some(parent)) <==> parent in Subtree(links, x)
  {
  }

  // ---- moving a row ------------------------------------------------------------------------------

  // A chain that does not pass x is the same after x moves.
  lemma {:induction false} ChainAvoidsMove(links: Links, x: int, parent: Option<int>, y: Option<int>, seen: set<int>)
    requires x in links && x !in Chain(links, y, seen)
    ensures Chain(links[x := parent], y, seen) == Chain(links, y, seen)
    decreases links.Keys - seen
  {
    if y.None? || y.value !in links || y.value in seen {
    } else {
      assert y.value in Chain(links, y, seen);
      assert links.Keys - (seen + {y.value}) < links.Keys - seen by { assert y.value in links.Keys - seen; }
      ChainAvoidsMove(links, x, parent, links[y.value], seen + {y.value});
    }
  }

  /** Moving a row of a forest leaves a forest exactly when the ring check lets it through. */
  lemma MoveKeepsForest(links: Links, x: int, parent: Option<int>)
    requires Forest(links) && x in links
    ensures Forest(links[x := parent]) <==> !WouldCycle(links, x, parent)
  {
    var moved := links[x := parent];
    if WouldCycle(links, x, parent) {
      assert moved[x := links[x]] == links;
      if x !in AncestorsOrSelf(moved, parent) {
        ChainAvoidsMove(moved, x, links[x], parent, {});
      }
    } else {
      var high := Depth(links, parent) + 1;
      var rank := map y | y in links :: Depth(links, Some(y)) + if y in Subtree(links, x) then high else 0;
      ForestFalls(links);
      forall y | y in moved && moved[y].Some? && moved[y].value in moved
        ensures rank[moved[y].value] < rank[y]
      {
        ChainUnfolds(links, y);
        if y == x {
          assert parent == Some(parent.value);
          assert x in Subtree(links, x);
        } else {
          assert links[y] == Some(links[y].value);
        }
      }
      FallingIsForest(moved, rank);
    }
  }

  // The part of the chain above y that comes before x.
  ghost function Before(links: Links, y: int, x: int): seq<int>
    requires Forest(links) && y in links && x in AncestorsOrSelf(links, Some(y))
    decreases Depth(links, Some(y))
  {
    if y == x then []
    else
      ChainUnfolds(links, y);
      assert links[y] == Some(links[y].value);
      [y] + Before(links, links[y].value, x)
  }

  /** A chain that passes x is what comes before x and then the chain above x; after x moves, only the latter differs. */
  lemma {:induction false} ChainSplits(links: Links, y: int, x: int, parent: Option<int>)
    requires Forest(links) && y in links && x in AncestorsOrSelf(links, Some(y)) && !WouldCycle(links, x, parent)
    ensures AncestorsOrSelf(links, Some(y)) == Before(links, y, x) + AncestorsOrSelf(links, Some(x))
    ensures AncestorsOrSelf(links[x := parent], Some(y)) == Before(links, y, x) + [x] + AncestorsOrSelf(links, parent)
    ensures forall z :: z in Before(links, y, x) ==> z != x
    decreases Depth(links, Some(y))
  {
    var moved := links[x := parent];
    MoveKeepsForest(links, x, parent);
    ChainUnfolds(links, y);
    ChainUnfolds(moved, y);
    if y == x {
      if parent.Some? { ChainAvoidsMove(links, x, parent, parent, {}); }
    } else {
      hide Chain, Forest;
      assert links[y] == Some(links[y].value);
      ChainSplits(links, links[y].value, x, parent);
    }
  }

  /** A row that is not below x keeps its chain when x moves. */
  lemma ChainUnmoved(links: Links, y: Option<int>, x: int, parent: Option<int>)
    requires x in links && x !in AncestorsOrSelf(links, y)
    ensures AncestorsOrSelf(links[x := parent], y) == AncestorsOrSelf(links, y)
  {
    ChainAvoidsMove(links, x, parent, y, {});
  }
}
