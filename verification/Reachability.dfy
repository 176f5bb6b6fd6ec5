/** Walks in a finite graph given by adjacency lists, and the searches that explore one with a stack. */
module Reachability {
  import opened Basics

  type Graph = map<int, seq<int>>

  function Next(g: Graph, x: int): seq<int> {
    if x in g then g[x] else []
  }

  ghost predicate Linked(g: Graph, p: seq<int>, k: int)
    requires 0 <= k < |p| - 1
  {
    p[k + 1] in Next(g, p[k])
  }

  // p is a walk along the edges of g; a single vertex is a walk.
  ghost predicate Walk(g: Graph, p: seq<int>) {
    |p| > 0 && forall k :: 0 <= k < |p| - 1 ==> Linked(g, p, k)
  }

  ghost predicate WalkBetween(g: Graph, a: int, b: int, p: seq<int>) {
    Walk(g, p) && p[0] == a && p[|p| - 1] == b
  }

  ghost predicate Reachable(g: Graph, a: int, b: int) {
    exists p :: WalkBetween(g, a, b, p)
  }

  lemma ReachesItself(g: Graph, a: int)
    ensures Reachable(g, a, a)
  {
    assert WalkBetween(g, a, a, [a]);
  }

  // Two walks that meet form one walk.
  lemma ReachesThrough(g: Graph, a: int, b: int, c: int)
    requires Reachable(g, a, b) && Reachable(g, b, c)
    ensures Reachable(g, a, c)
  {
    var p :| WalkBetween(g, a, b, p);
    var q :| WalkBetween(g, b, c, q);
    var r := p + q[1..];
    forall k | 0 <= k < |r| - 1
      ensures Linked(g, r, k)
    {
      if k < |p| - 1 { assert Linked(g, p, k); } else { assert Linked(g, q, k - |p| + 1); }
    }
    assert WalkBetween(g, a, c, r);
  }

  lemma ReachesStep(g: Graph, a: int, b: int)
    requires b in Next(g, a)
    ensures Reachable(g, a, b)
  {
    var p := [a, b];
    assert Linked(g, p, 0);
    assert WalkBetween(g, a, b, p);
  }

  lemma ReachesNext(g: Graph, a: int, b: int, c: int)
    requires Reachable(g, a, b) && c in Next(g, b)
    ensures Reachable(g, a, c)
  {
    ReachesStep(g, b, c);
    ReachesThrough(g, a, b, c);
  }

  lemma ReachesFromNext(g: Graph, a: int, b: int, c: int)
    requires b in Next(g, a) && Reachable(g, b, c)
    ensures Reachable(g, a, c)
  {
    ReachesStep(g, a, b);
    ReachesThrough(g, a, b, c);
  }

  // Any stretch of a walk is a walk.
  lemma PartOfWalk(g: Graph, p: seq<int>, i: int, j: int)
    requires Walk(g, p) && 0 <= i <= j < |p|
    ensures Reachable(g, p[i], p[j])
  {
    var q := p[i..j + 1];
    forall k | 0 <= k < |q| - 1
      ensures Linked(g, q, k)
    {
      assert Linked(g, p, i + k);
    }
    assert WalkBetween(g, p[i], p[j], q);
  }

  // The first step of a walk that leads somewhere else.
  lemma FirstStep(g: Graph, a: int, b: int) returns (c: int)
    requires Reachable(g, a, b) && a != b
    ensures c in Next(g, a) && Reachable(g, c, b)
  {
    var p :| WalkBetween(g, a, b, p);
    assert Linked(g, p, 0);
    c := p[1];
    PartOfWalk(g, p, 1, |p| - 1);
  }

  lemma LastStep(g: Graph, a: int, b: int) returns (c: int)
    requires Reachable(g, a, b) && a != b
    ensures b in Next(g, c) && Reachable(g, a, c)
  {
    var p :| WalkBetween(g, a, b, p);
    assert Linked(g, p, |p| - 2);
    c := p[|p| - 2];
    PartOfWalk(g, p, 0, |p| - 2);
  }

  // Every vertex a walk from inside a closed set meets stays in that set.
  lemma ClosedSetKeepsWalks(g: Graph, found: set<int>, a: int, b: int)
    requires a in found
    requires forall x, y :: x in found && y in Next(g, x) ==> y in found
    requires Reachable(g, a, b)
    ensures b in found
  {
    var p :| WalkBetween(g, a, b, p);
    var k := 0;
    while k < |p| - 1
      invariant 0 <= k < |p| && p[k] in found
    {
      assert Linked(g, p, k);
      var x, y := p[k], p[k + 1];
      assert x in found && y in Next(g, x);
      k := k + 1;
    }
  }

  // All vertices that appear in g.
  function Vertices(g: Graph): set<int> {
    g.Keys + set x, y | x in g && y in g[x] :: y
  }

  lemma NextIsVertex(g: Graph, x: int, y: int)
    requires y in Next(g, x)
    ensures y in Vertices(g)
  {
  }

  lemma ReachableIsVertex(g: Graph, a: int, b: int)
    requires Reachable(g, a, b)
    ensures b in Vertices(g) + {a}
  {
    forall x, y | x in Vertices(g) + {a} && y in Next(g, x)
      ensures y in Vertices(g) + {a}
    {
      NextIsVertex(g, x, y);
    }
    ClosedSetKeepsWalks(g, Vertices(g) + {a}, a, b);
  }

  // The vertices reachable from a.
  ghost function From(g: Graph, a: int): (r: set<int>)
    ensures forall b :: b in r <==> Reachable(g, a, b)
  {
    forall b | Reachable(g, a, b) ensures b in Vertices(g) + {a} { ReachableIsVertex(g, a, b); }
    set b | b in Vertices(g) + {a} && Reachable(g, a, b)
  }

  // What a stack search has established: everything seen or still waiting is reachable, and an edge out of
  // a seen vertex leads to a seen or waiting one.
  ghost predicate Exploring(g: Graph, root: int, found: set<int>, stack: seq<int>) {
    && (forall x :: x in found || x in stack ==> Reachable(g, root, x))
    && (forall x, y :: x in found && y in Next(g, x) ==> y in found || y in stack)
    && (root in found || root in stack)
  }

  lemma ExploringPops(g: Graph, root: int, found: set<int>, stack: seq<int>)
    requires Exploring(g, root, found, stack) && |stack| > 0
    ensures var x := stack[|stack| - 1];
            var rest := stack[..|stack| - 1];
            if x in found then Exploring(g, root, found, rest)
            else Exploring(g, root, found + {x}, rest + Next(g, x))
  {
    var x := stack[|stack| - 1];
    var rest := stack[..|stack| - 1];
    assert stack == rest + [x];
    if x !in found {
      forall y | y in Next(g, x) ensures Reachable(g, root, y) { ReachesNext(g, root, x, y); }
    }
  }

  lemma ExploringEnds(g: Graph, root: int, found: set<int>)
    requires Exploring(g, root, found, [])
    ensures found == From(g, root)
  {
    forall b | Reachable(g, root, b) ensures b in found { ClosedSetKeepsWalks(g, found, root, b); }
    assert forall b :: b in found <==> b in From(g, root);
  }

  // The unseen part of the graph shrinks whenever a search records a reachable vertex.
  lemma UnseenShrinks(g: Graph, root: int, found: set<int>, x: int)
    requires Reachable(g, root, x) && x !in found
    ensures From(g, root) - (found + {x}) < From(g, root) - found
  {
    assert x in From(g, root) - found;
  }
}
