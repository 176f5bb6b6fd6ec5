/** The browser's tree of projects, built from the flat list. */
module ProjectScope {
  import opened Basics
  import opened ParentLinks
  import opened ProjectTrees

  datatype ProjectNode = ProjectNode(id: int, depth: nat, children: seq<ProjectNode>)

  // A project whose parent is not in the list is put at the top rather than lost.
  function Hung(projects: Links): Links {
    map p | p in projects :: if projects[p].Some? && projects[p].value in projects then projects[p] else None
  }

  function IdsOf(nodes: seq<ProjectNode>): (r: seq<int>)
    ensures |r| == |nodes| && forall i :: 0 <= i < |nodes| ==> r[i] == nodes[i].id
  {
    seq(|nodes|, i requires 0 <= i < |nodes| => nodes[i].id)
  }

  // nodes are the children of `parent` in sibling order, and so on all the way down.
  ghost predicate IsTree(hung: Links, order: map<int, int>, parent: Option<int>, depth: nat, nodes: seq<ProjectNode>)
    decreases nodes
  {
    && IsChildrenOf(hung, order, parent, IdsOf(nodes))
    && forall i :: 0 <= i < |nodes| ==>
         nodes[i].depth == depth && IsTree(hung, order, Some(nodes[i].id), depth + 1, nodes[i].children)
  }

  // The tree laid out flat, parents before children.
  function FlattenTree(nodes: seq<ProjectNode>): seq<ProjectNode>
    decreases nodes
  {
    if nodes == [] then []
    else
      assert nodes[0] in nodes;
      [nodes[0]] + FlattenTree(nodes[0].children) + FlattenTree(nodes[1..])
  }

  function FlatIds(nodes: seq<ProjectNode>): seq<int> {
    IdsOf(FlattenTree(nodes))
  }

  lemma {:induction false} FlattenAppends(a: seq<ProjectNode>, b: seq<ProjectNode>)
    ensures FlattenTree(a + b) == FlattenTree(a) + FlattenTree(b)
    decreases |a|
  {
    if a == [] {
      assert a + b == b;
    } else {
      assert (a + b)[1..] == a[1..] + b;
      FlattenAppends(a[1..], b);
    }
  }

  lemma OneMoreNode(nodes: seq<ProjectNode>, n: ProjectNode)
    ensures FlatIds(nodes + [n]) == FlatIds(nodes) + ([n.id] + FlatIds(n.children))
  {
    FlattenAppends(nodes, [n]);
    assert FlattenTree([n]) == [n] + FlattenTree(n.children) + FlattenTree([]);
  }

  // What has been placed is closed upwards.
  ghost predicate ParentsPlaced(hung: Links, placed: set<int>) {
    forall q :: q in placed ==> q in hung && (hung[q].Some? ==> hung[q].value in placed)
  }

  // Everything in `fresh` hangs under `parent`, by way of what is in `fresh`.
  ghost predicate HangsUnder(hung: Links, parent: Option<int>, added: set<int>) {
    forall q :: q in added ==> q in hung && (hung[q] == parent || (hung[q].Some? && hung[q].value in added))
  }

  // A node and what is below it laid out after its siblings: everything placed so far, each once.
  lemma BranchLaidOut(nodes: seq<ProjectNode>, n: ProjectNode, first: set<int>, before: set<int>, after: set<int>)
    requires Distinct(FlatIds(nodes)) && ToSet(FlatIds(nodes)) == before - first && first <= before && n.id !in before
    requires Distinct(FlatIds(n.children)) && ToSet(FlatIds(n.children)) == after - (before + {n.id}) && before + {n.id} <= after
    ensures Distinct(FlatIds(nodes + [n])) && ToSet(FlatIds(nodes + [n])) == after - first
  {
    OneMoreNode(nodes, n);
    hide FlatIds;
    var a, b := FlatIds(nodes), FlatIds(n.children);
    assert n.id !in b by { assert n.id !in ToSet(b); }
    ConcatDistinct([n.id], b);
    forall x | x in a
      ensures x !in [n.id] + b
    {
      assert x in ToSet(a) && x !in ToSet(b);
    }
    ConcatDistinct(a, [n.id] + b);
    assert ToSet(a + ([n.id] + b)) == ToSet(a) + ({n.id} + ToSet(b));
  }

  class TreeBuilder {
    const hung: Links
    const order: map<int, int>
    var placed: set<int>

    constructor (projects: Links, sortOrder: map<int, int>)
      ensures hung == Hung(projects) && order == sortOrder && placed == {}
    {
      hung, order, placed := Hung(projects), sortOrder, {};
    }

    method Build(parent: Option<int>, depth: nat) returns (nodes: seq<ProjectNode>)
      requires ParentsPlaced(hung, placed) && (parent.Some? ==> parent.value in placed)
      requires forall q :: q in placed ==> hung[q] != parent
      modifies this
      ensures IsTree(hung, order, parent, depth, nodes)
      ensures old(placed) <= placed && ParentsPlaced(hung, placed) && HangsUnder(hung, parent, placed - old(placed))
      ensures Distinct(FlatIds(nodes)) && ToSet(FlatIds(nodes)) == placed - old(placed)
      decreases hung.Keys - placed
    {
      var tree := new ProjectTree(hung, order);
      var kids := tree.ChildrenOf(parent);
      nodes := [];
      forall k | 0 <= k < |kids| ensures kids[k] !in placed { assert kids[k] in ToSet(kids); }
      for i := 0 to |kids|
        invariant old(placed) <= placed && ParentsPlaced(hung, placed)
        invariant HangsUnder(hung, parent, placed - old(placed))
        invariant forall k :: i <= k < |kids| ==> kids[k] !in placed
        invariant IdsOf(nodes) == kids[..i]
        invariant forall k :: 0 <= k < i ==>
                    nodes[k].depth == depth && IsTree(hung, order, Some(nodes[k].id), depth + 1, nodes[k].children)
        invariant Distinct(FlatIds(nodes)) && ToSet(FlatIds(nodes)) == placed - old(placed)
      {
        var kid := kids[i];
        assert kid in ToSet(kids);
        ghost var before := placed;
        placed := placed + {kid};
        ghost var middle := placed;
        var below := Build(Some(kid), depth + 1);
        ghost var added := placed - middle;
        forall k | i < k < |kids|
          ensures kids[k] !in placed
        {
          assert kids[k] in ToSet(kids) && Earlier(order, kids[i], kids[k]);
        }
        BranchLaidOut(nodes, ProjectNode(kid, depth, below), old(placed), before, placed);
        nodes := nodes + [ProjectNode(kid, depth, below)];
      }
      assert kids[..|kids|] == kids;
    }
  }

  // The way up from p ends at the top within n steps.
  ghost predicate GroundedIn(hung: Links, p: int, n: nat)
    decreases n
  {
    p in hung && (hung[p].None? || (n > 0 && GroundedIn(hung, hung[p].value, n - 1)))
  }

  // p is on no ring and below none.
  ghost predicate Grounded(hung: Links, p: int) {
    exists n: nat :: GroundedIn(hung, p, n)
  }

  lemma {:induction false} ForestIsGrounded(hung: Links, p: int)
    requires Forest(hung) && ParentsKnown(hung) && p in hung
    ensures Grounded(hung, p)
    decreases Depth(hung, Some(p))
  {
    if hung[p].None? {
      assert GroundedIn(hung, p, 0);
    } else {
      ChainUnfolds(hung, p);
      assert hung[p] == Some(hung[p].value);
      ForestIsGrounded(hung, hung[p].value);
      var n: nat :| GroundedIn(hung, hung[p].value, n);
      assert GroundedIn(hung, p, n + 1);
    }
  }

  // Some node laid out from the tree is that of p, and the tree below it is p's.
  ghost predicate HasNode(hung: Links, order: map<int, int>, flat: seq<ProjectNode>, p: int) {
    exists n :: n in flat && n.id == p && IsTree(hung, order, Some(p), n.depth + 1, n.children)
  }

  lemma {:induction false} FlatHasNodes(hung: Links, order: map<int, int>, parent: Option<int>, depth: nat,
                                        nodes: seq<ProjectNode>, all: seq<ProjectNode>, p: int)
    requires forall i :: 0 <= i < |nodes| ==>
               nodes[i].depth == depth && IsTree(hung, order, Some(nodes[i].id), depth + 1, nodes[i].children)
    requires p in IdsOf(FlattenTree(nodes))
    requires forall i :: 0 <= i < |nodes| ==> nodes[i] in all
    ensures HasNode(hung, order, FlattenTree(nodes), p)
    decreases nodes
  {
    var flat := FlattenTree(nodes);
    var k :| 0 <= k < |flat| && flat[k].id == p;
    assert nodes[0] in nodes;
    var below := FlattenTree(nodes[0].children);
    if k == 0 {
      assert flat[0] == nodes[0] && flat[0] in flat;
    } else if k <= |below| {
      assert below[k - 1] == flat[k];
      assert p == IdsOf(below)[k - 1];
      FlatHasNodes(hung, order, Some(nodes[0].id), depth + 1, nodes[0].children, nodes[0].children, p);
      var n :| n in below && n.id == p && IsTree(hung, order, Some(p), n.depth + 1, n.children);
      assert n in flat;
    } else {
      var rest := FlattenTree(nodes[1..]);
      assert rest[k - 1 - |below|] == flat[k];
      assert p == IdsOf(rest)[k - 1 - |below|];
      FlatHasNodes(hung, order, parent, depth, nodes[1..], all, p);
      var n :| n in rest && n.id == p && IsTree(hung, order, Some(p), n.depth + 1, n.children);
      assert n in flat;
    }
  }

  // What is laid out contains, with a node, the nodes below it.
  lemma {:induction false} FlatIsClosed(nodes: seq<ProjectNode>, n: ProjectNode, c: ProjectNode)
    requires n in FlattenTree(nodes) && c in n.children
    ensures c in FlattenTree(nodes)
    decreases nodes
  {
    assert nodes[0] in nodes;
    var below, rest := FlattenTree(nodes[0].children), FlattenTree(nodes[1..]);
    assert FlattenTree(nodes) == [nodes[0]] + below + rest;
    if n == nodes[0] {
      TopIsFlat(n.children, c);
    } else if n in below {
      FlatIsClosed(nodes[0].children, n, c);
    } else {
      FlatIsClosed(nodes[1..], n, c);
    }
  }

  lemma {:induction false} TopIsFlat(nodes: seq<ProjectNode>, c: ProjectNode)
    requires c in nodes
    ensures c in FlattenTree(nodes)
    decreases |nodes|
  {
    assert nodes[0] in nodes;
    if c != nodes[0] {
      TopIsFlat(nodes[1..], c);
    }
  }

  lemma {:induction false} GroundedIsPlaced(hung: Links, order: map<int, int>, nodes: seq<ProjectNode>, p: int, n: nat)
    requires IsTree(hung, order, None, 0, nodes) && GroundedIn(hung, p, n)
    ensures p in FlatIds(nodes)
    decreases n
  {
    var flat := FlattenTree(nodes);
    if hung[p].None? {
      assert p in ChildSet(hung, None);
      assert p in IdsOf(nodes);
      var i :| 0 <= i < |nodes| && nodes[i].id == p;
      TopIsFlat(nodes, nodes[i]);
      NodeIsId(flat, nodes[i]);
    } else {
      var q := hung[p].value;
      GroundedIsPlaced(hung, order, nodes, q, n - 1);
      FlatHasNodes(hung, order, None, 0, nodes, nodes, q);
      var m :| m in flat && m.id == q && IsTree(hung, order, Some(q), m.depth + 1, m.children);
      assert p in ChildSet(hung, Some(q));
      assert p in IdsOf(m.children);
      var i :| 0 <= i < |m.children| && m.children[i].id == p;
      FlatIsClosed(nodes, m, m.children[i]);
      NodeIsId(flat, m.children[i]);
    }
  }

  lemma NodeIsId(flat: seq<ProjectNode>, n: ProjectNode)
    requires n in flat
    ensures n.id in IdsOf(flat)
  {
    var i :| 0 <= i < |flat| && flat[i] == n;
    assert IdsOf(flat)[i] == n.id;
  }

  // A node hanging under the top, or under a grounded project, is grounded.
  lemma {:induction false} PlacedIsGrounded(hung: Links, order: map<int, int>, parent: Option<int>, depth: nat,
                                            nodes: seq<ProjectNode>, p: int)
    requires forall i :: 0 <= i < |nodes| ==>
               nodes[i].depth == depth && IsTree(hung, order, Some(nodes[i].id), depth + 1, nodes[i].children)
    requires forall i :: 0 <= i < |nodes| ==> nodes[i].id in hung && hung[nodes[i].id] == parent
    requires parent.Some? ==> Grounded(hung, parent.value)
    requires p in FlatIds(nodes)
    ensures Grounded(hung, p)
    decreases nodes
  {
    var flat := FlattenTree(nodes);
    var k :| 0 <= k < |flat| && flat[k].id == p;
    var n := nodes[0];
    assert n in nodes;
    var below, rest := FlattenTree(n.children), FlattenTree(nodes[1..]);
    GroundedBelow(hung, n.id, parent);
    if 0 < k <= |below| {
      assert p == IdsOf(below)[k - 1];
      forall i | 0 <= i < |n.children|
        ensures n.children[i].id in hung && hung[n.children[i].id] == Some(n.id)
      {
        assert n.children[i].id == IdsOf(n.children)[i];
        assert n.children[i].id in ToSet(IdsOf(n.children));
      }
      PlacedIsGrounded(hung, order, Some(n.id), depth + 1, n.children, p);
    } else if k > |below| {
      assert p == IdsOf(rest)[k - 1 - |below|];
      PlacedIsGrounded(hung, order, parent, depth, nodes[1..], p);
    }
  }

  lemma GroundedBelow(hung: Links, p: int, parent: Option<int>)
    requires p in hung && hung[p] == parent && (parent.Some? ==> Grounded(hung, parent.value))
    ensures Grounded(hung, p)
  {
    if parent.None? {
      assert GroundedIn(hung, p, 0);
    } else {
      var n: nat :| GroundedIn(hung, parent.value, n);
      assert GroundedIn(hung, p, n + 1);
    }
  }

  // ---- the tree in terms of the list ---------------------------------------------------------------

  // No listed project is right above it.
  predicate IsTop(projects: Links, x: int)
    requires x in projects
  {
    projects[x].None? || projects[x].value !in projects
  }

  // The way from a project to a top one.
  ghost predicate ProjectWay(projects: Links, way: seq<int>) {
    && |way| > 0 && (forall k :: 0 <= k < |way| ==> way[k] in projects)
    && (forall k :: 0 <= k < |way| - 1 ==> projects[way[k]] == Some(way[k + 1]))
    && IsTop(projects, way[|way| - 1])
  }

  lemma WayGoesOn(projects: Links, x: int, way: seq<int>)
    requires ProjectWay(projects, way) && x in projects && projects[x] == Some(way[0])
    ensures ProjectWay(projects, [x] + way)
  {
    var longer := [x] + way;
    forall k | 0 <= k < |longer| - 1 ensures projects[longer[k]] == Some(longer[k + 1]) {
      if k > 0 { assert longer[k] == way[k - 1] && longer[k + 1] == way[k]; }
    }
  }

  // The node stands as deep as there are projects above it, over exactly the projects that name it, in sibling order.
  ghost predicate StandsRight(projects: Links, order: map<int, int>, n: ProjectNode) {
    && (exists way :: ProjectWay(projects, way) && way[0] == n.id && |way| == n.depth + 1)
    && InOrder(order, IdsOf(n.children))
    && forall c :: c in IdsOf(n.children) <==> c in projects && projects[c] == Some(n.id)
  }

  lemma {:induction false} AllStandRight(projects: Links, order: map<int, int>, parent: Option<int>, depth: nat,
                                         nodes: seq<ProjectNode>, above: seq<int>, n: ProjectNode)
    requires forall i :: 0 <= i < |nodes| ==>
               nodes[i].depth == depth && IsTree(Hung(projects), order, Some(nodes[i].id), depth + 1, nodes[i].children)
    requires forall i :: 0 <= i < |nodes| ==> nodes[i].id in projects && Hung(projects)[nodes[i].id] == parent
    requires |above| == depth && (parent.None? <==> above == [])
    requires parent.Some? ==> ProjectWay(projects, above) && above[0] == parent.value
    requires n in FlattenTree(nodes)
    ensures StandsRight(projects, order, n)
    decreases nodes
  {
    var first := nodes[0];
    assert first in nodes;
    var way := [first.id] + above;
    if parent.Some? { WayGoesOn(projects, first.id, above); }
    assert ProjectWay(projects, way);
    KidsOfNode(projects, order, first, depth);
    var below, rest := FlattenTree(first.children), FlattenTree(nodes[1..]);
    assert FlattenTree(nodes) == [first] + below + rest;
    if n in below {
      AllStandRight(projects, order, Some(first.id), depth + 1, first.children, way, n);
    } else if n in rest {
      AllStandRight(projects, order, parent, depth, nodes[1..], above, n);
    }
  }

  lemma KidsOfNode(projects: Links, order: map<int, int>, n: ProjectNode, depth: nat)
    requires n.id in projects && IsTree(Hung(projects), order, Some(n.id), depth + 1, n.children)
    ensures InOrder(order, IdsOf(n.children))
    ensures forall c :: c in IdsOf(n.children) <==> c in projects && projects[c] == Some(n.id)
    ensures forall i :: 0 <= i < |n.children| ==> n.children[i].id in projects && Hung(projects)[n.children[i].id] == Some(n.id)
  {
    var ids := IdsOf(n.children);
    assert forall c :: c in ids <==> c in ToSet(ids);
    forall i | 0 <= i < |n.children| ensures n.children[i].id in ids { assert ids[i] == n.children[i].id; }
  }

  /** In the tree of a list every node stands as deep as its project has projects above it, and over exactly the projects that
      name it as their parent, in sibling order. */
  lemma TreeStandsRight(projects: Links, order: map<int, int>, nodes: seq<ProjectNode>, n: ProjectNode)
    requires IsTree(Hung(projects), order, None, 0, nodes) && n in FlattenTree(nodes)
    ensures StandsRight(projects, order, n)
  {
    var ids := IdsOf(nodes);
    forall i | 0 <= i < |nodes| ensures nodes[i].id in projects && Hung(projects)[nodes[i].id] == None {
      assert ids[i] == nodes[i].id && ids[i] in ToSet(ids);
    }
    AllStandRight(projects, order, None, 0, nodes, [], n);
  }

  lemma {:induction false} GroundedHasWay(projects: Links, p: int, n: nat)
    requires GroundedIn(Hung(projects), p, n)
    ensures exists way :: ProjectWay(projects, way) && way[0] == p
    decreases n
  {
    if IsTop(projects, p) {
      assert ProjectWay(projects, [p]);
    } else {
      GroundedHasWay(projects, projects[p].value, n - 1);
      var way :| ProjectWay(projects, way) && way[0] == projects[p].value;
      WayGoesOn(projects, p, way);
    }
  }

  lemma {:induction false} WayIsGrounded(projects: Links, way: seq<int>)
    requires ProjectWay(projects, way)
    ensures GroundedIn(Hung(projects), way[0], |way| - 1)
    decreases |way|
  {
    if |way| > 1 {
      assert ProjectWay(projects, way[1..]);
      WayIsGrounded(projects, way[1..]);
      assert projects[way[0]] == Some(way[1]);
    }
  }

  /** A project is in the tree exactly if its parents lead to one that has no listed parent. */
  lemma InTreeExactly(projects: Links, p: int)
    ensures Grounded(Hung(projects), p) <==> exists way :: ProjectWay(projects, way) && way[0] == p
  {
    hide GroundedIn;
    if n: nat :| GroundedIn(Hung(projects), p, n) { GroundedHasWay(projects, p, n); }
    if way :| ProjectWay(projects, way) && way[0] == p { WayIsGrounded(projects, way); }
  }

  /** The tree holds exactly the projects on no ring and below none, each once, siblings in order. */
  method ToTree(projects: Links, sortOrder: map<int, int>) returns (nodes: seq<ProjectNode>)
    ensures IsTree(Hung(projects), sortOrder, None, 0, nodes)
    ensures Distinct(FlatIds(nodes)) && forall p :: p in FlatIds(nodes) <==> Grounded(Hung(projects), p)
  {
    var builder := new TreeBuilder(projects, sortOrder);
    nodes := builder.Build(None, 0);
    var hung := Hung(projects);
    forall p
      ensures p in FlatIds(nodes) <==> Grounded(hung, p)
    {
      if Grounded(hung, p) {
        var n: nat :| GroundedIn(hung, p, n);
        GroundedIsPlaced(hung, sortOrder, nodes, p, n);
      }
      if p in FlatIds(nodes) {
        forall i | 0 <= i < |nodes|
          ensures nodes[i].id in hung && hung[nodes[i].id] == None
        {
          assert nodes[i].id == IdsOf(nodes)[i];
          assert nodes[i].id in ToSet(IdsOf(nodes));
        }
        PlacedIsGrounded(hung, sortOrder, None, 0, nodes, p);
      }
    }
  }
}
