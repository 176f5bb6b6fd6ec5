/** The browser's plan for moving a selection, and that it asks the server for the same move. */
module ProjectMovePlan {
  import opened Basics
  import opened Reachability
  import opened ParentLinks
  import opened ProjectTrees
  import opened WorkspaceModel
  import opened TaskBranchSelection

  datatype Plan = Plan(roots: seq<int>, followers: seq<int>, stranded: seq<int>, carried: nat)

  // What is in one of the branches below the given tasks.
  ghost function Under(links: Links, roots: set<int>): set<int> {
    set t | t in links && exists r :: r in roots && r in AncestorsOrSelf(links, Some(t))
  }

  // What a search down from several tasks has established.
  ghost predicate Descending(links: Links, children: Graph, roots: set<int>, reached: set<int>, stack: seq<int>) {
    && roots <= links.Keys && reached <= Under(links, roots)
    && (forall x :: x in stack ==> x in roots + reached)
    && (forall x, c :: x in roots + reached && x !in stack && c in Next(children, x) ==> c in reached)
  }

  lemma ChildIsUnder(links: Links, children: Graph, roots: set<int>, x: int, c: int)
    requires IsReverse(Up(links), children) && roots <= links.Keys
    requires x in roots + Under(links, roots) && c in Next(children, x)
    ensures c in Under(links, roots)
  {
    assert x in Next(Up(links), c);
    var r := if x in roots then x else var r :| r in roots && r in AncestorsOrSelf(links, Some(x)); r;
    ReachesItself(Up(links), x);
    if x !in roots { ChainIsReachable(links, x, r, {}); }
    ReachesFromNext(Up(links), c, x, r);
    ReachableIsInChain(links, c, r);
  }

  lemma DescentEnds(links: Links, children: Graph, roots: set<int>, reached: set<int>)
    requires IsReverse(Up(links), children) && Descending(links, children, roots, reached, [])
    ensures roots + reached == Under(links, roots)
  {
    forall t | t in Under(links, roots)
      ensures t in roots + reached
    {
      var r :| r in roots && r in AncestorsOrSelf(links, Some(t));
      BelowIsSubtree(links, children, r);
      assert t in From(children, r);
      ClosedSetKeepsWalks(children, roots + reached, r, t);
    }
    forall r | r in roots
      ensures r in Under(links, roots)
    {
      assert r in AncestorsOrSelf(links, Some(r));
    }
  }

  // The tasks met on the way down from the roots.
  method Descend(links: Links, roots: seq<int>) returns (reached: set<int>)
    requires ToSet(roots) <= links.Keys
    ensures ToSet(roots) + reached == Under(links, ToSet(roots))
  {
    var tree := new ProjectTree(links, map[]);
    var children := tree.ChildLists();
    reached := {};
    var stack := roots;
    while stack != []
      invariant Descending(links, children, ToSet(roots), reached, stack)
      decreases links.Keys - reached, |stack|
    {
      var id := stack[|stack| - 1];
      assert id in stack;
      ghost var before := stack;
      var added := NewOnes(Next(children, id), reached);
      forall c | c in added ensures c in Under(links, ToSet(roots)) && c in links.Keys - reached {
        ChildIsUnder(links, children, ToSet(roots), id, c);
      }
      stack := stack[..|stack| - 1];
      assert forall x :: x in before <==> x in stack || x == id;
      if added != [] {
        assert added[0] in added;
        reached := reached + ToSet(added);
        stack := stack + added;
      }
    }
    DescentEnds(links, children, ToSet(roots), reached);
  }

  // Those not met yet, each once.
  function NewOnes(s: seq<int>, reached: set<int>): (r: seq<int>)
    ensures forall x :: x in r <==> x in s && x !in reached
  {
    if s == [] then []
    else (if s[0] in reached then [] else [s[0]]) + NewOnes(s[1..], reached + {s[0]})
  }

  function Known(s: seq<int>, links: Links): (r: seq<int>)
    ensures forall x :: x in r <==> x in s && x in links
  {
    if s == [] then []
    else
      assert s == [s[0]] + s[1..];
      (if s[0] in links then [s[0]] else []) + Known(s[1..], links)
  }

  // parentOf are the tasks that are not deleted.
  method PlanProjectMove(selected: seq<int>, parentOf: Links) returns (plan: Plan)
    ensures var chosen := Known(selected, parentOf);
            && plan.roots == OfKind(parentOf, ToSet(chosen), FirstOnly(chosen), Root)
            && plan.followers == OfKind(parentOf, ToSet(chosen), FirstOnly(chosen), Follower)
            && plan.stranded == OfKind(parentOf, ToSet(chosen), FirstOnly(chosen), Left)
            && plan.carried == |Under(parentOf, ToSet(plan.roots)) - ToSet(chosen)|
  {
    var chosen := Known(selected, parentOf);
    var roots, followers, stranded := Of(chosen, parentOf);
    forall r | r in roots
      ensures r in parentOf && r in chosen
    {
      assert r in ToSet(FirstOnly(chosen));
      assert r in ToSet(chosen);
    }
    var reached := Descend(parentOf, roots);
    var unchosen := reached - ToSet(chosen);
    assert unchosen == Under(parentOf, ToSet(roots)) - ToSet(chosen);
    plan := Plan(roots, followers, stranded, |unchosen|);
  }

  /** Sending the roots of the plan instead of the whole selection is never refused for stranded tasks; and if nothing was
      stranded, the server does exactly what it would have done with the whole selection. */
  lemma PlanAsksForTheSameMove(ws: Workspace, selected: seq<int>, roots: seq<int>, target: Option<int>)
    requires KnownProject(ws, target) && forall t :: t in selected ==> LiveTask(ws.tasks, t)
    requires roots == OfKind(LiveParents(ws.tasks), ToSet(selected), FirstOnly(selected), Root)
    ensures MoveToProject(ws, roots, target).Done?
    ensures MoveToProject(ws, selected, target).Done? ==> MoveToProject(ws, roots, target) == MoveToProject(ws, selected, target)
  {
    hide OfKind, RootsToMove, Branches, Detached, SetProject, FirstOnly, Stranded;
    RootsOfPlan(ws.tasks, selected, roots);
    SameRootsToMove(ws.tasks, ToSet(selected), ToSet(roots), target);
    NoneRefused(ws, roots, target);
    hide IsBranchRoot, LiveParents;
  }

  lemma RootsOfPlan(tasks: Tasks, selected: seq<int>, roots: seq<int>)
    requires forall t :: t in selected ==> LiveTask(tasks, t)
    requires roots == OfKind(LiveParents(tasks), ToSet(selected), FirstOnly(selected), Root)
    ensures forall t :: t in ToSet(roots) <==>
                        t in ToSet(selected) && t in LiveParents(tasks) && IsBranchRoot(LiveParents(tasks), t)
  {
    assert forall t :: t in selected ==> t in LiveParents(tasks);
    forall t
      ensures t in ToSet(roots) <==> t in ToSet(selected) && t in LiveParents(tasks) && IsBranchRoot(LiveParents(tasks), t)
    {
      RootsOfSelection(LiveParents(tasks), selected, roots, t);
    }
  }

  lemma NoneRefused(ws: Workspace, roots: seq<int>, target: Option<int>)
    requires KnownProject(ws, target)
    requires forall t :: t in ToSet(roots) ==> LiveTask(ws.tasks, t) && !Stranded(LiveParents(ws.tasks), ToSet(roots), t)
    ensures MoveToProject(ws, roots, target).Done?
  {
  }

  lemma SameRootsToMove(tasks: Tasks, chosen: set<int>, roots: set<int>, target: Option<int>)
    requires forall t :: t in roots <==> t in chosen && t in LiveParents(tasks) && IsBranchRoot(LiveParents(tasks), t)
    ensures RootsToMove(tasks, roots, target) == RootsToMove(tasks, chosen, target)
    ensures forall t :: t in roots ==> LiveTask(tasks, t) && !Stranded(LiveParents(tasks), roots, t)
  {
  }
}
