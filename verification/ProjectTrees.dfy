/** The tree of one viewer's projects, walked in memory. */
module ProjectTrees {
  import opened Basics
  import opened Reachability
  import opened ParentLinks

  // The order of siblings: by sort order, then by id.
  predicate Earlier(order: map<int, int>, a: int, b: int) {
    var x, y := if a in order then order[a] else 0, if b in order then order[b] else 0;
    x < y || (x == y && a < b)
  }

  ghost predicate InOrder(order: map<int, int>, s: seq<int>) {
    forall i, j :: 0 <= i < j < |s| ==> Earlier(order, s[i], s[j])
  }

  ghost function ChildSet(links: Links, parent: Option<int>): set<int> {
    set x | x in links && links[x] == parent
  }

  // s lists the children of `parent` in sibling order.
  ghost predicate IsChildrenOf(links: Links, order: map<int, int>, parent: Option<int>, s: seq<int>) {
    InOrder(order, s) && ToSet(s) == ChildSet(links, parent)
  }

  /** There is one such list. */
  lemma {:induction false} OrderIsUnique(order: map<int, int>, s: seq<int>, t: seq<int>)
    requires InOrder(order, s) && InOrder(order, t) && ToSet(s) == ToSet(t)
    ensures s == t
    decreases |s|
  {
    assert |s| == 0 <==> ToSet(s) == {} by { assert |s| > 0 ==> s[0] in ToSet(s); }
    assert |t| == 0 <==> ToSet(t) == {} by { assert |t| > 0 ==> t[0] in ToSet(t); }
    if s != [] {
      assert s[0] in ToSet(s);
      var i :| 0 <= i < |t| && t[i] == s[0];
      assert t[0] in ToSet(t);
      var j :| 0 <= j < |s| && s[j] == t[0];
      assert i == 0 && j == 0;
      assert s == [s[0]] + s[1..] && t == [t[0]] + t[1..];
      forall x
        ensures x in ToSet(s[1..]) <==> x in ToSet(t[1..])
      {
        assert x in ToSet(s) <==> x == s[0] || x in s[1..];
        assert x in ToSet(t) <==> x == t[0] || x in t[1..];
      }
      assert ToSet(s[1..]) == ToSet(t[1..]);
      OrderIsUnique(order, s[1..], t[1..]);
    }
  }

  function Place(order: map<int, int>, s: seq<int>, x: int): (r: seq<int>)
    requires InOrder(order, s) && x !in s
    ensures InOrder(order, r) && ToSet(r) == ToSet(s) + {x}
  {
    if s == [] || Earlier(order, x, s[0]) then [x] + s
    else
      assert s == [s[0]] + s[1..];
      var rest := Place(order, s[1..], x);
      assert forall k :: 0 <= k < |rest| ==> rest[k] in ToSet(rest);
      [s[0]] + rest
  }

  ghost function SortedBy(order: map<int, int>, s: set<int>): (r: seq<int>)
    ensures InOrder(order, r) && ToSet(r) == s
  {
    if s == {} then []
    else
      var x := Pick(s);
      Place(order, SortedBy(order, s - {x}), x)
  }

  lemma SortedIsDistinct(order: map<int, int>, s: seq<int>)
    requires InOrder(order, s)
    ensures Distinct(s) && |s| == |ToSet(s)|
  {
    forall i, j | 0 <= i < j < |s| ensures s[i] != s[j] { assert Earlier(order, s[i], s[j]); }
    DistinctLength(s);
  }

  class ProjectTree {
    const projects: Links
    const sortOrder: map<int, int>

    constructor (projects: Links, sortOrder: map<int, int>)
      ensures this.projects == projects && this.sortOrder == sortOrder
    {
      this.projects, this.sortOrder := projects, sortOrder;
    }

    // From the project up to the top, and to an end even if the links are knotted into a ring.
    method ChainAbove(project: Option<int>) returns (chain: seq<int>)
      ensures chain == AncestorsOrSelf(projects, project)
    {
      chain := [];
      var seen := {};
      var current := project;
      while current.Some? && current.value in projects && current.value !in seen
        invariant chain + Chain(projects, current, seen) == AncestorsOrSelf(projects, project)
        decreases projects.Keys - seen
      {
        assert current.value in projects.Keys - seen;
        chain := chain + [current.value];
        seen := seen + {current.value};
        current := projects[current.value];
      }
    }

    method TopOf(project: int) returns (root: int)
      ensures root == RootOf(projects, project)
    {
      var chain := ChainAbove(Some(project));
      root := if chain != [] then chain[|chain| - 1] else project;
    }

    method ChildLists() returns (children: Graph)
      ensures IsReverse(Up(projects), children)
    {
      children := map[];
      var todo: set<int> := projects.Keys;
      while todo != {}
        invariant todo <= projects.Keys
        invariant forall x, y :: y in Next(children, x) <==> y in projects.Keys - todo && projects[y] == Some(x)
        decreases todo
      {
        SomeMember(todo);
        var id: int :| id in todo;
        ghost var before, left := children, todo;
        if projects[id].Some? {
          children := children[projects[id].value := Next(children, projects[id].value) + [id]];
        }
        todo := todo - {id};
        forall x, y
          ensures y in Next(children, x) <==> y in projects.Keys - todo && projects[y] == Some(x)
        {
          assert Next(children, x) == if projects[id] == Some(x) then Next(before, x) + [id] else Next(before, x);
          assert y in Next(before, x) <==> y in projects.Keys - left && projects[y] == Some(x);
        }
      }
      forall x, y
        ensures y in Next(Up(projects), x) <==> x in Next(children, y)
      {
        assert x in Next(children, y) <==> x in projects.Keys - todo && projects[x] == Some(y);
      }
    }

    // The project and everything below it.
    method SubtreeIds(project: int) returns (found: set<int>)
      ensures found == if project in projects then Subtree(projects, project) else {}
    {
      var children := ChildLists();
      found := {};
      if project !in projects { return; }
      var stack := [project];
      ReachesItself(children, project);
      while stack != []
        invariant Exploring(children, project, found, stack)
        decreases From(children, project) - found, |stack|
      {
        ExploringPops(children, project, found, stack);
        var current := stack[|stack| - 1];
        assert current in stack;
        stack := stack[..|stack| - 1];
        if current !in found {
          UnseenShrinks(children, project, found, current);
          found := found + {current};
          stack := stack + Next(children, current);
        }
      }
      ExploringEnds(children, project, found);
      BelowIsSubtree(projects, children, project);
    }

    method ChildrenOf(parent: Option<int>) returns (s: seq<int>)
      ensures IsChildrenOf(projects, sortOrder, parent, s)
    {
      s := [];
      var todo: set<int> := projects.Keys;
      while todo != {}
        invariant todo <= projects.Keys
        invariant InOrder(sortOrder, s)
        invariant ToSet(s) == set x | x in projects.Keys - todo && projects[x] == parent
        decreases todo
      {
        SomeMember(todo);
        var id: int :| id in todo;
        todo := todo - {id};
        if projects[id] == parent {
          assert id !in ToSet(s);
          s := Place(sortOrder, s, id);
        }
      }
    }

    method MakesRing(project: int, newParent: Option<int>) returns (cycle: bool)
      ensures cycle == WouldCycle(projects, project, newParent)
    {
      if newParent.None? { return false; }
      var chain := ChainAbove(newParent);
      cycle := project in chain;
    }

    // A milestone of a project is for that project and the ones below it; one of no project is for all.
    method MilestoneReachable(milestoneProject: Option<int>, taskProject: Option<int>) returns (ok: bool)
      ensures ok == Reaches(projects, milestoneProject, taskProject)
    {
      if milestoneProject.None? { return true; }
      var chain := ChainAbove(taskProject);
      ok := milestoneProject.value in chain;
    }
  }

  ghost predicate Reaches(links: Links, milestoneProject: Option<int>, taskProject: Option<int>) {
    milestoneProject.Some? ==> milestoneProject.value in AncestorsOrSelf(links, taskProject)
  }

  /** A milestone reaches exactly the tasks whose project is in the subtree of the milestone's project. */
  lemma ReachesIsSubtree(links: Links, milestoneProject: int, taskProject: int)
    requires taskProject in links
    ensures Reaches(links, Some(milestoneProject), Some(taskProject)) <==> taskProject in Subtree(links, milestoneProject)
  {
  }
}
