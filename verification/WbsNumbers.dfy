/** What number each task and project gets, read off the rows: the parent's number and one more part, which counts. */
module WbsNumbers {
  import opened Basics
  import opened ParentLinks
  import opened ProjectTrees
  import opened ProjectScope
  import opened WbsCode

  // The outline of the listed projects and tasks.
  ghost predicate Outlined(projects: Links, order: map<int, int>, tasks: Tasks, codes: Codes) {
    IsOutline(Plan(Hung(projects), order, tasks), codes)
  }

  // The task's parent is listed, and in the same project.
  predicate ParentIsHere(tasks: Tasks, t: int)
    requires t in tasks
  {
    && tasks[t].parent.Some? && tasks[t].parent.value in tasks
    && tasks[tasks[t].parent.value].project == tasks[t].project
  }

  function DirectTasks(tasks: Tasks, project: int): set<int> {
    set u | u in tasks && tasks[u].project == Some(project) && !ParentIsHere(tasks, u)
  }

  function Subtasks(tasks: Tasks, project: int, parent: int): set<int> {
    set u | u in tasks && tasks[u].project == Some(project) && tasks[u].parent == Some(parent)
  }

  predicate NoLater(order: map<int, int>, x: int, y: int)
    requires x in order && y in order
  {
    order[x] < order[y] || (order[x] == order[y] && x <= y)
  }

  // ---- places in a sorted list ----------------------------------------------------------------------

  lemma PlaceIsCount(order: map<int, int>, s: seq<int>, k: nat)
    requires InOrder(order, s) && k < |s|
    ensures |set y | y in ToSet(s) && (y == s[k] || Earlier(order, y, s[k]))| == k + 1
  {
    var upTo := s[..k + 1];
    SortedIsDistinct(order, upTo);
    forall y
      ensures y in ToSet(upTo) <==> y in ToSet(s) && (y == s[k] || Earlier(order, y, s[k]))
    {
      if y in ToSet(upTo) {
        var i :| 0 <= i < |upTo| && upTo[i] == y;
        assert s[i] == y;
      }
      if y in ToSet(s) && (y == s[k] || Earlier(order, y, s[k])) {
        var i :| 0 <= i < |s| && s[i] == y;
        assert upTo[i] == y;
      }
    }
    assert ToSet(upTo) == set y | y in ToSet(s) && (y == s[k] || Earlier(order, y, s[k]));
  }

  lemma PlaceOf(order: map<int, int>, all: set<int>, x: int) returns (k: nat)
    requires x in all
    ensures k < |SortedBy(order, all)| && SortedBy(order, all)[k] == x
    ensures |set y | y in all && (y == x || Earlier(order, y, x))| == k + 1
  {
    var s := SortedBy(order, all);
    assert x in ToSet(s);
    k :| 0 <= k < |s| && s[k] == x;
    PlaceIsCount(order, s, k);
  }

  lemma PlaceByNumber(all: set<int>, x: int) returns (k: nat)
    requires x in all
    ensures k < |SortedBy(map[], all)| && SortedBy(map[], all)[k] == x
    ensures |set y | y in all && y <= x| == k + 1
  {
    k := PlaceOf(map[], all, x);
    assert (set y | y in all && y <= x) == set y | y in all && (y == x || Earlier(map[], y, x));
  }

  function NodeAbove(project: int, parent: Option<int>): Node {
    if parent.Some? then OfTask(parent.value) else OfProject(project)
  }

  lemma TaskStandsAt(plan: Plan, project: int, parent: Option<int>, k: nat)
    requires k < |SortedBy(map[], plan.TaskKids(project, parent))|
    requires parent.Some? ==> parent.value in plan.tasks && plan.tasks[parent.value].project == Some(project)
    ensures var kids := plan.Kids(NodeAbove(project, parent));
            k < |kids| && kids[k] == OfTask(SortedBy(map[], plan.TaskKids(project, parent))[k])
  {
    hide SortedBy, Plan.TaskKids;
    assert plan.TaskKidList(project, parent)[k] == OfTask(SortedBy(map[], plan.TaskKids(project, parent))[k]);
  }

  // The number of a task, once its place among the tasks nested under the same node is known.
  lemma NestedNumber(plan: Plan, codes: Codes, project: int, parent: Option<int>, t: int)
    requires IsOutline(plan, codes) && t in plan.TaskKids(project, parent) && NodeAbove(project, parent) in codes
    requires parent.Some? ==> parent.value in plan.tasks && plan.tasks[parent.value].project == Some(project)
    ensures OfTask(t) in codes
    ensures codes[OfTask(t)]
            == codes[NodeAbove(project, parent)] + [|set u | u in plan.TaskKids(project, parent) && u <= t|]
  {
    hide IsOutline, SortedBy, Plan.TaskKids, Plan.Kids;
    var k := PlaceByNumber(plan.TaskKids(project, parent), t);
    TaskStandsAt(plan, project, parent, k);
    KidNumber(plan, codes, NodeAbove(project, parent), k);
  }

  // ---- tasks --------------------------------------------------------------------------------------

  /** A task whose parent is in the same project has its parent's number and one more part: how many of the parent's
      subtasks there come up to it by number. */
  lemma SubtaskNumber(projects: Links, order: map<int, int>, tasks: Tasks, codes: Codes, t: int)
    requires Outlined(projects, order, tasks, codes) && t in tasks && tasks[t].project.Some? && ParentIsHere(tasks, t)
    requires OfTask(tasks[t].parent.value) in codes
    ensures OfTask(t) in codes
    ensures var p := tasks[t].parent.value;
            codes[OfTask(t)] == codes[OfTask(p)] + [|set u | u in Subtasks(tasks, tasks[t].project.value, p) && u <= t|]
  {
    hide IsOutline;
    var plan := Plan(Hung(projects), order, tasks);
    var q, p := tasks[t].project.value, tasks[t].parent.value;
    assert plan.TaskKids(q, Some(p)) == Subtasks(tasks, q, p);
    NestedNumber(plan, codes, q, Some(p), t);
  }

  /** Any other task of a project has the project's number and one more part, counted among the project's direct tasks. */
  lemma DirectTaskNumber(projects: Links, order: map<int, int>, tasks: Tasks, codes: Codes, t: int)
    requires Outlined(projects, order, tasks, codes) && t in tasks && tasks[t].project.Some? && !ParentIsHere(tasks, t)
    requires OfProject(tasks[t].project.value) in codes
    ensures OfTask(t) in codes
    ensures var q := tasks[t].project.value;
            codes[OfTask(t)] == codes[OfProject(q)] + [|set u | u in DirectTasks(tasks, q) && u <= t|]
  {
    hide IsOutline;
    var plan := Plan(Hung(projects), order, tasks);
    var q := tasks[t].project.value;
    assert plan.TaskKids(q, None) == DirectTasks(tasks, q);
    NestedNumber(plan, codes, q, None, t);
  }

  // The way from a task to a direct task of the project, by way of parents in the same project.
  ghost predicate FamilyWay(tasks: Tasks, project: int, way: seq<int>) {
    && |way| > 0
    && (forall k :: 0 <= k < |way| ==> way[k] in tasks && tasks[way[k]].project == Some(project))
    && (forall k :: 0 <= k < |way| - 1 ==> tasks[way[k]].parent == Some(way[k + 1]))
    && !ParentIsHere(tasks, way[|way| - 1])
  }

  lemma {:induction false} WayIsCounted(projects: Links, order: map<int, int>, tasks: Tasks, codes: Codes, project: int,
                                        way: seq<int>)
    requires Outlined(projects, order, tasks, codes) && FamilyWay(tasks, project, way) && OfProject(project) in codes
    ensures OfTask(way[0]) in codes
    decreases |way|
  {
    hide Outlined;
    if |way| == 1 {
      DirectTaskNumber(projects, order, tasks, codes, way[0]);
    } else {
      assert FamilyWay(tasks, project, way[1..]);
      WayIsCounted(projects, order, tasks, codes, project, way[1..]);
      SubtaskNumber(projects, order, tasks, codes, way[0]);
    }
  }

  lemma {:induction false} CountedHasWay(projects: Links, order: map<int, int>, tasks: Tasks, codes: Codes, t: int)
    requires Outlined(projects, order, tasks, codes) && OfTask(t) in codes
    ensures t in tasks && tasks[t].project.Some? && OfProject(tasks[t].project.value) in codes
    ensures exists way :: FamilyWay(tasks, tasks[t].project.value, way) && way[0] == t
    decreases |codes[OfTask(t)]|
  {
    hide IsOutline, Plan.Kids;
    var plan := Plan(Hung(projects), order, tasks);
    KidsAreBelow(plan, OfTask(t));
    PlacedAt(plan, codes, OfTask(t));
    CodeSplits(plan, codes, OfTask(t));
    var q := tasks[t].project.value;
    if ParentIsHere(tasks, t) {
      var p := tasks[t].parent.value;
      assert plan.Above(OfTask(t)) == Some(OfTask(p));
      CountedHasWay(projects, order, tasks, codes, p);
      var rest :| FamilyWay(tasks, q, rest) && rest[0] == p;
      assert FamilyWay(tasks, q, [t] + rest);
    } else {
      assert plan.Above(OfTask(t)) == Some(OfProject(q));
      assert FamilyWay(tasks, q, [t]);
    }
  }

  /** A task has a number exactly if its project has one and its parents lead to a direct task of the project: a ring of
      parents has none, nor has anything without a project. */
  lemma TasksNumberedExactly(projects: Links, order: map<int, int>, tasks: Tasks, codes: Codes, t: int)
    requires Outlined(projects, order, tasks, codes)
    ensures OfTask(t) in codes <==>
              exists q, way :: OfProject(q) in codes && FamilyWay(tasks, q, way) && way[0] == t
  {
    hide Outlined;
    if OfTask(t) in codes {
      CountedHasWay(projects, order, tasks, codes, t);
    }
    if q, way :| OfProject(q) in codes && FamilyWay(tasks, q, way) && way[0] == t {
      WayIsCounted(projects, order, tasks, codes, q, way);
    }
  }

  // ---- projects -----------------------------------------------------------------------------------

  /** A project under a listed one has its parent's number and one more part, which goes on after all direct tasks of the
      parent. */
  lemma SubprojectNumber(projects: Links, order: map<int, int>, tasks: Tasks, codes: Codes, x: int)
    requires Outlined(projects, order, tasks, codes) && order.Keys == projects.Keys
    requires x in projects && !IsTop(projects, x) && OfProject(projects[x].value) in codes
    ensures OfProject(x) in codes
    ensures var q := projects[x].value;
            var place := |DirectTasks(tasks, q)| + |set y | y in projects && projects[y] == Some(q) && NoLater(order, y, x)|;
            codes[OfProject(x)] == codes[OfProject(q)] + [place]
  {
    hide IsOutline, Plan.Kids, SortedBy, DirectTasks;
    var plan := Plan(Hung(projects), order, tasks);
    var q := projects[x].value;
    var k := PlaceOf(order, ChildSet(plan.hung, Some(q)), x);
    SameTasks(projects, order, tasks, q);
    ProjectStandsAt(plan, q, k);
    KidNumber(plan, codes, OfProject(q), |DirectTasks(tasks, q)| + k);
    SubprojectsCounted(projects, order, q, x);
  }

  lemma SameTasks(projects: Links, order: map<int, int>, tasks: Tasks, q: int)
    ensures Plan(Hung(projects), order, tasks).TaskKids(q, None) == DirectTasks(tasks, q)
  {
  }

  lemma SubprojectsCounted(projects: Links, order: map<int, int>, q: int, x: int)
    requires order.Keys == projects.Keys && x in projects && q in projects
    ensures (set y | y in projects && projects[y] == Some(q) && NoLater(order, y, x))
            == set y | y in ChildSet(Hung(projects), Some(q)) && (y == x || Earlier(order, y, x))
  {
  }

  lemma ProjectStandsAt(plan: Plan, q: int, k: nat)
    requires k < |SortedBy(plan.order, ChildSet(plan.hung, Some(q)))|
    ensures var at := |plan.TaskKids(q, None)| + k;
            at < |plan.Kids(OfProject(q))|
            && plan.Kids(OfProject(q))[at] == OfProject(SortedBy(plan.order, ChildSet(plan.hung, Some(q)))[k])
  {
    hide SortedBy, Plan.TaskKids;
    SortedIsDistinct(map[], SortedBy(map[], plan.TaskKids(q, None)));
    assert plan.ProjectKidList(Some(q))[k] == OfProject(SortedBy(plan.order, ChildSet(plan.hung, Some(q)))[k]);
  }

  /** A project at the top, or under one that is not listed, has a number of one part, counted among those. */
  lemma TopProjectNumber(projects: Links, order: map<int, int>, tasks: Tasks, codes: Codes, x: int)
    requires Outlined(projects, order, tasks, codes) && order.Keys == projects.Keys
    requires x in projects && IsTop(projects, x)
    ensures OfProject(x) in codes
    ensures codes[OfProject(x)] == [|set y | y in projects && IsTop(projects, y) && NoLater(order, y, x)|]
  {
    hide IsOutline, SortedBy, IsTop;
    var plan := Plan(Hung(projects), order, tasks);
    TopsCounted(projects, order, x);
    var k := PlaceOf(order, ChildSet(plan.hung, None), x);
    assert plan.ProjectKidList(None)[k] == OfProject(x);
    TopNumber(plan, codes, k);
  }

  lemma TopsCounted(projects: Links, order: map<int, int>, x: int)
    requires order.Keys == projects.Keys && x in projects && IsTop(projects, x)
    ensures x in ChildSet(Hung(projects), None)
    ensures (set y | y in projects && IsTop(projects, y) && NoLater(order, y, x))
            == set y | y in ChildSet(Hung(projects), None) && (y == x || Earlier(order, y, x))
  {
  }

  lemma {:induction false} ProjectWayIsCounted(projects: Links, order: map<int, int>, tasks: Tasks, codes: Codes, way: seq<int>)
    requires Outlined(projects, order, tasks, codes) && order.Keys == projects.Keys && ProjectWay(projects, way)
    ensures OfProject(way[0]) in codes
    decreases |way|
  {
    hide Outlined;
    if |way| == 1 {
      TopProjectNumber(projects, order, tasks, codes, way[0]);
    } else {
      assert ProjectWay(projects, way[1..]);
      ProjectWayIsCounted(projects, order, tasks, codes, way[1..]);
      SubprojectNumber(projects, order, tasks, codes, way[0]);
    }
  }

  lemma {:induction false} CountedProjectHasWay(projects: Links, order: map<int, int>, tasks: Tasks, codes: Codes, x: int)
    requires Outlined(projects, order, tasks, codes) && OfProject(x) in codes
    ensures exists way :: ProjectWay(projects, way) && way[0] == x
    decreases |codes[OfProject(x)]|
  {
    hide IsOutline, Plan.Kids;
    var plan := Plan(Hung(projects), order, tasks);
    CodeSplits(plan, codes, OfProject(x));
    ProjectIsListed(plan, codes, x);
    if IsTop(projects, x) {
      assert ProjectWay(projects, [x]);
    } else {
      var q := projects[x].value;
      assert plan.Above(OfProject(x)) == Some(OfProject(q));
      CountedProjectHasWay(projects, order, tasks, codes, q);
      var rest :| ProjectWay(projects, rest) && rest[0] == q;
      assert ProjectWay(projects, [x] + rest);
    }
  }

  lemma ProjectIsListed(plan: Plan, codes: Codes, x: int)
    requires IsOutline(plan, codes) && OfProject(x) in codes
    ensures x in plan.hung
  {
    hide IsOutline;
    PlacedAt(plan, codes, OfProject(x));
    if OfProject(x) in plan.ProjectKidList(None) {
      var s := SortedBy(plan.order, ChildSet(plan.hung, None));
      var i :| 0 <= i < |s| && ProjectNodes(s)[i] == OfProject(x);
      assert s[i] in ToSet(s);
    }
  }

  /** A project has a number exactly if its parents lead to the top: one on a ring has none, nor has anything below it. */
  lemma ProjectsNumberedExactly(projects: Links, order: map<int, int>, tasks: Tasks, codes: Codes, x: int)
    requires Outlined(projects, order, tasks, codes) && order.Keys == projects.Keys
    ensures OfProject(x) in codes <==> exists way :: ProjectWay(projects, way) && way[0] == x
  {
    hide Outlined;
    if OfProject(x) in codes { CountedProjectHasWay(projects, order, tasks, codes, x); }
    if way :| ProjectWay(projects, way) && way[0] == x { ProjectWayIsCounted(projects, order, tasks, codes, way); }
  }

  // ---- the order of siblings ------------------------------------------------------------------------

  lemma FewerCounted(all: set<int>, t: int, u: int)
    requires t < u && u in all
    ensures |set x | x in all && x <= t| < |set x | x in all && x <= u| <= |all|
  {
    var a, b := set x | x in all && x <= t, set x | x in all && x <= u;
    Subset(a + {u}, b);
    assert u !in a;
    Subset(b, all);
  }

  lemma Subset(a: set<int>, b: set<int>)
    requires a <= b
    ensures |a| <= |b|
  {
    assert b == a + (b - a);
  }

  /** Of two direct tasks of a project, or two subtasks of one task, the one made first comes first; and every direct task
      comes before every sub-project. */
  lemma DirectTasksFirst(projects: Links, order: map<int, int>, tasks: Tasks, codes: Codes, t: int, x: int)
    requires Outlined(projects, order, tasks, codes) && order.Keys == projects.Keys
    requires t in tasks && tasks[t].project.Some? && !ParentIsHere(tasks, t) && OfProject(tasks[t].project.value) in codes
    requires x in projects && projects[x] == tasks[t].project && projects[x].value in projects
    ensures var up := codes[OfProject(projects[x].value)];
            && OfTask(t) in codes && OfProject(x) in codes
            && |codes[OfTask(t)]| == |codes[OfProject(x)]| == |up| + 1
            && codes[OfTask(t)][|up|] < codes[OfProject(x)][|up|]
  {
    hide Outlined;
    var q := tasks[t].project.value;
    DirectTaskNumber(projects, order, tasks, codes, t);
    SubprojectNumber(projects, order, tasks, codes, x);
    Subset((set u | u in DirectTasks(tasks, q) && u <= t), DirectTasks(tasks, q));
    var others := set y | y in projects && projects[y] == Some(q) && NoLater(order, y, x);
    assert x in others;
  }

  lemma SiblingsByNumber(projects: Links, order: map<int, int>, tasks: Tasks, codes: Codes, t: int, u: int)
    requires Outlined(projects, order, tasks, codes) && t in tasks && u in tasks && t < u
    requires tasks[t].project == tasks[u].project && tasks[t].project.Some?
    requires ParentIsHere(tasks, t) == ParentIsHere(tasks, u) && (ParentIsHere(tasks, t) ==> tasks[t].parent == tasks[u].parent)
    requires (if ParentIsHere(tasks, t) then OfTask(tasks[t].parent.value) else OfProject(tasks[t].project.value)) in codes
    ensures OfTask(t) in codes && OfTask(u) in codes && |codes[OfTask(t)]| == |codes[OfTask(u)]| > 0
    ensures var last := |codes[OfTask(t)]| - 1;
            codes[OfTask(t)][..last] == codes[OfTask(u)][..last] && codes[OfTask(t)][last] < codes[OfTask(u)][last]
  {
    hide Outlined;
    var q := tasks[t].project.value;
    if ParentIsHere(tasks, t) {
      SubtaskNumber(projects, order, tasks, codes, t);
      SubtaskNumber(projects, order, tasks, codes, u);
      FewerCounted(Subtasks(tasks, q, tasks[t].parent.value), t, u);
    } else {
      DirectTaskNumber(projects, order, tasks, codes, t);
      DirectTaskNumber(projects, order, tasks, codes, u);
      FewerCounted(DirectTasks(tasks, q), t, u);
    }
  }
}
