/** WBS numbers: one outline over projects and tasks, and the rails drawn beside an indented list. */
module WbsCode {
  import opened Basics
  import opened ParentLinks
  import opened ProjectTrees
  import opened ProjectScope

  datatype TaskRow = TaskRow(parent: Option<int>, project: Option<int>)

  type Tasks = map<int, TaskRow>

  datatype Node = OfProject(id: int) | OfTask(id: int)

  // "1.2.3" as its parts.
  type Code = seq<nat>
  type Codes = map<Node, Code>

  // The list the outline is drawn from: projects hung under known parents, their sibling order, and the tasks.
  datatype Plan = Plan(hung: Links, order: map<int, int>, tasks: Tasks)
  {
    // The task a task is nested under: its parent, if that is in the same project.
    function TaskParent(t: int): Option<int>
      requires t in tasks
    {
      var p := tasks[t].parent;
      if p.Some? && p.value in tasks && tasks[p.value].project == tasks[t].project then p else None
    }

    function TaskKids(project: int, parent: Option<int>): set<int> {
      set t | t in tasks && tasks[t].project == Some(project) && TaskParent(t) == parent
    }

    // The node right above, if any.
    function Above(n: Node): Option<Node> {
      match n
      case OfProject(p) => if p in hung && hung[p].Some? then Some(OfProject(hung[p].value)) else None
      case OfTask(t) =>
        if t !in tasks || tasks[t].project.None? then None
        else if TaskParent(t).Some? then Some(OfTask(TaskParent(t).value))
        else Some(OfProject(tasks[t].project.value))
    }

    ghost function TaskKidList(project: int, parent: Option<int>): seq<Node> {
      TaskNodes(SortedBy(map[], TaskKids(project, parent)))
    }

    ghost function ProjectKidList(parent: Option<int>): seq<Node> {
      ProjectNodes(SortedBy(order, ChildSet(hung, parent)))
    }

    // What stands right below a node, in outline order: direct tasks by number, then sub-projects.
    ghost function Kids(n: Node): seq<Node> {
      match n
      case OfProject(p) => TaskKidList(p, None) + ProjectKidList(Some(p))
      case OfTask(t) => if t in tasks && tasks[t].project.Some? then TaskKidList(tasks[t].project.value, Some(t)) else []
    }
  }

  function TaskNodes(s: seq<int>): (r: seq<Node>)
    ensures |r| == |s| && forall i :: 0 <= i < |s| ==> r[i] == OfTask(s[i])
  {
    seq(|s|, i requires 0 <= i < |s| => OfTask(s[i]))
  }

  function ProjectNodes(s: seq<int>): (r: seq<Node>)
    ensures |r| == |s| && forall i :: 0 <= i < |s| ==> r[i] == OfProject(s[i])
  {
    seq(|s|, i requires 0 <= i < |s| => OfProject(s[i]))
  }

  // ---- what the numbers have to be -------------------------------------------------------------

  // Top projects are 1, 2, ...; what is right below a numbered node is numbered 1, 2, ... after it; nothing else is.
  ghost predicate IsOutline(plan: Plan, codes: Codes) {
    && TopsNumbered(plan, codes)
    && (forall n :: n in codes ==> KidsNumbered(plan, codes, n))
    && (forall n :: n in codes ==> Placed(plan, codes, n))
  }

  ghost predicate TopsNumbered(plan: Plan, codes: Codes) {
    forall i :: 0 <= i < |plan.ProjectKidList(None)| ==>
      plan.ProjectKidList(None)[i] in codes && codes[plan.ProjectKidList(None)[i]] == [i + 1]
  }

  ghost predicate KidsNumbered(plan: Plan, codes: Codes, n: Node)
    requires n in codes
  {
    forall i :: 0 <= i < |plan.Kids(n)| ==>
      plan.Kids(n)[i] in codes && codes[plan.Kids(n)[i]] == codes[n] + [i + 1]
  }

  // n is a top project, or stands right below a numbered node.
  ghost predicate Placed(plan: Plan, codes: Codes, n: Node) {
    n in plan.ProjectKidList(None) || (plan.Above(n).Some? && plan.Above(n).value in codes && n in plan.Kids(plan.Above(n).value))
  }

  lemma TaskKidsAreBelow(plan: Plan, project: int, parent: Option<int>)
    ensures Distinct(plan.TaskKidList(project, parent))
    ensures forall k :: k in plan.TaskKidList(project, parent) ==>
              k.OfTask? && plan.Above(k) == Some(if parent.Some? then OfTask(parent.value) else OfProject(project))
  {
    var a := SortedBy(map[], plan.TaskKids(project, parent));
    assert forall i :: 0 <= i < |a| ==> a[i] in ToSet(a);
    assert forall i, j :: 0 <= i < j < |a| ==> Earlier(map[], a[i], a[j]);
  }

  lemma ProjectKidsAreBelow(plan: Plan, parent: Option<int>)
    ensures Distinct(plan.ProjectKidList(parent))
    ensures forall k :: k in plan.ProjectKidList(parent) ==>
              k.OfProject? && plan.Above(k) == if parent.Some? then Some(OfProject(parent.value)) else None
  {
    var a := SortedBy(plan.order, ChildSet(plan.hung, parent));
    assert forall i :: 0 <= i < |a| ==> a[i] in ToSet(a);
    assert forall i, j :: 0 <= i < j < |a| ==> Earlier(plan.order, a[i], a[j]);
  }

  // Nodes are listed below the node above them, once, and top projects have none above.
  lemma KidsAreBelow(plan: Plan, n: Node)
    ensures Distinct(plan.Kids(n)) && forall k :: k in plan.Kids(n) ==> plan.Above(k) == Some(n)
    ensures Distinct(plan.ProjectKidList(None)) && forall k :: k in plan.ProjectKidList(None) ==> plan.Above(k).None? && k.OfProject?
  {
    ProjectKidsAreBelow(plan, None);
    hide Plan.TaskKidList, Plan.ProjectKidList, Plan.Above;
    match n
    case OfProject(p) =>
      TaskKidsAreBelow(plan, p, None);
      ProjectKidsAreBelow(plan, Some(p));
      ConcatDistinct(plan.TaskKidList(p, None), plan.ProjectKidList(Some(p)));
    case OfTask(t) =>
      if t in plan.tasks && plan.tasks[t].project.Some? {
        TaskKidsAreBelow(plan, plan.tasks[t].project.value, Some(t));
      }
  }

  lemma BelowIsKid(plan: Plan, n: Node, k: Node)
    requires plan.Above(k) == Some(n)
    ensures k in plan.Kids(n)
  {
    match k
    case OfProject(p) =>
      var b := SortedBy(plan.order, ChildSet(plan.hung, Some(n.id)));
      assert p in ToSet(b);
      var i :| 0 <= i < |b| && b[i] == p;
      assert plan.ProjectKidList(Some(n.id))[i] == k;
    case OfTask(t) =>
      var parent := if n.OfTask? then Some(n.id) else None;
      var a := SortedBy(map[], plan.TaskKids(plan.tasks[t].project.value, parent));
      assert t in ToSet(a);
      var i :| 0 <= i < |a| && a[i] == t;
      assert plan.TaskKidList(plan.tasks[t].project.value, parent)[i] == k;
  }

  // ---- what follows from it ----------------------------------------------------------------------

  // A way up from b to a, of at least one step if `proper`.
  ghost predicate WayUp(plan: Plan, p: seq<Node>) {
    |p| > 0 && forall k :: 0 <= k < |p| - 1 ==> plan.Above(p[k]) == Some(p[k + 1])
  }

  ghost predicate IsAncestor(plan: Plan, a: Node, b: Node) {
    exists p :: WayUp(plan, p) && |p| > 1 && p[0] == b && p[|p| - 1] == a
  }

  // A number ends in its place, and the rest is the number of the node above.
  lemma CodeSplits(plan: Plan, codes: Codes, n: Node)
    requires IsOutline(plan, codes) && n in codes
    ensures plan.Above(n).None? ==> |codes[n]| == 1 && 0 < codes[n][0] <= |plan.ProjectKidList(None)|
                                    && n == plan.ProjectKidList(None)[codes[n][0] - 1]
    ensures plan.Above(n).Some? ==>
              var up := plan.Above(n).value;
              && up in codes && |codes[n]| == |codes[up]| + 1 && codes[n][..|codes[up]|] == codes[up]
              && 0 < codes[n][|codes[up]|] <= |plan.Kids(up)| && n == plan.Kids(up)[codes[n][|codes[up]|] - 1]
  {
    hide IsOutline, Plan.Kids, Plan.ProjectKidList, Plan.Above;
    KidsAreBelow(plan, n);
    PlacedAt(plan, codes, n);
    if n in plan.ProjectKidList(None) {
      var i :| 0 <= i < |plan.ProjectKidList(None)| && plan.ProjectKidList(None)[i] == n;
      TopNumber(plan, codes, i);
    } else {
      var up := plan.Above(n).value;
      var i :| 0 <= i < |plan.Kids(up)| && plan.Kids(up)[i] == n;
      KidNumber(plan, codes, up, i);
    }
  }

  lemma PlacedAt(plan: Plan, codes: Codes, n: Node)
    requires IsOutline(plan, codes) && n in codes
    ensures Placed(plan, codes, n)
  {
  }

  /** No two nodes have the same number. */
  lemma {:induction false} NumbersAreUnique(plan: Plan, codes: Codes, a: Node, b: Node)
    requires IsOutline(plan, codes) && a in codes && b in codes && codes[a] == codes[b]
    ensures a == b
    decreases |codes[a]|
  {
    hide IsOutline, Plan.Kids, Plan.ProjectKidList, Plan.Above;
    CodeSplits(plan, codes, a);
    CodeSplits(plan, codes, b);
    if plan.Above(a).Some? && plan.Above(b).Some? {
      NumbersAreUnique(plan, codes, plan.Above(a).value, plan.Above(b).value);
    } else if plan.Above(a).Some? {
      NumbersAreNotEmpty(plan, codes, plan.Above(a).value);
    } else if plan.Above(b).Some? {
      NumbersAreNotEmpty(plan, codes, plan.Above(b).value);
    }
  }

  lemma NumbersAreNotEmpty(plan: Plan, codes: Codes, n: Node)
    requires IsOutline(plan, codes) && n in codes
    ensures |codes[n]| > 0
  {
    CodeSplits(plan, codes, n);
  }

  /** One number begins another, and is shorter, exactly when its node is an ancestor of the other's. */
  lemma PrefixIsAncestor(plan: Plan, codes: Codes, a: Node, b: Node)
    requires IsOutline(plan, codes) && a in codes && b in codes
    ensures codes[a] < codes[b] <==> IsAncestor(plan, a, b)
  {
    if codes[a] < codes[b] { PrefixIsAbove(plan, codes, a, b); }
    if IsAncestor(plan, a, b) {
      var p :| WayUp(plan, p) && |p| > 1 && p[0] == b && p[|p| - 1] == a;
      AncestorIsPrefix(plan, codes, p);
    }
  }

  lemma {:induction false} PrefixIsAbove(plan: Plan, codes: Codes, a: Node, b: Node)
    requires IsOutline(plan, codes) && a in codes && b in codes && codes[a] < codes[b]
    ensures IsAncestor(plan, a, b)
    decreases |codes[b]|
  {
    hide IsOutline, Plan.Kids, Plan.ProjectKidList, Plan.Above;
    CodeSplits(plan, codes, b);
    NumbersAreNotEmpty(plan, codes, a);
    var up := plan.Above(b).value;
    if codes[a] == codes[up] {
      NumbersAreUnique(plan, codes, a, up);
      assert WayUp(plan, [b, a]);
    } else {
      assert codes[a] < codes[up];
      PrefixIsAbove(plan, codes, a, up);
      var p :| WayUp(plan, p) && |p| > 1 && p[0] == up && p[|p| - 1] == a;
      var q := [b] + p;
      forall k | 0 <= k < |q| - 1 ensures plan.Above(q[k]) == Some(q[k + 1]) { if k > 0 { assert q[k] == p[k - 1]; } }
      assert WayUp(plan, q);
    }
  }

  lemma {:induction false} AncestorIsPrefix(plan: Plan, codes: Codes, p: seq<Node>)
    requires IsOutline(plan, codes) && WayUp(plan, p) && |p| > 1 && p[0] in codes
    ensures p[|p| - 1] in codes && codes[p[|p| - 1]] < codes[p[0]]
    decreases |p|
  {
    hide IsOutline, Plan.Kids, Plan.ProjectKidList, Plan.Above;
    CodeSplits(plan, codes, p[0]);
    assert plan.Above(p[0]) == Some(p[1]);
    if |p| > 2 {
      var q := p[1..];
      forall k | 0 <= k < |q| - 1 ensures plan.Above(q[k]) == Some(q[k + 1]) { assert q[k] == p[k + 1]; }
      AncestorIsPrefix(plan, codes, q);
      assert q[|q| - 1] == p[|p| - 1];
    }
  }

  /** There is one such numbering. */
  lemma OutlineIsUnique(plan: Plan, a: Codes, b: Codes)
    requires IsOutline(plan, a) && IsOutline(plan, b)
    ensures a == b
  {
    forall n | n in a ensures n in b && b[n] == a[n] { SameNumber(plan, a, b, n); }
    forall n | n in b ensures n in a && a[n] == b[n] { SameNumber(plan, b, a, n); }
  }

  lemma {:induction false} SameNumber(plan: Plan, a: Codes, b: Codes, n: Node)
    requires IsOutline(plan, a) && IsOutline(plan, b) && n in a
    ensures n in b && b[n] == a[n]
    decreases |a[n]|
  {
    hide IsOutline, Plan.Kids, Plan.ProjectKidList, Plan.Above;
    CodeSplits(plan, a, n);
    if plan.Above(n).Some? {
      var up := plan.Above(n).value;
      SameNumber(plan, a, b, up);
      var i := a[n][|a[up]|] - 1;
      KidNumber(plan, b, up, i);
      assert a[n] == a[up] + [i + 1];
    } else {
      var i := a[n][0] - 1;
      TopNumber(plan, b, i);
      assert a[n] == [i + 1];
    }
  }

  lemma KidNumber(plan: Plan, codes: Codes, n: Node, i: nat)
    requires IsOutline(plan, codes) && n in codes && i < |plan.Kids(n)|
    ensures plan.Kids(n)[i] in codes && codes[plan.Kids(n)[i]] == codes[n] + [i + 1]
  {
    hide Plan.Kids, Plan.ProjectKidList, Plan.Above, Placed;
    assert KidsNumbered(plan, codes, n);
  }

  lemma TopNumber(plan: Plan, codes: Codes, i: nat)
    requires IsOutline(plan, codes) && i < |plan.ProjectKidList(None)|
    ensures plan.ProjectKidList(None)[i] in codes && codes[plan.ProjectKidList(None)[i]] == [i + 1]
  {
  }

  /** The numbered nodes are those whose way up ends at a top project: nothing on a ring, nothing unclassified. */
  lemma NumberedExactly(plan: Plan, codes: Codes, n: Node)
    requires IsOutline(plan, codes)
    ensures n in codes <==> exists p :: WayUp(plan, p) && p[0] == n && p[|p| - 1] in plan.ProjectKidList(None)
  {
    if n in codes { NumberedHasWay(plan, codes, n); }
    if exists p :: WayUp(plan, p) && p[0] == n && p[|p| - 1] in plan.ProjectKidList(None) {
      var p :| WayUp(plan, p) && p[0] == n && p[|p| - 1] in plan.ProjectKidList(None);
      WayIsNumbered(plan, codes, p);
    }
  }

  lemma {:induction false} NumberedHasWay(plan: Plan, codes: Codes, n: Node)
    requires IsOutline(plan, codes) && n in codes
    ensures exists p :: WayUp(plan, p) && p[0] == n && p[|p| - 1] in plan.ProjectKidList(None)
    decreases |codes[n]|
  {
    hide IsOutline, Plan.Kids, Plan.ProjectKidList, Plan.Above;
    CodeSplits(plan, codes, n);
    if plan.Above(n).Some? {
      NumberedHasWay(plan, codes, plan.Above(n).value);
      var p :| WayUp(plan, p) && p[0] == plan.Above(n).value && p[|p| - 1] in plan.ProjectKidList(None);
      var q := [n] + p;
      forall k | 0 <= k < |q| - 1 ensures plan.Above(q[k]) == Some(q[k + 1]) { if k > 0 { assert q[k] == p[k - 1]; } }
      assert WayUp(plan, q) && q[|q| - 1] == p[|p| - 1];
    } else {
      assert WayUp(plan, [n]) && [n][|[n]| - 1] in plan.ProjectKidList(None);
    }
  }

  lemma {:induction false} WayIsNumbered(plan: Plan, codes: Codes, p: seq<Node>)
    requires IsOutline(plan, codes) && WayUp(plan, p) && p[|p| - 1] in plan.ProjectKidList(None)
    ensures p[0] in codes
    decreases |p|
  {
    if |p| == 1 {
      var i :| 0 <= i < |plan.ProjectKidList(None)| && plan.ProjectKidList(None)[i] == p[0];
      TopNumber(plan, codes, i);
    } else {
      var q := p[1..];
      forall k | 0 <= k < |q| - 1 ensures plan.Above(q[k]) == Some(q[k + 1]) { assert q[k] == p[k + 1]; }
      WayIsNumbered(plan, codes, q);
      assert plan.Above(p[0]) == Some(p[1]);
      BelowIsKid(plan, p[1], p[0]);
      var i :| 0 <= i < |plan.Kids(p[1])| && plan.Kids(p[1])[i] == p[0];
      KidNumber(plan, codes, p[1], i);
    }
  }

  // ---- drawing the outline ------------------------------------------------------------------------

  // The number of n fits the node it stands below.
  ghost predicate RightNumber(plan: Plan, codes: Codes, n: Node)
    requires n in codes
  {
    || (exists i :: 0 <= i < |plan.ProjectKidList(None)| && plan.ProjectKidList(None)[i] == n && codes[n] == [i + 1])
    || (plan.Above(n).Some? && plan.Above(n).value in codes
        && exists i :: 0 <= i < |plan.Kids(plan.Above(n).value)| && plan.Kids(plan.Above(n).value)[i] == n
                       && codes[n] == codes[plan.Above(n).value] + [i + 1])
  }

  ghost predicate AllRight(plan: Plan, codes: Codes) {
    forall n :: n in codes ==> RightNumber(plan, codes, n)
  }

  ghost predicate Grows(a: Codes, b: Codes) {
    forall n :: n in a ==> n in b && b[n] == a[n]
  }

  // All that stands below n has a number.
  ghost predicate Settled(plan: Plan, codes: Codes, n: Node) {
    forall k :: k in plan.Kids(n) ==> k in codes
  }

  // Every numbered task is settled, but for those still being worked on.
  ghost predicate TasksSettled(plan: Plan, codes: Codes, open: set<Node>) {
    forall n :: n in codes && n.OfTask? && n !in open ==> Settled(plan, codes, n)
  }

  lemma RightStaysRight(plan: Plan, a: Codes, b: Codes, n: Node)
    requires Grows(a, b) && n in a && RightNumber(plan, a, n)
    ensures RightNumber(plan, b, n)
  {
    if plan.Above(n).Some? && plan.Above(n).value in a {
      var up := plan.Above(n).value;
      assert up in b && b[up] == a[up];
    }
  }

  // A new number that fits leaves everything in order.
  lemma NumberAdded(plan: Plan, codes: Codes, n: Node, code: Code, open: set<Node>)
    requires AllRight(plan, codes) && TasksSettled(plan, codes, open) && n !in codes
    requires RightNumber(plan, codes[n := code], n)
    ensures AllRight(plan, codes[n := code]) && Grows(codes, codes[n := code])
    ensures TasksSettled(plan, codes[n := code], open + {n})
  {
    var more := codes[n := code];
    assert Grows(codes, more);
    forall k | k in more
      ensures RightNumber(plan, more, k)
    {
      if k != n { RightStaysRight(plan, codes, more, k); }
    }
    forall k | k in more && k.OfTask? && k !in open + {n}
      ensures Settled(plan, more, k)
    {
      assert Settled(plan, codes, k);
    }
  }

  lemma RightAt(plan: Plan, codes: Codes, n: Node)
    requires AllRight(plan, codes) && n in codes
    ensures RightNumber(plan, codes, n)
  {
  }

  lemma TopsDrawn(plan: Plan, codes: Codes)
    requires AllRight(plan, codes) && forall k :: k in plan.ProjectKidList(None) ==> k in codes
    ensures TopsNumbered(plan, codes)
  {
    hide AllRight, Plan.ProjectKidList, Plan.Kids, Plan.Above;
    forall i | 0 <= i < |plan.ProjectKidList(None)|
      ensures plan.ProjectKidList(None)[i] in codes && codes[plan.ProjectKidList(None)[i]] == [i + 1]
    {
      var k := plan.ProjectKidList(None)[i];
      assert k in plan.ProjectKidList(None);
      KidsAreBelow(plan, k);
      RightAt(plan, codes, k);
    }
  }

  lemma KidsDrawn(plan: Plan, codes: Codes, n: Node)
    requires AllRight(plan, codes) && n in codes && Settled(plan, codes, n)
    ensures KidsNumbered(plan, codes, n)
  {
    hide AllRight, Plan.ProjectKidList, Plan.Kids, Plan.Above;
    forall i | 0 <= i < |plan.Kids(n)|
      ensures plan.Kids(n)[i] in codes && codes[plan.Kids(n)[i]] == codes[n] + [i + 1]
    {
      var k := plan.Kids(n)[i];
      assert k in plan.Kids(n);
      KidsAreBelow(plan, n);
      assert k !in plan.ProjectKidList(None);
      RightAt(plan, codes, k);
    }
  }

  lemma PlaceDrawn(plan: Plan, codes: Codes, n: Node)
    requires AllRight(plan, codes) && n in codes
    ensures Placed(plan, codes, n)
  {
    hide AllRight, Plan.ProjectKidList, Plan.Kids, Plan.Above;
    RightAt(plan, codes, n);
  }

  lemma OutlineDrawn(plan: Plan, codes: Codes)
    requires AllRight(plan, codes) && (forall n :: n in codes ==> Settled(plan, codes, n))
    requires forall k :: k in plan.ProjectKidList(None) ==> k in codes
    ensures IsOutline(plan, codes)
  {
    TopsDrawn(plan, codes);
    forall n | n in codes ensures KidsNumbered(plan, codes, n) && Placed(plan, codes, n) {
      KidsDrawn(plan, codes, n);
      PlaceDrawn(plan, codes, n);
    }
    hide AllRight, Settled, TopsNumbered, KidsNumbered, Placed;
  }

  lemma TasksSettledFewer(plan: Plan, codes: Codes, a: set<Node>, b: set<Node>)
    requires TasksSettled(plan, codes, a) && a <= b
    ensures TasksSettled(plan, codes, b)
  {
  }

  function Unnumbered(plan: Plan, codes: Codes): set<int> {
    set t | t in plan.tasks && OfTask(t) !in codes
  }

  lemma LeftToNumber(plan: Plan, first: Codes, codes: Codes)
    requires Grows(first, codes)
    ensures Unnumbered(plan, codes) <= Unnumbered(plan, first)
  {
  }

  lemma LessUnnumbered(plan: Plan, first: Codes, codes: Codes, t: int, code: Code)
    requires Grows(first, codes) && t in plan.tasks && OfTask(t) !in codes
    ensures Unnumbered(plan, codes[OfTask(t) := code]) < Unnumbered(plan, first)
  {
    assert t in Unnumbered(plan, first);
  }

  lemma GrowsOn(a: Codes, b: Codes, c: Codes)
    requires Grows(a, b) && Grows(b, c)
    ensures Grows(a, c)
  {
    assert forall n :: n in a ==> n in b && b[n] == a[n];
  }

  // How far the numbering of the tasks right below a node has come.
  ghost predicate Going(first: Codes, codes: Codes, base: Node, code: Code, kids: seq<int>, i: nat)
    requires i <= |kids|
  {
    && Grows(first, codes) && base in codes && codes[base] == code
    && (forall k :: 0 <= k < i ==> OfTask(kids[k]) in codes)
    && (forall p :: OfProject(p) in codes ==> OfProject(p) in first)
  }

  lemma GoingSoFar(first: Codes, codes: Codes, base: Node, code: Code, kids: seq<int>, i: nat)
    requires i <= |kids| && Going(first, codes, base, code, kids, i)
    ensures Grows(first, codes) && base in codes && codes[base] == code
    ensures forall k :: 0 <= k < i ==> OfTask(kids[k]) in codes
    ensures forall p :: OfProject(p) in codes ==> OfProject(p) in first
  {
  }

  lemma GoesOn(first: Codes, before: Codes, codes: Codes, base: Node, code: Code, kids: seq<int>, i: nat)
    requires i < |kids| && Going(first, before, base, code, kids, i) && Grows(before, codes) && OfTask(kids[i]) in codes
    requires forall p :: OfProject(p) in codes ==> OfProject(p) in before
    ensures Going(first, codes, base, code, kids, i + 1)
  {
  }

  class Numbering {
    const plan: Plan
    var codes: Codes

    constructor (plan: Plan)
      ensures this.plan == plan && codes == map[]
    {
      this.plan, this.codes := plan, map[];
    }

    ghost function Base(project: int, parent: Option<int>): Node {
      if parent.Some? then OfTask(parent.value) else OfProject(project)
    }

    method SortedTaskKids(project: int, parent: Option<int>) returns (kids: seq<int>)
      ensures TaskNodes(kids) == plan.TaskKidList(project, parent) && InOrder(map[], kids)
    {
      kids := [];
      var todo := plan.TaskKids(project, parent);
      ghost var all := todo;
      while todo != {}
        invariant todo <= all && InOrder(map[], kids) && ToSet(kids) == all - todo
        decreases todo
      {
        SomeMember(todo);
        var t: int :| t in todo;
        todo := todo - {t};
        assert t !in ToSet(kids);
        kids := Place(map[], kids, t);
      }
      OrderIsUnique(map[], kids, SortedBy(map[], plan.TaskKids(project, parent)));
    }

    lemma KidOfBase(project: int, parent: Option<int>, kids: seq<int>, i: nat)
      requires TaskNodes(kids) == plan.TaskKidList(project, parent) && i < |kids|
      requires parent.Some? ==> parent.value in plan.tasks && plan.tasks[parent.value].project == Some(project)
      ensures var n := OfTask(kids[i]);
              && kids[i] in plan.tasks && plan.tasks[kids[i]].project == Some(project)
              && plan.Above(n) == Some(Base(project, parent))
              && i < |plan.Kids(Base(project, parent))| && plan.Kids(Base(project, parent))[i] == n
    {
      var n := OfTask(kids[i]);
      assert TaskNodes(kids)[i] == n;
      assert n in plan.TaskKidList(project, parent);
      TaskKidsAreBelow(plan, project, parent);
    }

    lemma KidNumbered(before: Codes, project: int, parent: Option<int>, kids: seq<int>, i: nat, code: Code, open: set<Node>)
      requires AllRight(plan, before) && TasksSettled(plan, before, open)
      requires TaskNodes(kids) == plan.TaskKidList(project, parent) && i < |kids| && OfTask(kids[i]) !in before
      requires parent.Some? ==> parent.value in plan.tasks && plan.tasks[parent.value].project == Some(project)
      requires Base(project, parent) in before && before[Base(project, parent)] == code
      ensures var n := OfTask(kids[i]);
              var after := before[n := code + [i + 1]];
              AllRight(plan, after) && Grows(before, after) && TasksSettled(plan, after, open + {n})
    {
      KidOfBase(project, parent, kids, i);
      hide Plan.Above, Plan.Kids, Plan.ProjectKidList, AllRight, TasksSettled;
      var n := OfTask(kids[i]);
      assert RightNumber(plan, before[n := code + [i + 1]], n);
      NumberAdded(plan, before, n, code + [i + 1], open);
    }

    lemma BaseSettled(project: int, parent: Option<int>, codes: Codes, open: set<Node>)
      requires TasksSettled(plan, codes, open) && forall k :: k in plan.TaskKidList(project, parent) ==> k in codes
      requires parent.Some? ==> parent.value in plan.tasks && plan.tasks[parent.value].project == Some(project)
      ensures TasksSettled(plan, codes, open - {Base(project, parent)})
    {
      var base := Base(project, parent);
      forall n | n in codes && n.OfTask? && n !in open - {base}
        ensures Settled(plan, codes, n)
      {
        if n == base {
          assert plan.Kids(n) == plan.TaskKidList(project, parent);
        }
      }
    }

    lemma KidsOfBase(project: int, parent: Option<int>, kids: seq<int>)
      requires TaskNodes(kids) == plan.TaskKidList(project, parent)
      requires parent.Some? ==> parent.value in plan.tasks && plan.tasks[parent.value].project == Some(project)
      ensures |kids| == |plan.TaskKidList(project, parent)|
      ensures forall i :: 0 <= i < |kids| ==> kids[i] in plan.tasks && plan.tasks[kids[i]].project == Some(project)
    {
      forall i | 0 <= i < |kids| ensures kids[i] in plan.tasks && plan.tasks[kids[i]].project == Some(project) {
        KidOfBase(project, parent, kids, i);
      }
    }

    lemma AllNumbered(project: int, parent: Option<int>, kids: seq<int>, codes: Codes)
      requires TaskNodes(kids) == plan.TaskKidList(project, parent)
      requires forall k :: 0 <= k < |kids| ==> OfTask(kids[k]) in codes
      ensures forall k :: k in plan.TaskKidList(project, parent) ==> k in codes
    {
      assert forall k :: 0 <= k < |kids| ==> TaskNodes(kids)[k] == OfTask(kids[k]);
    }

    // Number one task and what stands below it, unless it has a number already.
    method VisitKid(project: int, parent: Option<int>, kids: seq<int>, i: nat, code: Code, ghost open: set<Node>)
      requires AllRight(plan, codes) && TasksSettled(plan, codes, open)
      requires TaskNodes(kids) == plan.TaskKidList(project, parent) && i < |kids|
      requires kids[i] in plan.tasks && plan.tasks[kids[i]].project == Some(project)
      requires parent.Some? ==> parent.value in plan.tasks && plan.tasks[parent.value].project == Some(project)
      requires Base(project, parent) in codes && codes[Base(project, parent)] == code
      modifies this
      ensures AllRight(plan, codes) && Grows(old(codes), codes) && TasksSettled(plan, codes, open)
      ensures OfTask(kids[i]) in codes
      ensures forall p :: OfProject(p) in codes ==> OfProject(p) in old(codes)
      decreases Unnumbered(plan, codes), 0
    {
      var n := OfTask(kids[i]);
      assert Grows(old(codes), codes);
      if n in codes { return; }
      hide AllRight, TasksSettled, Plan.TaskKidList, Unnumbered;
      KidNumbered(codes, project, parent, kids, i, code, open);
      LessUnnumbered(plan, codes, codes, kids[i], code + [i + 1]);
      codes := codes[n := code + [i + 1]];
      ghost var middle := codes;
      var _ := Visit(project, Some(kids[i]), code + [i + 1], open + {n});
      GrowsOn(old(codes), middle, codes);
      TasksSettledFewer(plan, codes, open + {n} - {n}, open);
    }

    // Number what stands below a task, or the direct tasks of a project; a task met again is passed over.
    method Visit(project: int, parent: Option<int>, code: Code, ghost open: set<Node>) returns (used: nat)
      requires AllRight(plan, codes) && TasksSettled(plan, codes, open)
      requires Base(project, parent) in codes && codes[Base(project, parent)] == code
      requires parent.Some? ==> parent.value in plan.tasks && plan.tasks[parent.value].project == Some(project)
      modifies this
      ensures AllRight(plan, codes) && Grows(old(codes), codes)
      ensures TasksSettled(plan, codes, open - {Base(project, parent)})
      ensures forall k :: k in plan.TaskKidList(project, parent) ==> k in codes
      ensures forall p :: OfProject(p) in codes ==> OfProject(p) in old(codes)
      ensures used == |plan.TaskKidList(project, parent)|
      decreases Unnumbered(plan, codes), 1
    {
      var kids := SortedTaskKids(project, parent);
      KidsOfBase(project, parent, kids);
      assert Going(old(codes), codes, Base(project, parent), code, kids, 0);
      hide AllRight, TasksSettled, Plan.TaskKidList, Unnumbered, TaskNodes, Grows, Going;
      for i := 0 to |kids|
        invariant AllRight(plan, codes) && TasksSettled(plan, codes, open)
        invariant Going(old(codes), codes, Base(project, parent), code, kids, i)
      {
        ghost var before := codes;
        GoingSoFar(old(codes), codes, Base(project, parent), code, kids, i);
        LeftToNumber(plan, old(codes), codes);
        VisitKid(project, parent, kids, i, code, open);
        GoesOn(old(codes), before, codes, Base(project, parent), code, kids, i);
      }
      used := |kids|;
      GoingSoFar(old(codes), codes, Base(project, parent), code, kids, |kids|);
      AllNumbered(project, parent, kids, codes);
      BaseSettled(project, parent, codes, open);
    }

    // Where a project's number starts from: nothing at the top, else the number of its parent and its direct tasks.
    ghost predicate StartsAt(codes: Codes, parent: Option<int>, prefix: Code, start: nat) {
      if parent.None? then prefix == [] && start == 0
      else OfProject(parent.value) in codes && codes[OfProject(parent.value)] == prefix
           && start == |plan.TaskKidList(parent.value, None)|
    }

    ghost predicate ProjectsSettled(codes: Codes, projects: seq<int>) {
      forall p :: p in projects ==> OfProject(p) in codes && Settled(plan, codes, OfProject(p))
    }

    ghost predicate OnlyAdded(first: Codes, codes: Codes, projects: seq<int>) {
      forall p :: OfProject(p) in codes ==> OfProject(p) in first || p in projects
    }

    lemma ProjectFits(codes: Codes, parent: Option<int>, prefix: Code, start: nat, nodes: seq<ProjectNode>, i: nat)
      requires IsChildrenOf(plan.hung, plan.order, parent, IdsOf(nodes)) && i < |nodes|
      requires StartsAt(codes, parent, prefix, start) && OfProject(nodes[i].id) !in codes
      ensures RightNumber(plan, codes[OfProject(nodes[i].id) := prefix + [start + i + 1]], OfProject(nodes[i].id))
      ensures plan.ProjectKidList(parent) == ProjectNodes(IdsOf(nodes))
    {
      var n := OfProject(nodes[i].id);
      OrderIsUnique(plan.order, IdsOf(nodes), SortedBy(plan.order, ChildSet(plan.hung, parent)));
      assert plan.ProjectKidList(parent)[i] == n;
      ProjectKidsAreBelow(plan, parent);
      assert n in plan.ProjectKidList(parent);
      if parent.Some? {
        assert plan.Kids(OfProject(parent.value))[start + i] == n;
      }
    }

    lemma ProjectSettles(codes: Codes, p: int)
      requires forall k :: k in plan.TaskKidList(p, None) ==> k in codes
      requires forall k :: k in plan.ProjectKidList(Some(p)) ==> k in codes
      ensures Settled(plan, codes, OfProject(p))
    {
    }

    lemma SettledStays(a: Codes, b: Codes, projects: seq<int>)
      requires Grows(a, b) && ProjectsSettled(a, projects)
      ensures ProjectsSettled(b, projects)
    {
    }

    lemma TasksStillSettled(codes: Codes, n: Node)
      requires TasksSettled(plan, codes, {n}) && n.OfProject?
      ensures TasksSettled(plan, codes, {})
    {
    }

    // Number a project, its direct tasks and the projects below it.
    method VisitProject(node: ProjectNode, code: Code, ghost depth: nat)
      requires IsTree(plan.hung, plan.order, Some(node.id), depth + 1, node.children)
      requires AllRight(plan, codes) && TasksSettled(plan, codes, {})
      requires OfProject(node.id) !in codes && RightNumber(plan, codes[OfProject(node.id) := code], OfProject(node.id))
      requires Distinct([node.id] + FlatIds(node.children))
      requires forall p :: p in FlatIds(node.children) ==> OfProject(p) !in codes
      modifies this
      ensures AllRight(plan, codes) && TasksSettled(plan, codes, {}) && Grows(old(codes), codes)
      ensures ProjectsSettled(codes, [node.id] + FlatIds(node.children))
      ensures OnlyAdded(old(codes), codes, [node.id] + FlatIds(node.children))
      decreases node, 0
    {
      var n := OfProject(node.id);
      ghost var first, below := codes, FlatIds(node.children);
      SplitDistinct(node.id, below);
      NumberAdded(plan, codes, n, code, {});
      assert {} + {n} == {n};
      hide AllRight, TasksSettled, RightNumber, IsTree, Settled, FlatIds, Plan.TaskKidList, Plan.ProjectKidList;
      codes := codes[n := code];
      ghost var numbered := codes;
      TasksStillSettled(codes, n);
      var used := Visit(node.id, None, code, {});
      ghost var tasksDone := codes;
      TasksSettledFewer(plan, codes, {} - {n}, {});
      VisitProjects(node.children, code, used, Some(node.id), depth + 1);
      GrowsOn(first, numbered, tasksDone);
      GrowsOn(first, tasksDone, codes);
      ProjectSettles(codes, node.id);
      forall p | p in [node.id] + below ensures OfProject(p) in codes && Settled(plan, codes, OfProject(p)) {
        assert p == node.id || p in below;
      }
    }

    // Number a list of sibling projects in turn.
    method VisitProjects(nodes: seq<ProjectNode>, prefix: Code, start: nat, ghost parent: Option<int>, ghost depth: nat)
      requires IsTree(plan.hung, plan.order, parent, depth, nodes)
      requires AllRight(plan, codes) && TasksSettled(plan, codes, {}) && StartsAt(codes, parent, prefix, start)
      requires Distinct(FlatIds(nodes)) && forall p :: p in FlatIds(nodes) ==> OfProject(p) !in codes
      modifies this
      ensures AllRight(plan, codes) && TasksSettled(plan, codes, {}) && Grows(old(codes), codes)
      ensures ProjectsSettled(codes, FlatIds(nodes)) && OnlyAdded(old(codes), codes, FlatIds(nodes))
      ensures forall k :: k in plan.ProjectKidList(parent) ==> k in codes
      decreases nodes, 1
    {
      ghost var first := codes;
      NothingVisited(first, nodes);
      hide AllRight, TasksSettled, RightNumber, IsTree, FlatIds, Settled, Plan.ProjectKidList, Plan.TaskKidList, Grows;
      hide Numbering.ProjectsSettled, Numbering.OnlyAdded, Numbering.StartsAt;
      for i := 0 to |nodes|
        invariant AllRight(plan, codes) && TasksSettled(plan, codes, {}) && Grows(first, codes)
        invariant ProjectsSettled(codes, FlatIds(nodes[..i])) && OnlyAdded(first, codes, FlatIds(nodes[..i]))
      {
        var node := nodes[i];
        ghost var before := codes;
        BeforeProject(first, codes, parent, prefix, start, nodes, i, depth);
        assert node in nodes;
        VisitProject(node, prefix + [start + i + 1], depth);
        AfterProject(first, before, codes, nodes, i);
      }
      assert nodes[..|nodes|] == nodes;
      TopsOfTree(codes, parent, nodes, depth);
    }

    lemma NothingVisited(codes: Codes, nodes: seq<ProjectNode>)
      ensures Grows(codes, codes) && ProjectsSettled(codes, FlatIds(nodes[..0])) && OnlyAdded(codes, codes, FlatIds(nodes[..0]))
    {
    }

    lemma BeforeProject(first: Codes, codes: Codes, parent: Option<int>, prefix: Code, start: nat, nodes: seq<ProjectNode>,
                        i: nat, depth: nat)
      requires IsTree(plan.hung, plan.order, parent, depth, nodes) && i < |nodes| && Distinct(FlatIds(nodes))
      requires StartsAt(first, parent, prefix, start) && Grows(first, codes) && OnlyAdded(first, codes, FlatIds(nodes[..i]))
      requires forall p :: p in FlatIds(nodes) ==> OfProject(p) !in first
      ensures var node := nodes[i];
              && IsTree(plan.hung, plan.order, Some(node.id), depth + 1, node.children)
              && OfProject(node.id) !in codes
              && RightNumber(plan, codes[OfProject(node.id) := prefix + [start + i + 1]], OfProject(node.id))
              && Distinct([node.id] + FlatIds(node.children))
              && forall p :: p in FlatIds(node.children) ==> OfProject(p) !in codes
    {
      FlatSplits(nodes, i);
      var sub := [nodes[i].id] + FlatIds(nodes[i].children);
      hide FlatIds, RightNumber;
      forall p | p in sub ensures OfProject(p) !in codes {
        assert p in FlatIds(nodes) && p !in FlatIds(nodes[..i]);
      }
      assert nodes[i].id in sub;
      assert StartsAt(codes, parent, prefix, start);
      ProjectFits(codes, parent, prefix, start, nodes, i);
    }

    lemma AfterProject(first: Codes, before: Codes, codes: Codes, nodes: seq<ProjectNode>, i: nat)
      requires i < |nodes| && Distinct(FlatIds(nodes)) && Grows(first, before) && Grows(before, codes)
      requires ProjectsSettled(before, FlatIds(nodes[..i])) && OnlyAdded(first, before, FlatIds(nodes[..i]))
      requires ProjectsSettled(codes, [nodes[i].id] + FlatIds(nodes[i].children))
      requires OnlyAdded(before, codes, [nodes[i].id] + FlatIds(nodes[i].children))
      ensures Grows(first, codes)
      ensures ProjectsSettled(codes, FlatIds(nodes[..i + 1])) && OnlyAdded(first, codes, FlatIds(nodes[..i + 1]))
    {
      FlatSplits(nodes, i);
      GrowsOn(first, before, codes);
      SettledStays(before, codes, FlatIds(nodes[..i]));
      hide FlatIds, Settled, Grows;
      var a, b := FlatIds(nodes[..i]), [nodes[i].id] + FlatIds(nodes[i].children);
      assert forall p :: p in a + b <==> p in a || p in b;
    }

    lemma TopsOfTree(codes: Codes, parent: Option<int>, nodes: seq<ProjectNode>, depth: nat)
      requires IsTree(plan.hung, plan.order, parent, depth, nodes) && ProjectsSettled(codes, FlatIds(nodes))
      ensures forall k :: k in plan.ProjectKidList(parent) ==> k in codes
    {
      OrderIsUnique(plan.order, IdsOf(nodes), SortedBy(plan.order, ChildSet(plan.hung, parent)));
      forall i | 0 <= i < |nodes| ensures OfProject(nodes[i].id) in codes {
        TopIsFlat(nodes, nodes[i]);
        NodeIsId(FlattenTree(nodes), nodes[i]);
      }
      assert plan.ProjectKidList(parent) == ProjectNodes(IdsOf(nodes));
    }

    static lemma SplitDistinct(x: int, s: seq<int>)
      requires Distinct([x] + s)
      ensures Distinct(s) && x !in s
    {
      forall i, j | 0 <= i < j < |s| ensures s[i] != s[j] { assert ([x] + s)[i + 1] != ([x] + s)[j + 1]; }
      forall i | 0 <= i < |s| ensures s[i] != x { assert ([x] + s)[0] != ([x] + s)[i + 1]; }
    }

    static lemma FlatSplits(nodes: seq<ProjectNode>, i: nat)
      requires i < |nodes| && Distinct(FlatIds(nodes))
      ensures FlatIds(nodes[..i + 1]) == FlatIds(nodes[..i]) + ([nodes[i].id] + FlatIds(nodes[i].children))
      ensures Distinct([nodes[i].id] + FlatIds(nodes[i].children))
      ensures forall p :: p in [nodes[i].id] + FlatIds(nodes[i].children) ==> p in FlatIds(nodes) && p !in FlatIds(nodes[..i])
    {
      FlatInThree(nodes, i);
      hide FlatIds;
      MiddleOfDistinct(FlatIds(nodes[..i]), [nodes[i].id] + FlatIds(nodes[i].children), FlatIds(nodes[i + 1..]));
    }

    static lemma FlatInThree(nodes: seq<ProjectNode>, i: nat)
      requires i < |nodes|
      ensures FlatIds(nodes[..i + 1]) == FlatIds(nodes[..i]) + ([nodes[i].id] + FlatIds(nodes[i].children))
      ensures FlatIds(nodes) == FlatIds(nodes[..i]) + ([nodes[i].id] + FlatIds(nodes[i].children)) + FlatIds(nodes[i + 1..])
    {
      assert nodes[..i + 1] == nodes[..i] + [nodes[i]];
      OneMoreNode(nodes[..i], nodes[i]);
      assert nodes == nodes[..i + 1] + nodes[i + 1..];
      FlattenAppends(nodes[..i + 1], nodes[i + 1..]);
      hide FlattenTree;
      assert FlatIds(nodes) == FlatIds(nodes[..i + 1]) + FlatIds(nodes[i + 1..]);
    }

    static lemma MiddleOfDistinct(a: seq<int>, b: seq<int>, c: seq<int>)
      requires Distinct(a + b + c)
      ensures Distinct(b) && forall x :: x in b ==> x in a + b + c && x !in a
    {
      var all := a + b + c;
      forall k | 0 <= k < |b|
        ensures b[k] in all && b[k] !in a
      {
        assert all[|a| + k] == b[k];
        forall j | 0 <= j < |a| ensures a[j] != b[k] { assert all[j] != all[|a| + k]; }
      }
      forall j, k | 0 <= j < k < |b| ensures b[j] != b[k] { assert all[|a| + j] != all[|a| + k]; }
    }
  }

  // The numbering of the projects and tasks of a list.
  method WbsCodes(projects: Links, sortOrder: map<int, int>, tasks: Tasks) returns (codes: Codes)
    ensures IsOutline(Plan(Hung(projects), sortOrder, tasks), codes)
  {
    var nodes := ToTree(projects, sortOrder);
    var numbering := new Numbering(Plan(Hung(projects), sortOrder, tasks));
    numbering.VisitProjects(nodes, [], 0, None, 0);
    codes := numbering.codes;
    forall n | n in codes
      ensures Settled(numbering.plan, codes, n)
    {
      if n.OfProject? { assert n.id in FlatIds(nodes); }
    }
    OutlineDrawn(numbering.plan, codes);
  }

  // ---- the rails beside the list -------------------------------------------------------------------

  datatype TreeGuide = TreeGuide(level: nat, last: bool, rails: seq<bool>)

  // A later row has this level, and no row in between is shallower.
  ghost predicate ComesAgain(levels: seq<nat>, i: nat, level: nat) {
    exists j :: i < j < |levels| && levels[j] == level && forall m :: i < m < j ==> levels[m] >= level
  }

  // Row i is told whether it is the last of its siblings, and which lines further left pass it by.
  ghost predicate Guides(levels: seq<nat>, i: nat, g: TreeGuide)
    requires i < |levels|
  {
    && g.level == levels[i]
    && (g.last <==> !ComesAgain(levels, i, levels[i]))
    && |g.rails| == (if levels[i] == 0 then 0 else levels[i] - 1)
    && forall k :: 0 <= k < |g.rails| ==> (g.rails[k] <==> ComesAgain(levels, i, k + 1))
  }

  function Flag(open: seq<bool>, k: nat): bool {
    k < |open| && open[k]
  }

  // The first entries, padded with false.
  function Resized(open: seq<bool>, n: nat): seq<bool> {
    seq(n, k requires 0 <= k < n => Flag(open, k))
  }

  /** One pass from the last row to the first sets every rail and every end exactly as the rows further down demand. */
  method TreeGuides(levels: seq<nat>) returns (out: array<TreeGuide>)
    ensures fresh(out) && out.Length == |levels|
    ensures forall i :: 0 <= i < |levels| ==> Guides(levels, i, out[i])
  {
    out := new TreeGuide[|levels|](_ => TreeGuide(0, false, []));
    var open: seq<bool> := [];
    var i := |levels|;
    while i > 0
      invariant 0 <= i <= |levels|
      invariant forall k: nat :: i > 0 ==> (Flag(open, k) <==> ComesAgain(levels, i - 1, k))
      invariant forall r :: i <= r < |levels| ==> Guides(levels, r, out[r])
    {
      i := i - 1;
      var level := levels[i];
      out[i] := TreeGuide(level, !Flag(open, level),
                          seq(if level == 0 then 0 else level - 1, k requires 0 <= k < level => Flag(open, k + 1)));
      open := Resized(open, level) + [true];
      if i > 0 {
        forall k: nat
          ensures Flag(open, k) <==> ComesAgain(levels, i - 1, k)
        {
          RowAbove(levels, i, k);
        }
      }
    }
  }

  // What the row above i sees below it: row i itself, or past it if it is deeper.
  lemma RowAbove(levels: seq<nat>, i: nat, k: nat)
    requires 0 < i < |levels|
    ensures ComesAgain(levels, i - 1, k) <==> levels[i] == k || (levels[i] > k && ComesAgain(levels, i, k))
  {
    if ComesAgain(levels, i, k) && levels[i] > k {
      var j :| i < j < |levels| && levels[j] == k && forall m :: i < m < j ==> levels[m] >= k;
      assert i - 1 < j;
    }
  }
}
