/** Tasks, their parent links, and the board that expands a task to the leaves below it. */
module TaskBoard {
  import opened Basics
  import opened Reachability
  import opened WorkSeats

  datatype TaskStatus = Todo | Doing | Waiting | Done | Cancelled

  datatype Task = Task(id: int, status: TaskStatus, assignee: Option<int>, project: Option<int>, parent: Option<int>,
                       estimatedHours: Option<real>, remainingHours: Option<real>,
                       startDate: Option<Day>, dueDate: Option<Day>, priority: int, allocationPercent: Option<int>)
  {
    predicate Closed() {
      status.Done? || status.Cancelled?
    }

    // What is left to do: the entered figure wins, otherwise estimate minus actual, never negative.
    function RemainingFrom(actual: real): Option<real> {
      if status.Done? then Some(0.0)
      else if remainingHours.Some? then remainingHours
      else if estimatedHours.None? then None
      else Some(Max(estimatedHours.value - actual, 0.0))
    }
  }

  ghost predicate UniqueIds(tasks: seq<Task>) {
    forall i, j :: 0 <= i < j < |tasks| ==> tasks[i].id != tasks[j].id
  }

  ghost function Ids(tasks: seq<Task>): set<int> {
    set i | 0 <= i < |tasks| :: tasks[i].id
  }

  predicate HasSubtasks(children: Graph, id: int) {
    Next(children, id) != []
  }

  // The childless tasks a dependency on `id` speaks of: the task itself, or all childless tasks below it.
  ghost function LeafSet(children: Graph, id: int): set<int> {
    if !HasSubtasks(children, id) then {id}
    else set d | d in From(children, id) && d != id && !HasSubtasks(children, d)
  }

  // children lists, under each known parent, exactly the tasks that name it; a task naming itself or an
  // unknown parent is nobody's child.
  ghost predicate ChildrenOf(tasks: map<int, Task>, children: Graph) {
    && children.Keys <= tasks.Keys
    && (forall p, c :: c in Next(children, p) <==>
                       c in tasks && tasks[c].parent == Some(p) && p != c && p in tasks)
    && (forall p :: p in children ==> Distinct(children[p]))
  }

  // The first k tasks of the list, by number.
  ghost predicate Indexed(list: seq<Task>, k: nat, known: map<int, Task>)
    requires k <= |list|
  {
    && known.Keys == (set i | 0 <= i < k :: list[i].id)
    && forall i :: 0 <= i < k ==> known[list[i].id] == list[i]
  }

  method ById(list: seq<Task>) returns (known: map<int, Task>)
    requires UniqueIds(list)
    ensures Indexed(list, |list|, known)
  {
    known := map[];
    for k := 0 to |list|
      invariant Indexed(list, k, known)
    {
      known := known[list[k].id := list[k]];
    }
  }

  // Task i of the list is a child of p, a known task other than itself.
  predicate IsChild(list: seq<Task>, known: map<int, Task>, i: nat, p: int)
    requires i < |list|
  {
    list[i].parent == Some(p) && p != list[i].id && p in known
  }

  // The children among the first k tasks of the list.
  ghost predicate Listed(list: seq<Task>, known: map<int, Task>, k: nat, below: Graph)
    requires k <= |list|
  {
    && below.Keys <= known.Keys
    && (forall p, c :: c in Next(below, p) <==> exists i :: 0 <= i < k && list[i].id == c && IsChild(list, known, i, p))
    && (forall p :: p in below ==> Distinct(below[p]))
  }

  method ChildLists(list: seq<Task>, known: map<int, Task>) returns (below: Graph)
    requires UniqueIds(list)
    ensures Listed(list, known, |list|, below)
  {
    below := map[];
    for k := 0 to |list|
      invariant Listed(list, known, k, below)
    {
      var t := list[k];
      OneMoreListed(list, known, k, below);
      if t.parent.Some? && t.parent.value != t.id && t.parent.value in known {
        below := below[t.parent.value := Next(below, t.parent.value) + [t.id]];
      }
    }
  }

  lemma OneMoreListed(list: seq<Task>, known: map<int, Task>, k: nat, below: Graph)
    requires UniqueIds(list) && k < |list| && Listed(list, known, k, below)
    ensures var t := list[k];
            Listed(list, known, k + 1,
                   if t.parent.Some? && t.parent.value != t.id && t.parent.value in known
                   then below[t.parent.value := Next(below, t.parent.value) + [t.id]] else below)
  {
    var t := list[k];
    var adds := t.parent.Some? && t.parent.value != t.id && t.parent.value in known;
    var more := if adds then below[t.parent.value := Next(below, t.parent.value) + [t.id]] else below;
    forall p ensures t.id !in Next(below, p) { }
    forall p, c
      ensures c in Next(more, p) <==> exists i :: 0 <= i < k + 1 && list[i].id == c && IsChild(list, known, i, p)
    {
      assert c in Next(more, p) <==> c in Next(below, p) || (c == t.id && IsChild(list, known, k, p));
    }
  }

  lemma ListsAreChildren(list: seq<Task>, known: map<int, Task>, below: Graph)
    requires Indexed(list, |list|, known) && Listed(list, known, |list|, below)
    ensures ChildrenOf(known, below) && known.Keys == Ids(list) && forall i :: i in known ==> known[i].id == i
  {
    forall p, c ensures c in Next(below, p) <==> c in known && known[c].parent == Some(p) && p != c && p in known {
      if c in known {
        var i :| 0 <= i < |list| && list[i].id == c;
        assert known[c] == list[i];
        if known[c].parent == Some(p) && p != c && p in known { assert IsChild(list, known, i, p); }
      }
    }
  }

  /** The tasks of one viewer and how they hang together. */
  class TaskProgressBoard {
    const tasks: map<int, Task>
    const children: Graph
    const actual: map<int, real>

    ghost predicate Valid() {
      && (forall i :: i in tasks ==> tasks[i].id == i)
      && ChildrenOf(tasks, children)
    }

    constructor (list: seq<Task>, actualHours: map<int, real>)
      requires UniqueIds(list)
      ensures Valid() && actual == actualHours
      ensures tasks.Keys == Ids(list) && forall i :: 0 <= i < |list| ==> tasks[list[i].id] == list[i]
    {
      var known := ById(list);
      var below := ChildLists(list, known);
      ListsAreChildren(list, known, below);
      tasks, children, actual := known, below, actualHours;
    }

    function ActualHours(id: int): real {
      Entry(actual, id)
    }

    // The tasks below `root`, each once, however the parent links are knotted.
    method Descendants(root: int) returns (out: seq<int>)
      requires Valid()
      ensures Distinct(out) && ToSet(out) == From(children, root) - {root}
    {
      out := [];
      ghost var found := {root};
      var stack := Next(children, root);
      ReachesItself(children, root);
      forall y | y in Next(children, root) ensures Reachable(children, root, y) { ReachesStep(children, root, y); }
      while stack != []
        invariant Exploring(children, root, found, stack) && root in found
        invariant Distinct(out) && ToSet(out) == found - {root}
        decreases From(children, root) - found, |stack|
      {
        ExploringPops(children, root, found, stack);
        var id := stack[|stack| - 1];
        assert id in stack;
        stack := stack[..|stack| - 1];
        if id != root && id !in out {
          UnseenShrinks(children, root, found, id);
          assert id !in found;
          found := found + {id};
          out := out + [id];
          stack := stack + Next(children, id);
        }
      }
      ExploringEnds(children, root, found);
    }

    method LeafIds(id: int) returns (out: seq<int>)
      requires Valid()
      ensures Distinct(out) && ToSet(out) == LeafSet(children, id)
    {
      if !HasSubtasks(children, id) {
        return [id];
      }
      var below := Descendants(id);
      out := [];
      for k := 0 to |below|
        invariant ToSet(out) == set d | d in below[..k] && !HasSubtasks(children, d)
        invariant Distinct(out)
      {
        assert below[..k + 1] == below[..k] + [below[k]];
        assert below[k] !in below[..k];
        if !HasSubtasks(children, below[k]) {
          assert below[k] !in ToSet(out);
          out := out + [below[k]];
        }
      }
      assert below[..|below|] == below;
      forall d ensures d in ToSet(out) <==> d in LeafSet(children, id) {
        assert d in ToSet(below) <==> d in From(children, id) - {id};
      }
    }
  }
}
