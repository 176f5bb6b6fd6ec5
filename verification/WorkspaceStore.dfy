/** The stored rows of projects, tasks, milestones and calendars, and the queries the requests make of them. */
module WorkspaceStore {
  import opened Basics
  import opened ParentLinks
  import opened ProjectTrees
  import opened ProjectCalendar
  import opened WorkspaceModel
  import opened WorkSeats

  // Rows of one table as a query returns them.
  method RowsOf(rows: DayRows, projects: seq<int>, working: bool) returns (items: seq<CalendarDay>)
    ensures Lists(rows, projects, working, items)
    ensures forall c :: c in items ==> c.project in projects
  {
    items := [];
    var todo := rows.Keys;
    while todo != {}
      invariant todo <= rows.Keys
      invariant AllWorking(items, working)
      invariant forall c :: c in items ==> (c.project, c.day) in rows && rows[(c.project, c.day)] == c.name && c.project in projects
      invariant forall k :: k in rows.Keys - todo && k.0 in projects ==> CalendarDay(k.0, k.1, rows[k], working) in items
      decreases todo
    {
      var k :| k in todo;
      todo := todo - {k};
      if k.0 in projects {
        items := items + [CalendarDay(k.0, k.1, rows[k], working)];
      }
    }
  }

  ghost predicate Numbered(order: map<int, int>, s: seq<int>) {
    forall i :: 0 <= i < |s| ==> s[i] in order && order[s[i]] == i
  }

  class Store {
    var projects: Links
    var sortOrder: map<int, int>
    var tasks: Tasks
    var milestones: Milestones
    var calendar: Calendar

    constructor ()
      ensures Now() == EMPTY && Valid()
    {
      projects, sortOrder, tasks, milestones := map[], map[], map[], map[];
      calendar := Calendar(map[], map[], map[]);
    }

    ghost function Now(): Workspace
      reads this
    {
      Workspace(projects, tasks, milestones, calendar)
    }

    ghost predicate Valid()
      reads this
    {
      sortOrder.Keys == projects.Keys
    }

    method Tree() returns (tree: ProjectTree)
      ensures fresh(tree) && tree.projects == projects && tree.sortOrder == sortOrder
    {
      tree := new ProjectTree(projects, sortOrder);
    }

    // A task and everything below it, deleted tasks included.
    method TaskSubtree(id: int) returns (found: set<int>)
      requires id in tasks
      ensures found == Subtree(ParentsOf(tasks), id)
    {
      var tree := new ProjectTree(ParentsOf(tasks), map[]);
      found := tree.SubtreeIds(id);
    }

    method SetSortOrders(ids: seq<int>)
      requires Valid() && Distinct(ids) && forall x :: x in ids ==> x in projects
      modifies this`sortOrder
      ensures Valid() && Numbered(sortOrder, ids)
      ensures forall x :: x in sortOrder && x !in ids ==> sortOrder[x] == old(sortOrder)[x]
    {
      for k := 0 to |ids|
        invariant Valid() && Numbered(sortOrder, ids[..k])
        invariant forall x :: x in sortOrder && x !in ids[..k] ==> sortOrder[x] == old(sortOrder)[x]
      {
        var x := ids[k];
        assert x in ids;
        assert ids[..k + 1] == ids[..k] + [ids[k]];
        sortOrder := sortOrder[ids[k] := k];
      }
      assert ids[..|ids|] == ids;
    }

    // Whether a milestone may be put on a task of the project.
    method CheckMilestone(milestone: Option<int>, project: Option<int>) returns (refused: Option<Refusal>)
      ensures refused == MilestoneRefusal(Now(), milestone, project)
    {
      if milestone.None? { return None; }
      if milestone.value !in milestones || milestones[milestone.value].deleted { return Some(NotFound); }
      var tree := Tree();
      var ok := tree.MilestoneReachable(milestones[milestone.value].project, project);
      refused := if ok then None else Some(Invalid);
    }

    // Take off every live milestone that its task no longer reaches.
    method DetachUnreachableMilestones() returns (stale: set<int>)
      modifies this`tasks
      ensures Now() == Detached(old(Now()))
      ensures stale == set t | t in old(tasks) && Unreachable(old(Now()), t)
    {
      var tree := Tree();
      stale := {};
      var todo := tasks.Keys;
      while todo != {}
        invariant Now() == old(Now()) && todo <= tasks.Keys
        invariant stale == set t | t in tasks.Keys - todo && Unreachable(Now(), t)
        decreases todo
      {
        SomeMember(todo);
        var t: int :| t in todo;
        ghost var left := todo;
        todo := todo - {t};
        var row := tasks[t];
        var lost := false;
        if !row.deleted && row.milestone.Some? && row.milestone.value in milestones
           && !milestones[row.milestone.value].deleted
        {
          var ok := tree.MilestoneReachable(milestones[row.milestone.value].project, row.project);
          lost := !ok;
        }
        assert lost == Unreachable(Now(), t);
        assert tasks.Keys - todo == (tasks.Keys - left) + {t};
        if lost { stale := stale + {t}; }
      }
      assert tasks.Keys - todo == tasks.Keys;
      ghost var before := Now();
      tasks := map t | t in tasks :: if t in stale then tasks[t].(milestone := None) else tasks[t];
      assert tasks == Detached(before).tasks;
    }

    method AddDaysOff(rows: seq<CalendarDay>, taken: set<Day>, to: int)
      modifies this`calendar
      ensures calendar == old(calendar).(daysOff := Laid(old(calendar).daysOff, rows, taken, to))
    {
      for k := 0 to |rows|
        invariant calendar == old(calendar).(daysOff := Laid(old(calendar).daysOff, rows[..k], taken, to))
      {
        assert rows[..k + 1][..k] == rows[..k];
        if rows[k].day !in taken {
          calendar := calendar.(daysOff := calendar.daysOff[(to, rows[k].day) := rows[k].name]);
        }
      }
      assert rows[..|rows|] == rows;
    }

    method AddExtraWorkdays(rows: seq<CalendarDay>, taken: set<Day>, to: int)
      modifies this`calendar
      ensures calendar == old(calendar).(extraWorkdays := Laid(old(calendar).extraWorkdays, rows, taken, to))
    {
      for k := 0 to |rows|
        invariant calendar == old(calendar).(extraWorkdays := Laid(old(calendar).extraWorkdays, rows[..k], taken, to))
      {
        assert rows[..k + 1][..k] == rows[..k];
        if rows[k].day !in taken {
          calendar := calendar.(extraWorkdays := calendar.extraWorkdays[(to, rows[k].day) := rows[k].name]);
        }
      }
      assert rows[..|rows|] == rows;
    }
  }

  // A table with rows entered one after the other under a project, without the days that are taken.
  function Laid(table: DayRows, rows: seq<CalendarDay>, taken: set<Day>, to: int): DayRows {
    if rows == [] then table
    else
      var c := rows[|rows| - 1];
      var before := Laid(table, rows[..|rows| - 1], taken, to);
      if c.day in taken then before else before[(to, c.day) := c.name]
  }

  // The last row for a day.
  function LastOf(rows: seq<CalendarDay>, day: Day): Option<CalendarDay> {
    if rows == [] then None
    else if rows[|rows| - 1].day == day then Some(rows[|rows| - 1])
    else LastOf(rows[..|rows| - 1], day)
  }

  lemma {:induction false} LaidAt(table: DayRows, rows: seq<CalendarDay>, taken: set<Day>, to: int, k: (int, Day))
    ensures var added := k.0 == to && k.1 !in taken && LastOf(rows, k.1).Some?;
            && (k in Laid(table, rows, taken, to) <==> k in table || added)
            && (k in Laid(table, rows, taken, to) ==>
                  Laid(table, rows, taken, to)[k] == if added then LastOf(rows, k.1).value.name else table[k])
  {
    if rows != [] {
      LaidAt(table, rows[..|rows| - 1], taken, to, k);
    }
  }

  lemma {:induction false} LastOfIsThere(rows: seq<CalendarDay>, day: Day)
    ensures LastOf(rows, day).Some? ==> LastOf(rows, day).value in rows && LastOf(rows, day).value.day == day
    ensures LastOf(rows, day).None? ==> forall c :: c in rows ==> c.day != day
  {
    if rows != [] {
      LastOfIsThere(rows[..|rows| - 1], day);
      assert rows == rows[..|rows| - 1] + [rows[|rows| - 1]];
    }
  }
}
