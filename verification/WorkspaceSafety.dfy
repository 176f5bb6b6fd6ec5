/** What every run of requests keeps: forests, tasks that stay with their parents, milestones in reach, workweeks at the top. */
module WorkspaceSafety {
  import opened Basics
  import Reachability
  import opened ParentLinks
  import opened ProjectTrees
  import opened ProjectCalendar
  import opened WorkspaceModel

  ghost predicate ProjectsSound(ws: Workspace) {
    && Forest(ws.projects) && ParentsKnown(ws.projects) && WorkweeksAtTop(ws.calendar, ws.projects)
  }

  ghost predicate TaskForest(ws: Workspace) {
    Forest(ParentsOf(ws.tasks)) && ParentsKnown(ParentsOf(ws.tasks))
  }

  // Whatever names a project names one that is there.
  ghost predicate HomesKnown(ws: Workspace) {
    && (forall t :: t in ws.tasks ==> KnownProject(ws, ws.tasks[t].project))
    && (forall m :: m in ws.milestones ==> KnownProject(ws, ws.milestones[m].project))
    && (forall t :: t in ws.tasks && ws.tasks[t].milestone.Some? ==> ws.tasks[t].milestone.value in ws.milestones)
    && (forall k :: k in ws.calendar.daysOff ==> k.0 in ws.projects)
    && (forall k :: k in ws.calendar.extraWorkdays ==> k.0 in ws.projects)
  }

  // A live task with a live parent is in its parent's project.
  ghost predicate StaysWithParent(tasks: Tasks, t: int)
    requires t in tasks
  {
    !tasks[t].deleted && tasks[t].parent.Some? && LiveTask(tasks, tasks[t].parent.value) ==>
      tasks[t].project == tasks[tasks[t].parent.value].project
  }

  ghost predicate FamiliesTogether(ws: Workspace) {
    forall t :: t in ws.tasks ==> StaysWithParent(ws.tasks, t)
  }

  ghost predicate MilestonesReach(ws: Workspace) {
    forall t :: t in ws.tasks ==> !Unreachable(ws, t)
  }

  ghost predicate Inv(ws: Workspace) {
    ProjectsSound(ws) && TaskForest(ws) && HomesKnown(ws) && FamiliesTogether(ws) && MilestonesReach(ws)
  }

  lemma EmptyIsSound()
    ensures Inv(EMPTY)
  {
  }

  // ---- taking milestones off -------------------------------------------------------------------

  // Rows that differ in their milestone at most, which one of them may lack.
  ghost predicate FewerMilestones(a: Tasks, b: Tasks) {
    && a.Keys == b.Keys
    && forall t :: t in a ==> a[t] == b[t] || a[t] == b[t].(milestone := None)
  }

  lemma FewerMilestonesIsAsSound(ws: Workspace, tasks: Tasks)
    requires TaskForest(ws) && HomesKnown(ws) && FamiliesTogether(ws) && FewerMilestones(tasks, ws.tasks)
    ensures var after := ws.(tasks := tasks); TaskForest(after) && HomesKnown(after) && FamiliesTogether(after)
  {
    forall t | t in tasks
      ensures ParentsOf(tasks)[t] == ParentsOf(ws.tasks)[t]
    {
    }
    assert ParentsOf(tasks) == ParentsOf(ws.tasks);
    forall t | t in tasks
      ensures StaysWithParent(tasks, t)
    {
      assert StaysWithParent(ws.tasks, t);
      if tasks[t].parent.Some? {
        var p := tasks[t].parent.value;
        assert p in tasks ==> tasks[p].project == ws.tasks[p].project;
      }
    }
    assert HomesKnown(ws.(tasks := tasks)) by { hide Forest, FamiliesTogether; }
  }

  lemma DetachedReach(ws: Workspace)
    ensures FewerMilestones(Detached(ws).tasks, ws.tasks) && MilestonesReach(Detached(ws))
  {
  }

  /** Taking milestones off touches nothing else, and leaves every live milestone in reach. */
  lemma DetachingRepairs(ws: Workspace)
    requires ProjectsSound(ws) && TaskForest(ws) && HomesKnown(ws) && FamiliesTogether(ws)
    ensures Inv(Detached(ws))
  {
    DetachedReach(ws);
    FewerMilestonesIsAsSound(ws, Detached(ws).tasks);
    hide TaskForest, HomesKnown, FamiliesTogether, MilestonesReach;
  }

  /** It takes off no milestone that could stay: doing it again, or where all are in reach, does nothing. */
  lemma DetachingIsLeast(ws: Workspace)
    ensures Detached(Detached(ws)) == Detached(ws)
    ensures MilestonesReach(ws) <==> Detached(ws) == ws
  {
    assert forall t :: t in ws.tasks ==> !Unreachable(Detached(ws), t);
    assert Detached(Detached(ws)).tasks == Detached(ws).tasks;
    if MilestonesReach(ws) {
      assert Detached(ws).tasks == ws.tasks;
    }
  }

  // ---- projects ---------------------------------------------------------------------------------

  lemma AddingALeafKeepsForest(links: Links, x: int, parent: Option<int>)
    requires Forest(links) && ParentsKnown(links) && x !in links && (parent.Some? ==> parent.value in links)
    ensures Forest(links[x := parent]) && ParentsKnown(links[x := parent])
  {
    var more := links[x := parent];
    ForestFalls(links);
    var rank := map y | y in more :: if y == x then Depth(links, parent) + 1 else Depth(links, Some(y));
    forall y | y in more && more[y].Some? && more[y].value in more
      ensures rank[more[y].value] < rank[y]
    {
      if y != x { assert links[y].value in links; }
      if y == x { assert parent == Some(parent.value); }
    }
    FallingIsForest(more, rank);
  }

  // New rows elsewhere do not lengthen a chain.
  lemma {:induction false} ChainInMore(links: Links, more: Links, x: Option<int>, seen: set<int>)
    requires ParentsKnown(links) && links.Keys <= more.Keys && (forall y :: y in links ==> more[y] == links[y])
    requires x.Some? ==> x.value in links
    ensures Chain(more, x, seen) == Chain(links, x, seen)
    decreases links.Keys - seen
  {
    if x.Some? && x.value !in seen {
      var y := x.value;
      assert y in links && more[y] == links[y];
      assert links[y].Some? ==> links[y].value in links;
      assert links.Keys - (seen + {x.value}) < links.Keys - seen by { assert x.value in links.Keys - seen; }
      ChainInMore(links, more, links[x.value], seen + {x.value});
    }
  }

  lemma CreateProjectKeeps(ws: Workspace, id: int, parent: Option<int>)
    requires Inv(ws) && id !in ws.projects && CreateProject(ws, id, parent).Done?
    ensures Inv(CreateProject(ws, id, parent).after)
  {
    var after := CreateProject(ws, id, parent).after;
    AddingALeafKeepsForest(ws.projects, id, parent);
    forall t | t in ws.tasks
      ensures !Unreachable(after, t)
    {
      assert KnownProject(ws, ws.tasks[t].project) && !Unreachable(ws, t);
      ChainInMore(ws.projects, after.projects, ws.tasks[t].project, {});
    }
    assert forall t :: t in ws.tasks ==> StaysWithParent(ws.tasks, t);
  }

  lemma MovedSoFar(ws: Workspace, id: int, parent: Option<int>)
    requires Inv(ws) && id in ws.projects && KnownProject(ws, parent) && !WouldCycle(ws.projects, id, parent)
    ensures var moved := ws.(projects := ws.projects[id := parent],
                             calendar := CalendarAfterMove(ws, id, ws.projects[id], parent));
            ProjectsSound(moved) && TaskForest(moved) && HomesKnown(moved) && FamiliesTogether(moved)
  {
    var moved := ws.(projects := ws.projects[id := parent],
                     calendar := CalendarAfterMove(ws, id, ws.projects[id], parent));
    MoveKeepsForest(ws.projects, id, parent);
    assert ParentsKnown(moved.projects);
    assert forall t :: t in ws.tasks ==> StaysWithParent(ws.tasks, t);
    if ws.projects[id].Some? && parent.None? {
      RootIsTop(ws.projects, id);
    }
  }

  /** The root of a known project is a known top project. */
  lemma {:induction false} RootIsTop(links: Links, x: int)
    requires Forest(links) && ParentsKnown(links) && x in links
    ensures var root := RootOf(links, x); root in links && links[root].None?
    decreases Depth(links, Some(x))
  {
    ChainUnfolds(links, x);
    if links[x].Some? {
      assert links[x] == Some(links[x].value);
      RootIsTop(links, links[x].value);
      ChainUnfolds(links, links[x].value);
    }
  }

  lemma MoveProjectKeeps(ws: Workspace, id: int, parent: Option<int>)
    requires Inv(ws) && MoveProject(ws, id, parent).Done?
    ensures Inv(MoveProject(ws, id, parent).after)
  {
    var former := ws.projects[id];
    var moved := ws.(projects := ws.projects[id := parent], calendar := CalendarAfterMove(ws, id, former, parent));
    MovedSoFar(ws, id, parent);
    if former != parent {
      DetachingRepairs(moved);
    } else {
      assert moved == ws by {
        assert ws.projects[id := parent] == ws.projects;
      }
    }
  }

  // Nothing that counts is in the project.
  ghost predicate Empty(ws: Workspace, id: int) {
    && (forall p :: p in ws.projects ==> ws.projects[p] != Some(id))
    && (forall t :: t in ws.tasks && !ws.tasks[t].deleted ==> ws.tasks[t].project != Some(id))
    && (forall m :: m in ws.milestones && !ws.milestones[m].deleted ==> ws.milestones[m].project != Some(id))
  }

  lemma DeletedProjectsSound(ws: Workspace, id: int)
    requires ProjectsSound(ws) && DeleteProject(ws, id).Done? && Empty(ws, id)
    ensures ProjectsSound(DeleteProject(ws, id).after)
  {
    var after := DeleteProject(ws, id).after;
    ForestFalls(ws.projects);
    FallingIsForest(after.projects, map x | x in ws.projects :: Depth(ws.projects, Some(x)));
  }

  lemma DeletedTasks(ws: Workspace, id: int)
    requires TaskForest(ws) && FamiliesTogether(ws) && DeleteProject(ws, id).Done? && Empty(ws, id)
    ensures TaskForest(DeleteProject(ws, id).after) && FamiliesTogether(DeleteProject(ws, id).after)
  {
    var after := DeleteProject(ws, id).after;
    assert ParentsOf(after.tasks) == ParentsOf(ws.tasks);
    forall t | t in after.tasks
      ensures StaysWithParent(after.tasks, t)
    {
      assert StaysWithParent(ws.tasks, t);
    }
  }

  lemma DeletedHomesKnown(ws: Workspace, id: int)
    requires HomesKnown(ws) && DeleteProject(ws, id).Done?
    ensures HomesKnown(DeleteProject(ws, id).after)
  {
    hide HasContents;
  }

  lemma DeletedReach(ws: Workspace, id: int)
    requires ProjectsSound(ws) && HomesKnown(ws) && MilestonesReach(ws) && DeleteProject(ws, id).Done? && Empty(ws, id)
    ensures MilestonesReach(DeleteProject(ws, id).after)
  {
    var after := DeleteProject(ws, id).after;
    DeletedProjectsSound(ws, id);
    forall t | t in after.tasks
      ensures !Unreachable(after, t)
    {
      if LiveTask(ws.tasks, t) {
        assert KnownProject(ws, ws.tasks[t].project) && !Unreachable(ws, t);
        ChainInMore(after.projects, ws.projects, ws.tasks[t].project, {});
      }
    }
  }

  lemma DeleteProjectKeeps(ws: Workspace, id: int)
    requires Inv(ws) && DeleteProject(ws, id).Done?
    ensures Inv(DeleteProject(ws, id).after)
  {
    assert Empty(ws, id);
    DeletedProjectsSound(ws, id);
    DeletedTasks(ws, id);
    DeletedHomesKnown(ws, id);
    DeletedReach(ws, id);
    hide ProjectsSound, TaskForest, HomesKnown, FamiliesTogether, MilestonesReach, DeleteProject;
  }

  /** A project is only deleted when nothing is lost with it: every live task and milestone is left as it was. */
  lemma DeletingLosesNothing(ws: Workspace, id: int)
    requires DeleteProject(ws, id).Done?
    ensures var after := DeleteProject(ws, id).after;
            && (forall t :: LiveTask(ws.tasks, t) ==> t in after.tasks && after.tasks[t] == ws.tasks[t])
            && (forall m :: LiveMilestone(ws.milestones, m) ==> m in after.milestones && after.milestones[m] == ws.milestones[m])
            && (forall p :: p in ws.projects && p != id ==> p in after.projects && after.projects[p] == ws.projects[p] != Some(id))
  {
    assert Empty(ws, id);
  }

  // ---- milestones ---------------------------------------------------------------------------------

  lemma CreateMilestoneKeeps(ws: Workspace, id: int, project: Option<int>)
    requires Inv(ws) && id !in ws.milestones && CreateMilestone(ws, id, project).Done?
    ensures Inv(CreateMilestone(ws, id, project).after)
  {
    var after := CreateMilestone(ws, id, project).after;
    forall t | t in ws.tasks
      ensures !Unreachable(after, t)
    {
      assert !Unreachable(ws, t);
    }
  }

  lemma UpdateMilestoneKeeps(ws: Workspace, id: int, project: Option<Option<int>>)
    requires Inv(ws) && UpdateMilestone(ws, id, project).Done?
    ensures Inv(UpdateMilestone(ws, id, project).after)
  {
    if project.Some? {
      var saved := ws.(milestones := ws.milestones[id := MilestoneRow(project.value, false)]);
      if project.value != ws.milestones[id].project {
        assert HomesKnown(saved);
        DetachingRepairs(saved);
      } else {
        assert saved.milestones == ws.milestones;
      }
    }
  }

  lemma DeleteMilestoneKeeps(ws: Workspace, id: int)
    requires Inv(ws) && DeleteMilestone(ws, id).Done?
    ensures Inv(DeleteMilestone(ws, id).after)
  {
    var after := DeleteMilestone(ws, id).after;
    forall t | t in ws.tasks
      ensures !Unreachable(after, t)
    {
      assert !Unreachable(ws, t);
    }
  }

  // ---- tasks ---------------------------------------------------------------------------------------

  lemma CreateTaskKeeps(ws: Workspace, id: int, parent: Option<int>, project: Option<int>, milestone: Option<int>)
    requires Inv(ws) && id !in ws.tasks && CreateTask(ws, id, parent, project, milestone).Done?
    ensures Inv(CreateTask(ws, id, parent, project, milestone).after)
  {
    var after := CreateTask(ws, id, parent, project, milestone).after;
    assert ParentsOf(after.tasks) == ParentsOf(ws.tasks)[id := parent];
    AddingALeafKeepsForest(ParentsOf(ws.tasks), id, parent);
    forall t | t in after.tasks
      ensures StaysWithParent(after.tasks, t) && !Unreachable(after, t)
    {
      if t != id {
        assert StaysWithParent(ws.tasks, t) && !Unreachable(ws, t);
        var p := ParentsOf(ws.tasks)[t];
        assert p.Some? ==> p.value in ws.tasks;
      }
    }
    assert HomesKnown(after) by { hide Forest, MilestonesReach, FamiliesTogether; }
  }

  // A row and all below it go to another project together.
  lemma BranchMovesTogether(ws: Workspace, saved: Tasks, moved: set<int>, home: Option<int>)
    requires ProjectsSound(ws) && KnownProject(ws, home)
    requires TaskForest(ws.(tasks := saved)) && HomesKnown(ws.(tasks := saved))
    requires forall t :: t in saved && LiveTask(saved, t) && saved[t].parent.Some? && LiveTask(saved, saved[t].parent.value) ==>
               (if saved[t].parent.value in moved then t in moved
                else if t in moved then saved[saved[t].parent.value].project == home
                else saved[t].project == saved[saved[t].parent.value].project)
    ensures Inv(Detached(ws.(tasks := SetProject(saved, moved, home))))
  {
    var after := ws.(tasks := SetProject(saved, moved, home));
    assert ParentsOf(after.tasks) == ParentsOf(saved);
    assert FamiliesTogether(after) by { hide Forest, HomesKnown; }
    MovedHomesKnown(ws, saved, moved, home);
    assert TaskForest(after);
    hide TaskForest, HomesKnown, FamiliesTogether, SetProject, Detached;
    DetachingRepairs(after);
  }

  lemma MovedHomesKnown(ws: Workspace, saved: Tasks, moved: set<int>, home: Option<int>)
    requires KnownProject(ws, home) && HomesKnown(ws.(tasks := saved))
    ensures HomesKnown(ws.(tasks := SetProject(saved, moved, home)))
  {
  }

  lemma SavedForest(ws: Workspace, id: int, parent: Option<int>)
    requires TaskForest(ws) && LiveTask(ws.tasks, id) && ParentRefusal(ws, id, parent).None?
    ensures var newParent := if parent.Some? then parent else ws.tasks[id].parent;
            && Forest(ParentsOf(ws.tasks)[id := newParent]) && ParentsKnown(ParentsOf(ws.tasks)[id := newParent])
            && (newParent.Some? ==> newParent.value !in Subtree(ParentsOf(ws.tasks)[id := newParent], id))
  {
    var links := ParentsOf(ws.tasks);
    var newParent := if parent.Some? then parent else ws.tasks[id].parent;
    if newParent == links[id] {
      assert links[id := newParent] == links;
    } else {
      WouldCycleIsBelow(links, id, newParent.value);
      MoveKeepsForest(links, id, newParent);
    }
  }

  lemma UpdateTaskKeeps(ws: Workspace, id: int, parent: Option<int>, project: Option<Option<int>>,
                        milestone: Option<Option<int>>)
    requires Inv(ws) && UpdateTask(ws, id, parent, project, milestone).Done?
    ensures Inv(UpdateTask(ws, id, parent, project, milestone).after)
  {
    var task := ws.tasks[id];
    var newParent := if parent.Some? then parent else task.parent;
    var home := ProjectForUpdate(ws, newParent, task.project, project).project;
    var m := if milestone.Some? then milestone.value else task.milestone;
    var row := TaskRow(newParent, home, m, false);
    var saved := ws.tasks[id := row];
    SavedForest(ws, id, parent);
    assert ParentsOf(saved) == ParentsOf(ws.tasks)[id := newParent];
    assert KnownProject(ws, home) && (m.Some? ==> m.value in ws.milestones);
    SavedHomesKnown(ws, id, row);
    SavingKeeps(ws, id, row);
  }

  lemma SavedHomesKnown(ws: Workspace, id: int, row: TaskRow)
    requires HomesKnown(ws) && id in ws.tasks && KnownProject(ws, row.project)
    requires row.milestone.Some? ==> row.milestone.value in ws.milestones
    ensures HomesKnown(ws.(tasks := ws.tasks[id := row]))
  {
  }

  lemma SavingKeeps(ws: Workspace, id: int, row: TaskRow)
    requires Inv(ws) && LiveTask(ws.tasks, id) && KnownProject(ws, row.project) && !row.deleted
    requires var saved := ws.tasks[id := row];
             && TaskForest(ws.(tasks := saved)) && HomesKnown(ws.(tasks := saved))
             && (row.parent.Some? ==> row.parent.value !in Subtree(ParentsOf(saved), id))
    requires row.parent.Some? && LiveTask(ws.tasks, row.parent.value) ==> row.project == ws.tasks[row.parent.value].project
    requires row.milestone != ws.tasks[id].milestone ==> MilestoneRefusal(ws, row.milestone, row.project).None?
    ensures Inv(SaveTask(ws, id, row))
  {
    var saved := ws.tasks[id := row];
    var links := ParentsOf(saved);
    if row.project == ws.tasks[id].project {
      var after := ws.(tasks := saved);
      assert FamiliesTogether(after) by {
        forall t | t in saved ensures StaysWithParent(saved, t) { assert StaysWithParent(ws.tasks, t); }
      }
      assert MilestonesReach(after) by {
        forall t | t in saved ensures !Unreachable(after, t) { assert !Unreachable(ws, t); }
      }
    } else {
      var branch := Subtree(links, id);
      forall t | t in saved && LiveTask(saved, t) && saved[t].parent.Some? && LiveTask(saved, saved[t].parent.value)
        ensures if saved[t].parent.value in branch then t in branch
                else if t in branch then saved[saved[t].parent.value].project == row.project
                else saved[t].project == saved[saved[t].parent.value].project
      {
        assert StaysWithParent(ws.tasks, t);
        ChildOfBranch(links, id, t);
      }
      BranchMovesTogether(ws, saved, branch, row.project);
    }
  }

  /** A row is below x exactly when it is x or its parent is below x. */
  lemma ChildOfBranch(links: Links, x: int, t: int)
    requires Forest(links) && x in links && t in links
    ensures t in Subtree(links, x) <==> t == x || (links[t].Some? && links[t].value in Subtree(links, x))
  {
    ChainUnfolds(links, t);
    if links[t].Some? { assert links[t] == Some(links[t].value); }
  }

  lemma DeleteTaskKeeps(ws: Workspace, id: int, hasLogs: bool)
    requires Inv(ws) && DeleteTask(ws, id, hasLogs).Done?
    ensures Inv(DeleteTask(ws, id, hasLogs).after)
  {
    var after := DeleteTask(ws, id, hasLogs).after;
    assert ParentsOf(after.tasks) == ParentsOf(ws.tasks);
    forall t | t in after.tasks
      ensures StaysWithParent(after.tasks, t) && !Unreachable(after, t)
    {
      assert StaysWithParent(ws.tasks, t) && !Unreachable(ws, t);
    }
    SavedHomesKnown(ws, id, after.tasks[id]);
  }

  lemma MoveToProjectKeeps(ws: Workspace, ids: seq<int>, target: Option<int>)
    requires Inv(ws) && MoveToProject(ws, ids, target).Done?
    ensures Inv(MoveToProject(ws, ids, target).after)
  {
    var roots := RootsToMove(ws.tasks, ToSet(ids), target);
    if roots != {} {
      var branches := Branches(ws.tasks, roots);
      var tasks := ws.tasks;
      forall t | t in tasks && LiveTask(tasks, t) && tasks[t].parent.Some? && LiveTask(tasks, tasks[t].parent.value)
        ensures if tasks[t].parent.value in branches then t in branches
                else if t in branches then tasks[tasks[t].parent.value].project == target
                else tasks[t].project == tasks[tasks[t].parent.value].project
      {
        assert StaysWithParent(tasks, t);
        ChildOfBranches(tasks, roots, t);
      }
      BranchMovesTogether(ws, tasks, branches, target);
    }
  }

  lemma ChildOfBranches(tasks: Tasks, roots: set<int>, t: int)
    requires Forest(ParentsOf(tasks)) && t in tasks && tasks[t].parent.Some? && tasks[t].parent.value in tasks
    requires t in roots ==> !LiveTask(tasks, tasks[t].parent.value)
    requires LiveTask(tasks, tasks[t].parent.value)
    ensures t in Branches(tasks, roots) <==> tasks[t].parent.value in Branches(tasks, roots)
  {
    var links := ParentsOf(tasks);
    var p := tasks[t].parent.value;
    ChainUnfolds(links, t);
    assert links[t] == Some(p);
    if t in Branches(tasks, roots) {
      var r :| r in roots && r in AncestorsOrSelf(links, Some(t));
      assert r in AncestorsOrSelf(links, Some(p));
    }
    if p in Branches(tasks, roots) {
      var r :| r in roots && r in AncestorsOrSelf(links, Some(p));
      assert r in AncestorsOrSelf(links, Some(t));
    }
  }

  // ---- calendars ------------------------------------------------------------------------------------

  // Calendars matter to the invariant only by where their rows are.
  lemma CalendarOnly(ws: Workspace, cal: Calendar)
    requires Inv(ws) && WorkweeksAtTop(cal, ws.projects)
    requires forall k :: k in cal.daysOff ==> k.0 in ws.projects
    requires forall k :: k in cal.extraWorkdays ==> k.0 in ws.projects
    ensures Inv(ws.(calendar := cal))
  {
    var after := ws.(calendar := cal);
    assert FamiliesTogether(after) && TaskForest(after);
    assert HomesKnown(after) by { hide Forest; }
    assert MilestonesReach(after) by {
      forall t | t in ws.tasks ensures !Unreachable(after, t) { assert !Unreachable(ws, t); }
    }
  }

  lemma CalendarRequestKeeps(ws: Workspace, r: Request)
    requires Inv(ws) && Respond(ws, r).Done?
    requires r.ChooseWorkdays? || r.Enter? || r.DropDayOff? || r.DropExtraWorkday? || r.AddHolidays?
    ensures Inv(Respond(ws, r).after)
  {
    if r.ChooseWorkdays? { RootIsTop(ws.projects, r.at); }
    hide Forest, ParentsKnown, TaskForest, FamiliesTogether, MilestonesReach, RootOf, AncestorsOrSelf;
    CalendarOnly(ws, Respond(ws, r).after.calendar);
  }

  // ---- runs -----------------------------------------------------------------------------------------

  /** Every request, answered or refused, keeps the whole invariant. */
  lemma StepKeeps(ws: Workspace, r: Request)
    requires Inv(ws) && FreshIds(ws, r)
    ensures Inv(Step(ws, r))
  {
    hide Inv;
    if Respond(ws, r).Done? {
      match r
      case NewProject(id, parent) => CreateProjectKeeps(ws, id, parent);
      case RelocateProject(id, parent) => MoveProjectKeeps(ws, id, parent);
      case RemoveProject(id) => DeleteProjectKeeps(ws, id);
      case NewTask(id, parent, project, milestone) => CreateTaskKeeps(ws, id, parent, project, milestone);
      case ChangeTask(id, parent, project, milestone) => UpdateTaskKeeps(ws, id, parent, project, milestone);
      case RelocateTasks(ids, target) => MoveToProjectKeeps(ws, ids, target);
      case RemoveTask(id, hasLogs) => DeleteTaskKeeps(ws, id, hasLogs);
      case NewMilestone(id, project) => CreateMilestoneKeeps(ws, id, project);
      case ChangeMilestone(id, project) => UpdateMilestoneKeeps(ws, id, project);
      case RemoveMilestone(id) => DeleteMilestoneKeeps(ws, id);
      case _ => CalendarRequestKeeps(ws, r);
    }
  }

  /** After any run of requests: project and task links are forests, live tasks are where their live parents are, live
      milestones on live tasks are in reach, and only top projects have a workweek. */
  lemma {:induction false} RunKeeps(ws: Workspace, requests: seq<Request>)
    requires Inv(ws) && LegalRun(ws, requests)
    ensures Inv(Run(ws, requests))
    decreases |requests|
  {
    if requests != [] {
      var n := |requests| - 1;
      forall k | 0 <= k < n
        ensures FreshIds(Run(ws, requests[..n][..k]), requests[..n][k])
      {
        assert requests[..n][..k] == requests[..k];
      }
      RunKeeps(ws, requests[..n]);
      StepKeeps(Run(ws, requests[..n]), requests[n]);
    }
  }

  /** After any run, taking a sub-project to the top leaves the calendar in force as it was, for every project and day. */
  lemma TopMovesKeepCalendarsInEveryRun(ws: Workspace, requests: seq<Request>, x: int, y: int, day: int)
    requires Inv(ws) && LegalRun(ws, requests)
    requires var now := Run(ws, requests); x in now.projects && now.projects[x].Some? && y in now.projects
    ensures var now := Run(ws, requests);
            var after := Step(now, RelocateProject(x, None));
            && after.projects[x].None?
            && RuleFor(after.calendar, after.projects, y, day) == RuleFor(now.calendar, now.projects, y, day)
            && WorkdaysFor(after.calendar, after.projects, y) == WorkdaysFor(now.calendar, now.projects, y)
  {
    RunKeeps(ws, requests);
    var now := Run(ws, requests);
    MovingToTopKeepsCalendars(now.calendar, now.projects, x, y, day);
    ChainIgnoresUnmet(now.projects, now.projects[x], {}, {x});
    assert {} + {x} == {x};
    hide Run, RuleFor, WorkdaysFor, CopiedDown;
  }

  /** A move is refused as a ring exactly when obeying it would have knotted the projects. */
  lemma RingsAreRefusedExactly(ws: Workspace, id: int, parent: Option<int>)
    requires Inv(ws) && id in ws.projects && KnownProject(ws, parent)
    ensures MoveProject(ws, id, parent) == Refused(ProjectCycle) <==> !Forest(ws.projects[id := parent])
  {
    MoveKeepsForest(ws.projects, id, parent);
  }

  /** A task is refused a parent as a conflict exactly when obeying would have knotted the tasks. */
  lemma TaskRingsAreRefusedExactly(ws: Workspace, id: int, parent: int)
    requires Inv(ws) && LiveTask(ws.tasks, id) && LiveTask(ws.tasks, parent) && ws.tasks[id].parent != Some(parent)
    ensures ParentRefusal(ws, id, Some(parent)).Some? <==> !Forest(ParentsOf(ws.tasks)[id := Some(parent)])
  {
    MoveKeepsForest(ParentsOf(ws.tasks), id, Some(parent));
    WouldCycleIsBelow(ParentsOf(ws.tasks), id, parent);
  }

  // ---- moving a selection ------------------------------------------------------------------------------

  lemma LiveForest(tasks: Tasks)
    requires Forest(ParentsOf(tasks))
    ensures Forest(LiveParents(tasks))
  {
    var links := ParentsOf(tasks);
    ForestFalls(links);
    FallingIsForest(LiveParents(tasks), map x | x in links :: Depth(links, Some(x)));
  }

  // A task above t by way of live tasks is above t, and in the same project.
  lemma {:induction false} LiveAncestor(ws: Workspace, t: int, a: int)
    requires TaskForest(ws) && FamiliesTogether(ws)
    requires a in AncestorsOrSelf(LiveParents(ws.tasks), Some(t))
    ensures LiveTask(ws.tasks, t) && LiveTask(ws.tasks, a)
    ensures a in AncestorsOrSelf(ParentsOf(ws.tasks), Some(t)) && ws.tasks[a].project == ws.tasks[t].project
    ensures a != t ==> Depth(ParentsOf(ws.tasks), Some(a)) < Depth(ParentsOf(ws.tasks), Some(t))
    decreases Depth(LiveParents(ws.tasks), Some(t))
  {
    var live, links := LiveParents(ws.tasks), ParentsOf(ws.tasks);
    LiveForest(ws.tasks);
    assert t in live;
    ChainUnfolds(live, t);
    ChainUnfolds(links, t);
    if a != t {
      var p := live[t].value;
      assert live[t] == Some(p) == links[t];
      assert a in AncestorsOrSelf(live, Some(p));
      assert p in live;
      assert StaysWithParent(ws.tasks, t);
      LiveAncestor(ws, p, a);
      ForestFalls(links);
    }
  }

  // Above every selected task there is a selected branch root, in the same project.
  lemma {:induction false} SelectedRootAbove(ws: Workspace, chosen: set<int>, t: int) returns (r: int)
    requires TaskForest(ws) && FamiliesTogether(ws)
    requires forall c :: c in chosen ==> LiveTask(ws.tasks, c) && !Stranded(LiveParents(ws.tasks), chosen, c)
    requires t in chosen
    ensures r in chosen && LiveTask(ws.tasks, r) && IsBranchRoot(LiveParents(ws.tasks), r)
    ensures r in AncestorsOrSelf(ParentsOf(ws.tasks), Some(t)) && ws.tasks[r].project == ws.tasks[t].project
    decreases Depth(ParentsOf(ws.tasks), Some(t))
  {
    var live, links := LiveParents(ws.tasks), ParentsOf(ws.tasks);
    LiveForest(ws.tasks);
    ChainUnfolds(live, t);
    assert t in AncestorsOrSelf(live, Some(t));
    LiveAncestor(ws, t, t);
    if IsBranchRoot(live, t) {
      r := t;
    } else {
      ChainIgnoresUnmet(live, live[t], {}, {t});
      assert {} + {t} == {t};
      var a :| a in Chain(live, live[t], {t}) && a in chosen;
      assert a in AncestorsOrSelf(live, Some(t));
      LiveAncestor(ws, t, a);
      r := SelectedRootAbove(ws, chosen, a);
      ChainIsReachable(links, t, a, {});
      ChainIsReachable(links, a, r, {});
      Reachability.ReachesThrough(Up(links), t, a, r);
      ReachableIsInChain(links, t, r);
    }
  }

  // The rows after a move, one by one.
  lemma RowsAfterMove(ws: Workspace, ids: seq<int>, target: Option<int>)
    requires MoveToProject(ws, ids, target).Done?
    ensures var after := MoveToProject(ws, ids, target).after.tasks;
            var moved := Branches(ws.tasks, RootsToMove(ws.tasks, ToSet(ids), target));
            && after.Keys == ws.tasks.Keys
            && forall t :: t in ws.tasks ==>
                 && after[t].project == (if t in moved then target else ws.tasks[t].project)
                 && after[t].parent == ws.tasks[t].parent && after[t].deleted == ws.tasks[t].deleted
  {
    hide RootsToMove, Stranded, LiveParents, Unreachable;
  }

  /** When a selection is moved, every selected task ends up in the target, everything that moves is in a selected branch,
      and nothing but projects, and milestones out of reach, is changed. */
  lemma SelectionEndsInTarget(ws: Workspace, ids: seq<int>, target: Option<int>)
    requires Inv(ws) && MoveToProject(ws, ids, target).Done?
    ensures var after := MoveToProject(ws, ids, target).after.tasks;
            && after.Keys == ws.tasks.Keys
            && (forall t :: t in ids ==> after[t].project == target)
            && (forall t :: t in ws.tasks && after[t].project != ws.tasks[t].project ==>
                  after[t].project == target
                  && exists r :: r in ids && r in AncestorsOrSelf(ParentsOf(ws.tasks), Some(t)))
            && (forall t :: t in ws.tasks ==> after[t].parent == ws.tasks[t].parent && after[t].deleted == ws.tasks[t].deleted)
  {
    var after := MoveToProject(ws, ids, target).after.tasks;
    var chosen := ToSet(ids);
    var roots := RootsToMove(ws.tasks, chosen, target);
    assert forall c :: c in chosen ==> LiveTask(ws.tasks, c) && !Stranded(LiveParents(ws.tasks), chosen, c);
    RowsAfterMove(ws, ids, target);
    assert TaskForest(ws) && FamiliesTogether(ws);
    hide MoveToProject, Inv, TaskForest, FamiliesTogether, Stranded;
    forall t | t in ids
      ensures after[t].project == target
    {
      assert t in chosen;
      var r := SelectedRootAbove(ws, chosen, t);
      if ws.tasks[r].project != target {
        assert r in roots;
        assert t in Branches(ws.tasks, roots);
      }
    }
    forall t | t in Branches(ws.tasks, roots)
      ensures exists r :: r in ids && r in AncestorsOrSelf(ParentsOf(ws.tasks), Some(t))
    {
      var r :| r in roots && r in AncestorsOrSelf(ParentsOf(ws.tasks), Some(t));
      assert r in ids;
    }
  }
}
