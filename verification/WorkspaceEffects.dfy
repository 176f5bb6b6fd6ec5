/** What every request leaves behind, table by table: who may be refused, and which rows an answered request changes to what. */
module WorkspaceEffects {
  import opened Basics
  import opened WorkSeats
  import opened ParentLinks
  import opened ProjectTrees
  import opened ProjectCalendar
  import opened WorkspaceModel
  import opened WorkspaceSafety

  // ---- projects and milestones ------------------------------------------------------------------------

  /** Projects: only three requests change the table, and each only the row it names. */
  lemma ProjectsAfter(ws: Workspace, r: Request)
    requires Respond(ws, r).Done?
    ensures Respond(ws, r).after.projects
            == if r.NewProject? || r.RelocateProject? then ws.projects[r.id := r.parent]
               else if r.RemoveProject? then ws.projects - {r.id}
               else ws.projects
  {
    hide Unreachable, CalendarAfterMove, Subtree, Branches, RootsToMove, Stranded, MilestoneRefusal, ParentRefusal, SetProject,
         ProjectForUpdate, HasContents, RowsElsewhere, WouldCycle, RootOf, AncestorsOrSelf;
  }

  // Where a milestone of the former workspace belongs after a request.
  function MilestoneHome(ws: Workspace, r: Request, m: int): Option<int>
    requires m in ws.milestones
  {
    if r.ChangeMilestone? && r.id == m && r.sentProject.Some? then r.sentProject.value
    else if r.RemoveProject? && ws.milestones[m].project == Some(r.id) then None
    else ws.milestones[m].project
  }

  /** Milestones: a new one is live and where it was asked to be, the others go where they are sent, out of a project that is
      deleted, or stay; only the one deleted is marked. */
  lemma MilestonesAfter(ws: Workspace, r: Request, m: int)
    requires Respond(ws, r).Done?
    ensures var after := Respond(ws, r).after.milestones;
            if r.NewMilestone? && r.id == m then m in after && after[m] == MilestoneRow(r.project, false)
            else
              && (m in after <==> m in ws.milestones)
              && (m in after ==> after[m].project == MilestoneHome(ws, r, m)
                                 && (after[m].deleted <==> ws.milestones[m].deleted || r == RemoveMilestone(m)))
  {
    hide Unreachable, CalendarAfterMove, Subtree, Branches, RootsToMove, Stranded, MilestoneRefusal, ParentRefusal, SetProject,
         ProjectForUpdate, HasContents, RowsElsewhere, WouldCycle, RootOf, AncestorsOrSelf;
  }

  // ---- tasks ---------------------------------------------------------------------------------------

  // The rows of a task before and after, as far as its place and its deletion go.
  ghost predicate HangsAs(ws: Workspace, r: Request, after: Tasks, t: int) {
    if r.NewTask? && r.id == t then t in after && after[t].parent == r.parent && !after[t].deleted
    else
      && (t in after <==> t in ws.tasks)
      && (t in after ==>
            && after[t].parent == (if r.ChangeTask? && r.id == t && r.parent.Some? then r.parent else ws.tasks[t].parent)
            && (after[t].deleted <==> ws.tasks[t].deleted || (r.RemoveTask? && r.id == t)))
  }

  lemma SavedHangsAs(ws: Workspace, id: int, row: TaskRow, t: int)
    requires id in ws.tasks
    ensures var after := SaveTask(ws, id, row).tasks;
            && (t in after <==> t in ws.tasks)
            && (t in after ==> after[t].parent == (if t == id then row.parent else ws.tasks[t].parent)
                               && after[t].deleted == (if t == id then row.deleted else ws.tasks[t].deleted))
  {
    hide Subtree, Unreachable;
  }

  lemma OthersHangAs(ws: Workspace, r: Request, t: int)
    requires Respond(ws, r).Done? && !r.ChangeTask? && !r.RelocateTasks?
    ensures HangsAs(ws, r, Respond(ws, r).after.tasks, t)
  {
    hide Unreachable, CalendarAfterMove, MilestoneRefusal, HasContents, RowsElsewhere, WouldCycle, RootOf, AncestorsOrSelf;
  }

  /** Tasks are never lost and only the one named is deleted or hung elsewhere. */
  lemma TaskParentsAfter(ws: Workspace, r: Request, t: int)
    requires Respond(ws, r).Done?
    ensures HangsAs(ws, r, Respond(ws, r).after.tasks, t)
  {
    hide SaveTask, Branches, RootsToMove, Stranded, MilestoneRefusal, ParentRefusal, ProjectForUpdate, Detached, SetProject,
         CalendarAfterMove, HasContents;
    match r
    case ChangeTask(id, parent, sent, milestone) =>
      var row := TaskRow(if parent.Some? then parent else ws.tasks[id].parent, ChangedHome(ws, id, parent, sent),
                         if milestone.Some? then milestone.value else ws.tasks[id].milestone, false);
      ChangeSaves(ws, r, row);
      SavedHangsAs(ws, id, row, t);
    case RelocateTasks(ids, target) => RowsAfterMove(ws, ids, target);
    case _ => OthersHangAs(ws, r, t);
  }

  predicate NoLiveParent(tasks: Tasks, t: int)
    requires t in tasks
  {
    tasks[t].parent.None? || !LiveTask(tasks, tasks[t].parent.value)
  }

  // Where a task goes that is changed: to a live parent's project, else where it is sent, else nowhere.
  function ChangedHome(ws: Workspace, id: int, parent: Option<int>, sent: Option<Option<int>>): Option<int>
    requires id in ws.tasks
  {
    var under := if parent.Some? then parent else ws.tasks[id].parent;
    if under.Some? && LiveTask(ws.tasks, under.value) then ws.tasks[under.value].project
    else if sent.Some? then sent.value
    else ws.tasks[id].project
  }

  // t is in the branch of a selected task without a live parent, one that is not in the target yet.
  ghost predicate InMovedBranch(tasks: Tasks, ids: seq<int>, target: Option<int>, t: int) {
    exists b :: b in ids && LiveTask(tasks, b) && NoLiveParent(tasks, b) && tasks[b].project != target
                && b in AncestorsOrSelf(ParentsOf(tasks), Some(t))
  }

  // Where a task of the former workspace belongs after a request.
  ghost function TaskHome(ws: Workspace, r: Request, after: Tasks, t: int): Option<int>
    requires t in ws.tasks && (r.ChangeTask? ==> r.id in ws.tasks)
  {
    match r
    case ChangeTask(id, parent, sent, _) =>
      if t in Subtree(ParentsOf(after), id) && ChangedHome(ws, id, parent, sent) != ws.tasks[id].project
      then ChangedHome(ws, id, parent, sent) else ws.tasks[t].project
    case RelocateTasks(ids, target) => if InMovedBranch(ws.tasks, ids, target, t) then target else ws.tasks[t].project
    case RemoveProject(id) => if ws.tasks[t].project == Some(id) then None else ws.tasks[t].project
    case _ => ws.tasks[t].project
  }

  lemma ChangedTaskHomes(ws: Workspace, r: Request, t: int)
    requires r.ChangeTask? && Respond(ws, r).Done? && t in ws.tasks && r.id in ws.tasks
    ensures var after := Respond(ws, r).after.tasks; t in after && after[t].project == TaskHome(ws, r, after, t)
  {
    hide Respond, SaveTask, Subtree;
    var row := TaskRow(if r.parent.Some? then r.parent else ws.tasks[r.id].parent, ChangedHome(ws, r.id, r.parent, r.sentProject),
                       if r.sentMilestone.Some? then r.sentMilestone.value else ws.tasks[r.id].milestone, false);
    ChangeSaves(ws, r, row);
    SavedBranch(ws, r.id, row, t);
  }

  // Saving a row takes the branch along, and hangs nothing else elsewhere.
  lemma SavedBranch(ws: Workspace, id: int, row: TaskRow, t: int)
    requires id in ws.tasks && t in ws.tasks
    ensures var after := SaveTask(ws, id, row).tasks;
            && t in after
            && after[t].project == if t in Subtree(ParentsOf(after), id) && row.project != ws.tasks[id].project
                                   then row.project else ws.tasks[t].project
  {
    hide Subtree, Unreachable;
    var saved := ws.tasks[id := row];
    var moved := SetProject(saved, Subtree(ParentsOf(saved), id), row.project);
    assert ParentsOf(SaveTask(ws, id, row).tasks) == ParentsOf(saved) by {
      assert ParentsOf(moved) == ParentsOf(saved);
      assert ParentsOf(Detached(ws.(tasks := moved)).tasks) == ParentsOf(moved);
    }
    BelowItself(ParentsOf(saved), id);
  }

  lemma BelowItself(links: Links, x: int)
    requires x in links
    ensures x in Subtree(links, x)
  {
  }

  lemma ChangeSaves(ws: Workspace, r: Request, row: TaskRow)
    requires r.ChangeTask? && Respond(ws, r).Done? && r.id in ws.tasks
    requires row == TaskRow(if r.parent.Some? then r.parent else ws.tasks[r.id].parent,
                            ChangedHome(ws, r.id, r.parent, r.sentProject),
                            if r.sentMilestone.Some? then r.sentMilestone.value else ws.tasks[r.id].milestone, false)
    ensures Respond(ws, r).after == SaveTask(ws, r.id, row)
  {
    hide SaveTask, MilestoneRefusal, ParentRefusal;
  }

  lemma MovedTaskHomes(ws: Workspace, r: Request, t: int)
    requires r.RelocateTasks? && Respond(ws, r).Done? && t in ws.tasks
    ensures var after := Respond(ws, r).after.tasks; t in after && after[t].project == TaskHome(ws, r, after, t)
  {
    hide MoveToProject, Chain;
    RowsAfterMove(ws, r.ids, r.target);
    var roots := RootsToMove(ws.tasks, ToSet(r.ids), r.target);
    assert forall b :: b in roots <==> b in r.ids && LiveTask(ws.tasks, b) && NoLiveParent(ws.tasks, b)
                                       && ws.tasks[b].project != r.target;
    assert t in Branches(ws.tasks, roots) <==> InMovedBranch(ws.tasks, r.ids, r.target, t);
  }

  /** Projects of tasks: a new task is with its parent, or where it was asked to be; a changed one goes to its live parent's
      project or where it is sent, and all below it follow; selected branches go to the target; the rest stay. */
  lemma TaskHomesAfter(ws: Workspace, r: Request, t: int)
    requires Respond(ws, r).Done?
    ensures r.ChangeTask? ==> r.id in ws.tasks
    ensures var after := Respond(ws, r).after.tasks;
            if r.NewTask? && r.id == t then
              t in after && (r.parent.None? ==> after[t].project == r.project)
              && (r.parent.Some? ==> LiveTask(ws.tasks, r.parent.value) && after[t].project == ws.tasks[r.parent.value].project)
            else t in ws.tasks ==> t in after && after[t].project == TaskHome(ws, r, after, t)
  {
    hide Unreachable, CalendarAfterMove, Subtree, Branches, RootsToMove, Stranded, MilestoneRefusal, ParentRefusal,
         HasContents, RowsElsewhere, WouldCycle, RootOf, AncestorsOrSelf, ProjectForUpdate, SaveTask, InMovedBranch;
    if t in ws.tasks {
      if r.ChangeTask? { ChangedTaskHomes(ws, r, t); }
      if r.RelocateTasks? { MovedTaskHomes(ws, r, t); }
    }
  }

  // ---- milestones of tasks ---------------------------------------------------------------------------

  // A live task's milestone is live, but of a project that is neither the task's nor above it.
  ghost predicate OutOfReach(links: Links, milestones: Milestones, row: TaskRow, milestone: Option<int>) {
    && !row.deleted && milestone.Some? && milestone.value in milestones
    && !milestones[milestone.value].deleted && milestones[milestone.value].project.Some?
    && milestones[milestone.value].project.value !in AncestorsOrSelf(links, row.project)
  }

  // The milestone a task has, or is asked to have.
  function Wanted(ws: Workspace, r: Request, t: int): Option<int>
    requires t in ws.tasks || (r.NewTask? && r.id == t)
  {
    if r.NewTask? && r.id == t then r.milestone
    else if r.ChangeTask? && r.id == t && r.sentMilestone.Some? then r.sentMilestone.value
    else ws.tasks[t].milestone
  }

  ghost predicate IsKeptOrLost(after: Workspace, t: int, wanted: Option<int>) {
    && t in after.tasks
    && (|| after.tasks[t].milestone == wanted
        || (after.tasks[t].milestone == None && OutOfReach(after.projects, after.milestones, after.tasks[t], wanted)))
  }

  lemma DetachedKeepsOrLoses(ws: Workspace, t: int)
    requires t in ws.tasks
    ensures IsKeptOrLost(Detached(ws), t, ws.tasks[t].milestone)
  {
    hide AncestorsOrSelf;
  }

  lemma SavedKeepsOrLoses(ws: Workspace, id: int, row: TaskRow, t: int)
    requires id in ws.tasks && t in ws.tasks
    ensures IsKeptOrLost(SaveTask(ws, id, row), t, if t == id then row.milestone else ws.tasks[t].milestone)
  {
    hide Subtree, Detached, IsKeptOrLost, OutOfReach;
    var saved := ws.tasks[id := row];
    var moved := ws.(tasks := SetProject(saved, Subtree(ParentsOf(saved), id), row.project));
    DetachedKeepsOrLoses(moved, t);
    AsItIs(ws.(tasks := saved), t);
  }

  lemma AsItIs(ws: Workspace, t: int)
    requires t in ws.tasks
    ensures IsKeptOrLost(ws, t, ws.tasks[t].milestone)
  {
  }

  // The requests after which milestones may come off.
  lemma ChangesKeepOrLose(ws: Workspace, r: Request, t: int)
    requires Respond(ws, r).Done? && t in ws.tasks
    requires r.ChangeTask? || r.RelocateTasks? || r.RelocateProject? || r.ChangeMilestone?
    ensures IsKeptOrLost(Respond(ws, r).after, t, Wanted(ws, r, t))
  {
    hide IsKeptOrLost, Detached, SaveTask, CalendarAfterMove, WouldCycle, MilestoneRefusal, ParentRefusal, Branches, RootsToMove,
         Stranded;
    AsItIs(ws, t);
    match r
    case ChangeTask(id, parent, sent, milestone) =>
      var row := TaskRow(if parent.Some? then parent else ws.tasks[id].parent, ChangedHome(ws, id, parent, sent),
                         if milestone.Some? then milestone.value else ws.tasks[id].milestone, false);
      ChangeSaves(ws, r, row);
      SavedKeepsOrLoses(ws, id, row, t);
    case RelocateTasks(ids, target) =>
      var roots := RootsToMove(ws.tasks, ToSet(ids), target);
      DetachedKeepsOrLoses(ws.(tasks := SetProject(ws.tasks, Branches(ws.tasks, roots), target)), t);
    case RelocateProject(id, parent) =>
      var moved := ws.(projects := ws.projects[id := parent],
                       calendar := CalendarAfterMove(ws, id, ws.projects[id], parent));
      DetachedKeepsOrLoses(moved, t);
      AsItIs(moved, t);
    case ChangeMilestone(id, sent) =>
      if sent.Some? {
        var saved := ws.(milestones := ws.milestones[id := MilestoneRow(sent.value, false)]);
        DetachedKeepsOrLoses(saved, t);
        AsItIs(saved, t);
      }
  }

  lemma OthersKeep(ws: Workspace, r: Request, t: int)
    requires Respond(ws, r).Done? && (t in ws.tasks || (r.NewTask? && r.id == t))
    requires !r.ChangeTask? && !r.RelocateTasks? && !r.RelocateProject? && !r.ChangeMilestone?
    ensures IsKeptOrLost(Respond(ws, r).after, t, Wanted(ws, r, t))
  {
    hide HasContents, RowsElsewhere, RootOf, AncestorsOrSelf, MilestoneRefusal, OutOfReach;
  }

  lemma KeptOrLost(ws: Workspace, r: Request, t: int)
    requires Respond(ws, r).Done? && (t in ws.tasks || (r.NewTask? && r.id == t))
    ensures IsKeptOrLost(Respond(ws, r).after, t, Wanted(ws, r, t))
  {
    hide Respond, IsKeptOrLost, Wanted;
    if r.ChangeTask? || r.RelocateTasks? || r.RelocateProject? || r.ChangeMilestone? {
      ChangesKeepOrLose(ws, r, t);
    } else {
      OthersKeep(ws, r, t);
    }
  }

  /** Milestones of tasks: every task has the milestone it had or was asked to have, unless that is out of its reach now; then
      it has none. Nothing else ever takes a milestone off, or puts one on. */
  lemma TaskMilestonesAfter(ws: Workspace, r: Request, t: int)
    requires Inv(ws) && FreshIds(ws, r) && Respond(ws, r).Done? && (t in ws.tasks || (r.NewTask? && r.id == t))
    ensures var after := Respond(ws, r).after;
            t in after.tasks
            && after.tasks[t].milestone
               == if OutOfReach(after.projects, after.milestones, after.tasks[t], Wanted(ws, r, t)) then None
                  else Wanted(ws, r, t)
  {
    hide Respond, ProjectsSound, TaskForest, HomesKnown, FamiliesTogether, AncestorsOrSelf, Wanted;
    KeptOrLost(ws, r, t);
    StepKeeps(ws, r);
    var after := Respond(ws, r).after;
    assert !Unreachable(after, t);
  }

  // ---- calendars -------------------------------------------------------------------------------------

  function At(rows: DayRows, k: (int, Day)): Option<string> {
    if k in rows then Some(rows[k]) else None
  }

  // The project, or one above it, has the day off already.
  ghost predicate OffAlready(ws: Workspace, project: int, day: Day) {
    exists p :: p in AncestorsOrSelf(ws.projects, Some(project)) && (p, day) in ws.calendar.daysOff
  }

  // The project stops being a sub-project.
  predicate GoesToTop(ws: Workspace, r: Request, project: int) {
    r == RelocateProject(project, None) && project in ws.projects && ws.projects[project].Some?
  }

  // A row that a request means to write or to take away, or one that was there.
  ghost function DayOffAfter(ws: Workspace, r: Request, k: (int, Day)): Option<string> {
    match r
    case Enter(at, day, rule) => if k != (at, day) then At(ws.calendar.daysOff, k)
                                 else if rule.DayOff? then Some(rule.name) else None
    case DropDayOff(at, day) => if k == (at, day) then None else At(ws.calendar.daysOff, k)
    case AddHolidays(at, holidays) => if k.0 == at && k.1 in holidays && !OffAlready(ws, at, k.1) then Some(holidays[k.1])
                                      else At(ws.calendar.daysOff, k)
    case RemoveProject(id) => if k.0 == id then None else At(ws.calendar.daysOff, k)
    case _ => At(ws.calendar.daysOff, k)
  }

  function ExtraWorkdayAfter(ws: Workspace, r: Request, k: (int, Day)): Option<string> {
    match r
    case Enter(at, day, rule) => if k != (at, day) then At(ws.calendar.extraWorkdays, k)
                                 else if rule.ExtraWorkday? then Some(rule.name) else None
    case DropExtraWorkday(at, day) => if k == (at, day) then None else At(ws.calendar.extraWorkdays, k)
    case RemoveProject(id) => if k.0 == id then None else At(ws.calendar.extraWorkdays, k)
    case _ => At(ws.calendar.extraWorkdays, k)
  }

  /** Days: a request writes the row it names and no other. Only a project that is taken to the top gets days that nobody
      entered for it: what was in force for it on the days about which it said nothing itself. */
  lemma DaysAfter(ws: Workspace, r: Request, k: (int, Day))
    requires Inv(ws) && Respond(ws, r).Done?
    ensures var after := Respond(ws, r).after.calendar;
            if GoesToTop(ws, r, k.0) && Own(ws.calendar, k.0, k.1).None? then
              Own(after, k.0, k.1) == RuleFor(ws.calendar, ws.projects, k.0, k.1)
            else At(after.daysOff, k) == DayOffAfter(ws, r, k) && At(after.extraWorkdays, k) == ExtraWorkdayAfter(ws, r, k)
  {
    if GoesToTop(ws, r, k.0) {
      DaysCopied(ws, k.0, k.1);
    } else {
      hide Inv, GoesToTop;
      if r.RelocateProject? {
        OthersNotCopied(ws, r, k);
      } else if r.Enter? || r.DropDayOff? || r.DropExtraWorkday? || r.AddHolidays? {
        DaysWritten(ws, r, k);
      } else if r.RemoveProject? {
        DaysRemoved(ws, r, k);
      } else {
        CalendarLeftAlone(ws, r);
      }
    }
  }

  lemma DaysWritten(ws: Workspace, r: Request, k: (int, Day))
    requires Respond(ws, r).Done? && (r.Enter? || r.DropDayOff? || r.DropExtraWorkday? || r.AddHolidays?)
    ensures var after := Respond(ws, r).after.calendar;
            At(after.daysOff, k) == DayOffAfter(ws, r, k) && At(after.extraWorkdays, k) == ExtraWorkdayAfter(ws, r, k)
  {
    hide AncestorsOrSelf;
  }

  lemma DaysRemoved(ws: Workspace, r: Request, k: (int, Day))
    requires Respond(ws, r).Done? && r.RemoveProject?
    ensures var after := Respond(ws, r).after.calendar;
            At(after.daysOff, k) == DayOffAfter(ws, r, k) && At(after.extraWorkdays, k) == ExtraWorkdayAfter(ws, r, k)
  {
    hide HasContents;
  }

  lemma CalendarLeftAlone(ws: Workspace, r: Request)
    requires Respond(ws, r).Done?
    requires !r.Enter? && !r.DropDayOff? && !r.DropExtraWorkday? && !r.AddHolidays? && !r.RemoveProject? && !r.RelocateProject?
    ensures var after := Respond(ws, r).after.calendar;
            after.daysOff == ws.calendar.daysOff && after.extraWorkdays == ws.calendar.extraWorkdays
            && (!r.ChooseWorkdays? ==> after.workweeks == ws.calendar.workweeks)
  {
    hide Unreachable, Subtree, Branches, RootsToMove, Stranded, MilestoneRefusal, ParentRefusal, ProjectForUpdate, WouldCycle,
         RootOf, AncestorsOrSelf, SetProject;
  }

  lemma CalendarMoves(ws: Workspace, r: Request)
    requires Respond(ws, r).Done? && r.RelocateProject?
    ensures r.id in ws.projects
    ensures Respond(ws, r).after.calendar == CalendarAfterMove(ws, r.id, ws.projects[r.id], r.parent)
  {
    hide CalendarAfterMove, Unreachable, WouldCycle;
  }

  lemma CopiedFromAbove(ws: Workspace, project: int)
    requires Inv(ws) && project in ws.projects && ws.projects[project].Some?
    ensures CalendarAfterMove(ws, project, ws.projects[project], None)
            == CopiedDown(ws.calendar, RootOf(ws.projects, project), AncestorsOrSelf(ws.projects, ws.projects[project]), project)
  {
    hide CopiedDown, RootOf, TaskForest, HomesKnown, FamiliesTogether, MilestonesReach;
    ChainIgnoresUnmet(ws.projects, ws.projects[project], {}, {project});
    assert {} + {project} == {project};
  }

  lemma OthersNotCopied(ws: Workspace, r: Request, k: (int, Day))
    requires Respond(ws, r).Done? && r.RelocateProject? && !GoesToTop(ws, r, k.0)
    ensures var after := Respond(ws, r).after.calendar;
            At(after.daysOff, k) == At(ws.calendar.daysOff, k) && At(after.extraWorkdays, k) == At(ws.calendar.extraWorkdays, k)
  {
    hide Respond, Inherited, DaysOf, Chain, RootOf;
    CalendarMoves(ws, r);
  }

  lemma DaysCopied(ws: Workspace, project: int, day: Day)
    requires Inv(ws) && Respond(ws, RelocateProject(project, None)).Done? && GoesToTop(ws, RelocateProject(project, None), project)
    ensures var after := Respond(ws, RelocateProject(project, None)).after.calendar;
            var k := (project, day);
            if Own(ws.calendar, project, day).None? then
              Own(after, project, day) == RuleFor(ws.calendar, ws.projects, project, day)
            else At(after.daysOff, k) == At(ws.calendar.daysOff, k)
                 && At(after.extraWorkdays, k) == At(ws.calendar.extraWorkdays, k)
  {
    hide Respond, CopiedDown, Own, RootOf, TaskForest, HomesKnown, FamiliesTogether, MilestonesReach, Effective;
    var above := AncestorsOrSelf(ws.projects, ws.projects[project]);
    var root := RootOf(ws.projects, project);
    CalendarMoves(ws, RelocateProject(project, None));
    CopiedFromAbove(ws, project);
    ChainUnfolds(ws.projects, project);
    OwnAfterCopy(ws.calendar, root, above, project, project, day);
    OwnRowsStay(ws.calendar, root, above, project, day);
  }

  lemma OwnRowsStay(cal: Calendar, oldRoot: int, above: seq<int>, project: int, day: Day)
    ensures var copied := CopiedDown(cal, oldRoot, above, project);
            var k := (project, day);
            Own(cal, project, day).Some? ==>
              At(copied.daysOff, k) == At(cal.daysOff, k) && At(copied.extraWorkdays, k) == At(cal.extraWorkdays, k)
  {
    hide Effective;
  }

  /** Workweeks: chosen for the top of the tree, dropped by a project that is deleted or stops being a top project, and taken
      along from the old top by one that becomes a top project. */
  lemma WorkweeksAfter(ws: Workspace, r: Request)
    requires Inv(ws) && Respond(ws, r).Done?
    ensures var before := ws.calendar.workweeks;
            Respond(ws, r).after.calendar.workweeks
            == if r.ChooseWorkdays? then before[RootOf(ws.projects, r.at) := r.workdays]
               else if r.RemoveProject? || (r.RelocateProject? && r.parent.Some?) then before - {r.id}
               else if r.RelocateProject? && GoesToTop(ws, r, r.id) && RootOf(ws.projects, r.id) in before
               then before[r.id := before[RootOf(ws.projects, r.id)]]
               else before
  {
    hide TaskForest, HomesKnown, FamiliesTogether, MilestonesReach, RootOf, Forest, ParentsKnown;
    if r.RelocateProject? {
      CalendarMoves(ws, r);
      if ws.projects[r.id].Some? { OnlyTopsHaveWorkweeks(ws, r.id); }
      hide Respond, Inherited, DaysOf, Chain;
    } else if !r.ChooseWorkdays? && !r.RemoveProject? && !r.Enter? && !r.DropDayOff? && !r.DropExtraWorkday? && !r.AddHolidays? {
      CalendarLeftAlone(ws, r);
      hide Respond;
    } else {
      hide HasContents, OffAlready, AncestorsOrSelf;
    }
  }

  lemma OnlyTopsHaveWorkweeks(ws: Workspace, id: int)
    requires Inv(ws) && id in ws.projects && ws.projects[id].Some?
    ensures ws.calendar.workweeks - {id} == ws.calendar.workweeks
  {
    hide TaskForest, HomesKnown, FamiliesTogether, MilestonesReach, Forest, ParentsKnown;
    assert id !in ws.calendar.workweeks;
  }

  /** What is in force for a project below one that moves under another: the workdays of the tree it comes into, and for each
      day the word of its own branch, or else that of the new parent. Elsewhere nothing changes. */
  lemma MovingUnderTakesOver(ws: Workspace, id: int, parent: int, y: int, day: Day)
    requires Inv(ws) && Respond(ws, RelocateProject(id, Some(parent))).Done? && y in ws.projects
    ensures parent in ws.projects
    ensures var after := Respond(ws, RelocateProject(id, Some(parent))).after;
            if y in Subtree(ws.projects, id) then
              var own := Effective(ws.calendar, Before(ws.projects, y, id) + [id], day);
              && WorkdaysFor(after.calendar, after.projects, y) == WorkdaysFor(ws.calendar, ws.projects, parent)
              && RuleFor(after.calendar, after.projects, y, day)
                 == (if own.Some? then own else RuleFor(ws.calendar, ws.projects, parent, day))
            else
              && WorkdaysFor(after.calendar, after.projects, y) == WorkdaysFor(ws.calendar, ws.projects, y)
              && RuleFor(after.calendar, after.projects, y, day) == RuleFor(ws.calendar, ws.projects, y, day)
  {
    hide Respond, TaskForest, HomesKnown, FamiliesTogether, MilestonesReach, Chain, RuleFor, WorkdaysFor;
    MovedIsNoRing(ws, id, parent);
    UnderCalendar(ws, id, parent);
    ProjectsAfter(ws, RelocateProject(id, Some(parent)));
    if y in Subtree(ws.projects, id) {
      BranchTakesOver(ws.calendar, ws.projects, id, parent, y, day);
    } else {
      ElsewhereAsBefore(ws.calendar, ws.projects, id, parent, y, day);
    }
  }

  lemma UnderCalendar(ws: Workspace, id: int, parent: int)
    requires Inv(ws) && Respond(ws, RelocateProject(id, Some(parent))).Done?
    ensures Respond(ws, RelocateProject(id, Some(parent))).after.calendar
            == ws.calendar.(workweeks := ws.calendar.workweeks - {id})
  {
    hide Respond, Inv, CopiedDown;
    var r := RelocateProject(id, Some(parent));
    CalendarMoves(ws, r);
    WorkweeksAfter(ws, r);
  }

  lemma MovedIsNoRing(ws: Workspace, id: int, parent: int)
    requires Respond(ws, RelocateProject(id, Some(parent))).Done?
    ensures id in ws.projects && parent in ws.projects && !WouldCycle(ws.projects, id, Some(parent))
  {
    hide WouldCycle, Unreachable, CalendarAfterMove;
  }

  // ---- who is refused, and why -------------------------------------------------------------------------

  predicate Listed(ws: Workspace, project: Option<int>) {
    project.None? || project.value in ws.projects
  }

  // The milestone is none, or live and of no project, of this one or of one above it.
  ghost predicate Fits(ws: Workspace, milestone: Option<int>, project: Option<int>) {
    milestone.Some? ==>
      && LiveMilestone(ws.milestones, milestone.value)
      && (ws.milestones[milestone.value].project.None?
          || ws.milestones[milestone.value].project.value in AncestorsOrSelf(ws.projects, project))
  }

  // Nothing live names the project.
  ghost predicate NothingIn(ws: Workspace, id: int) {
    && (forall p :: p in ws.projects ==> ws.projects[p] != Some(id))
    && (forall t :: LiveTask(ws.tasks, t) ==> ws.tasks[t].project != Some(id))
    && (forall m :: LiveMilestone(ws.milestones, m) ==> ws.milestones[m].project != Some(id))
  }

  // The new parent is below the task.
  ghost predicate KnotsTasks(ws: Workspace, id: int, parent: Option<int>) {
    && LiveTask(ws.tasks, id) && parent.Some? && parent != ws.tasks[id].parent && LiveTask(ws.tasks, parent.value)
    && parent.value in Subtree(ParentsOf(ws.tasks), id)
  }

  ghost predicate KnotsProjects(ws: Workspace, id: int, parent: Option<int>) {
    id in ws.projects && parent.Some? && parent.value in Subtree(ws.projects, id)
  }

  // Some live task above t, by way of live tasks, is selected.
  ghost predicate SelectedAbove(tasks: Tasks, ids: seq<int>, t: int)
    requires t in tasks
  {
    exists a :: a in ids && a in AncestorsOrSelf(LiveParents(tasks), tasks[t].parent)
  }

  // A task that stays under a live parent, or comes under one, is only sent to that parent's project.
  predicate HomeIsFit(ws: Workspace, id: int, parent: Option<int>, sent: Option<Option<int>>)
    requires id in ws.tasks
  {
    var under := if parent.Some? then parent else ws.tasks[id].parent;
    sent.Some? ==> if under.Some? && LiveTask(ws.tasks, under.value) then sent.value == ws.tasks[under.value].project
                   else Listed(ws, sent.value)
  }

  ghost predicate ParentIsFit(ws: Workspace, id: int, parent: Option<int>) {
    && LiveTask(ws.tasks, id) && !KnotsTasks(ws, id, parent)
    && (parent.Some? && parent != ws.tasks[id].parent ==> LiveTask(ws.tasks, parent.value))
  }

  ghost predicate ChangeIsFit(ws: Workspace, id: int, parent: Option<int>, sent: Option<Option<int>>, milestone: Option<Option<int>>) {
    && ParentIsFit(ws, id, parent) && HomeIsFit(ws, id, parent, sent)
    && (milestone.Some? && milestone.value != ws.tasks[id].milestone ==>
          Fits(ws, milestone.value, ChangedHome(ws, id, parent, sent)))
  }

  // What the workspace must be like for the request to be obeyed.
  ghost predicate Obeyed(ws: Workspace, r: Request) {
    match r
    case NewProject(_, parent) => Listed(ws, parent)
    case RelocateProject(id, parent) => id in ws.projects && Listed(ws, parent) && !KnotsProjects(ws, id, parent)
    case RemoveProject(id) => id in ws.projects && NothingIn(ws, id)
    case NewTask(_, parent, project, milestone) =>
      if parent.None? then Listed(ws, project) && Fits(ws, milestone, project)
      else
        && LiveTask(ws.tasks, parent.value) && (project.None? || project == ws.tasks[parent.value].project)
        && Fits(ws, milestone, ws.tasks[parent.value].project)
    case ChangeTask(id, parent, sent, milestone) => ChangeIsFit(ws, id, parent, sent, milestone)
    case RelocateTasks(ids, target) =>
      && Listed(ws, target) && (forall t :: t in ids ==> LiveTask(ws.tasks, t))
      && (forall t :: t in ids ==> NoLiveParent(ws.tasks, t) || SelectedAbove(ws.tasks, ids, t))
    case RemoveTask(id, hasLogs) => LiveTask(ws.tasks, id) && !hasLogs
    case NewMilestone(_, project) => Listed(ws, project)
    case ChangeMilestone(id, sent) => LiveMilestone(ws.milestones, id) && (sent.Some? ==> Listed(ws, sent.value))
    case RemoveMilestone(id) => LiveMilestone(ws.milestones, id)
    case ChooseWorkdays(at, workdays) => at in ws.projects && workdays != {}
    case Enter(at, _, _) => at in ws.projects
    case DropDayOff(at, _) => at in ws.projects
    case DropExtraWorkday(at, _) => at in ws.projects
    case AddHolidays(at, _) => at in ws.projects
  }

  /** A request is obeyed exactly when everything it names is there and live, nothing would be knotted, no task would leave its
      live parent, no milestone would be put out of reach, and no branch be torn apart. */
  lemma ObeyedExactly(ws: Workspace, r: Request)
    requires Inv(ws)
    ensures Respond(ws, r).Done? <==> Obeyed(ws, r)
  {
    if r.RelocateTasks? {
      SelectionObeyed(ws, r.ids, r.target);
    } else if r.ChangeTask? {
      ChangeObeyed(ws, r.id, r.parent, r.sentProject, r.sentMilestone);
    } else {
      hide Inv, Detached, CalendarAfterMove, AncestorsOrSelf, RowsElsewhere, ParentRefusal, ProjectForUpdate, SaveTask,
           SetProject, Branches, RootsToMove, Stranded, RootOf;
    }
  }

  lemma ChangeObeyed(ws: Workspace, id: int, parent: Option<int>, sent: Option<Option<int>>, milestone: Option<Option<int>>)
    requires Inv(ws)
    ensures UpdateTask(ws, id, parent, sent, milestone).Done? <==> ChangeIsFit(ws, id, parent, sent, milestone)
  {
    hide SaveTask, AncestorsOrSelf;
  }

  lemma SelectionInFields(ws: Workspace, ids: seq<int>, t: int)
    requires Inv(ws) && t in LiveParents(ws.tasks)
    ensures LiveTask(ws.tasks, t)
    ensures Stranded(LiveParents(ws.tasks), ToSet(ids), t) <==> !NoLiveParent(ws.tasks, t) && !SelectedAbove(ws.tasks, ids, t)
  {
    hide ProjectsSound, HomesKnown, FamiliesTogether, MilestonesReach, Chain;
    var live := LiveParents(ws.tasks);
    LiveForest(ws.tasks);
    ChainIgnoresUnmet(live, live[t], {}, {t});
    assert {} + {t} == {t};
    assert Chain(live, live[t], {t}) == AncestorsOrSelf(live, ws.tasks[t].parent);
  }

  lemma SelectionObeyed(ws: Workspace, ids: seq<int>, target: Option<int>)
    requires Inv(ws)
    ensures MoveToProject(ws, ids, target).Done? <==> Obeyed(ws, RelocateTasks(ids, target))
  {
    hide Inv, Stranded, SelectedAbove, NoLiveParent, RootsToMove, Branches, Detached;
    forall t | t in LiveParents(ws.tasks)
      ensures LiveTask(ws.tasks, t)
      ensures Stranded(LiveParents(ws.tasks), ToSet(ids), t) <==> !NoLiveParent(ws.tasks, t) && !SelectedAbove(ws.tasks, ids, t)
    {
      SelectionInFields(ws, ids, t);
    }
  }

  ghost predicate TooFar(ws: Workspace, milestone: Option<int>, project: Option<int>) {
    milestone.Some? && LiveMilestone(ws.milestones, milestone.value) && !Fits(ws, milestone, project)
  }

  // Everything that is looked at is there, but does not go together.
  ghost predicate Contradicts(ws: Workspace, r: Request) {
    match r
    case NewTask(_, parent, project, milestone) =>
      if parent.None? then Listed(ws, project) && TooFar(ws, milestone, project)
      else
        && LiveTask(ws.tasks, parent.value)
        && ((project.Some? && project != ws.tasks[parent.value].project)
            || TooFar(ws, milestone, ws.tasks[parent.value].project))
    case ChangeTask(id, parent, sent, milestone) =>
      ParentIsFit(ws, id, parent) &&
      if HomeIsFit(ws, id, parent, sent) then
        milestone.Some? && milestone.value != ws.tasks[id].milestone
        && TooFar(ws, milestone.value, ChangedHome(ws, id, parent, sent))
      else
        var under := if parent.Some? then parent else ws.tasks[id].parent;
        under.Some? && LiveTask(ws.tasks, under.value)
    case RelocateTasks(ids, target) => Listed(ws, target) && forall t :: t in ids ==> LiveTask(ws.tasks, t)
    case ChooseWorkdays(at, _) => at in ws.projects
    case _ => false
  }

  /** The reason given: a ring of projects, a project that is not empty, a ring of tasks or logged work, what does not go
      together, and for the rest that something is not there. */
  lemma WhyRefused(ws: Workspace, r: Request)
    requires Inv(ws) && Respond(ws, r).Refused?
    ensures Respond(ws, r).why
            == if r.RelocateProject? && Listed(ws, r.parent) && KnotsProjects(ws, r.id, r.parent) then ProjectCycle
               else if r.RemoveProject? && r.id in ws.projects then NotEmpty
               else if (r.ChangeTask? && KnotsTasks(ws, r.id, r.parent)) || (r.RemoveTask? && LiveTask(ws.tasks, r.id)) then Conflict
               else if Contradicts(ws, r) then Invalid
               else NotFound
  {
    if r.ChangeTask? {
      hide Inv, SaveTask, AncestorsOrSelf, Subtree;
    } else {
      hide Inv, Detached, CalendarAfterMove, AncestorsOrSelf, RowsElsewhere, ParentRefusal, ProjectForUpdate, SaveTask,
           SetProject, Branches, RootsToMove, Stranded, RootOf;
    }
  }
}
