/** Projects, tasks, milestones and calendars as one state, and what each request does to it. */
module WorkspaceModel {
  import opened Basics
  import opened ParentLinks
  import opened ProjectTrees
  import opened ProjectCalendar
  import opened WorkSeats

  datatype TaskRow = TaskRow(parent: Option<int>, project: Option<int>, milestone: Option<int>, deleted: bool)

  datatype MilestoneRow = MilestoneRow(project: Option<int>, deleted: bool)

  type Tasks = map<int, TaskRow>
  type Milestones = map<int, MilestoneRow>

  datatype Workspace = Workspace(projects: Links, tasks: Tasks, milestones: Milestones, calendar: Calendar)

  datatype Refusal = NotFound | Invalid | Conflict | ProjectCycle | NotEmpty

  datatype Outcome = Done(after: Workspace) | Refused(why: Refusal)

  const EMPTY: Workspace := Workspace(map[], map[], map[], Calendar(map[], map[], map[]))

  function ParentsOf(tasks: Tasks): Links {
    map t | t in tasks :: tasks[t].parent
  }

  predicate LiveTask(tasks: Tasks, id: int) {
    id in tasks && !tasks[id].deleted
  }

  predicate LiveMilestone(milestones: Milestones, id: int) {
    id in milestones && !milestones[id].deleted
  }

  predicate KnownProject(ws: Workspace, project: Option<int>) {
    project.Some? ==> project.value in ws.projects
  }

  // ---- milestones ------------------------------------------------------------------------------

  // A task whose milestone is live but belongs to a project the task is not in or under.
  ghost predicate Unreachable(ws: Workspace, t: int) {
    && LiveTask(ws.tasks, t) && ws.tasks[t].milestone.Some? && LiveMilestone(ws.milestones, ws.tasks[t].milestone.value)
    && !Reaches(ws.projects, ws.milestones[ws.tasks[t].milestone.value].project, ws.tasks[t].project)
  }

  ghost function Detached(ws: Workspace): Workspace {
    ws.(tasks := map t | t in ws.tasks ::
                   if Unreachable(ws, t) then ws.tasks[t].(milestone := None) else ws.tasks[t])
  }

  // Why a milestone may not be put on a task of a project, if so.
  ghost function MilestoneRefusal(ws: Workspace, milestone: Option<int>, project: Option<int>): Option<Refusal> {
    if milestone.None? then None
    else if !LiveMilestone(ws.milestones, milestone.value) then Some(NotFound)
    else if !Reaches(ws.projects, ws.milestones[milestone.value].project, project) then Some(Invalid)
    else None
  }

  function CreateMilestone(ws: Workspace, id: int, project: Option<int>): Outcome {
    if !KnownProject(ws, project) then Refused(NotFound)
    else Done(ws.(milestones := ws.milestones[id := MilestoneRow(project, false)]))
  }

  // `project` is what was sent: nothing, no project, or a project.
  ghost function UpdateMilestone(ws: Workspace, id: int, project: Option<Option<int>>): Outcome {
    if !LiveMilestone(ws.milestones, id) then Refused(NotFound)
    else if project.None? then Done(ws)
    else if !KnownProject(ws, project.value) then Refused(NotFound)
    else
      var saved := ws.(milestones := ws.milestones[id := MilestoneRow(project.value, false)]);
      Done(if project.value != ws.milestones[id].project then Detached(saved) else saved)
  }

  function DeleteMilestone(ws: Workspace, id: int): Outcome {
    if !LiveMilestone(ws.milestones, id) then Refused(NotFound)
    else Done(ws.(milestones := ws.milestones[id := ws.milestones[id].(deleted := true)]))
  }

  // ---- tasks -----------------------------------------------------------------------------------

  // Where a new task belongs: with its parent if it has one.
  function ProjectForNew(ws: Workspace, parent: Option<int>, project: Option<int>): Option<Refusal> {
    if parent.Some? then
      if !LiveTask(ws.tasks, parent.value) then Some(NotFound)
      else if project.Some? && project != ws.tasks[parent.value].project then Some(Invalid)
      else None
    else if !KnownProject(ws, project) then Some(NotFound)
    else None
  }

  ghost function CreateTask(ws: Workspace, id: int, parent: Option<int>, project: Option<int>, milestone: Option<int>): Outcome {
    var refused := ProjectForNew(ws, parent, project);
    if refused.Some? then Refused(refused.value)
    else
      var home := if parent.Some? then ws.tasks[parent.value].project else project;
      var unfit := MilestoneRefusal(ws, milestone, home);
      if unfit.Some? then Refused(unfit.value)
      else Done(ws.(tasks := ws.tasks[id := TaskRow(parent, home, milestone, false)]))
  }

  datatype Choice = Home(project: Option<int>) | Denied(why: Refusal)

  // A task with a live parent goes where the parent is; a parent that was deleted does not count.
  function ProjectForUpdate(ws: Workspace, parent: Option<int>, current: Option<int>, sent: Option<Option<int>>): Choice {
    if parent.Some? && LiveTask(ws.tasks, parent.value) then
      if sent.Some? && sent.value != ws.tasks[parent.value].project then Denied(Invalid)
      else Home(ws.tasks[parent.value].project)
    else if sent.None? then Home(current)
    else if !KnownProject(ws, sent.value) then Denied(NotFound)
    else Home(sent.value)
  }

  function SetProject(tasks: Tasks, ids: set<int>, project: Option<int>): Tasks {
    map t | t in tasks :: if t in ids then tasks[t].(project := project) else tasks[t]
  }

  // Whether the task may be hung under the parent that was sent.
  ghost function ParentRefusal(ws: Workspace, id: int, parent: Option<int>): Option<Refusal>
    requires id in ws.tasks
  {
    if parent.None? || parent == ws.tasks[id].parent then None
    else if !LiveTask(ws.tasks, parent.value) then Some(NotFound)
    else if parent.value in Subtree(ParentsOf(ws.tasks), id) then Some(Conflict)
    else None
  }

  // The row is saved; if it went to another project everything below it follows, and milestones out of reach come off.
  ghost function SaveTask(ws: Workspace, id: int, row: TaskRow): Workspace
    requires id in ws.tasks
  {
    var saved := ws.tasks[id := row];
    if row.project == ws.tasks[id].project then ws.(tasks := saved)
    else Detached(ws.(tasks := SetProject(saved, Subtree(ParentsOf(saved), id), row.project)))
  }

  ghost function UpdateTask(ws: Workspace, id: int, parent: Option<int>, project: Option<Option<int>>,
                            milestone: Option<Option<int>>): Outcome
  {
    if !LiveTask(ws.tasks, id) then Refused(NotFound)
    else
      var misplaced := ParentRefusal(ws, id, parent);
      if misplaced.Some? then Refused(misplaced.value)
      else
        var task := ws.tasks[id];
        var newParent := if parent.Some? then parent else task.parent;
        match ProjectForUpdate(ws, newParent, task.project, project)
        case Denied(why) => Refused(why)
        case Home(home) =>
          var m := if milestone.Some? then milestone.value else task.milestone;
          var unfit := if m != task.milestone then MilestoneRefusal(ws, m, home) else None;
          if unfit.Some? then Refused(unfit.value)
          else Done(SaveTask(ws, id, TaskRow(newParent, home, m, false)))
  }

  function DeleteTask(ws: Workspace, id: int, hasLogs: bool): Outcome {
    if !LiveTask(ws.tasks, id) then Refused(NotFound)
    else if hasLogs then Refused(Conflict)
    else Done(ws.(tasks := ws.tasks[id := ws.tasks[id].(deleted := true)]))
  }

  // ---- moving a selection of tasks ---------------------------------------------------------------

  function LiveParents(tasks: Tasks): Links {
    map t | t in tasks && !tasks[t].deleted :: tasks[t].parent
  }

  // No parent, or one that is not there any more.
  predicate IsBranchRoot(live: Links, t: int)
    requires t in live
  {
    live[t].None? || live[t].value !in live
  }

  // Some task above t is selected too.
  predicate FollowsSelected(live: Links, chosen: set<int>, t: int)
    requires t in live
  {
    exists a :: a in Chain(live, live[t], {t}) && a in chosen
  }

  predicate Stranded(live: Links, chosen: set<int>, t: int)
    requires t in live
  {
    !IsBranchRoot(live, t) && !FollowsSelected(live, chosen, t)
  }

  // The selected branch roots that are not in the target project yet.
  ghost function RootsToMove(tasks: Tasks, chosen: set<int>, target: Option<int>): set<int> {
    set t | t in chosen && LiveTask(tasks, t) && IsBranchRoot(LiveParents(tasks), t) && tasks[t].project != target
  }

  ghost function Branches(tasks: Tasks, roots: set<int>): set<int> {
    set t | t in tasks && exists r :: r in roots && r in AncestorsOrSelf(ParentsOf(tasks), Some(t))
  }

  ghost function MoveToProject(ws: Workspace, ids: seq<int>, target: Option<int>): Outcome {
    var chosen := ToSet(ids);
    if !KnownProject(ws, target) then Refused(NotFound)
    else if exists t :: t in chosen && !LiveTask(ws.tasks, t) then Refused(NotFound)
    else if exists t :: t in chosen && Stranded(LiveParents(ws.tasks), chosen, t) then Refused(Invalid)
    else
      var roots := RootsToMove(ws.tasks, chosen, target);
      Done(if roots == {} then ws
           else Detached(ws.(tasks := SetProject(ws.tasks, Branches(ws.tasks, roots), target))))
  }

  // ---- projects ----------------------------------------------------------------------------------

  function CreateProject(ws: Workspace, id: int, parent: Option<int>): Outcome {
    if !KnownProject(ws, parent) then Refused(NotFound)
    else Done(ws.(projects := ws.projects[id := parent]))
  }

  // The calendar after a project moved from under `former` to under `parent`.
  function CalendarAfterMove(ws: Workspace, id: int, former: Option<int>, parent: Option<int>): Calendar
  {
    if former.None? && parent.Some? then ws.calendar.(workweeks := ws.calendar.workweeks - {id})
    else if former.Some? && parent.None? then
      CopiedDown(ws.calendar, RootOf(ws.projects, id), Chain(ws.projects, former, {id}), id)
    else ws.calendar
  }

  ghost function MoveProject(ws: Workspace, id: int, parent: Option<int>): Outcome {
    if id !in ws.projects || !KnownProject(ws, parent) then Refused(NotFound)
    else if WouldCycle(ws.projects, id, parent) then Refused(ProjectCycle)
    else
      var former := ws.projects[id];
      var moved := ws.(projects := ws.projects[id := parent], calendar := CalendarAfterMove(ws, id, former, parent));
      Done(if former != parent then Detached(moved) else moved)
  }

  predicate HasContents(ws: Workspace, id: int) {
    || (exists p :: p in ws.projects && ws.projects[p] == Some(id))
    || (exists t :: t in ws.tasks && !ws.tasks[t].deleted && ws.tasks[t].project == Some(id))
    || (exists m :: m in ws.milestones && !ws.milestones[m].deleted && ws.milestones[m].project == Some(id))
  }

  function RowsElsewhere(rows: DayRows, id: int): DayRows {
    map k | k in rows && k.0 != id :: rows[k]
  }

  // Only an empty project goes; what was deleted earlier and still names it lets go of it.
  function DeleteProject(ws: Workspace, id: int): Outcome {
    if id !in ws.projects then Refused(NotFound)
    else if HasContents(ws, id) then Refused(NotEmpty)
    else
      Done(Workspace(
             ws.projects - {id},
             map t | t in ws.tasks :: if ws.tasks[t].project == Some(id) then ws.tasks[t].(project := None) else ws.tasks[t],
             map m | m in ws.milestones :: if ws.milestones[m].project == Some(id)
                                           then ws.milestones[m].(project := None) else ws.milestones[m],
             Calendar(ws.calendar.workweeks - {id}, RowsElsewhere(ws.calendar.daysOff, id),
                      RowsElsewhere(ws.calendar.extraWorkdays, id))))
  }

  // ---- calendars ---------------------------------------------------------------------------------

  function SetWorkdays(ws: Workspace, project: int, workdays: set<int>): Outcome {
    if project !in ws.projects then Refused(NotFound)
    else if workdays == {} then Refused(Invalid)
    else
      var root := RootOf(ws.projects, project);
      Done(ws.(calendar := ws.calendar.(workweeks := ws.calendar.workweeks[root := workdays])))
  }

  // A day off and an extra workday of one project do not stand side by side: the one entered last replaces the other.
  function EnterDay(ws: Workspace, project: int, day: Day, rule: DayRule): Outcome {
    if project !in ws.projects then Refused(NotFound)
    else
      var cal := ws.calendar;
      var k := (project, day);
      Done(ws.(calendar := match rule
                           case DayOff(name) => cal.(daysOff := cal.daysOff[k := name], extraWorkdays := cal.extraWorkdays - {k})
                           case ExtraWorkday(name) => cal.(daysOff := cal.daysOff - {k}, extraWorkdays := cal.extraWorkdays[k := name])))
  }

  function ClearDayOff(ws: Workspace, project: int, day: Day): Outcome {
    if project !in ws.projects then Refused(NotFound)
    else Done(ws.(calendar := ws.calendar.(daysOff := ws.calendar.daysOff - {(project, day)})))
  }

  function ClearExtraWorkday(ws: Workspace, project: int, day: Day): Outcome {
    if project !in ws.projects then Refused(NotFound)
    else Done(ws.(calendar := ws.calendar.(extraWorkdays := ws.calendar.extraWorkdays - {(project, day)})))
  }

  // Holidays are added to the project unless it or a project above it has that day off already.
  function ImportHolidays(ws: Workspace, project: int, holidays: map<Day, string>): Outcome {
    if project !in ws.projects then Refused(NotFound)
    else
      var lineage := AncestorsOrSelf(ws.projects, Some(project));
      var added := map d | d in holidays && !(exists p :: p in lineage && (p, d) in ws.calendar.daysOff)
                         :: (project, d) := holidays[d];
      Done(ws.(calendar := ws.calendar.(daysOff := ws.calendar.daysOff + added)))
  }

  // ---- requests -----------------------------------------------------------------------------------

  datatype Request =
    | NewProject(id: int, parent: Option<int>)
    | RelocateProject(id: int, parent: Option<int>)
    | RemoveProject(id: int)
    | NewTask(id: int, parent: Option<int>, project: Option<int>, milestone: Option<int>)
    | ChangeTask(id: int, parent: Option<int>, sentProject: Option<Option<int>>, sentMilestone: Option<Option<int>>)
    | RelocateTasks(ids: seq<int>, target: Option<int>)
    | RemoveTask(id: int, hasLogs: bool)
    | NewMilestone(id: int, project: Option<int>)
    | ChangeMilestone(id: int, sentProject: Option<Option<int>>)
    | RemoveMilestone(id: int)
    | ChooseWorkdays(at: int, workdays: set<int>)
    | Enter(at: int, day: Day, rule: DayRule)
    | DropDayOff(at: int, day: Day)
    | DropExtraWorkday(at: int, day: Day)
    | AddHolidays(at: int, holidays: map<Day, string>)

  ghost function Respond(ws: Workspace, r: Request): Outcome {
    match r
    case NewProject(id, parent) => CreateProject(ws, id, parent)
    case RelocateProject(id, parent) => MoveProject(ws, id, parent)
    case RemoveProject(id) => DeleteProject(ws, id)
    case NewTask(id, parent, project, milestone) => CreateTask(ws, id, parent, project, milestone)
    case ChangeTask(id, parent, project, milestone) => UpdateTask(ws, id, parent, project, milestone)
    case RelocateTasks(ids, target) => MoveToProject(ws, ids, target)
    case RemoveTask(id, hasLogs) => DeleteTask(ws, id, hasLogs)
    case NewMilestone(id, project) => CreateMilestone(ws, id, project)
    case ChangeMilestone(id, project) => UpdateMilestone(ws, id, project)
    case RemoveMilestone(id) => DeleteMilestone(ws, id)
    case ChooseWorkdays(at, workdays) => SetWorkdays(ws, at, workdays)
    case Enter(at, day, rule) => EnterDay(ws, at, day, rule)
    case DropDayOff(at, day) => ClearDayOff(ws, at, day)
    case DropExtraWorkday(at, day) => ClearExtraWorkday(ws, at, day)
    case AddHolidays(at, holidays) => ImportHolidays(ws, at, holidays)
  }

  // The database gives new rows new numbers.
  ghost predicate FreshIds(ws: Workspace, r: Request) {
    && (r.NewProject? ==> r.id !in ws.projects)
    && (r.NewTask? ==> r.id !in ws.tasks)
    && (r.NewMilestone? ==> r.id !in ws.milestones)
  }

  // A refused request changes nothing.
  ghost function Step(ws: Workspace, r: Request): Workspace {
    match Respond(ws, r)
    case Done(after) => after
    case Refused(_) => ws
  }

  ghost function Run(ws: Workspace, requests: seq<Request>): Workspace {
    if requests == [] then ws else Step(Run(ws, requests[..|requests| - 1]), requests[|requests| - 1])
  }

  ghost predicate LegalRun(ws: Workspace, requests: seq<Request>) {
    forall k :: 0 <= k < |requests| ==> FreshIds(Run(ws, requests[..k]), requests[k])
  }
}
