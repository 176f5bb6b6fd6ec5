/** What a whole forecast is: from tasks, dependencies and seats to one result per task. */
module ForecastSpec {
  import opened Basics
  import opened Reachability
  import opened WorkSeats
  import opened TaskBoard
  import opened ForecastModel
  import opened ForecastWaiting
  import opened ForecastFloors
  import opened ForecastChains

  datatype TaskDependency = TaskDependency(predecessor: int, successor: int, kind: DependencyType, lag: int)
  {
    function Constraint(): Constraint {
      ForecastModel.Constraint(predecessor, kind, lag)
    }
  }

  type RootOf = Option<int> -> Option<int>
  type CalendarOf = Option<int> -> Option<TeamCalendar>

  datatype Inputs = Inputs(today: Day, horizonDays: int, eps: real, tasks: map<int, Task>, children: Graph,
                           actual: map<int, real>, dependencies: seq<TaskDependency>, seats: map<SeatKey, WorkSeat>,
                           rootOf: RootOf, projectCalendar: CalendarOf)
  {
    ghost predicate Valid() {
      && eps >= 0.0
      && ChildrenOf(tasks, children)
      && (forall i :: i in tasks ==> tasks[i].id == i && AllocationIsPercent(tasks[i]))
    }

    function Days(): nat {
      if horizonDays < 0 then 0 else horizonDays
    }

    function LastDay(): Day {
      today + horizonDays - 1
    }
  }

  predicate AllocationIsPercent(t: Task) {
    t.allocationPercent.Some? ==> 1 <= t.allocationPercent.value <= 100
  }

  // ---- sorting the childless tasks ---------------------------------------------------------

  datatype Class = Out(gap: Gap) | In(info: LeafInfo)

  function SeatOf(task: Task, rootOf: RootOf): Option<SeatKey> {
    if task.assignee.Some? then Some(SeatKey(task.assignee.value, rootOf(task.project))) else None
  }

  // A childless task is forecast unless it is over, its remainder or its assignee is unknown, or nobody has time.
  function Classify(task: Task, actual: real, eps: real, seats: map<SeatKey, WorkSeat>, rootOf: RootOf): Class {
    var remaining := task.RemainingFrom(actual);
    var key := SeatOf(task, rootOf);
    if task.Closed() then Out(Finished)
    else if remaining.None? then Out(NoRemaining)
    else if remaining.value <= eps then Out(Finished)
    else if key.None? then Out(NoAssignee)
    else if key.value !in seats || !seats[key.value].HasCapacity(eps) then Out(NoCapacity)
    else In(LeafInfo(task, key.value, remaining.value, actual > 0.0 || task.status.Doing?))
  }

  function ClassOf(I: Inputs, i: int): Class
    requires i in I.tasks
  {
    Classify(I.tasks[i], Entry(I.actual, i), I.eps, I.seats, I.rootOf)
  }

  function Gapped(gap: Gap): TaskForecast {
    TaskForecast(None, None, Some(gap), 0)
  }

  ghost function Childless(I: Inputs): set<int> {
    set i | i in I.tasks && !HasSubtasks(I.children, i)
  }

  ghost function Candidates(I: Inputs): set<int> {
    set i | i in Childless(I) && ClassOf(I, i).In?
  }

  ghost function FirstResults(I: Inputs): Results {
    map i | i in Childless(I) && ClassOf(I, i).Out? :: Gapped(ClassOf(I, i).gap)
  }

  // ---- pushing dependencies down to the leaves -----------------------------------------------

  ghost predicate Applies(I: Inputs, k: nat, i: int)
    requires k < |I.dependencies|
  {
    var d := I.dependencies[k];
    d.predecessor in I.tasks && d.successor in I.tasks && i in LeafSet(I.children, d.successor)
  }

  ghost function ConstraintSet(I: Inputs, i: int): set<Constraint> {
    set k | 0 <= k < |I.dependencies| && Applies(I, k, i) :: I.dependencies[k].Constraint()
  }

  ghost function Predecessors(I: Inputs): set<int> {
    set k | 0 <= k < |I.dependencies| :: I.dependencies[k].predecessor
  }

  ghost function BehindTable(I: Inputs): map<int, set<int>> {
    map p | p in Predecessors(I) :: LeafSet(I.children, p)
  }

  ghost function DependeesOf(I: Inputs, i: int): set<int> {
    set c, j | c in ConstraintSet(I, i) && j in LeafSet(I.children, c.predecessor) :: j
  }

  ghost function DependeeTable(I: Inputs): Dependees {
    map i | i in Candidates(I) :: DependeesOf(I, i)
  }

  ghost function Dropped(I: Inputs): set<int> {
    BlockedLeaves(DependeeTable(I), Candidates(I), FirstResults(I))
  }

  // ---- the plan the days are run on -----------------------------------------------------------

  function HoursOf(seats: map<SeatKey, WorkSeat>): (SeatKey, Day) -> real {
    (key: SeatKey, day: Day) => if key in seats then seats[key].PersonHours(day) else 0.0
  }

  // The task's project calendar, or else the calendar of the seat.
  function TaskCalendar(task: Task, seat: WorkSeat, calendar: CalendarOf): TeamCalendar {
    var own := calendar(task.project);
    if own.Some? then own.value else seat.calendar
  }

  function WorksOf(eps: real, tasks: map<int, Task>, seats: map<SeatKey, WorkSeat>, rootOf: RootOf, calendar: CalendarOf)
    : (int, Day) -> bool
  {
    (i: int, day: Day) =>
      if i in tasks && SeatOf(tasks[i], rootOf).Some? && SeatOf(tasks[i], rootOf).value in seats then
        var seat := seats[SeatOf(tasks[i], rootOf).value];
        seat.WorksOn(eps, day, TaskCalendar(tasks[i], seat, calendar))
      else false
  }

  ghost function PlanData(I: Inputs): SetupData {
    SetupData(I.today, I.eps,
              map i | i in Candidates(I) - Dropped(I) :: ClassOf(I, i).info,
              map i | i in Candidates(I) - Dropped(I) :: ConstraintSet(I, i),
              BehindTable(I), I.seats.Keys, HoursOf(I.seats),
              WorksOf(I.eps, I.tasks, I.seats, I.rootOf, I.projectCalendar))
  }

  lemma PlanIsValid(I: Inputs)
    requires I.Valid()
    ensures PlanData(I).Valid()
  {
    hide Dropped, ConstraintSet, BehindTable, WorksOf;
    var S := PlanData(I);
    forall i | i in S.info
      ensures S.info[i].task.id == i && S.info[i].seat in S.seats && S.info[i].initial > S.eps
      ensures AllocationIsPercent(S.info[i].task)
    {
      assert i in Candidates(I);
    }
  }

  ghost function Plan(I: Inputs): Setup
    requires I.Valid()
  {
    PlanIsValid(I);
    PlanData(I)
  }

  // ---- results ---------------------------------------------------------------------------------

  function Overdue(finish: Day, due: Option<Day>): nat {
    if due.None? || finish <= due.value then 0 else finish - due.value
  }

  // A leaf is forecast if it is finished within the horizon. If not, it is waiting when it never started and what
  // it depends on would still hold it back on the day after.
  ghost function LeafResult(S: Setup, lastDay: Day, R: Leaves, i: int): TaskForecast
    requires i in R && i in S.info
  {
    if R[i].finish.Some? then TaskForecast(R[i].start, R[i].finish, None, Overdue(R[i].finish.value, S.info[i].task.dueDate))
    else if R[i].start.None? && !AllSatisfied(S, i, lastDay + 1, R) then Gapped(WaitingForOthers)
    else Gapped(BeyondHorizon)
  }

  // The leaves below a task whose forecast its own is made of.
  ghost function OpenBelow(children: Graph, result: Results, id: int): set<int> {
    set j | j in LeafSet(children, id) && j in result && result[j].gap != Some(Finished)
  }

  ghost predicate Spans(result: Results, open: set<int>, f: TaskForecast) {
    && f.finish.Some?
    && (exists j :: j in open && j in result && result[j].finish == f.finish)
    && (forall j :: j in open && j in result && result[j].finish.Some? ==> result[j].finish.value <= f.finish.value)
    && (f.start.Some? ==> exists j :: j in open && j in result && result[j].start == f.start)
    && (forall j :: j in open && j in result && result[j].start.Some? ==>
          f.start.Some? && f.start.value <= result[j].start.value)
  }

  // The forecast of a task with subtasks: the earliest start and the latest finish of the open leaves below it.
  ghost predicate RollsUp(children: Graph, result: Results, task: Task, f: TaskForecast) {
    var open := OpenBelow(children, result, task.id);
    if task.Closed() || open == {} then f == Gapped(Finished)
    else if exists j :: j in open && result[j].finish.None? then f == Gapped(ChildUnforecast)
    else f.gap.None? && Spans(result, open, f) && f.overdueDays == Overdue(f.finish.value, task.dueDate)
  }

  // It depends on the results of childless tasks only.
  lemma RollUpSeesLeaves(children: Graph, result: Results, result': Results, task: Task, f: TaskForecast)
    requires RollsUp(children, result, task, f)
    requires forall j :: !HasSubtasks(children, j) ==> (j in result <==> j in result')
    requires forall j :: !HasSubtasks(children, j) && j in result ==> result[j] == result'[j]
    ensures RollsUp(children, result', task, f)
  {
    forall j | j in LeafSet(children, task.id) ensures !HasSubtasks(children, j) { }
    assert OpenBelow(children, result, task.id) == OpenBelow(children, result', task.id);
  }

  ghost predicate LeafResultsAre(I: Inputs, R: Leaves, result: Results)
    requires I.Valid()
  {
    var S := Plan(I);
    && R.Keys == S.info.Keys
    && forall i :: i in Childless(I) ==>
         (i in result &&
          result[i] == (if i in S.info then LeafResult(S, I.LastDay(), R, i)
                        else if i in Candidates(I) then WAITS
                        else FirstResults(I)[i]))
  }

  // R are the leaves after the horizon with their finishes raised.
  ghost predicate RaisedRun(S: Setup, queues: seq<SeatQueue>, days: nat, R: Leaves) {
    ValidQueues(S, queues) && Lifted(S, After(S, queues, days), R)
  }

  ghost predicate IsForecast(I: Inputs, queues: seq<SeatQueue>, R: Leaves, result: Results) {
    && I.Valid()
    && RaisedRun(Plan(I), queues, I.Days(), R)
    && result.Keys == I.tasks.Keys
    && LeafResultsAre(I, R, result)
    && forall i :: i in I.tasks && HasSubtasks(I.children, i) ==> RollsUp(I.children, result, I.tasks[i], result[i])
  }
}
