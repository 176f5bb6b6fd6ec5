/** A plain office for examples: everyone has eight hours every day of the week, every childless task is somebody's and has
    hours left to do, and there are no projects or percentages. What the forecaster makes of such input is simple. */
module ForecastOffice {
  import opened Basics
  import opened Reachability
  import opened WorkSeats
  import opened TaskBoard
  import opened ForecastModel
  import opened ForecastWaiting
  import opened ForecastFloors
  import opened ForecastChains
  import opened ForecastSpec

  function Person(user: int): SeatKey {
    SeatKey(user, None)
  }

  function TaskOf(id: int, user: int, hours: real): Task {
    Task(id, Todo, Some(user), None, None, None, Some(hours), None, None, 3, None)
  }

  const DESK: WorkSeat := WorkSeat(8.0, 100, TeamCalendar({0, 1, 2, 3, 4, 5, 6}, {}, {}), map[], map[])

  const NO_ROOT: RootOf := project => None
  const NO_CALENDAR: CalendarOf := project => None

  function Office(tasks: map<int, Task>, children: Graph, users: set<int>, dependencies: seq<TaskDependency>, days: nat): Inputs {
    Inputs(0, days, 0.0, tasks, children, map[], dependencies, map u | u in users :: Person(u) := DESK, NO_ROOT, NO_CALENDAR)
  }

  function Working(tasks: map<int, Task>, children: Graph): set<int> {
    set i | i in tasks && !HasSubtasks(children, i)
  }

  // Everybody's childless tasks have work left.
  ghost predicate Busy(tasks: map<int, Task>, children: Graph, users: set<int>) {
    && ChildrenOf(tasks, children)
    && (forall i :: i in tasks ==> tasks[i].id == i && tasks[i].allocationPercent.None?)
    && (forall i :: i in Working(tasks, children) ==>
          && tasks[i].assignee.Some? && tasks[i].assignee.value in users
          && tasks[i].remainingHours.Some? && tasks[i].remainingHours.value > 0.0
          && tasks[i] == TaskOf(i, tasks[i].assignee.value, tasks[i].remainingHours.value).(parent := tasks[i].parent))
  }

  lemma NoSubtasks(tasks: map<int, Task>)
    requires forall i :: i in tasks ==> tasks[i].parent.None?
    ensures ChildrenOf(tasks, map[]) && Working(tasks, map[]) == tasks.Keys
  {
  }

  lemma DeskHours(day: Day)
    ensures DESK.PersonHours(day) == 8.0 && DESK.HasCapacity(0.0) && DESK.WorksOn(0.0, day, DESK.calendar)
  {
    assert 0 in DESK.calendar.workdays;
    assert 0 <= WeekdayOf(day) <= 6;
  }

  lemma OfficeIsValid(tasks: map<int, Task>, children: Graph, users: set<int>, dependencies: seq<TaskDependency>, days: nat)
    requires Busy(tasks, children, users)
    ensures Office(tasks, children, users, dependencies, days).Valid()
  {
  }

  lemma EveryoneIsIn(tasks: map<int, Task>, children: Graph, users: set<int>, dependencies: seq<TaskDependency>, days: nat)
    requires Busy(tasks, children, users)
    ensures var I := Office(tasks, children, users, dependencies, days);
            && Candidates(I) == Working(tasks, children) == Childless(I) && FirstResults(I) == map[] && Dropped(I) == {}
            && forall i :: i in Working(tasks, children) ==>
                 ClassOf(I, i) == In(LeafInfo(tasks[i], Person(tasks[i].assignee.value), tasks[i].remainingHours.value, false))
  {
    var I := Office(tasks, children, users, dependencies, days);
    DeskHours(0);
    forall i | i in Working(tasks, children)
      ensures ClassOf(I, i) == In(LeafInfo(tasks[i], Person(tasks[i].assignee.value), tasks[i].remainingHours.value, false))
    {
      var key := Person(tasks[i].assignee.value);
      assert key in I.seats && I.seats[key] == DESK;
    }
    hide Classify;
    assert Childless(I) == Working(tasks, children);
    assert Candidates(I) == Childless(I);
    assert FirstResults(I) == map[];
  }

  lemma OfficeDependencies(tasks: map<int, Task>, children: Graph, users: set<int>, dependencies: seq<TaskDependency>, days: nat, i: int)
    ensures ConstraintSet(Office(tasks, children, users, dependencies, days), i)
            == ConstraintsNaming(tasks, children, dependencies, i)
  {
    hide LeafSet;
  }

  lemma WorksHere(tasks: map<int, Task>, children: Graph, users: set<int>, dependencies: seq<TaskDependency>, days: nat, i: int, day: Day)
    requires Busy(tasks, children, users) && i in Working(tasks, children)
    ensures var I := Office(tasks, children, users, dependencies, days);
            WorksOf(I.eps, I.tasks, I.seats, I.rootOf, I.projectCalendar)(i, day)
  {
    DeskHours(day);
    hide WorkSeat.WorksOn;
    var I := Office(tasks, children, users, dependencies, days);
    var key := Person(tasks[i].assignee.value);
    assert key in I.seats && I.seats[key] == DESK && SeatOf(tasks[i], I.rootOf) == Some(key);
    assert NO_CALENDAR(tasks[i].project) == None;
    assert TaskCalendar(tasks[i], DESK, NO_CALENDAR) == DESK.calendar;
    assert DESK.WorksOn(I.eps, day, TaskCalendar(tasks[i], I.seats[key], I.projectCalendar));
  }

  // What the plan of an office is: its childless tasks, eight hours a day for everyone, and the dependencies as they were
  // given.
  ghost predicate IsOfficePlan(S: Setup, tasks: map<int, Task>, children: Graph, users: set<int>,
                               dependencies: seq<TaskDependency>)
  {
    && S.today == 0 && S.eps == 0.0 && S.info.Keys == Working(tasks, children) && S.seats == (set u | u in users :: Person(u))
    && (forall i :: i in S.info ==> i in tasks && S.info[i] == LeafOf(tasks[i]))
    && (forall i :: i in S.info ==> S.ConstraintsOn(i) == ConstraintsNaming(tasks, children, dependencies, i))
    && (forall k :: 0 <= k < |dependencies| ==>
          S.Behind(dependencies[k].predecessor) == LeafSet(children, dependencies[k].predecessor))
    && (forall u, day :: u in users ==> S.hours(Person(u), day) == 8.0)
    && (forall i, day :: i in S.info ==> S.works(i, day))
  }

  function LeafOf(task: Task): LeafInfo {
    LeafInfo(task, if task.assignee.Some? then Person(task.assignee.value) else Person(0),
             if task.remainingHours.Some? then task.remainingHours.value else 0.0, false)
  }

  // Dependencies bear on the childless tasks at or below those they name.
  ghost function ConstraintsNaming(tasks: map<int, Task>, children: Graph, dependencies: seq<TaskDependency>, i: int)
    : set<Constraint>
  {
    set k | 0 <= k < |dependencies| && dependencies[k].predecessor in tasks && dependencies[k].successor in tasks
            && i in LeafSet(children, dependencies[k].successor) :: dependencies[k].Constraint()
  }

  lemma OfficePlan(tasks: map<int, Task>, children: Graph, users: set<int>, dependencies: seq<TaskDependency>, days: nat)
    requires Busy(tasks, children, users)
    ensures Office(tasks, children, users, dependencies, days).Valid()
    ensures IsOfficePlan(Plan(Office(tasks, children, users, dependencies, days)), tasks, children, users, dependencies)
  {
    hide Candidates, Dropped, Classify, LeafSet, ConstraintSet, ConstraintsNaming, WorkSeat.WorksOn, WorkSeat.PersonHours;
    var I := Office(tasks, children, users, dependencies, days);
    OfficeIsValid(tasks, children, users, dependencies, days);
    EveryoneIsIn(tasks, children, users, dependencies, days);
    var S := Plan(I);
    forall u, day | u in users ensures S.hours(Person(u), day) == 8.0 {
      DeskHours(day);
      assert I.seats[Person(u)] == DESK;
    }
    forall i, day | i in S.info ensures S.works(i, day) {
      WorksHere(tasks, children, users, dependencies, days, i, day);
    }
    forall i | i in S.info ensures S.ConstraintsOn(i) == ConstraintsNaming(tasks, children, dependencies, i) {
      OfficeDependencies(tasks, children, users, dependencies, days, i);
    }
    forall k | 0 <= k < |dependencies|
      ensures S.Behind(dependencies[k].predecessor) == LeafSet(children, dependencies[k].predecessor)
    {
      assert dependencies[k].predecessor in Predecessors(I);
    }
  }

  // The results of the childless tasks.
  ghost function LeafResultsOf(S: Setup, lastDay: Day, R: Leaves): Results {
    map i | i in R && i in S.info :: LeafResult(S, lastDay, R, i)
  }

  ghost predicate RollUpsOf(tasks: map<int, Task>, children: Graph, leafResults: Results, parents: Results) {
    && parents.Keys == tasks.Keys - Working(tasks, children)
    && forall i :: i in parents ==> RollsUp(children, leafResults, tasks[i], parents[i])
  }

  /** A forecast of an office is what the days and the raising leave of every childless task, and the roll-ups of that. */
  lemma OfficeForecast(tasks: map<int, Task>, children: Graph, users: set<int>, dependencies: seq<TaskDependency>, days: nat,
                       queues: seq<SeatQueue>, R: Leaves, parents: Results) returns (result: Results)
    requires Busy(tasks, children, users) && Office(tasks, children, users, dependencies, days).Valid()
    requires var I := Office(tasks, children, users, dependencies, days);
             && RaisedRun(Plan(I), queues, days, R)
             && RollUpsOf(tasks, children, LeafResultsOf(Plan(I), I.LastDay(), R), parents)
    ensures IsForecast(Office(tasks, children, users, dependencies, days), queues, R, result)
    ensures R.Keys == Working(tasks, children) && result.Keys == tasks.Keys
    ensures forall i :: i in R ==>
              && (R[i].finish.Some? ==> result[i].start == R[i].start && result[i].finish == R[i].finish)
              && (R[i].finish.None? ==> result[i].finish.None?)
  {
    hide IsOfficePlan, ValidQueues, Lifted, Candidates, Childless, FirstResults, Dropped, After, Plan, LeafResult, IsForecast,
         RollsUp, Working;
    var I := Office(tasks, children, users, dependencies, days);
    EveryoneIsIn(tasks, children, users, dependencies, days);
    OfficePlan(tasks, children, users, dependencies, days);
    var S := Plan(I);
    OfficeKeys(S, tasks, children, users, dependencies);
    KeysAfter(S, After(S, queues, days), R);
    var leafResults := LeafResultsOf(S, I.LastDay(), R);
    result := leafResults + parents;
    forall i | i in R
      ensures R[i].finish.Some? ==> result[i].start == R[i].start && result[i].finish == R[i].finish
      ensures R[i].finish.None? ==> result[i].finish.None?
    {
      ResultOfLeaf(S, I.LastDay(), R, i);
    }
    WorkingAreTasks(tasks, children);
    LeavesMakeForecast(I, queues, R, leafResults, parents);
  }

  lemma WorkingAreTasks(tasks: map<int, Task>, children: Graph)
    ensures Working(tasks, children) <= tasks.Keys
  {
  }

  lemma LeavesMakeForecast(I: Inputs, queues: seq<SeatQueue>, R: Leaves, leafResults: Results, parents: Results)
    requires I.Valid() && RaisedRun(Plan(I), queues, I.Days(), R)
    requires R.Keys == Plan(I).info.Keys == Childless(I) && leafResults == LeafResultsOf(Plan(I), I.LastDay(), R)
    requires RollUpsOf(I.tasks, I.children, leafResults, parents)
    ensures IsForecast(I, queues, R, leafResults + parents)
  {
    hide RaisedRun, Plan, Candidates, FirstResults, LeafResult, RollsUp;
    var result := leafResults + parents;
    forall i | i in I.tasks && HasSubtasks(I.children, i) ensures RollsUp(I.children, result, I.tasks[i], result[i]) {
      NoChildlessParents(I.tasks, I.children, parents);
      RollUpSeesLeaves(I.children, leafResults, result, I.tasks[i], parents[i]);
    }
  }

  lemma NoChildlessParents(tasks: map<int, Task>, children: Graph, parents: Results)
    requires parents.Keys == tasks.Keys - Working(tasks, children)
    ensures forall j :: j in parents ==> HasSubtasks(children, j)
  {
  }

  lemma OfficeKeys(S: Setup, tasks: map<int, Task>, children: Graph, users: set<int>, dependencies: seq<TaskDependency>)
    requires IsOfficePlan(S, tasks, children, users, dependencies)
    ensures S.info.Keys == Working(tasks, children)
  {
  }

  lemma KeysAfter(S: Setup, L: Leaves, R: Leaves)
    requires Lifted(S, L, R)
    ensures R.Keys == L.Keys
  {
  }

  lemma ResultOfLeaf(S: Setup, lastDay: Day, R: Leaves, i: int)
    requires i in R && i in S.info
    ensures var f := LeafResult(S, lastDay, R, i);
            if R[i].finish.Some? then f.start == R[i].start && f.finish == R[i].finish else f.finish.None?
  {
    hide AllSatisfied;
  }
}
