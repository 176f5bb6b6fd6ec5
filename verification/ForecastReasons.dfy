/** Why a task is forecast or not, and by how much it is late, in terms of the task and its assignee. */
module ForecastReasons {
  import opened Basics
  import opened Reachability
  import opened WorkSeats
  import opened TaskBoard
  import opened ForecastModel
  import opened ForecastLedger
  import opened ForecastWaiting
  import opened ForecastFloors
  import opened ForecastChains
  import opened ForecastSpec
  import opened ForecastTheorems
  import opened ForecastHours

  // Nothing says how much is left to do.
  predicate LeftUnknown(task: Task) {
    task.remainingHours.None? && task.estimatedHours.None?
  }

  // What is entered as left, or else the estimate less the hours worked; the latter may come out below nothing.
  function LeftToDo(task: Task, worked: real): real
    requires !LeftUnknown(task)
  {
    if task.remainingHours.Some? then task.remainingHours.value else task.estimatedHours.value - worked
  }

  // Engaged, and either with daily hours on some weekday or with hours fixed for some day.
  predicate HasTime(eps: real, w: WorkSeat) {
    var engaged := Percent(w.engagementPercent) / 100.0;
    && engaged > eps
    && ((w.dailyHours * engaged > eps && exists d :: d in w.calendar.workdays) || exists d :: d in w.dayHours && w.dayHours[d] > eps)
  }

  predicate IsOver(I: Inputs, i: int)
    requires i in I.tasks
  {
    var task := I.tasks[i];
    || task.status.Done? || task.status.Cancelled?
    || (!LeftUnknown(task) && LeftToDo(task, Entry(I.actual, i)) <= I.eps)
  }

  // The reason a childless task is left out, if it is; the first that applies.
  function LeftOutFor(I: Inputs, i: int): Option<Gap>
    requires i in I.tasks
  {
    var task := I.tasks[i];
    if IsOver(I, i) then Some(Finished)
    else if LeftUnknown(task) then Some(NoRemaining)
    else if task.assignee.None? then Some(NoAssignee)
    else if !IsSeated(I, i) || !HasTime(I.eps, I.seats[SeatKeyOf(I, i)]) then Some(NoCapacity)
    else None
  }

  lemma CapacityIsTime(eps: real, w: WorkSeat)
    requires eps >= 0.0
    ensures w.HasCapacity(eps) <==> HasTime(eps, w)
  {
    var engaged := Percent(w.engagementPercent) / 100.0;
    assert w.Engagement() == engaged >= 0.0;
    assert w.HoursPerDay() == Max(w.dailyHours, 0.0) * engaged;
    if w.dailyHours <= 0.0 {
      assert w.HoursPerDay() == 0.0;
      assert w.dailyHours * engaged <= 0.0;
    }
    if w.calendar.workdays != {} { SomeMember(w.calendar.workdays); }
  }

  lemma ClassInFields(I: Inputs, i: int)
    requires I.Valid() && i in I.tasks
    ensures match LeftOutFor(I, i)
            case Some(gap) => ClassOf(I, i) == Out(gap)
            case None =>
              && ClassOf(I, i).In?
              && ClassOf(I, i).info == LeafInfo(I.tasks[i], SeatKeyOf(I, i), LeftToDo(I.tasks[i], Entry(I.actual, i)),
                                                Entry(I.actual, i) > 0.0 || I.tasks[i].status.Doing?)
  {
    hide WorkSeat.HasCapacity, HasTime, ChildrenOf;
    if IsSeated(I, i) { CapacityIsTime(I.eps, I.seats[SeatKeyOf(I, i)]); }
  }

  lemma ForecastHasResults(I: Inputs, queues: seq<SeatQueue>, R: Leaves, result: Results)
    requires IsForecast(I, queues, R, result)
    ensures I.Valid() && LeafResultsAre(I, R, result)
  {
    hide RaisedRun, RollsUp, LeafResultsAre;
  }

  lemma PlanMembers(I: Inputs, i: int)
    requires I.Valid()
    ensures i in Plan(I).info <==> i in Candidates(I) && i !in Dropped(I)
    ensures i in Plan(I).info ==> i in I.tasks && ClassOf(I, i).In? && Plan(I).info[i] == ClassOf(I, i).info
    ensures i in Candidates(I) <==> i in Childless(I) && i in I.tasks && ClassOf(I, i).In?
  {
    hide Dropped, ConstraintSet, BehindTable, WorksOf, Classify;
  }

  lemma ResultOfChildless(I: Inputs, R: Leaves, result: Results, i: int)
    requires I.Valid() && LeafResultsAre(I, R, result) && i in Childless(I)
    ensures i in I.tasks && i in result
    ensures if i in Candidates(I) then result[i].gap in {None, Some(WaitingForOthers), Some(BeyondHorizon)}
            else ClassOf(I, i).Out? && result[i] == Gapped(ClassOf(I, i).gap)
  {
    hide Plan, AllSatisfied, Classify;
    PlanMembers(I, i);
  }

  // What the result says agrees with the reason; without one, the task is forecast, waits or goes beyond the horizon.
  predicate Agrees(reason: Option<Gap>, f: TaskForecast) {
    match reason
    case Some(gap) => f == Gapped(gap)
    case None => f.gap in {None, Some(WaitingForOthers), Some(BeyondHorizon)}
  }

  /** Every childless task is left out for the first reason that applies to it, and for no other. */
  lemma ReasonsInFields(I: Inputs, queues: seq<SeatQueue>, R: Leaves, result: Results, i: int)
    requires IsForecast(I, queues, R, result) && i in Childless(I)
    ensures i in I.tasks && i in result && Agrees(LeftOutFor(I, i), result[i])
  {
    hide IsForecast, LeafResultsAre, Plan, Classify, Candidates, LeftOutFor, LeftToDo;
    ForecastHasResults(I, queues, R, result);
    ClassInFields(I, i);
    ResultOfChildless(I, R, result, i);
    PlanMembers(I, i);
  }

  /** For one that is not left out the days start from what is left to do, and it counts as begun if it is being done or has
      hours logged. */
  lemma PlanInFields(I: Inputs, i: int)
    requires I.Valid() && i in Plan(I).info
    ensures i in I.tasks && LeftOutFor(I, i).None? && !LeftUnknown(I.tasks[i]) && I.tasks[i].assignee.Some?
    ensures Plan(I).info[i] == LeafInfo(I.tasks[i], SeatKeyOf(I, i), LeftToDo(I.tasks[i], Entry(I.actual, i)),
                                        Entry(I.actual, i) > 0.0 || I.tasks[i].status.Doing?)
  {
    hide Plan, Classify, Candidates;
    PlanMembers(I, i);
    ClassInFields(I, i);
  }

  /** A result says by how many days the finish passes the due date, for every task that has both; the subtasks' due dates do
      not matter to a parent. */
  lemma LatenessInFields(I: Inputs, queues: seq<SeatQueue>, R: Leaves, result: Results, i: int)
    requires IsForecast(I, queues, R, result) && i in I.tasks
    ensures i in result
    ensures var late, due := result[i].overdueDays, I.tasks[i].dueDate;
            if result[i].finish.Some? && due.Some? && result[i].finish.value > due.value
            then late == result[i].finish.value - due.value else late == 0
  {
    hide RaisedRun, Classify, AllSatisfied, Dropped, OpenBelow;
    if HasSubtasks(I.children, i) {
      assert RollsUp(I.children, result, I.tasks[i], result[i]);
    } else if i in Plan(I).info {
      LeavesAreSeated(I, i);
    }
  }

  lemma RunWithinHorizon(I: Inputs, queues: seq<SeatQueue>, i: int)
    requires I.Valid() && ValidQueues(Plan(I), queues) && i in Plan(I).info
    ensures var s := After(Plan(I), queues, I.Days())[i];
            && (s.start.Some? ==> I.today <= s.start.value <= I.LastDay())
            && (s.finish.Some? ==> I.today <= s.finish.value <= I.LastDay())
  {
    hide Plan, After, ValidQueues;
    TodayOfPlan(I);
    RunIsConsistent(Plan(I), queues, I.Days(), i);
  }

  lemma LeftOutHasNoStart(I: Inputs, R: Leaves, result: Results, i: int)
    requires I.Valid() && LeafResultsAre(I, R, result) && i in Childless(I) && i !in Plan(I).info
    ensures i in result && result[i].start.None?
  {
    hide Plan, Classify;
    PlanMembers(I, i);
  }

  /** No leaf starts before today or after the last day of the horizon, nor is its work done then. */
  lemma DatesWithinHorizon(I: Inputs, queues: seq<SeatQueue>, R: Leaves, result: Results, i: int)
    requires IsForecast(I, queues, R, result) && i in Childless(I)
    ensures i in result && (result[i].start.Some? ==> I.today <= result[i].start.value < I.today + I.horizonDays)
    ensures i in Plan(I).info ==>
              var s := After(Plan(I), queues, I.Days())[i];
              s.finish.Some? ==> I.today <= s.finish.value < I.today + I.horizonDays
  {
    hide IsForecast, LeafResultsAre, Plan, After, ValidQueues;
    ForecastHasResults(I, queues, R, result);
    if i in Plan(I).info {
      ForecastIsRun(I, queues, R, result, i);
      RunWithinHorizon(I, queues, i);
    } else {
      LeftOutHasNoStart(I, R, result, i);
    }
  }

  lemma DatesOfRun(S: Setup, queues: seq<SeatQueue>, n: nat, i: int, m: nat)
    requires ValidQueues(S, queues) && i in S.info
    ensures After(S, queues, n)[i].start == Some(S.today + m) <==> FirstServed(Logs(S, queues, n), i, m)
    ensures After(S, queues, n)[i].finish == Some(S.today + m) <==> LastServed(S, Logs(S, queues, n), i, m)
  {
    hide ValidQueues, Ledger, FirstServed, LastServed;
    RunKeepsLedger(S, queues, n);
    DatesFollowHours(S, queues, States(S, queues, n), Logs(S, queues, n), i, m);
  }

  lemma FinishIsADay(I: Inputs, queues: seq<SeatQueue>, i: int) returns (m: nat)
    requires I.Valid() && ValidQueues(Plan(I), queues) && i in Plan(I).info && After(Plan(I), queues, I.Days())[i].finish.Some?
    ensures After(Plan(I), queues, I.Days())[i].finish == Some(Plan(I).today + m)
  {
    hide Plan, After, ValidQueues;
    RunWithinHorizon(I, queues, i);
    TodayOfPlan(I);
    m := After(Plan(I), queues, I.Days())[i].finish.value - I.today;
  }

  // All days from today to the horizon.
  function HorizonDays(I: Inputs): nat {
    if I.horizonDays <= 0 then 0 else I.horizonDays
  }

  /** Every day up to the horizon is gone through: a leaf of the plan is forecast exactly if one of these days leaves no more
      than epsilon of it to do, and it starts on the first of them that gives it hours. */
  lemma HorizonIsUsed(I: Inputs, queues: seq<SeatQueue>, R: Leaves, result: Results, i: int, m: nat)
    requires IsForecast(I, queues, R, result) && i in Plan(I).info
    ensures i in result
    ensures result[i].finish.Some? <==> exists d: nat :: LastServed(Plan(I), Logs(Plan(I), queues, HorizonDays(I)), i, d)
    ensures result[i].start == Some(I.today + m) <==>
              result[i].finish.Some? && FirstServed(Logs(Plan(I), queues, HorizonDays(I)), i, m)
  {
    hide IsForecast, Plan, After, ValidQueues, FirstServed, LastServed, Logs;
    ForecastHasResults(I, queues, R, result);
    ForecastIsRun(I, queues, R, result, i);
    TodayOfPlan(I);
    FinishedAsRun(I, queues, R, result, i);
    DatesOfRun(Plan(I), queues, I.Days(), i, m);
    if result[i].finish.Some? {
      var d := FinishIsADay(I, queues, i);
      DatesOfRun(Plan(I), queues, I.Days(), i, d);
      assert LastServed(Plan(I), Logs(Plan(I), queues, HorizonDays(I)), i, d);
    }
    forall d: nat | LastServed(Plan(I), Logs(Plan(I), queues, HorizonDays(I)), i, d) ensures result[i].finish.Some? {
      DatesOfRun(Plan(I), queues, I.Days(), i, d);
    }
  }

  lemma FinishedAsRun(I: Inputs, queues: seq<SeatQueue>, R: Leaves, result: Results, i: int)
    requires IsForecast(I, queues, R, result) && i in Plan(I).info
    ensures i in result
    ensures result[i].finish.Some? <==> After(Plan(I), queues, I.Days())[i].finish.Some?
    ensures result[i].finish.Some? ==> result[i].start == After(Plan(I), queues, I.Days())[i].start
    ensures result[i].finish.None? ==> result[i].start.None?
  {
    hide ValidQueues, RollsUp, AllSatisfied, Dropped, Classify, Candidates, Plan, After, Lifted;
    LiftedRaises(Plan(I), After(Plan(I), queues, I.Days()), R);
    LeafInPlanIsChildless(I, i);
  }

  // ---- waiting for what has no forecast -----------------------------------------------------------------

  // A dependency between known tasks makes i wait for something of which j is a part.
  ghost predicate WaitsOn(I: Inputs, i: int, j: int) {
    exists k :: 0 <= k < |I.dependencies| && Applies(I, k, i) && j in LeafSet(I.children, I.dependencies[k].predecessor)
  }

  // From one leaf to the next that it waits for, to a childless task that is left out and not over.
  ghost predicate LeadsToLeftOut(I: Inputs, chain: seq<int>) {
    && |chain| >= 2
    && (forall k :: 0 <= k < |chain| - 1 ==>
          chain[k] in Childless(I) && LeftOutFor(I, chain[k]).None? && WaitsOn(I, chain[k], chain[k + 1]))
    && var last := chain[|chain| - 1];
       last in Childless(I) && LeftOutFor(I, last).Some? && LeftOutFor(I, last) != Some(Finished)
  }

  lemma CandidatesInFields(I: Inputs, i: int)
    requires I.Valid()
    ensures i in Candidates(I) <==> i in Childless(I) && i in I.tasks && LeftOutFor(I, i).None?
    ensures HasNoForecast(FirstResults(I), i) <==>
              i in Childless(I) && i in I.tasks && LeftOutFor(I, i).Some? && LeftOutFor(I, i) != Some(Finished)
  {
    hide Classify, LeftOutFor;
    if i in I.tasks { ClassInFields(I, i); }
  }

  lemma WaitsInTable(I: Inputs, i: int, j: int)
    requires I.Valid() && i in Candidates(I)
    ensures j in Of(DependeeTable(I), i) <==> WaitsOn(I, i, j)
  {
    hide LeafSet, Candidates, Applies;
    if WaitsOn(I, i, j) {
      var k :| 0 <= k < |I.dependencies| && Applies(I, k, i) && j in LeafSet(I.children, I.dependencies[k].predecessor);
      assert I.dependencies[k].Constraint() in ConstraintSet(I, i);
    }
  }

  lemma ChainInFields(I: Inputs, chain: seq<int>)
    requires I.Valid()
    ensures BlockingChain(DependeeTable(I), Candidates(I), FirstResults(I), chain) <==> LeadsToLeftOut(I, chain)
  {
    hide DependeeTable, Candidates, FirstResults, Childless, LeftOutFor, WaitsOn, HasNoForecast;
    forall k | 0 <= k < |chain|
      ensures chain[k] in Candidates(I) <==> chain[k] in Childless(I) && chain[k] in I.tasks && LeftOutFor(I, chain[k]).None?
      ensures chain[k] in Childless(I) ==> chain[k] in I.tasks
      ensures HasNoForecast(FirstResults(I), chain[k]) <==>
                chain[k] in Childless(I) && chain[k] in I.tasks
                && LeftOutFor(I, chain[k]).Some? && LeftOutFor(I, chain[k]) != Some(Finished)
    {
      CandidatesInFields(I, chain[k]);
      ChildlessAreTasks(I);
    }
    forall k | 0 <= k < |chain| - 1 && chain[k] in Candidates(I)
      ensures chain[k + 1] in Of(DependeeTable(I), chain[k]) <==> WaitsOn(I, chain[k], chain[k + 1])
    {
      WaitsInTable(I, chain[k], chain[k + 1]);
    }
  }

  lemma ChildlessAreTasks(I: Inputs)
    ensures forall i :: i in Childless(I) ==> i in I.tasks
  {
  }

  /** A task that is not left out itself is held back exactly if dependencies lead from it to one that is, and is not over;
      then it is reported as waiting. */
  lemma HeldBackExactly(I: Inputs, queues: seq<SeatQueue>, R: Leaves, result: Results, i: int)
    requires IsForecast(I, queues, R, result) && i in Childless(I) && i in I.tasks && LeftOutFor(I, i).None?
    ensures i !in Plan(I).info <==> exists chain :: LeadsToLeftOut(I, chain) && chain[0] == i
    ensures i !in Plan(I).info ==> i in result && result[i] == Gapped(WaitingForOthers)
  {
    hide IsForecast, Plan, LeftOutFor, Candidates, DependeeTable, FirstResults, WaitsOn, LeafResultsAre, Childless;
    ForecastHasResults(I, queues, R, result);
    PlanMembers(I, i);
    CandidatesInFields(I, i);
    if i in Dropped(I) {
      var chain :| BlockingChain(DependeeTable(I), Candidates(I), FirstResults(I), chain) && chain[0] == i;
      ChainInFields(I, chain);
      ResultOfHeldBack(I, R, result, i);
    }
    if chain :| LeadsToLeftOut(I, chain) && chain[0] == i {
      ChainInFields(I, chain);
      assert Blocked(DependeeTable(I), Candidates(I), FirstResults(I), i);
    }
  }

  lemma ResultOfHeldBack(I: Inputs, R: Leaves, result: Results, i: int)
    requires I.Valid() && LeafResultsAre(I, R, result) && i in Candidates(I) && i !in Plan(I).info
    ensures i in result && result[i] == WAITS
  {
    hide Plan, Classify;
  }

  // ---- parents ------------------------------------------------------------------------------------------

  // The childless tasks below i that are known and not over.
  ghost predicate OpenUnder(I: Inputs, result: Results, i: int, j: int) {
    j in LeafSet(I.children, i) && j in result && result[j].gap != Some(Finished)
  }

  /** A task with subtasks is over if it is closed or nothing below it is open; has no forecast if something open below it has
      none; and otherwise goes from the earliest start to the latest finish of what is open below it. */
  lemma ParentsInFields(I: Inputs, queues: seq<SeatQueue>, R: Leaves, result: Results, i: int)
    requires IsForecast(I, queues, R, result) && i in I.tasks && HasSubtasks(I.children, i)
    ensures i in result
    ensures var f, task := result[i], I.tasks[i];
            if task.status.Done? || task.status.Cancelled? || !(exists j :: OpenUnder(I, result, i, j)) then f == Gapped(Finished)
            else if exists j :: OpenUnder(I, result, i, j) && result[j].finish.None? then f == Gapped(ChildUnforecast)
            else
              && f.gap.None? && f.finish.Some? && f.start.Some?
              && (exists j :: OpenUnder(I, result, i, j) && result[j].finish == f.finish)
              && (exists j :: OpenUnder(I, result, i, j) && result[j].start == f.start)
              && (forall j :: OpenUnder(I, result, i, j) ==>
                    result[j].start.Some? && f.start.value <= result[j].start.value
                    && result[j].finish.value <= f.finish.value)
  {
    hide RaisedRun, LeafResultsAre, LeafSet;
    var open := OpenBelow(I.children, result, i);
    assert forall j :: j in open <==> OpenUnder(I, result, i, j);
    assert RollsUp(I.children, result, I.tasks[i], result[i]);
    forall j | j in open ensures Sensible(I.today, result[j]) { EveryTaskHasOneOutcome(I, queues, R, result, j); }
    if open != {} { SomeMember(open); }
  }
}
