/** What a forecast makes of people's days, in terms of what is entered for them: daily hours, engagement, leave, fixed days,
    calendars and planned starts. */
module ForecastHours {
  import opened Basics
  import opened WorkSeats
  import opened TaskBoard
  import opened ForecastModel
  import opened ForecastInvariants
  import opened ForecastLedger
  import opened ForecastOrdering
  import opened ForecastFairness
  import opened ForecastFloors
  import opened ForecastWaiting
  import opened ForecastChains
  import opened ForecastSpec
  import opened ForecastTheorems

  // ---- a person's day ---------------------------------------------------------------------------------

  function Percent(entered: int): real {
    if entered <= 0 then 0.0 else if entered >= 100 then 100.0 else entered as real
  }

  // The hours somebody has for the tree on a day: those fixed for the day, or the daily ones less leave, and of either the
  // share they are engaged for.
  function FreeHours(w: WorkSeat, day: Day): real {
    var engaged := Percent(w.engagementPercent) / 100.0;
    if day in w.dayHours then (if w.dayHours[day] > 0.0 then w.dayHours[day] * engaged else 0.0)
    else if w.dailyHours <= 0.0 then 0.0
    else if day in w.leave then w.dailyHours * engaged * ((100.0 - Percent(w.leave[day])) / 100.0)
    else w.dailyHours * engaged
  }

  // Hours are fixed for the day, or the calendar makes it a working day; day 1 is a Monday.
  predicate MayWork(eps: real, w: WorkSeat, cal: TeamCalendar, day: Day) {
    || (day in w.dayHours && w.dayHours[day] > eps)
    || day in cal.extraWorkdays
    || ((day - 1) % 7 in cal.workdays && day !in cal.daysOff)
  }

  lemma HoursAreFree(w: WorkSeat, day: Day)
    ensures w.PersonHours(day) == FreeHours(w, day) >= 0.0
  {
    assert w.Engagement() == Percent(w.engagementPercent) / 100.0;
  }

  lemma WorkdaysAreOpen(eps: real, w: WorkSeat, cal: TeamCalendar, day: Day)
    ensures w.WorksOn(eps, day, cal) <==> MayWork(eps, w, cal, day)
  {
  }

  // ---- the plan in these terms ----------------------------------------------------------------------------

  // The seat of the task's assignee in the tree of its project.
  function SeatKeyOf(I: Inputs, i: int): SeatKey
    requires i in I.tasks && I.tasks[i].assignee.Some?
  {
    SeatKey(I.tasks[i].assignee.value, I.rootOf(I.tasks[i].project))
  }

  // The calendar of the task's project, or else of the seat.
  function CalendarFor(I: Inputs, i: int, w: WorkSeat): TeamCalendar
    requires i in I.tasks
  {
    if I.projectCalendar(I.tasks[i].project).Some? then I.projectCalendar(I.tasks[i].project).value else w.calendar
  }

  predicate IsSeated(I: Inputs, i: int) {
    i in I.tasks && I.tasks[i].assignee.Some? && SeatKeyOf(I, i) in I.seats
  }

  lemma LeavesAreSeated(I: Inputs, i: int)
    requires I.Valid() && i in Plan(I).info
    ensures IsSeated(I, i) && Plan(I).info[i].seat == SeatKeyOf(I, i) && Plan(I).info[i].task == I.tasks[i]
    ensures Plan(I).today == I.today && Plan(I).eps == I.eps && Plan(I).seats == I.seats.Keys
  {
    hide Dropped, ConstraintSet, BehindTable, WorksOf, WorkSeat.HasCapacity;
    assert i in Candidates(I);
  }

  lemma HoursInFields(I: Inputs, key: SeatKey, day: Day)
    requires I.Valid() && key in I.seats
    ensures Plan(I).hours(key, day) == FreeHours(I.seats[key], day)
  {
    hide Dropped, ConstraintSet, BehindTable, WorksOf, Candidates;
    HoursAreFree(I.seats[key], day);
  }

  // A day on which the leaf may not be worked on: there are no hours, the calendar is closed, or the planned start is later.
  predicate IsClosed(I: Inputs, i: int, day: Day)
    requires IsSeated(I, i)
  {
    var w := I.seats[SeatKeyOf(I, i)];
    || FreeHours(w, day) == 0.0
    || !MayWork(I.eps, w, CalendarFor(I, i, w), day)
    || (I.tasks[i].startDate.Some? && day < I.tasks[i].startDate.value)
  }

  lemma WorksInFields(I: Inputs, i: int, day: Day)
    requires I.Valid() && IsSeated(I, i)
    ensures var w := I.seats[SeatKeyOf(I, i)]; Plan(I).works(i, day) <==> MayWork(I.eps, w, CalendarFor(I, i, w), day)
  {
    hide Dropped, ConstraintSet, BehindTable, Candidates, WorkSeat.WorksOn, MayWork;
    var w := I.seats[SeatKeyOf(I, i)];
    WorkdaysAreOpen(I.eps, w, CalendarFor(I, i, w), day);
    assert TaskCalendar(I.tasks[i], w, I.projectCalendar) == CalendarFor(I, i, w);
    assert SeatOf(I.tasks[i], I.rootOf) == Some(SeatKeyOf(I, i));
    assert WorksOf(I.eps, I.tasks, I.seats, I.rootOf, I.projectCalendar)(i, day)
        == w.WorksOn(I.eps, day, TaskCalendar(I.tasks[i], w, I.projectCalendar));
  }

  lemma ClosedForLeaf(I: Inputs, i: int, day: Day)
    requires I.Valid() && i in Plan(I).info && IsSeated(I, i) && IsClosed(I, i, day)
    ensures var S := Plan(I); S.hours(S.info[i].seat, day) == 0.0 || !S.works(i, day) || !PlannedToStart(S, i, day)
  {
    hide Plan, FreeHours, MayWork;
    LeavesAreSeated(I, i);
    HoursInFields(I, SeatKeyOf(I, i), day);
    WorksInFields(I, i, day);
  }

  // ---- days off ------------------------------------------------------------------------------------------

  lemma ServedOnOpenDays(S: Setup, queues: seq<SeatQueue>, n: nat, m: nat, i: int)
    requires ValidQueues(S, queues) && i in S.info && m < n
    requires S.hours(S.info[i].seat, S.today + m) == 0.0 || !S.works(i, S.today + m) || !PlannedToStart(S, i, S.today + m)
    ensures Entry(Given(S, queues, m), i) == 0.0
    ensures var s := After(S, queues, n)[i]; s.start != Some(S.today + m) && s.finish != Some(S.today + m)
  {
    hide ValidQueues, RunDay, DayEntry, LeafEntry, Given, Ledger;
    DayOfRun(S, queues, m);
    LeafOfDay(S, queues, S.today + m, After(S, queues, m), After(S, queues, m + 1), Given(S, queues, m), i);
    RunIsConsistent(S, queues, m, i);
    ClosedEntry(S, i, S.today + m, After(S, queues, m)[i], After(S, queues, m + 1)[i], i in Given(S, queues, m),
                Entry(Given(S, queues, m), i));
    NotDatedLater(S, queues, m + 1, n, i, S.today + m);
  }

  lemma ClosedEntry(S: Setup, i: int, day: Day, s: LeafState, s': LeafState, served: bool, hours: real)
    requires LeafEntry(S, i, day, s, s', served, hours)
    requires S.hours(S.info[i].seat, day) == 0.0 || !S.works(i, day) || !PlannedToStart(S, i, day)
    ensures hours == 0.0 && s' == s
  {
  }

  // What has not been dated by the day after is never dated by that day.
  lemma {:induction false} NotDatedLater(S: Setup, queues: seq<SeatQueue>, m: nat, n: nat, i: int, day: Day)
    requires ValidQueues(S, queues) && i in S.info && m <= n && day < S.today + m
    requires After(S, queues, m)[i].start != Some(day) && After(S, queues, m)[i].finish != Some(day)
    ensures After(S, queues, n)[i].start != Some(day) && After(S, queues, n)[i].finish != Some(day)
    decreases n
  {
    hide ValidQueues, RunDay, DayEntry, Given;
    if m < n {
      NotDatedLater(S, queues, m, n - 1, i, day);
      DayOfRun(S, queues, n - 1);
      LeafOfDay(S, queues, S.today + n - 1, After(S, queues, n - 1), After(S, queues, n), Given(S, queues, n - 1), i);
    }
  }

  /** On a day with no hours, on a day off, and before its planned start a leaf gets no hours, and neither starts nor, by its
      own work, finishes; nor does the returned forecast say that it starts there. */
  lemma NoWorkOnClosedDays(I: Inputs, queues: seq<SeatQueue>, R: Leaves, result: Results, i: int, m: nat)
    requires IsForecast(I, queues, R, result) && i in Plan(I).info && m < I.Days()
    requires IsSeated(I, i) && IsClosed(I, i, I.today + m)
    ensures Entry(Given(Plan(I), queues, m), i) == 0.0
    ensures var s := After(Plan(I), queues, I.Days())[i]; s.start != Some(I.today + m) && s.finish != Some(I.today + m)
    ensures i in result && result[i].start != Some(I.today + m)
  {
    hide IsForecast, ValidQueues, RunDay, Lifted, IsClosed, Plan, IsSeated;
    ForecastIsRun(I, queues, R, result, i);
    assert I.Valid() by { ValidForecast(I, queues, R, result); }
    LeavesAreSeated(I, i);
    ClosedForLeaf(I, i, I.today + m);
    ServedOnOpenDays(Plan(I), queues, I.Days(), m, i);
  }

  lemma ForecastIsRun(I: Inputs, queues: seq<SeatQueue>, R: Leaves, result: Results, i: int)
    requires IsForecast(I, queues, R, result) && i in Plan(I).info
    ensures ValidQueues(Plan(I), queues) && i in R && i in result
    ensures result[i].start.Some? ==> result[i].start == R[i].start == After(Plan(I), queues, I.Days())[i].start
  {
    hide Lifted;
    hide ValidQueues, RollsUp, AllSatisfied, Dropped, Classify, Candidates, Plan, After;
    LiftedRaises(Plan(I), After(Plan(I), queues, I.Days()), R);
    LeafInPlanIsChildless(I, i);
  }

  lemma ValidForecast(I: Inputs, queues: seq<SeatQueue>, R: Leaves, result: Results)
    requires IsForecast(I, queues, R, result)
    ensures I.Valid()
  {
    hide RaisedRun, LeafResultsAre, RollsUp;
  }

  // Somebody takes the whole day off, and has not fixed hours for it all the same.
  predicate OnFullLeave(w: WorkSeat, day: Day) {
    day in w.leave && w.leave[day] >= 100 && day !in w.dayHours
  }

  lemma LeaveHasNoHours(w: WorkSeat, day: Day)
    requires OnFullLeave(w, day)
    ensures FreeHours(w, day) == 0.0
  {
  }

  /** In particular, nobody is given work on a day of full leave for which they have not fixed hours. */
  lemma NoWorkOnLeave(I: Inputs, queues: seq<SeatQueue>, R: Leaves, result: Results, i: int, m: nat)
    requires IsForecast(I, queues, R, result) && i in Plan(I).info && m < I.Days()
    requires IsSeated(I, i) && OnFullLeave(I.seats[SeatKeyOf(I, i)], I.today + m)
    ensures Entry(Given(Plan(I), queues, m), i) == 0.0
    ensures var s := After(Plan(I), queues, I.Days())[i]; s.start != Some(I.today + m) && s.finish != Some(I.today + m)
    ensures i in result && result[i].start != Some(I.today + m)
  {
    hide IsForecast, Plan, After, Given, FreeHours, MayWork;
    LeaveHasNoHours(I.seats[SeatKeyOf(I, i)], I.today + m);
    NoWorkOnClosedDays(I, queues, R, result, i, m);
  }

  // ---- how many hours a seat gets ---------------------------------------------------------------------------

  // The hours somebody has for the tree over the first n days.
  function FreeTotal(I: Inputs, key: SeatKey, n: nat): real
    requires key in I.seats
  {
    if n == 0 then 0.0 else FreeTotal(I, key, n - 1) + FreeHours(I.seats[key], I.today + n - 1)
  }

  lemma {:induction false} CapacityInFields(I: Inputs, key: SeatKey, n: nat)
    requires I.Valid() && key in I.seats
    ensures Capacity(Plan(I), key, n) == FreeTotal(I, key, n)
  {
    hide Plan, FreeHours;
    if n > 0 {
      CapacityInFields(I, key, n - 1);
      HoursInFields(I, key, I.today + n - 1);
      TodayOfPlan(I);
    }
  }

  lemma TodayOfPlan(I: Inputs)
    requires I.Valid()
    ensures Plan(I).today == I.today && Plan(I).seats == I.seats.Keys && Plan(I).eps == I.eps
  {
    hide Dropped, ConstraintSet, BehindTable, WorksOf, Candidates;
  }

  lemma SeatIsKnown(S: Setup, queues: seq<SeatQueue>, a: nat)
    requires ValidQueues(S, queues) && a < |queues|
    ensures queues[a].key in S.seats && Distinct(queues[a].queue)
  {
    InOrderIsDistinct(S, queues[a].queue);
  }

  /** Over any number of days, the tasks of somebody in one tree get no more hours than that person has for the tree. */
  lemma GivenWithinFreeHours(I: Inputs, queues: seq<SeatQueue>, n: nat, a: nat)
    requires I.Valid() && ValidQueues(Plan(I), queues) && a < |queues|
    ensures queues[a].key in I.seats
    ensures TotalHours(Logs(Plan(I), queues, n), queues[a].queue) <= FreeTotal(I, queues[a].key, n)
  {
    hide Plan, ValidQueues, Ledger, FreeHours;
    var S := Plan(I);
    TodayOfPlan(I);
    SeatIsKnown(S, queues, a);
    RunKeepsLedger(S, queues, n);
    CapacityIsRespected(S, queues, States(S, queues, n), Logs(S, queues, n), a);
    CapacityInFields(I, queues[a].key, n);
  }

  // When day m is over, some leaf of the seat could still be worked on and has not been served.
  ghost predicate WorkRemains(S: Setup, queues: seq<SeatQueue>, m: nat, a: nat)
    requires a < |queues|
  {
    var ds := RunDay(S, queues, S.today + m, After(S, queues, m));
    exists i :: i in queues[a].queue && Eligible(S, i, S.today + m, ds.leaves, ds.given.Keys)
  }

  lemma DayIsUsed(S: Setup, queues: seq<SeatQueue>, m: nat, a: nat)
    requires ValidQueues(S, queues) && a < |queues| && WorkRemains(S, queues, m, a)
    ensures Sum(queues[a].queue, Given(S, queues, m)) >= S.hours(queues[a].key, S.today + m) - S.eps
  {
    hide ValidQueues, RunDay, Eligible, ServedRightly, Sum;
    var L := After(S, queues, m);
    var ds := RunDay(S, queues, S.today + m, L);
    var i :| i in queues[a].queue && Eligible(S, i, S.today + m, ds.leaves, ds.given.Keys);
    NoIdleCapacity(S, queues, S.today + m, L, a, i);
    DayBalances(S, queues, S.today + m, L);
    assert SeatBalances(S, queues[a], S.today + m, ds);
  }

  lemma {:induction false} CapacityIsUsed(S: Setup, queues: seq<SeatQueue>, n: nat, a: nat)
    requires ValidQueues(S, queues) && a < |queues| && forall m :: 0 <= m < n ==> WorkRemains(S, queues, m, a)
    ensures TotalHours(Logs(S, queues, n), queues[a].queue) >= Capacity(S, queues[a].key, n) - n as real * S.eps
  {
    hide ValidQueues, WorkRemains, RunDay, Given;
    if n == 0 {
      NoDaysNoHours(queues[a].queue);
    } else {
      CapacityIsUsed(S, queues, n - 1, a);
      DayIsUsed(S, queues, n - 1, a);
      var logs := Logs(S, queues, n);
      TotalHoursStep(logs, queues[a].queue);
      assert logs[..|logs| - 1] == Logs(S, queues, n - 1) && logs[|logs| - 1] == Given(S, queues, n - 1);
      assert n as real * S.eps == (n - 1) as real * S.eps + S.eps;
    }
  }

  /** And all of them, up to one epsilon a day, as long as every day ends with work that could still be done. */
  lemma FreeHoursAreUsed(I: Inputs, queues: seq<SeatQueue>, n: nat, a: nat)
    requires I.Valid() && ValidQueues(Plan(I), queues) && a < |queues|
    requires forall m :: 0 <= m < n ==> WorkRemains(Plan(I), queues, m, a)
    ensures queues[a].key in I.seats
    ensures TotalHours(Logs(Plan(I), queues, n), queues[a].queue) >= FreeTotal(I, queues[a].key, n) - n as real * I.eps
  {
    hide Plan, ValidQueues, FreeHours, WorkRemains;
    TodayOfPlan(I);
    SeatIsKnown(Plan(I), queues, a);
    CapacityIsUsed(Plan(I), queues, n, a);
    CapacityInFields(I, queues[a].key, n);
  }
}
