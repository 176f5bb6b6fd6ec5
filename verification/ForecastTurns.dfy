/** Whose turn it is, in terms of the tasks: due dates, priorities, planned starts and percentages. */
module ForecastTurns {
  import opened Basics
  import opened WorkSeats
  import opened TaskBoard
  import opened ForecastModel
  import opened ForecastFairness
  import opened ForecastRuns
  import opened ForecastSpec
  import opened ForecastHours

  // ---- priority ---------------------------------------------------------------------------------------

  // An earlier date, or a date where the other has none.
  predicate Sooner(a: Option<Day>, b: Option<Day>) {
    a.Some? && (if b.Some? then a.value < b.value else a.value < LAST_DATE)
  }

  // a is due sooner; or due the same day and of higher priority; or alike in that, and planned to start sooner; or alike in
  // all of this and made first.
  predicate MoreUrgent(a: Task, b: Task) {
    || Sooner(a.dueDate, b.dueDate)
    || (a.dueDate == b.dueDate && a.priority > b.priority)
    || (a.dueDate == b.dueDate && a.priority == b.priority && Sooner(a.startDate, b.startDate))
    || (a.dueDate == b.dueDate && a.priority == b.priority && a.startDate == b.startDate && a.id < b.id)
  }

  lemma UrgentIsAhead(a: Task, b: Task)
    requires MoreUrgent(a, b)
    ensures Before(a, b)
  {
  }

  // The leaf shares no day by percentage.
  predicate TakesTurns(task: Task) {
    task.allocationPercent.None?
  }

  /** On every visit of every day of a forecast: a task without a percentage only gets hours if that same visit finishes every
      more urgent one of the same person that could be worked on too. */
  lemma UrgencyIsHonoured(I: Inputs, queues: seq<SeatQueue>, n: nat, r: nat, a: nat, i: int, j: int)
    requires I.Valid() && ValidQueues(Plan(I), queues) && a < |queues|
    requires i in Plan(I).info && j in Plan(I).info && i in I.tasks && j in I.tasks
    requires TakesTurns(I.tasks[i]) && TakesTurns(I.tasks[j]) && MoreUrgent(I.tasks[i], I.tasks[j])
    requires i in ReadyAt(Plan(I), queues[a], I.today + n, AtVisit(Plan(I), queues, n, r, a))
    requires j in ReadyAt(Plan(I), queues[a], I.today + n, AtVisit(Plan(I), queues, n, r, a))
    requires j in AtVisit(Plan(I), queues, n, r, a + 1).given
    ensures AtVisit(Plan(I), queues, n, r, a + 1).leaves[i].finish == Some(I.today + n)
  {
    hide Plan, ValidQueues, ReadyAt, AtVisit, Before, MoreUrgent;
    LeavesAreSeated(I, i);
    LeavesAreSeated(I, j);
    TodayOfPlan(I);
    UrgentIsAhead(I.tasks[i], I.tasks[j]);
    QueueIsHonoured(Plan(I), queues, n, r, a, i, j);
  }

  // ---- percentages -------------------------------------------------------------------------------------

  function PercentOf(task: Task): int {
    if task.allocationPercent.Some? then task.allocationPercent.value else 0
  }

  // All percentages in a list of tasks together.
  function Claimed(tasks: map<int, Task>, ids: seq<int>): int {
    if ids == [] then 0 else (if ids[0] in tasks then PercentOf(tasks[ids[0]]) else 0) + Claimed(tasks, ids[1..])
  }

  // The part of the hours that a claim comes to: its percentage, unless the claims add up to more than the whole; then each
  // gets in proportion, and all together exactly the whole.
  predicate IsFairPart(hours: real, percent: int, claimed: int, part: real) {
    && (claimed <= 100 ==> part * 100.0 == hours * percent as real)
    && (claimed > 100 ==> part * claimed as real == hours * percent as real)
  }

  lemma {:induction false} ClaimedIsTotal(I: Inputs, ids: seq<int>)
    requires I.Valid() && forall i :: i in ids ==> i in Plan(I).info
    ensures Claimed(I.tasks, ids) == TotalPercent(Plan(I), Shared(Plan(I), ids)) >= 0
  {
    hide Plan;
    if ids != [] {
      assert ids[0] in ids;
      LeavesAreSeated(I, ids[0]);
      PlanIsPercent(Plan(I), ids[0]);
      ClaimedIsTotal(I, ids[1..]);
      SharedHead(Plan(I), ids);
    }
  }

  lemma PlanIsPercent(S: Setup, i: int)
    requires i in S.info
    ensures 0 <= S.Share(i) <= 100
  {
  }

  lemma SharedHead(S: Setup, ids: seq<int>)
    requires ids != [] && forall i :: i in ids ==> i in S.info
    ensures S.Share(ids[0]) >= 0 ==> TotalPercent(S, Shared(S, ids)) == S.Share(ids[0]) + TotalPercent(S, Shared(S, ids[1..]))
  {
    var rest := Shared(S, ids[1..]);
    assert ([ids[0]] + rest)[1..] == rest && [] + rest == rest;
  }

  lemma PortionIsFair(hours: real, percent: int, claimed: int)
    requires claimed > 0
    ensures IsFairPart(hours, percent, claimed, Portion(hours, percent, Scale(claimed)))
  {
    var share := percent as real / 100.0;
    assert share * 100.0 == percent as real;
    if claimed <= 100 {
      assert 100.0 / claimed as real >= 1.0;
      assert Portion(hours, percent, Scale(claimed)) == hours * share;
      assert hours * share * 100.0 == hours * (share * 100.0);
    } else {
      var inverse := 100.0 / claimed as real;
      assert inverse * claimed as real == 100.0;
      assert Scale(claimed) == inverse;
      var part := hours * share * inverse;
      assert part * claimed as real == hours * share * (inverse * claimed as real);
      assert hours * share * 100.0 == hours * (share * 100.0);
    }
  }

  // Somebody's tasks that could be worked on when they are visited first on day n.
  ghost function ReadyFirst(I: Inputs, queues: seq<SeatQueue>, n: nat, a: nat): (r: seq<int>)
    requires I.Valid() && a < |queues|
    ensures forall i :: i in r ==> i in Plan(I).info
  {
    hide Plan, AtVisit, Eligible;
    EligibleAreLeaves(Plan(I), queues[a], I.today + n, AtVisit(Plan(I), queues, n, 0, a));
    ReadyAt(Plan(I), queues[a], I.today + n, AtVisit(Plan(I), queues, n, 0, a))
  }

  lemma EligibleAreLeaves(S: Setup, sq: SeatQueue, day: Day, ds: DayState)
    ensures forall i :: i in ReadyAt(S, sq, day, ds) ==> i in S.info && i in ds.leaves
  {
    hide AllSatisfied;
  }

  // What the hours come to that a leaf with a percentage is given: its fair part, or what is left to do if that is less.
  ghost predicate GetsFairPart(hours: real, percent: int, claimed: int, left: real, given: real) {
    exists part :: IsFairPart(hours, percent, claimed, part) && given == Min(part, left)
  }

  /** On the first visit of every day of a forecast on which somebody has hours: each task with a percentage that can be worked
      on gets exactly that percentage of the hours; where the percentages of all that can be worked on claim more than the
      whole, its part in proportion, the parts making up the whole; and what is left to do, if that is less. */
  lemma SharesInFields(I: Inputs, queues: seq<SeatQueue>, n: nat, a: nat, i: int)
    requires I.Valid() && I.eps == 0.0 && ValidQueues(Plan(I), queues) && a < |queues| && queues[a].key in I.seats
    requires FreeHours(I.seats[queues[a].key], I.today + n) > 0.0
    requires i in ReadyFirst(I, queues, n, a) && i in I.tasks && I.tasks[i].allocationPercent.Some?
    ensures var given := AtVisit(Plan(I), queues, n, 0, a + 1).given;
            && i in given && i in AtVisit(Plan(I), queues, n, 0, a).leaves
            && GetsFairPart(FreeHours(I.seats[queues[a].key], I.today + n), PercentOf(I.tasks[i]),
                            Claimed(I.tasks, ReadyFirst(I, queues, n, a)),
                            AtVisit(Plan(I), queues, n, 0, a).leaves[i].remaining, given[i])
  {
    hide Plan, ValidQueues, ReadyAt, AtVisit, FreeHours, GetsFairPart, Portion, Scale, Shared, TotalPercent;
    var S, ready := Plan(I), ReadyFirst(I, queues, n, a);
    TodayOfPlan(I);
    LeavesAreSeated(I, i);
    HoursInFields(I, queues[a].key, I.today + n);
    SharesArePositive(S, i);
    SharesAreExact(S, queues, n, a, i);
    ClaimedIsTotal(I, ready);
    ClaimIsIncluded(I, ready, i);
    CutIsFair(FreeHours(I.seats[queues[a].key], I.today + n), PercentOf(I.tasks[i]), Claimed(I.tasks, ready),
              AtVisit(S, queues, n, 0, a).leaves[i].remaining);
  }

  lemma CutIsFair(hours: real, percent: int, claimed: int, left: real)
    requires claimed > 0
    ensures GetsFairPart(hours, percent, claimed, left, Min(Portion(hours, percent, Scale(claimed)), left))
  {
    hide IsFairPart, Portion, Scale;
    PortionIsFair(hours, percent, claimed);
  }

  lemma SharesArePositive(S: Setup, i: int)
    requires i in S.info
    ensures S.info[i].task.allocationPercent.Some? ==> S.Share(i) > 0
  {
  }

  lemma {:induction false} ClaimIsIncluded(I: Inputs, ids: seq<int>, i: int)
    requires I.Valid() && i in ids && (forall k :: k in ids ==> k in Plan(I).info) && i in I.tasks
    ensures Claimed(I.tasks, ids) >= PercentOf(I.tasks[i])
    ensures I.tasks[i].allocationPercent.Some? ==> PercentOf(I.tasks[i]) > 0
  {
    hide Plan;
    ClaimedIsTotal(I, ids[1..]);
    if ids[0] != i {
      LeavesAreSeated(I, ids[0]);
      ClaimIsIncluded(I, ids[1..], i);
    }
  }
}
