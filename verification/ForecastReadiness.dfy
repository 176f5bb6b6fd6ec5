/** When a task may be worked on, in terms of the tasks, dependencies and days given; and that nothing waits without a reason. */
module ForecastReadiness {
  import opened Basics
  import opened Reachability
  import opened WorkSeats
  import opened TaskBoard
  import opened ForecastModel
  import opened ForecastWaiting
  import opened ForecastFairness
  import opened ForecastFloors
  import opened ForecastChains
  import opened ForecastSpec
  import opened ForecastTheorems
  import opened ForecastHours
  import opened ForecastReasons

  // Being done, or with hours logged, or not part of the forecast because it is over.
  predicate UnderWay(I: Inputs, L: Leaves, j: int) {
    j !in L || j !in I.tasks || I.tasks[j].status.Doing? || Entry(I.actual, j) > 0.0
  }

  // All of the predecessor was over before today, or at least a day and the lag before the day.
  ghost predicate FinishedBefore(I: Inputs, L: Leaves, predecessor: int, lag: int, day: Day) {
    && I.today + lag <= day
    && forall j :: j in LeafSet(I.children, predecessor) && j in L ==> L[j].finish.Some? && L[j].finish.value + 1 + lag <= day
  }

  // Some of the predecessor was under way before today, and the lag is over since yesterday; or else some of it started at
  // least the lag before the day.
  ghost predicate StartedBy(I: Inputs, L: Leaves, predecessor: int, lag: int, day: Day) {
    if exists j :: j in LeafSet(I.children, predecessor) && UnderWay(I, L, j) then I.today - 1 + lag <= day
    else exists j :: j in LeafSet(I.children, predecessor) && j in L && L[j].start.Some? && L[j].start.value + lag <= day
  }

  ghost predicate Met(I: Inputs, L: Leaves, d: TaskDependency, day: Day) {
    && (d.kind.FS? ==> FinishedBefore(I, L, d.predecessor, d.lag, day))
    && (d.kind.SS? ==> StartedBy(I, L, d.predecessor, d.lag, day))
  }

  // Every dependency between known tasks that bears on the leaf is met.
  ghost predicate AllMet(I: Inputs, L: Leaves, i: int, day: Day) {
    forall k :: 0 <= k < |I.dependencies| && Applies(I, k, i) ==> Met(I, L, I.dependencies[k], day)
  }

  lemma BegunInFields(I: Inputs, L: Leaves, j: int)
    requires I.Valid() && L.Keys == Plan(I).info.Keys
    ensures var S := Plan(I); (j !in L || j !in S.info || S.info[j].startedBefore) <==> UnderWay(I, L, j)
  {
    hide Plan;
    if j in L { PlanInFields(I, j); }
  }

  lemma FinishedInFields(I: Inputs, L: Leaves, c: Constraint, day: Day)
    requires I.Valid() && c.kind.FS? && Plan(I).Behind(c.predecessor) == LeafSet(I.children, c.predecessor)
    ensures Satisfied(Plan(I), c, day, L) <==> FinishedBefore(I, L, c.predecessor, c.lag, day)
  {
    hide Plan, LeafSet;
    TodayOfPlan(I);
  }

  lemma BegunBelow(I: Inputs, L: Leaves, p: int)
    requires I.Valid() && Plan(I).Behind(p) == LeafSet(I.children, p) && L.Keys == Plan(I).info.Keys
    ensures BegunBefore(Plan(I), p, L) <==> exists j :: j in LeafSet(I.children, p) && UnderWay(I, L, j)
  {
    hide Plan, LeafSet, UnderWay;
    var S := Plan(I);
    forall j ensures (j !in L || j !in S.info || S.info[j].startedBefore) <==> UnderWay(I, L, j) { BegunInFields(I, L, j); }
  }

  lemma StartedInFields(I: Inputs, L: Leaves, c: Constraint, day: Day)
    requires I.Valid() && c.kind.SS? && Plan(I).Behind(c.predecessor) == LeafSet(I.children, c.predecessor)
    requires L.Keys == Plan(I).info.Keys
    ensures Satisfied(Plan(I), c, day, L) <==> StartedBy(I, L, c.predecessor, c.lag, day)
  {
    hide Plan, LeafSet, UnderWay, BegunBefore;
    TodayOfPlan(I);
    BegunBelow(I, L, c.predecessor);
  }

  lemma MetInFields(I: Inputs, L: Leaves, k: nat, i: int, day: Day)
    requires I.Valid() && L.Keys == Plan(I).info.Keys && k < |I.dependencies| && Applies(I, k, i) && i in Plan(I).info
    ensures Satisfied(Plan(I), I.dependencies[k].Constraint(), day, L) <==> Met(I, L, I.dependencies[k], day)
  {
    hide Plan, LeafSet, FinishedBefore, StartedBy;
    DependencyBinds(I, k, i);
    match I.dependencies[k].kind
    case FS => FinishedInFields(I, L, I.dependencies[k].Constraint(), day);
    case SS => StartedInFields(I, L, I.dependencies[k].Constraint(), day);
    case _ =>
  }

  /** What a leaf waits for are the dependencies given: nothing more, and nothing less. */
  lemma AllMetInFields(I: Inputs, L: Leaves, i: int, day: Day)
    requires I.Valid() && L.Keys == Plan(I).info.Keys && i in Plan(I).info
    ensures AllSatisfied(Plan(I), i, day, L) <==> AllMet(I, L, i, day)
  {
    hide Plan;
    hide Applies, Met, Satisfied;
    var S := Plan(I);
    ConstraintsOfPlan(I, i);
    forall k: nat | k < |I.dependencies| && Applies(I, k, i)
      ensures Satisfied(S, I.dependencies[k].Constraint(), day, L) <==> Met(I, L, I.dependencies[k], day)
    {
      MetInFields(I, L, k, i, day);
    }
    forall c | c in S.ConstraintsOn(i)
      ensures exists k :: 0 <= k < |I.dependencies| && Applies(I, k, i) && I.dependencies[k].Constraint() == c
    {
    }
    if AllSatisfied(S, i, day, L) {
      forall k | 0 <= k < |I.dependencies| && Applies(I, k, i) ensures Met(I, L, I.dependencies[k], day) {
        assert I.dependencies[k].Constraint() in S.ConstraintsOn(i);
      }
    }
  }

  lemma ConstraintsOfPlan(I: Inputs, i: int)
    requires I.Valid() && i in Plan(I).info
    ensures Plan(I).ConstraintsOn(i) == ConstraintSet(I, i)
  {
    hide Dropped, Candidates, ConstraintSet, BehindTable, WorksOf;
  }

  // Why a leaf is not worked on: it is finished, or the day is closed for it, or a dependency is not met.
  ghost predicate HasReason(I: Inputs, L: Leaves, i: int, day: Day)
    requires IsSeated(I, i) && i in L
  {
    L[i].finish.Some? || IsClosed(I, i, day) || !AllMet(I, L, i, day)
  }

  lemma ReadyInFields(I: Inputs, L: Leaves, given: set<int>, i: int, day: Day)
    requires I.Valid() && L.Keys == Plan(I).info.Keys && i in Plan(I).info && i !in given && IsSeated(I, i)
    requires !HasReason(I, L, i, day)
    ensures Eligible(Plan(I), i, day, L, given)
  {
    hide Plan, AllMet, AllSatisfied, MayWork, FreeHours;
    LeavesAreSeated(I, i);
    WorksInFields(I, i, day);
    AllMetInFields(I, L, i, day);
  }

  /** When a day is over, every seat has spent its hours but for an epsilon, or every one of its leaves has been served today or
      has a reason for not having been. */
  lemma NothingWaitsWithoutReason(I: Inputs, queues: seq<SeatQueue>, n: nat, a: nat, i: int)
    requires I.Valid() && ValidQueues(Plan(I), queues) && a < |queues| && i in queues[a].queue
    ensures i in Plan(I).info && IsSeated(I, i)
    ensures var ds := RunDay(Plan(I), queues, I.today + n, After(Plan(I), queues, n));
            && i in ds.leaves
            && (ds.Left(queues[a].key) <= I.eps || i in ds.given || HasReason(I, ds.leaves, i, I.today + n))
  {
    hide Plan, ValidQueues, RunDay, HasReason, Eligible, IsSeated, After, Morning, IsClosed, AllMet;
    QueuedIsLeaf(Plan(I), queues, a, i);
    LeavesAreSeated(I, i);
    TodayOfPlan(I);
    var L := After(Plan(I), queues, n);
    var ds := RunDay(Plan(I), queues, I.today + n, L);
    DayHasLeaves(Plan(I), queues, I.today + n, L);
    NoIdleCapacity(Plan(I), queues, I.today + n, L, a, i);
    if i !in ds.given && !HasReason(I, ds.leaves, i, I.today + n) {
      ReadyInFields(I, ds.leaves, ds.given.Keys, i, I.today + n);
    }
  }

  lemma QueuedIsLeaf(S: Setup, queues: seq<SeatQueue>, a: nat, i: int)
    requires ValidQueues(S, queues) && a < |queues| && i in queues[a].queue
    ensures i in S.info
  {
  }

  lemma DayHasLeaves(S: Setup, queues: seq<SeatQueue>, day: Day, L: Leaves)
    ensures RunDay(S, queues, day, L).leaves.Keys == L.Keys
  {
    hide Rounds;
  }

  /** A leaf of the plan that is not finished within the horizon waits if it never started and a dependency would still hold it
      back on the day after; otherwise it goes beyond the horizon. */
  lemma UnfinishedInFields(I: Inputs, queues: seq<SeatQueue>, R: Leaves, result: Results, i: int)
    requires IsForecast(I, queues, R, result) && i in Plan(I).info && i in R && R[i].finish.None?
    ensures i in result
    ensures result[i] == if R[i].start.None? && !AllMet(I, R, i, I.today + I.horizonDays) then Gapped(WaitingForOthers)
                         else Gapped(BeyondHorizon)
  {
    hide IsForecast, LeafResultsAre, Plan, AllMet, AllSatisfied;
    ForecastHasResults(I, queues, R, result);
    RaisedKeys(I, R, result);
    ResultOfPlanned(I, R, result, i);
    AllMetInFields(I, R, i, I.LastDay() + 1);
  }

  lemma ResultOfPlanned(I: Inputs, R: Leaves, result: Results, i: int)
    requires I.Valid() && LeafResultsAre(I, R, result) && i in Plan(I).info && i in R
    ensures i in result && result[i] == LeafResult(Plan(I), I.LastDay(), R, i)
  {
    hide Plan, LeafResult, Candidates, Childless;
    LeafInPlanIsChildless(I, i);
  }

  lemma RaisedKeys(I: Inputs, R: Leaves, result: Results)
    requires I.Valid() && LeafResultsAre(I, R, result)
    ensures R.Keys == Plan(I).info.Keys
  {
    hide Plan, LeafResult;
  }

  // ---- finishes that wait for others -----------------------------------------------------------------------

  // The finish is at least the lag after that of all of the predecessor, where all of it has one or is over.
  ghost predicate AfterFinish(I: Inputs, L: Leaves, predecessor: int, lag: int, finish: Day) {
    (forall j :: j in LeafSet(I.children, predecessor) && j in L ==> L[j].finish.Some?) ==>
      && I.today - 1 + lag <= finish
      && forall j :: j in LeafSet(I.children, predecessor) && j in L ==> L[j].finish.value + lag <= finish
  }

  // The finish is at least the lag after the start of some of the predecessor, where it has one or was under way before.
  ghost predicate AfterStart(I: Inputs, L: Leaves, predecessor: int, lag: int, finish: Day) {
    if exists j :: j in LeafSet(I.children, predecessor) && UnderWay(I, L, j) then I.today - 1 + lag <= finish
    else (exists j :: j in LeafSet(I.children, predecessor) && j in L && L[j].start.Some?) ==>
           exists j :: j in LeafSet(I.children, predecessor) && j in L && L[j].start.Some? && L[j].start.value + lag <= finish
  }

  lemma FloorInFields(I: Inputs, L: Leaves, c: Constraint, finish: Day)
    requires I.Valid() && Plan(I).Behind(c.predecessor) == LeafSet(I.children, c.predecessor)
    requires L.Keys == Plan(I).info.Keys && FloorMet(Plan(I), c, L, finish)
    ensures c.kind.FF? ==> AfterFinish(I, L, c.predecessor, c.lag, finish)
    ensures c.kind.SF? ==> AfterStart(I, L, c.predecessor, c.lag, finish)
  {
    hide Plan, LeafSet, UnderWay, BegunBefore;
    TodayOfPlan(I);
    BegunBelow(I, L, c.predecessor);
  }

  /** Finish-to-finish and start-to-finish dependencies hold between the dates that are returned, as long as no ring of
      finish-to-finish dependencies comes back later than it set out. */
  lemma FinishFloorsHold(I: Inputs, queues: seq<SeatQueue>, R: Leaves, result: Results, k: nat, i: int)
    requires IsForecast(I, queues, R, result) && k < |I.dependencies| && Applies(I, k, i)
    requires i in Plan(I).info && i in R && R[i].finish.Some?
    requires NoRingRises(Plan(I), After(Plan(I), queues, I.Days()))
    ensures i in result && result[i].finish == R[i].finish
    ensures forall j :: j in LeafSet(I.children, I.dependencies[k].predecessor) && j in R && R[j].finish.Some? ==>
              j in result && result[j].finish == R[j].finish
    ensures var d := I.dependencies[k];
            && (d.kind.FF? ==> AfterFinish(I, R, d.predecessor, d.lag, R[i].finish.value))
            && (d.kind.SF? ==> AfterStart(I, R, d.predecessor, d.lag, R[i].finish.value))
  {
    hide IsForecast, LeafResultsAre, Plan, Lifted, NoRingRises, Applies, AfterFinish, AfterStart, LeafSet, After, FloorMet, Solvable,
         LeastSolution;
    ForecastHasResults(I, queues, R, result);
    ForecastRuns(I, queues, R, result);
    RaisedKeys(I, R, result);
    ResultsOfRaised(I, R, result);
    DependencyBinds(I, k, i);
    FloorsAreMetExactly(Plan(I), After(Plan(I), queues, I.Days()), R);
    assert FloorsMet(Plan(I), R, i);
    FloorInFields(I, R, I.dependencies[k].Constraint(), R[i].finish.value);
  }

  lemma ResultsOfRaised(I: Inputs, R: Leaves, result: Results)
    requires I.Valid() && LeafResultsAre(I, R, result)
    ensures forall j :: j in R && R[j].finish.Some? ==> j in result && result[j].finish == R[j].finish
  {
    hide Plan, LeafResultsAre, AllSatisfied;
    RaisedKeys(I, R, result);
    forall j | j in R && R[j].finish.Some? ensures j in result && result[j].finish == R[j].finish {
      ResultOfPlanned(I, R, result, j);
    }
  }

  // The finish is exactly where the dependency puts it.
  ghost predicate JustMet(I: Inputs, L: Leaves, d: TaskDependency, finish: Day) {
    match d.kind
    case FF =>
      || finish == I.today - 1 + d.lag
      || exists j :: j in LeafSet(I.children, d.predecessor) && j in L && L[j].finish == Some(finish - d.lag)
    case SF =>
      || finish == I.today - 1 + d.lag
      || exists j :: j in LeafSet(I.children, d.predecessor) && j in L && L[j].start == Some(finish - d.lag)
    case _ => false
  }

  // The finish is that of the work itself, or exactly where some dependency puts it.
  ghost predicate IsNeeded(I: Inputs, worked: Leaves, R: Leaves, i: int) {
    i in worked && i in R && R[i].finish.Some?
    && (R[i].finish == worked[i].finish
        || exists k :: 0 <= k < |I.dependencies| && Applies(I, k, i) && JustMet(I, R, I.dependencies[k], R[i].finish.value))
  }

  lemma TightInFields(I: Inputs, L: Leaves, c: Constraint, d: TaskDependency, x: Day)
    requires I.Valid() && c == d.Constraint() && Plan(I).Behind(d.predecessor) == LeafSet(I.children, d.predecessor)
    requires FloorMet(Plan(I), c, L, x) && !FloorMet(Plan(I), c, L, x - 1)
    ensures JustMet(I, L, d, x)
  {
    hide Plan, LeafSet;
    TodayOfPlan(I);
  }

  /** And no finish is later than its work and these dependencies make it: a finish that was moved stands exactly the lag after
      a finish or start behind one of them, or after yesterday. */
  lemma FinishesAreNeeded(I: Inputs, queues: seq<SeatQueue>, R: Leaves, result: Results, i: int)
    requires IsForecast(I, queues, R, result) && i in Plan(I).info && i in R && R[i].finish.Some?
    requires NoRingRises(Plan(I), After(Plan(I), queues, I.Days()))
    ensures i in result && result[i].finish == R[i].finish
    ensures IsNeeded(I, After(Plan(I), queues, I.Days()), R, i)
  {
    hide IsForecast, LeafResultsAre, Plan, Lifted, NoRingRises, Applies, JustMet, LeafSet, After, FloorMet, Solvable, LeastSolution;
    ForecastHasResults(I, queues, R, result);
    ForecastRuns(I, queues, R, result);
    ResultsOfRaised(I, R, result);
    var L0 := After(Plan(I), queues, I.Days());
    FloorsAreMetExactly(Plan(I), L0, R);
    LeastIsNeeded(Plan(I), L0, R, i);
    if R[i].finish != L0[i].finish {
      var c :| c in Plan(I).ConstraintsOn(i) && FloorMet(Plan(I), c, R, R[i].finish.value)
               && !FloorMet(Plan(I), c, R, R[i].finish.value - 1);
      ConstraintsOfPlan(I, i);
      var k: nat :| k < |I.dependencies| && Applies(I, k, i) && I.dependencies[k].Constraint() == c;
      DependencyBinds(I, k, i);
      TightInFields(I, R, c, I.dependencies[k], R[i].finish.value);
    }
  }
}
