/** A forecast in which a finish-to-start dependency does not hold between the returned dates: the predecessor's
    finish is raised past the successor's start after the days have been planned. */
module ForecastExample {
  import opened Basics
  import opened WorkSeats
  import opened TaskBoard
  import opened ForecastModel
  import opened ForecastInvariants
  import opened ForecastLedger
  import opened ForecastFairness
  import opened ForecastOrdering
  import opened ForecastLocality
  import opened ForecastConfluence
  import opened ForecastClosedForm
  import opened ForecastWaiting
  import opened ForecastFloors
  import opened ForecastChains
  import opened ForecastSpec
  import opened ForecastOffice

  // Three people. Task 1 takes a day, task 2 a day after task 1 has finished, task 3 three days; and task 1 must not
  // finish before task 3 does.
  const TASKS: map<int, Task> := map[1 := TaskOf(1, 1, 8.0), 2 := TaskOf(2, 2, 8.0), 3 := TaskOf(3, 3, 24.0)]
  const DEPENDENCIES: seq<TaskDependency> := [TaskDependency(1, 2, FS, 0), TaskDependency(3, 1, FF, 0)]

  function TheInputs(): Inputs {
    Office(TASKS, map[], {1, 2, 3}, DEPENDENCIES, 3)
  }

  function OneLeaf(id: int, hours: real): LeafInfo {
    LeafInfo(TaskOf(id, id, hours), Person(id), hours, false)
  }

  const QUEUES: seq<SeatQueue> := [SeatQueue(Person(1), [1]), SeatQueue(Person(2), [2]), SeatQueue(Person(3), [3])]

  // What the plan made of these inputs is.
  ghost predicate IsThePlan(S: Setup) {
    && S.today == 0 && S.eps == 0.0 && S.info.Keys == {1, 2, 3} && S.seats == {Person(1), Person(2), Person(3)}
    && S.info[1] == OneLeaf(1, 8.0) && S.info[2] == OneLeaf(2, 8.0) && S.info[3] == OneLeaf(3, 24.0)
    && S.ConstraintsOn(1) == {Constraint(3, FF, 0)} && S.ConstraintsOn(2) == {Constraint(1, FS, 0)}
    && S.ConstraintsOn(3) == {} && S.Behind(1) == {1} && S.Behind(3) == {3}
    && (forall key, day :: key in S.seats ==> S.hours(key, day) == 8.0)
    && (forall i, day :: i in S.info ==> S.works(i, day))
  }

  lemma ThePlan() returns (S: Setup)
    ensures TheInputs().Valid() && S == Plan(TheInputs()) && IsThePlan(S)
  {
    hide Plan, IsOfficePlan, IsThePlan;
    BusyHere();
    OfficePlan(TASKS, map[], {1, 2, 3}, DEPENDENCIES, 3);
    S := Plan(TheInputs());
    PlanOfOffice(S);
  }

  lemma PlanOfOffice(S: Setup)
    requires IsOfficePlan(S, TASKS, map[], {1, 2, 3}, DEPENDENCIES)
    ensures IsThePlan(S)
  {
    hide ConstraintsNaming;
    assert S.Behind(DEPENDENCIES[0].predecessor) == {1} && S.Behind(DEPENDENCIES[1].predecessor) == {3};
    ConstraintsAre();
    assert 1 in TASKS && 2 in TASKS && 3 in TASKS;
    forall key, day | key in S.seats ensures S.hours(key, day) == 8.0 {
      var u :| u in {1, 2, 3} && Person(u) == key;
    }
  }

  lemma ConstraintsAre()
    ensures ConstraintsNaming(TASKS, map[], DEPENDENCIES, 1) == {Constraint(3, FF, 0)}
    ensures ConstraintsNaming(TASKS, map[], DEPENDENCIES, 2) == {Constraint(1, FS, 0)}
    ensures ConstraintsNaming(TASKS, map[], DEPENDENCIES, 3) == {}
  {
    assert DEPENDENCIES[0].Constraint() == Constraint(1, FS, 0) && DEPENDENCIES[1].Constraint() == Constraint(3, FF, 0);
  }

  lemma BusyHere()
    ensures Busy(TASKS, map[], {1, 2, 3})
  {
    hide ChildrenOf, Working;
    assert TASKS.Keys == {1, 2, 3};
    NoSubtasks(TASKS);
  }

  lemma QueuesAreValid(S: Setup)
    requires IsThePlan(S)
    ensures ValidQueues(S, QUEUES)
  {
    hide Before;
    forall i | i in S.info ensures exists a :: 0 <= a < |QUEUES| && QUEUES[a].key == S.info[i].seat {
      assert QUEUES[i - 1].key == S.info[i].seat;
    }
  }

  lemma SeatIsPlain(S: Setup, a: nat)
    requires IsThePlan(S)
    requires a == 0 || a == 2
    ensures PlainSeat(S, QUEUES[a])
  {
  }

  lemma {:induction false} EightHoursADay(S: Setup, a: nat, n: nat)
    requires IsThePlan(S)
    requires a < 3
    ensures Workable(S, QUEUES[a], n) == 8.0 * n as real
  {
    if n > 0 {
      EightHoursADay(S, a, n - 1);
      var i := QUEUES[a].queue[0];
      assert i in QUEUES[a].queue && S.works(i, S.today + n - 1);
    }
  }

  // A leaf alone in its queue finishes on the day its hours are full.
  lemma AloneInQueue(S: Setup, a: nat, n: nat, d: nat)
    requires IsThePlan(S)
    requires (a == 0 && d == 0) || (a == 2 && d == 2)
    requires d < n
    ensures After(S, QUEUES, n)[a + 1].finish == Some(d)
  {
    hide RunDay, ValidQueues, PlainSeat, After, Workable;
    QueuesAreValid(S);
    SeatIsPlain(S, a);
    var sq := QUEUES[a];
    PlainQueueFollowsFormula(S, QUEUES, a, 0, n);
    assert sq.queue[..1] == [a + 1] && [a + 1][1..] == [] && sq.queue[..0] == [];
    assert WorkOf(S, [a + 1]) == S.info[a + 1].initial;
    EightHoursADay(S, a, n);
    var s := After(S, QUEUES, n)[a + 1];
    assert s.finish.Some?;
    var f: nat := s.finish.value;
    EightHoursADay(S, a, f);
    EightHoursADay(S, a, f + 1);
  }

  lemma TaskTwoIsConsistent(S: Setup, n: nat)
    requires IsThePlan(S)
    ensures 2 in After(S, QUEUES, n) && Consistent(S, After(S, QUEUES, n)[2], n)
    ensures After(S, QUEUES, n)[2].remaining <= 8.0
  {
    hide RunDay, ValidQueues, After, Ledger;
    QueuesAreValid(S);
    RunKeepsLedger(S, QUEUES, n);
    HoursAreConserved(S, QUEUES, States(S, QUEUES, n), Logs(S, QUEUES, n), 2);
  }

  // On the first day task 2 still waits.
  lemma TaskTwoWaits(S: Setup)
    requires IsThePlan(S)
    ensures 2 in After(S, QUEUES, 1) && After(S, QUEUES, 1)[2].start.None?
  {
    hide RunDay, ValidQueues, After;
    QueuesAreValid(S);
    TaskTwoIsConsistent(S, 1);
    AloneInQueue(S, 0, 1, 0);
    var L := After(S, QUEUES, 1);
    if L[2].start.Some? {
      DependenciesHold(S, QUEUES, 1, 1, 2, Constraint(1, FS, 0), L[2].start.value);
      assert false;
    }
  }

  lemma OnlyForward(S: Setup)
    requires IsThePlan(S)
    ensures OnlyForwardStarts(S)
  {
  }

  // Task 2 is done on the second day, since task 1 is done after the first.
  lemma TaskTwoIsDone(S: Setup)
    requires IsThePlan(S)
    ensures 2 in After(S, QUEUES, 3) && After(S, QUEUES, 3)[2].start == Some(1)
    ensures After(S, QUEUES, 3)[2].finish == Some(1)
  {
    hide RunDay, ValidQueues, After, Steady, ReadyList, Serve, Morning, Visit, OnlyForwardStarts;
    QueuesAreValid(S);
    var L := After(S, QUEUES, 1);
    AloneInQueue(S, 0, 1, 0);
    RunIsClear(S, QUEUES, 1);
    TaskTwoIsConsistent(S, 1);
    TaskTwoWaits(S);
    OnlyForward(S);
    QueueSteady(S, QUEUES, 1, 1, L);
    RunIsNeverOverdone(S, QUEUES, 1);
    OneVisitSettlesTheDay(S, QUEUES, 1, 1, L);
    TaskTwoIsServed(S, L);
    AfterNextDay(S, QUEUES, 1);
    assert 2 in QUEUES[1].queue;
    DayKeepsLeaves(S, QUEUES, 1, L);
    AgreeOnLeaf(QUEUES[1], RunDay(S, QUEUES, 1, L), Visit(S, QUEUES[1], 1, Morning(S, 1, L)), 2);
    RunGrows(S, QUEUES, 2, 3);
  }

  lemma TaskTwoIsReady(S: Setup, L: Leaves)
    requires IsThePlan(S)
    requires L.Keys == S.info.Keys && 1 in L && 2 in L
    requires L[1].finish == Some(0) && L[2].finish.None?
    ensures ReadyAt(S, QUEUES[1], 1, Morning(S, 1, L)) == [2]
    ensures Morning(S, 1, L).Left(Person(2)) == 8.0
  {
    var M := Morning(S, 1, L);
    var c := Constraint(1, FS, 0);
    assert Satisfied(S, c, 1, L);
    assert M.given.Keys == {};
    assert Eligible(S, 2, 1, L, {});
    assert QUEUES[1].queue[1..] == [];
    assert ReadyList(S, [], 1, L, {}) == [];
  }

  lemma TaskTwoIsServed(S: Setup, L: Leaves)
    requires IsThePlan(S)
    requires L.Keys == S.info.Keys && Clear(L) && 1 in L && 2 in L
    requires L[1].finish == Some(0) && L[2].finish.None? && L[2].start.None? && L[2].remaining <= 8.0
    ensures Visit(S, QUEUES[1], 1, Morning(S, 1, L)).leaves[2] == LeafState(0.0, Some(1), Some(1))
  {
    hide ReadyAt, Morning, Satisfied;
    var M := Morning(S, 1, L);
    assert M.leaves == L by { MorningLeaves(S, 1, L); }
    TaskTwoIsReady(S, L);
    assert S.Share(2) == 0;
    assert Unshared(S, [2]) == [2] && Shared(S, [2]) == [] by {
      assert [2][1..] == [];
      assert Unshared(S, []) == [] && Shared(S, []) == [];
    }
    assert Line(S, [2]) == [2];
    var r := ServeOne(S, Person(2), 2, DayScale(S, [2]), 1, M);
    assert r.leaves[2] == LeafState(0.0, Some(1), Some(1));
    assert [2][1..] == [];
    ServingNobody(S, Person(2), DayScale(S, [2]), 1, r);
    assert HandOut(S, Person(2), [2], 1, M) == r;
  }

  lemma MorningLeaves(S: Setup, day: Day, L: Leaves)
    ensures Morning(S, day, L).leaves == L
  {
  }

  // After three days task 1 has its finish raised to that of task 3.
  lemma TheRun(S: Setup) returns (R: Leaves)
    requires IsThePlan(S)
    ensures RaisedRun(S, QUEUES, 3, R)
    ensures 1 in R && 2 in R && R[1].finish == Some(2) && R[2].start == Some(1) && R[2].finish == Some(1)
  {
    hide RunDay, ValidQueues, After, Lifted, IsThePlan;
    QueuesAreValid(S);
    var L := After(S, QUEUES, 3);
    PlanKeys(S);
    AloneInQueue(S, 0, 3, 0);
    AloneInQueue(S, 2, 3, 2);
    TaskTwoIsDone(S);
    R := RaiseTo(L, 1, 2);
    RaisedOnce(S, L, R);
  }

  /** Finish-to-start can fail in the dates that are returned: here task 2 waits for task 1, yet starts on a day that is
      not after the finish returned for task 1, because that finish waits for task 3. */
  lemma FinishToStartCanFail() returns (I: Inputs, queues: seq<SeatQueue>, R: Leaves, result: Results)
    ensures IsForecast(I, queues, R, result)
    ensures TaskDependency(1, 2, FS, 0) in I.dependencies && 1 in result && 2 in result
    ensures result[1].finish.Some? && result[2].start.Some? && result[1].finish.value + 1 > result[2].start.value
  {
    hide RaisedRun, IsForecast, Plan, IsThePlan, Busy;
    I, queues := TheInputs(), QUEUES;
    var S := ThePlan();
    R := TheRun(S);
    BusyHere();
    result := OfficeForecast(TASKS, map[], {1, 2, 3}, DEPENDENCIES, 3, queues, R, map[]);
    assert DEPENDENCIES[0] in I.dependencies;
  }

  lemma PlanKeys(S: Setup)
    requires IsThePlan(S)
    ensures S.info.Keys == {1, 2, 3}
  {
  }

  lemma RaisedOnce(S: Setup, L: Leaves, R: Leaves)
    requires IsThePlan(S)
    requires L.Keys == S.info.Keys && L[1].finish == Some(0) && L[3].finish == Some(2)
    requires R == RaiseTo(L, 1, 2)
    ensures Lifted(S, L, R)
  {
    hide Justified, Lifted;
    var c := Constraint(3, FF, 0);
    assert IsBase(S, c, L, 2);
    NothingRaisedYet(S, L);
    RaiseKeepsJustified(S, L, L, 1, c, 2);
    forall i | i in R ensures FloorsMet(S, R, i) {
      assert i == 1 || i == 2 || i == 3;
    }
    MetIsLifted(S, L, R);
  }
}
