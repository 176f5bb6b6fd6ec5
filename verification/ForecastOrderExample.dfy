/** Every kind of dependency that ForecastConfluence leaves out lets the order in which seats are visited decide who works
    today: some input gets another forecast when the seats come in another order. */
module ForecastOrderExample {
  import opened Basics
  import opened WorkSeats
  import opened TaskBoard
  import opened ForecastModel
  import opened ForecastFairness
  import opened ForecastConfluence
  import opened ForecastClosedForm
  import opened ForecastWaiting
  import opened ForecastFloors
  import opened ForecastChains
  import opened ForecastSpec
  import opened ForecastOffice

  // Two people. Task 1 is a day's work of the first person, tasks 2 and 3 of the second; task 2 waits for task 1.
  const TASKS: map<int, Task> := map[1 := TaskOf(1, 1, 8.0), 2 := TaskOf(2, 2, 8.0), 3 := TaskOf(3, 2, 8.0)]

  function WaitsForOne(kind: DependencyType, lag: int): seq<TaskDependency> {
    [TaskDependency(1, 2, kind, lag)]
  }

  function TheInputs(kind: DependencyType, lag: int): Inputs {
    Office(TASKS, map[], {1, 2}, WaitsForOne(kind, lag), 1)
  }

  function ADay(id: int, user: int): LeafInfo {
    LeafInfo(TaskOf(id, user, 8.0), Person(user), 8.0, false)
  }

  const FIRST: SeatQueue := SeatQueue(Person(1), [1])
  const SECOND: SeatQueue := SeatQueue(Person(2), [2, 3])

  // What the plan made of these inputs is.
  ghost predicate IsThePlan(S: Setup, c: Constraint) {
    && S.today == 0 && S.eps == 0.0 && S.info.Keys == {1, 2, 3} && S.seats == {Person(1), Person(2)}
    && S.info[1] == ADay(1, 1) && S.info[2] == ADay(2, 2) && S.info[3] == ADay(3, 2)
    && S.ConstraintsOn(1) == {} && S.ConstraintsOn(2) == {c} && S.ConstraintsOn(3) == {}
    && c.predecessor == 1 && S.Behind(1) == {1} && !LooksBack(c.kind, c.lag)
    && (forall key, day :: key in S.seats ==> S.hours(key, day) == 8.0)
    && (forall i, day :: i in S.info ==> S.works(i, day))
  }

  lemma ThePlan(kind: DependencyType, lag: int) returns (S: Setup)
    requires !LooksBack(kind, lag)
    ensures TheInputs(kind, lag).Valid() && S == Plan(TheInputs(kind, lag)) && IsThePlan(S, Constraint(1, kind, lag))
  {
    hide Plan, IsOfficePlan, IsThePlan;
    BusyHere();
    OfficePlan(TASKS, map[], {1, 2}, WaitsForOne(kind, lag), 1);
    S := Plan(TheInputs(kind, lag));
    PlanOfOffice(S, kind, lag);
  }

  lemma PlanOfOffice(S: Setup, kind: DependencyType, lag: int)
    requires IsOfficePlan(S, TASKS, map[], {1, 2}, WaitsForOne(kind, lag)) && !LooksBack(kind, lag)
    ensures IsThePlan(S, Constraint(1, kind, lag))
  {
    hide ConstraintsNaming;
    assert S.Behind(WaitsForOne(kind, lag)[0].predecessor) == {1};
    ConstraintsAre(kind, lag);
    assert 1 in TASKS && 2 in TASKS && 3 in TASKS;
    forall key, day | key in S.seats ensures S.hours(key, day) == 8.0 {
      var u :| u in {1, 2} && Person(u) == key;
    }
  }

  lemma ConstraintsAre(kind: DependencyType, lag: int)
    ensures ConstraintsNaming(TASKS, map[], WaitsForOne(kind, lag), 1) == {}
    ensures ConstraintsNaming(TASKS, map[], WaitsForOne(kind, lag), 2) == {Constraint(1, kind, lag)}
    ensures ConstraintsNaming(TASKS, map[], WaitsForOne(kind, lag), 3) == {}
  {
    assert WaitsForOne(kind, lag)[0].Constraint() == Constraint(1, kind, lag);
  }

  lemma BusyHere()
    ensures Busy(TASKS, map[], {1, 2})
  {
    hide ChildrenOf, Working;
    assert TASKS.Keys == {1, 2, 3};
    NoSubtasks(TASKS);
  }

  lemma BothOrdersAreValid(S: Setup, c: Constraint)
    requires IsThePlan(S, c)
    ensures ValidQueues(S, [FIRST, SECOND]) && ValidQueues(S, [SECOND, FIRST])
  {
    assert [FIRST, SECOND][0].key == Person(1) && [FIRST, SECOND][1].key == Person(2);
    assert [SECOND, FIRST][1].key == Person(1) && [SECOND, FIRST][0].key == Person(2);
  }

  // The first of the ready leaves takes the whole day, and the seat has nothing left.
  lemma FirstTakesTheDay(S: Setup, sq: SeatQueue, day: Day, ds: DayState, i: int, rest: seq<int>)
    requires S.eps == 0.0 && ReadyAt(S, sq, day, ds) == [i] + rest && i !in rest
    requires sq.key in S.seats && ds.Left(sq.key) == 8.0 && NoneShared(S, [i] + rest) && AllOpen(S, [i] + rest, ds)
    requires ds.leaves[i] == LeafState(8.0, None, None)
    ensures Visit(S, sq, day, ds) == DayState(ds.leaves[i := LeafState(0.0, Some(day), Some(day))],
                                              ds.left[sq.key := 0.0], ds.given[i := 8.0])
  {
    hide ReadyAt, DayScale, Cut, Shared, Unshared;
    var ready := [i] + rest;
    NothingSharedLine(S, ready);
    var scale := DayScale(S, ready);
    assert i in ready && Line(S, ready) == ready && ready[1..] == rest;
    assert forall j :: j in rest ==> j in ready;
    TakesTheDay(S, sq.key, scale, day, ds, i);
    var next := ServeOne(S, sq.key, i, scale, day, ds);
    hide ServeOne;
    NothingLeftNothingGiven(S, sq.key, rest, scale, day, next);
    assert Serve(S, sq.key, ready, scale, day, ds) == next;
  }

  lemma TakesTheDay(S: Setup, key: SeatKey, scale: real, day: Day, ds: DayState, i: int)
    requires S.eps == 0.0 && key in S.seats && ds.Left(key) == 8.0 && i in S.info && i in ds.leaves && S.Share(i) <= 0
    requires ds.leaves[i] == LeafState(8.0, None, None)
    ensures ServeOne(S, key, i, scale, day, ds)
            == DayState(ds.leaves[i := LeafState(0.0, Some(day), Some(day))], ds.left[key := 0.0], ds.given[i := 8.0])
  {
  }

  function Done(day: Day): LeafState {
    LeafState(0.0, Some(day), Some(day))
  }

  function Fresh(): LeafState {
    LeafState(8.0, None, None)
  }

  // What the second person may work on in the first round: task 2 only if task 1 has started.
  lemma ReadyOfSecond(S: Setup, c: Constraint, ds: DayState)
    requires IsThePlan(S, c)
    requires ds.given.Keys !! {2, 3} && ds.leaves.Keys == {1, 2, 3} && ds.leaves[2] == Fresh() && ds.leaves[3] == Fresh()
    requires ds.leaves[1] == Fresh() || ds.leaves[1] == Done(0)
    ensures ReadyAt(S, SECOND, 0, ds) == if ds.leaves[1] == Fresh() then [3] else [2, 3]
  {
    assert Satisfied(S, c, 0, ds.leaves) <==> ds.leaves[1] == Done(0);
    assert Eligible(S, 2, 0, ds.leaves, ds.given.Keys) <==> ds.leaves[1] == Done(0) by {
      assert c in S.ConstraintsOn(2);
    }
    assert Eligible(S, 3, 0, ds.leaves, ds.given.Keys);
    assert SECOND.queue[1..] == [3] && [3][1..] == [];
    assert ReadyList(S, [], 0, ds.leaves, ds.given.Keys) == [];
    assert ReadyList(S, [3], 0, ds.leaves, ds.given.Keys) == [3];
  }

  lemma ReadyOfFirst(S: Setup, c: Constraint, ds: DayState)
    requires IsThePlan(S, c)
    requires 1 !in ds.given && ds.leaves.Keys == {1, 2, 3} && ds.leaves[1] == Fresh()
    ensures ReadyAt(S, FIRST, 0, ds) == [1]
  {
    assert Eligible(S, 1, 0, ds.leaves, ds.given.Keys);
    assert FIRST.queue[1..] == [];
    assert ReadyList(S, [], 0, ds.leaves, ds.given.Keys) == [];
  }

  lemma MorningOfDayZero(S: Setup, c: Constraint)
    requires IsThePlan(S, c)
    ensures var M := Morning(S, 0, Initial(S));
            && M.leaves == map[1 := Fresh(), 2 := Fresh(), 3 := Fresh()] && M.given == map[]
            && M.Left(Person(1)) == 8.0 && M.Left(Person(2)) == 8.0
  {
  }

  // Both seats in turn; afterwards neither has hours left, so the day is over.
  lemma DayOfOrder(S: Setup, c: Constraint, a: SeatQueue, b: SeatQueue, leaves: Leaves)
    requires IsThePlan(S, c)
    requires (a == FIRST && b == SECOND) || (a == SECOND && b == FIRST)
    requires var M := Morning(S, 0, Initial(S));
             var last := Visit(S, b, 0, Visit(S, a, 0, M));
             last.leaves == leaves && last.Left(a.key) == 0.0 && last.Left(b.key) == 0.0
    ensures After(S, [a, b], 1) == leaves
  {
    hide Visit, Morning, Initial, ReadyAt, Rounds;
    var M := Morning(S, 0, Initial(S));
    var queues := [a, b];
    assert queues[1..] == [b] && [b][1..] == [];
    var last := Visit(S, b, 0, Visit(S, a, 0, M));
    assert Pass(S, [], 0, last) == (last, false);
    assert Pass(S, [b], 0, Visit(S, a, 0, M)).0 == last;
    assert Pass(S, queues, 0, M).0 == last;
    IdlePass(S, queues, 0, last);
    OneRoundIsEnough(S, queues, 0, M);
    AfterNextDay(S, queues, 0);
    assert S.today + 0 == 0 && After(S, queues, 0) == Initial(S);
  }

  lemma FirstThenSecond(S: Setup, c: Constraint)
    requires IsThePlan(S, c)
    ensures After(S, [FIRST, SECOND], 1) == map[1 := Done(0), 2 := Done(0), 3 := Fresh()]
  {
    hide ReadyAt, Visit, Morning, Initial, After;
    MorningOfDayZero(S, c);
    var M := Morning(S, 0, Initial(S));
    ReadyOfFirst(S, c, M);
    assert [1] + [] == [1];
    FirstTakesTheDay(S, FIRST, 0, M, 1, []);
    var middle := Visit(S, FIRST, 0, M);
    ReadyOfSecond(S, c, middle);
    assert [2] + [3] == [2, 3];
    FirstTakesTheDay(S, SECOND, 0, middle, 2, [3]);
    DayOfOrder(S, c, FIRST, SECOND, map[1 := Done(0), 2 := Done(0), 3 := Fresh()]);
  }

  lemma SecondThenFirst(S: Setup, c: Constraint)
    requires IsThePlan(S, c)
    ensures After(S, [SECOND, FIRST], 1) == map[1 := Done(0), 2 := Fresh(), 3 := Done(0)]
  {
    hide ReadyAt, Visit, Morning, Initial, After;
    MorningOfDayZero(S, c);
    var M := Morning(S, 0, Initial(S));
    ReadyOfSecond(S, c, M);
    assert [3] + [] == [3];
    FirstTakesTheDay(S, SECOND, 0, M, 3, []);
    var middle := Visit(S, SECOND, 0, M);
    ReadyOfFirst(S, c, middle);
    assert [1] + [] == [1];
    FirstTakesTheDay(S, FIRST, 0, middle, 1, []);
    DayOfOrder(S, c, SECOND, FIRST, map[1 := Done(0), 2 := Fresh(), 3 := Done(0)]);
  }

  /** However a start-to-start dependency of lag 0 or less, or a finish-to-start dependency of negative lag, is given: if
      the first person is visited first task 2 is done today, if last it is not. */
  lemma SeatOrderCanMatter(kind: DependencyType, lag: int)
    returns (I: Inputs, queues: seq<SeatQueue>, R: Leaves, result: Results,
             queues': seq<SeatQueue>, R': Leaves, result': Results)
    requires !LooksBack(kind, lag)
    ensures I.dependencies == [TaskDependency(1, 2, kind, lag)]
    ensures IsForecast(I, queues, R, result) && IsForecast(I, queues', R', result')
    ensures 2 in result && 2 in result' && result[2].finish == Some(I.today) && result'[2].finish == None
  {
    hide RaisedRun, IsForecast, Plan, IsThePlan, Busy;
    I, queues, queues' := TheInputs(kind, lag), [FIRST, SECOND], [SECOND, FIRST];
    var c := Constraint(1, kind, lag);
    var S := ThePlan(kind, lag);
    R, R' := TheRuns(S, c);
    BusyHere();
    result := OfficeForecast(TASKS, map[], {1, 2}, WaitsForOne(kind, lag), 1, queues, R, map[]);
    result' := OfficeForecast(TASKS, map[], {1, 2}, WaitsForOne(kind, lag), 1, queues', R', map[]);
  }

  lemma TheRuns(S: Setup, c: Constraint) returns (R: Leaves, R': Leaves)
    requires IsThePlan(S, c)
    ensures RaisedRun(S, [FIRST, SECOND], 1, R) && RaisedRun(S, [SECOND, FIRST], 1, R')
    ensures 2 in R && 2 in R' && R[2].finish == Some(0) && R'[2].finish == None
  {
    hide After, ValidQueues, IsThePlan, Lifted;
    BothOrdersAreValid(S, c);
    FirstThenSecond(S, c);
    SecondThenFirst(S, c);
    R, R' := After(S, [FIRST, SECOND], 1), After(S, [SECOND, FIRST], 1);
    NothingToRaise(S, c, R);
    NothingToRaise(S, c, R');
  }

  lemma NothingToRaise(S: Setup, c: Constraint, L: Leaves)
    requires IsThePlan(S, c) && L.Keys == {1, 2, 3}
    ensures Lifted(S, L, L)
  {
    hide Justified, Lifted;
    NothingRaisedYet(S, L);
    forall i | i in L ensures FloorsMet(S, L, i) {
      assert i == 1 || i == 2 || i == 3;
    }
    MetIsLifted(S, L, L);
  }
}
