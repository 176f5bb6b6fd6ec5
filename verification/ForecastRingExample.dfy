/** A ring of finish-to-finish dependencies that rises lets the order of the tasks decide the dates that are returned. No
    ring of dependencies is needed for that: two subtasks that may each not finish before their parent make one. */
module ForecastRingExample {
  import opened Basics
  import opened Reachability
  import opened WorkSeats
  import opened TaskBoard
  import opened ForecastModel
  import opened ForecastConfluence
  import opened ForecastClosedForm
  import opened ForecastWaiting
  import opened ForecastFloors
  import opened ForecastChains
  import opened ForecastSpec
  import opened ForecastTheorems
  import opened ForecastOffice

  // Task 3 has the subtasks 1 and 2, a day's work of one person each; neither may finish before `lag` days after task 3.
  const TASKS: map<int, Task> :=
    map[1 := TaskOf(1, 1, 8.0).(parent := Some(3)), 2 := TaskOf(2, 2, 8.0).(parent := Some(3)),
        3 := Task(3, Todo, None, None, None, None, None, None, None, 3, None)]

  function NotBeforeParent(lag: int): seq<TaskDependency> {
    [TaskDependency(3, 1, FF, lag), TaskDependency(3, 2, FF, lag)]
  }

  // The subtasks listed one way or the other.
  function Listed(x: int, y: int): Graph {
    map[3 := [x, y]]
  }

  function TheInputs(x: int, y: int, lag: int): Inputs {
    Office(TASKS, Listed(x, y), {1, 2}, NotBeforeParent(lag), 1)
  }

  function Queue(user: int): SeatQueue {
    SeatQueue(Person(user), [user])
  }

  ghost predicate BothWays(x: int, y: int) {
    (x == 1 && y == 2) || (x == 2 && y == 1)
  }

  // ---- the plan --------------------------------------------------------------------------------------

  ghost predicate IsThePlan(S: Setup, lag: int) {
    && S.today == 0 && S.eps == 0.0 && S.info.Keys == {1, 2} && S.seats == {Person(1), Person(2)}
    && S.info[1] == LeafOf(TASKS[1]) && S.info[2] == LeafOf(TASKS[2])
    && S.ConstraintsOn(1) == S.ConstraintsOn(2) == {Constraint(3, FF, lag)} && S.Behind(3) == {1, 2} && lag > 0
    && (forall key, day :: key in S.seats ==> S.hours(key, day) == 8.0)
    && (forall i, day :: i in S.info ==> S.works(i, day))
  }

  lemma LeavesOfTasks(x: int, y: int)
    requires BothWays(x, y)
    ensures LeafSet(Listed(x, y), 1) == {1} && LeafSet(Listed(x, y), 2) == {2} && LeafSet(Listed(x, y), 3) == {1, 2}
    ensures Working(TASKS, Listed(x, y)) == {1, 2}
  {
    var children := Listed(x, y);
    assert Next(children, 3) == [x, y] && Next(children, 1) == [] && Next(children, 2) == [];
    LeafSetUnfolds(children, 3);
    assert LeafSet(children, x) == {x} && LeafSet(children, y) == {y};
    assert x in Next(children, 3) && y in Next(children, 3);
  }

  lemma ListedAreChildren(x: int, y: int)
    requires BothWays(x, y)
    ensures ChildrenOf(TASKS, Listed(x, y))
  {
    var children := Listed(x, y);
    assert TASKS.Keys == {1, 2, 3} && TASKS[1].parent == Some(3) && TASKS[2].parent == Some(3) && TASKS[3].parent == None;
    forall p, c ensures c in Next(children, p) <==> c in TASKS && TASKS[c].parent == Some(p) && p != c && p in TASKS {
      assert c in Next(children, p) <==> p == 3 && (c == 1 || c == 2);
    }
  }

  lemma BusyHere(x: int, y: int)
    requires BothWays(x, y)
    ensures Busy(TASKS, Listed(x, y), {1, 2})
  {
    hide LeafSet, Working, ChildrenOf;
    ListedAreChildren(x, y);
    LeavesOfTasks(x, y);
    assert TASKS.Keys == {1, 2, 3};
  }

  lemma ThePlan(x: int, y: int, lag: int) returns (S: Setup)
    requires BothWays(x, y) && lag > 0
    ensures TheInputs(x, y, lag).Valid() && S == Plan(TheInputs(x, y, lag)) && IsThePlan(S, lag)
  {
    hide Plan, IsOfficePlan, IsThePlan, Busy;
    BusyHere(x, y);
    OfficePlan(TASKS, Listed(x, y), {1, 2}, NotBeforeParent(lag), 1);
    S := Plan(TheInputs(x, y, lag));
    PlanOfOffice(S, x, y, lag);
  }

  lemma PlanOfOffice(S: Setup, x: int, y: int, lag: int)
    requires BothWays(x, y) && lag > 0 && IsOfficePlan(S, TASKS, Listed(x, y), {1, 2}, NotBeforeParent(lag))
    ensures IsThePlan(S, lag)
  {
    hide ConstraintsNaming, LeafSet, Working, LeafOf;
    LeavesOfTasks(x, y);
    ConstraintsAre(x, y, lag);
    assert S.Behind(NotBeforeParent(lag)[0].predecessor) == {1, 2};
    assert 1 in S.info && 2 in S.info;
    EightHours(S);
  }

  lemma EightHours(S: Setup)
    requires S.seats == (set u | u in {1, 2} :: Person(u))
    requires forall u, day :: u in {1, 2} ==> S.hours(Person(u), day) == 8.0
    ensures S.seats == {Person(1), Person(2)}
    ensures forall key, day :: key in S.seats ==> S.hours(key, day) == 8.0
  {
    assert 1 in {1, 2} && 2 in {1, 2};
    forall key | key in S.seats ensures key == Person(1) || key == Person(2) {
      var u :| u in {1, 2} && Person(u) == key;
    }
  }

  lemma ConstraintsAre(x: int, y: int, lag: int)
    requires BothWays(x, y)
    ensures ConstraintsNaming(TASKS, Listed(x, y), NotBeforeParent(lag), 1) == {Constraint(3, FF, lag)}
    ensures ConstraintsNaming(TASKS, Listed(x, y), NotBeforeParent(lag), 2) == {Constraint(3, FF, lag)}
  {
    LeavesOfTasks(x, y);
    hide LeafSet;
    var dependencies := NotBeforeParent(lag);
    assert dependencies[0].Constraint() == Constraint(3, FF, lag) == dependencies[1].Constraint();
    assert dependencies[0].successor == 1 && dependencies[1].successor == 2;
  }

  // ---- the day ---------------------------------------------------------------------------------------

  lemma QueuesAreValid(S: Setup, lag: int, x: int, y: int)
    requires IsThePlan(S, lag) && BothWays(x, y)
    ensures ValidQueues(S, [Queue(x), Queue(y)])
  {
    hide Before;
    assert [Queue(x), Queue(y)][0].key == Person(x) && [Queue(x), Queue(y)][1].key == Person(y);
  }

  lemma SeatIsPlain(S: Setup, lag: int, user: int)
    requires IsThePlan(S, lag) && (user == 1 || user == 2)
    ensures PlainSeat(S, Queue(user))
  {
  }

  lemma {:induction false} EightHoursADay(S: Setup, lag: int, user: int, n: nat)
    requires IsThePlan(S, lag) && (user == 1 || user == 2)
    ensures Workable(S, Queue(user), n) == 8.0 * n as real
  {
    if n > 0 {
      EightHoursADay(S, lag, user, n - 1);
      assert user in Queue(user).queue && S.works(user, S.today + n - 1);
    }
  }

  function Done(finish: Day): LeafState {
    LeafState(0.0, Some(0), Some(finish))
  }

  // Everybody does their task on the first day.
  lemma TaskIsDone(S: Setup, lag: int, x: int, y: int, a: nat)
    requires IsThePlan(S, lag) && BothWays(x, y) && a < 2
    ensures var user := [x, y][a]; user in S.info && After(S, [Queue(x), Queue(y)], 1)[user] == Done(0)
  {
    hide RunDay, ValidQueues, PlainSeat, After, Workable;
    var user, queues := [x, y][a], [Queue(x), Queue(y)];
    QueuesAreValid(S, lag, x, y);
    SeatIsPlain(S, lag, user);
    assert queues[a] == Queue(user);
    PlainQueueFollowsFormula(S, queues, a, 0, 1);
    var sq := Queue(user);
    assert sq.queue[..1] == [user] && [user][1..] == [] && sq.queue[..0] == [];
    assert WorkOf(S, [user]) == 8.0;
    EightHoursADay(S, lag, user, 1);
    var s := After(S, queues, 1)[user];
    var f: nat, d: nat := s.finish.value, s.start.value;
    EightHoursADay(S, lag, user, f);
    EightHoursADay(S, lag, user, f + 1);
    EightHoursADay(S, lag, user, d);
    EightHoursADay(S, lag, user, d + 1);
  }

  // The leaves with these finishes.
  function Finishing(x: int, a: Day, y: int, b: Day): Leaves {
    map[x := Done(a), y := Done(b)]
  }

  lemma AfterTheDay(S: Setup, lag: int, x: int, y: int)
    requires IsThePlan(S, lag) && BothWays(x, y)
    ensures After(S, [Queue(x), Queue(y)], 1) == Finishing(x, 0, y, 0)
  {
    hide After;
    TaskIsDone(S, lag, x, y, 0);
    TaskIsDone(S, lag, x, y, 1);
    assert [x, y][0] == x && [x, y][1] == y;
  }

  // ---- the raising -------------------------------------------------------------------------------------

  // Raising the leaves in these turns makes R of L.
  ghost predicate RaisedInTurn(S: Setup, L: Leaves, turns: seq<int>, R: Leaves) {
    if turns == [] then R == L
    else
      var i := turns[0];
      && i in L && L[i].finish.Some?
      && exists c, base :: c in S.ConstraintsOn(i) && IsBase(S, c, L, base)
                           && RaisedInTurn(S, RaiseTo(L, i, base + c.lag), turns[1..], R)
  }

  lemma OneTurn(S: Setup, L: Leaves, i: int, c: Constraint, base: Day, turns: seq<int>, R: Leaves)
    requires i in L && L[i].finish.Some? && c in S.ConstraintsOn(i) && IsBase(S, c, L, base)
    requires RaisedInTurn(S, RaiseTo(L, i, base + c.lag), turns, R)
    ensures RaisedInTurn(S, L, [i] + turns, R)
  {
    hide IsBase, RaiseTo;
    assert ([i] + turns)[1..] == turns;
  }

  lemma {:induction false} TurnsKeepJustified(S: Setup, L0: Leaves, L: Leaves, turns: seq<int>, R: Leaves)
    requires Justified(S, L0, L) && RaisedInTurn(S, L, turns, R)
    ensures Justified(S, L0, R)
  {
    hide Justified, IsBase, RaiseTo;
    if turns != [] {
      var i := turns[0];
      var c, base :| c in S.ConstraintsOn(i) && IsBase(S, c, L, base)
                     && RaisedInTurn(S, RaiseTo(L, i, base + c.lag), turns[1..], R);
      RaiseKeepsJustified(S, L0, L, i, c, base);
      TurnsKeepJustified(S, L0, RaiseTo(L, i, base + c.lag), turns[1..], R);
    }
  }

  // The parent finishes with the later of its subtasks, so each turn puts one subtask `lag` days after the other.
  lemma OneRound(S: Setup, lag: int, x: int, y: int, a: Day, b: Day, turns: seq<int>, R: Leaves)
    requires IsThePlan(S, lag) && BothWays(x, y) && 0 <= a <= b
    requires RaisedInTurn(S, Finishing(x, b + lag, y, b + 2 * lag), turns, R)
    ensures RaisedInTurn(S, Finishing(x, a, y, b), [x, y] + turns, R)
  {
    hide RaisedInTurn;
    var c := Constraint(3, FF, lag);
    var before, middle, after := Finishing(x, a, y, b), Finishing(x, b + lag, y, b), Finishing(x, b + lag, y, b + 2 * lag);
    assert before[y].finish == Some(b) && middle[x].finish == Some(b + lag);
    assert IsBase(S, c, before, b) && IsBase(S, c, middle, b + lag);
    assert RaiseTo(before, x, b + lag) == middle && RaiseTo(middle, y, b + lag + lag) == after;
    OneTurn(S, middle, y, c, b + lag, turns, R);
    OneTurn(S, before, x, c, b, [y] + turns, R);
    assert [x] + ([y] + turns) == [x, y] + turns;
  }

  // Three rounds, one more than there are leaves.
  lemma ThreeRounds(S: Setup, lag: int, x: int, y: int)
    requires IsThePlan(S, lag) && BothWays(x, y)
    ensures RaisedInTurn(S, Finishing(x, 0, y, 0), [x, y, x, y, x, y], Finishing(x, 5 * lag, y, 6 * lag))
  {
    hide RaisedInTurn;
    var R := Finishing(x, 5 * lag, y, 6 * lag);
    assert RaisedInTurn(S, R, [], R) by { NoTurns(S, R); }
    assert lag > 0;
    OneRound(S, lag, x, y, 3 * lag, 4 * lag, [], R);
    OneRound(S, lag, x, y, lag, 2 * lag, [x, y] + [], R);
    OneRound(S, lag, x, y, 0, 0, [x, y] + ([x, y] + []), R);
    assert [x, y] + ([x, y] + ([x, y] + [])) == [x, y, x, y, x, y];
  }

  lemma NoTurns(S: Setup, R: Leaves)
    ensures RaisedInTurn(S, R, [], R)
  {
  }

  lemma ShortChainsDemandLittle(S: Setup, lag: int, x: int, y: int, i: int, hops: seq<Hop>, d: Day)
    requires IsThePlan(S, lag) && BothWays(x, y)
    requires Demands(S, Finishing(x, 0, y, 0), i, hops, d) && |hops| < 2
    ensures d + Lags(hops) <= 2 * lag
  {
    var L := Finishing(x, 0, y, 0);
    assert d <= lag;
    if hops != [] {
      assert Lifts(S, L, Stop(i, hops, 0), hops[0]);
      assert hops[1..] == [];
    }
  }

  lemma RoundsAreLifted(S: Setup, lag: int, x: int, y: int)
    requires IsThePlan(S, lag) && BothWays(x, y)
    ensures Lifted(S, Finishing(x, 0, y, 0), Finishing(x, 5 * lag, y, 6 * lag))
  {
    hide Justified, RaisedInTurn, Demands;
    var L, R := Finishing(x, 0, y, 0), Finishing(x, 5 * lag, y, 6 * lag);
    NothingRaisedYet(S, L);
    ThreeRounds(S, lag, x, y);
    TurnsKeepJustified(S, L, L, [x, y, x, y, x, y], R);
    assert L.Keys == {x, y} && |L| == 2;
    forall i, hops, d | i in R && Demands(S, L, i, hops, d) && |hops| < |L|
      ensures d + Lags(hops) <= R[i].finish.value
    {
      ShortChainsDemandLittle(S, lag, x, y, i, hops, d);
    }
  }

  // ---- the forecasts -------------------------------------------------------------------------------------

  lemma TheRun(S: Setup, lag: int, x: int, y: int) returns (R: Leaves)
    requires IsThePlan(S, lag) && BothWays(x, y)
    ensures R == Finishing(x, 5 * lag, y, 6 * lag)
    ensures RaisedRun(S, [Queue(x), Queue(y)], 1, R)
    ensures RaisedInTurn(S, After(S, [Queue(x), Queue(y)], 1), [x, y, x, y, x, y], R)
  {
    hide IsThePlan, After, ValidQueues, Lifted, RaisedInTurn;
    QueuesAreValid(S, lag, x, y);
    AfterTheDay(S, lag, x, y);
    ThreeRounds(S, lag, x, y);
    RoundsAreLifted(S, lag, x, y);
    R := Finishing(x, 5 * lag, y, 6 * lag);
  }

  ghost predicate Ends(result: Results, x: int, a: Day, y: int, b: Day) {
    x in result && y in result && result[x].finish == Some(a) && result[y].finish == Some(b)
  }

  lemma TheForecast(I: Inputs, S: Setup, x: int, y: int, lag: int, R: Leaves) returns (result: Results)
    requires BothWays(x, y) && I == TheInputs(x, y, lag) && I.Valid() && S == Plan(I) && IsThePlan(S, lag)
    requires R == Finishing(x, 5 * lag, y, 6 * lag) && RaisedRun(S, [Queue(x), Queue(y)], 1, R)
    ensures IsForecast(I, [Queue(x), Queue(y)], R, result)
    ensures Ends(result, x, 5 * lag, y, 6 * lag)
  {
    hide Plan, IsThePlan, IsForecast, RaisedRun, Busy, RollUpsOf, Working, LeafResultsOf;
    BusyHere(x, y);
    var parents := ParentRollsUp(S, x, y, lag, R);
    result := OfficeForecast(TASKS, Listed(x, y), {1, 2}, NotBeforeParent(lag), 1, [Queue(x), Queue(y)], R, parents);
  }

  lemma ParentRollsUp(S: Setup, x: int, y: int, lag: int, R: Leaves) returns (parents: Results)
    requires BothWays(x, y) && IsThePlan(S, lag) && R == Finishing(x, 5 * lag, y, 6 * lag)
    ensures RollUpsOf(TASKS, Listed(x, y), LeafResultsOf(S, TheInputs(x, y, lag).LastDay(), R), parents)
  {
    hide LeafSet, Working, AllSatisfied;
    LeavesOfTasks(x, y);
    var f := TaskForecast(Some(0), Some(6 * lag), None, 0);
    parents := map[3 := f];
    var leafResults := LeafResultsOf(S, TheInputs(x, y, lag).LastDay(), R);
    assert leafResults[y].finish == Some(6 * lag) && leafResults[x].start == Some(0);
    assert OpenBelow(Listed(x, y), leafResults, 3) == {1, 2};
  }

  /** For every positive lag of the ring: the subtask that is listed, and so raised, last ends `lag` days after the other.
      Both forecasts come from the same tasks, dependencies and seats, and from the raises the code makes in three rounds. */
  lemma RingOrderCanMatter(lag: int)
    returns (I: Inputs, queues: seq<SeatQueue>, R: Leaves, result: Results,
             J: Inputs, queues': seq<SeatQueue>, R': Leaves, result': Results)
    requires lag > 0
    ensures SameInputs(I, J) && OnlyForwardStarts(Plan(I))
    ensures IsForecast(I, queues, R, result) && IsForecast(J, queues', R', result')
    ensures RaisedInTurn(Plan(I), After(Plan(I), queues, I.Days()), [1, 2, 1, 2, 1, 2], R)
    ensures RaisedInTurn(Plan(J), After(Plan(J), queues', J.Days()), [2, 1, 2, 1, 2, 1], R')
    ensures Ends(result, 1, 5 * lag, 2, 6 * lag) && Ends(result', 2, 5 * lag, 1, 6 * lag)
  {
    hide Plan, IsThePlan, IsForecast, After, RaisedInTurn, RaisedRun;
    I, J := TheInputs(1, 2, lag), TheInputs(2, 1, lag);
    queues, queues' := [Queue(1), Queue(2)], [Queue(2), Queue(1)];
    var S := ThePlan(1, 2, lag);
    R := TheRun(S, lag, 1, 2);
    result := TheForecast(I, S, 1, 2, lag, R);
    var S' := ThePlan(2, 1, lag);
    R' := TheRun(S', lag, 2, 1);
    result' := TheForecast(J, S', 2, 1, lag, R');
    OnlyFloors(S, lag);
  }

  lemma OnlyFloors(S: Setup, lag: int)
    requires IsThePlan(S, lag)
    ensures OnlyForwardStarts(S)
  {
  }
}
