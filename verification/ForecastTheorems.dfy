/** What can be relied on in the forecast as it is returned, in terms of the tasks and dependencies given. */
module ForecastTheorems {
  import opened Basics
  import opened Reachability
  import opened WorkSeats
  import opened TaskBoard
  import opened ForecastModel
  import opened ForecastInvariants
  import opened ForecastLedger
  import opened ForecastOrdering
  import opened ForecastConfluence
  import opened ForecastWaiting
  import opened ForecastFloors
  import opened ForecastChains
  import opened ForecastSpec

  // ---- one result per task, with sensible dates -------------------------------------------------

  ghost predicate Sensible(today: Day, f: TaskForecast) {
    && (f.finish.Some? <==> f.gap.None?)
    && (f.finish.Some? <==> f.start.Some?)
    && (f.finish.Some? ==> today <= f.start.value <= f.finish.value)
  }

  lemma RunIsConsistent(S: Setup, queues: seq<SeatQueue>, n: nat, i: int)
    requires ValidQueues(S, queues) && i in S.info
    ensures Consistent(S, After(S, queues, n)[i], S.today + n)
  {
    hide RunDay, ValidQueues, Ledger;
    RunKeepsLedger(S, queues, n);
    HoursAreConserved(S, queues, States(S, queues, n), Logs(S, queues, n), i);
  }

  lemma LeafResultIsSensible(S: Setup, until: Day, lastDay: Day, L: Leaves, R: Leaves, i: int)
    requires Raised(L, R) && i in L && i in S.info && Consistent(S, L[i], until)
    ensures Sensible(S.today, LeafResult(S, lastDay, R, i))
  {
    hide AllSatisfied;
  }

  lemma LeafIsSensible(I: Inputs, queues: seq<SeatQueue>, R: Leaves, result: Results, i: int)
    requires IsForecast(I, queues, R, result) && i in Childless(I)
    ensures i in result && Sensible(I.today, result[i])
  {
    hide ValidQueues, Lifted, After, LeafResult, BlockedLeaves, Classify, RollsUp, Consistent, Raised, Candidates,
         FirstResults, Sensible;
    var S := Plan(I);
    if i in S.info {
      RunIsConsistent(S, queues, I.Days(), i);
      LiftedRaises(S, After(S, queues, I.Days()), R);
      LeafResultIsSensible(S, S.today + I.Days(), I.LastDay(), After(S, queues, I.Days()), R, i);
    } else if i !in Candidates(I) {
      FirstResultIsSensible(I, i);
    } else {
      WaitingIsSensible(I.today);
    }
  }

  lemma WaitingIsSensible(today: Day)
    ensures Sensible(today, WAITS)
  {
  }

  lemma FirstResultIsSensible(I: Inputs, i: int)
    requires i in Childless(I) && i !in Candidates(I)
    ensures i in FirstResults(I) && Sensible(I.today, FirstResults(I)[i])
  {
  }

  // Every task gets exactly one result: a start and a finish with today <= start <= finish, or a reason why not.
  lemma EveryTaskHasOneOutcome(I: Inputs, queues: seq<SeatQueue>, R: Leaves, result: Results, i: int)
    requires IsForecast(I, queues, R, result) && i in I.tasks
    ensures i in result && Sensible(I.today, result[i])
  {
    hide RaisedRun, LeafResultsAre;
    if !HasSubtasks(I.children, i) {
      LeafIsSensible(I, queues, R, result, i);
    } else {
      assert RollsUp(I.children, result, I.tasks[i], result[i]);
      var open := OpenBelow(I.children, result, I.tasks[i].id);
      forall j | j in open ensures Sensible(I.today, result[j]) {
        assert !HasSubtasks(I.children, j) && j in I.tasks;
        LeafIsSensible(I, queues, R, result, j);
      }
      SpanIsSensible(I, result, I.tasks[i], result[i]);
    }
  }

  lemma SpanIsSensible(I: Inputs, result: Results, task: Task, f: TaskForecast)
    requires RollsUp(I.children, result, task, f)
    requires forall j :: j in OpenBelow(I.children, result, task.id) ==> Sensible(I.today, result[j])
    ensures Sensible(I.today, f)
  {
    hide LeafSet;
    var open := OpenBelow(I.children, result, task.id);
    if f.finish.Some? {
      var j :| j in open && j in result && result[j].finish == f.finish;
    }
  }

  // ---- rings ----------------------------------------------------------------------------------

  // A leaf of a ring of finish-to-start dependencies, or behind one, is reported as waiting.
  lemma RingIsReportedWaiting(I: Inputs, queues: seq<SeatQueue>, R: Leaves, result: Results, ring: set<int>, i: int)
    requires IsForecast(I, queues, R, result) && Ring(Plan(I), ring) && i in ring
    ensures result[i] == Gapped(WaitingForOthers)
  {
    hide ValidQueues, Attained, LeafCovers, After, AllSatisfied, Dropped, Classify, Ring;
    var S := Plan(I);
    RingNeverStarts(S, queues, ring, I.Days());
    RingIsInPlan(S, ring);
    assert Untouched(ring, R);
    RingMemberIsHeldBack(S, ring, i, I.LastDay() + 1, R);
  }

  lemma RingIsInPlan(S: Setup, ring: set<int>)
    requires Ring(S, ring)
    ensures ring <= S.info.Keys
  {
  }

  // ---- finish to start in the final result -----------------------------------------------------

  // The finish of j does not rest on other tasks.
  ghost predicate FinishIsOwn(I: Inputs, j: int) {
    forall c :: c in ConstraintSet(I, j) ==> !c.kind.FF? && !c.kind.SF?
  }

  lemma DependencyBinds(I: Inputs, k: nat, i: int)
    requires I.Valid() && k < |I.dependencies| && Applies(I, k, i) && i in Plan(I).info
    ensures I.dependencies[k].Constraint() in Plan(I).ConstraintsOn(i)
    ensures Plan(I).Behind(I.dependencies[k].predecessor) == LeafSet(I.children, I.dependencies[k].predecessor)
  {
    hide LeafSet, Dropped, Classify;
    assert I.dependencies[k].predecessor in Predecessors(I);
  }

  lemma DependeeOf(I: Inputs, k: nat, i: int, j: int)
    requires I.Valid() && k < |I.dependencies| && Applies(I, k, i) && i in Candidates(I)
    requires j in LeafSet(I.children, I.dependencies[k].predecessor)
    ensures j in Of(DependeeTable(I), i)
  {
    hide LeafSet, Candidates;
    assert I.dependencies[k].Constraint() in ConstraintSet(I, i);
  }

  // A leaf behind a predecessor of a forecast leaf is itself forecast, or it is finished.
  lemma PredecessorIsForecastOrFinished(I: Inputs, queues: seq<SeatQueue>, R: Leaves, result: Results, k: nat, i: int,
                                        j: int)
    requires IsForecast(I, queues, R, result)
    requires k < |I.dependencies| && Applies(I, k, i) && i in Plan(I).info
    requires j in LeafSet(I.children, I.dependencies[k].predecessor) && j in I.tasks
    ensures j in Plan(I).info || result[j].gap == Some(Finished)
  {
    hide RaisedRun, RollsUp, LeafResult, Classify, BlockedLeaves, DependeeTable, FirstResults, Candidates, Applies;
    if j !in Plan(I).info {
      DependeeOf(I, k, i, j);
      ChildlessAreApart(I);
      MissingMeansFinished(DependeeTable(I), Candidates(I), FirstResults(I), i, j);
      LeavesBelowAreChildless(I, I.dependencies[k].predecessor, j);
      ResultOfLeftOut(I, R, result, j);
    }
  }

  lemma ChildlessAreApart(I: Inputs)
    ensures Candidates(I) !! FirstResults(I).Keys && Dropped(I) <= Candidates(I)
    ensures Childless(I) == Candidates(I) + FirstResults(I).Keys
  {
    hide Classify, Blocked;
  }

  // What was left out has the result it had before the days were run.
  lemma ResultOfLeftOut(I: Inputs, R: Leaves, result: Results, j: int)
    requires I.Valid() && LeafResultsAre(I, R, result) && j in Childless(I) && j !in Plan(I).info
    ensures j in result && j in Marked(FirstResults(I), Dropped(I))
    ensures result[j] == Marked(FirstResults(I), Dropped(I))[j]
  {
    hide Classify, Blocked;
    ChildlessAreApart(I);
  }

  // Finish-to-start dependencies hold between the dates that are returned, as long as the finish of the predecessor
  // does not itself rest on a finish-to-finish or start-to-finish dependency: the successor starts at least one day
  // and the lag after the predecessor's last finish. Otherwise the predecessor's finish may be moved past the
  // successor's start after the days have been planned.
  lemma FinishToStartHolds(I: Inputs, queues: seq<SeatQueue>, R: Leaves, result: Results, k: nat, i: int, j: int)
    requires IsForecast(I, queues, R, result)
    requires k < |I.dependencies| && I.dependencies[k].kind.FS? && Applies(I, k, i)
    requires i in Childless(I) && result[i].start.Some?
    requires j in LeafSet(I.children, I.dependencies[k].predecessor) && j in I.tasks && FinishIsOwn(I, j)
    ensures result[j].gap == Some(Finished)
            || (result[j].finish.Some? && result[j].finish.value + 1 + I.dependencies[k].lag <= result[i].start.value)
  {
    hide ValidQueues, Attained, LeafCovers, Dropped, Classify, LeafSet, After, RollsUp, Candidates, ConstraintSet,
         LeafResult;
    var S := Plan(I);
    ForecastLeafIsInPlan(I, queues, R, result, i);
    PredecessorIsForecastOrFinished(I, queues, R, result, k, i, j);
    if j in S.info {
      SimulatedInTime(I, queues, R, result, k, i, j);
      ForecastOfLeaf(I, queues, R, result, j);
      assert S.ConstraintsOn(j) == ConstraintSet(I, j);
      FloorlessKeepsFinish(S, After(S, queues, I.Days()), R, j);
    }
  }

  // For a predecessor of any kind, in terms of the days alone. A chain of finish-to-finish dependencies carries a finish
  // (or, through a start-to-finish dependency, a start) down to the predecessor, and demands a finish no earlier than that
  // date plus the lags of the chain; the chain without hops is the predecessor itself. Nothing is demanded that leaves too
  // little room before the successor starts exactly if the returned dates keep the dependency and no ring that is reached
  // from the predecessor comes back later than it set out. Rings or not, a chain with fewer hops than there are leaves that
  // leaves too little room breaks it.
  lemma FinishToStartExactly(I: Inputs, queues: seq<SeatQueue>, R: Leaves, result: Results, k: nat, i: int, j: int)
    requires I.Valid() && IsForecast(I, queues, R, result)
    requires k < |I.dependencies| && I.dependencies[k].kind.FS? && Applies(I, k, i)
    requires i in Childless(I) && i in result && result[i].start.Some?
    requires j in LeafSet(I.children, I.dependencies[k].predecessor) && j in Plan(I).info
    ensures RoomDecides(Plan(I), After(Plan(I), queues, I.Days()), j, result[i].start.value - 1 - I.dependencies[k].lag,
                        StartsAfter(result, i, j, I.dependencies[k].lag))
  {
    hide IsForecast, ValidQueues, NothingDemandedAfter, NoRisingRing, Covers, Lifted, After, LeafSet, Candidates,
         ConstraintSet, Plan;
    ForecastRuns(I, queues, R, result);
    ForecastLeafIsInPlan(I, queues, R, result, i);
    SimulatedInTime(I, queues, R, result, k, i, j);
    ForecastOfLeaf(I, queues, R, result, j);
    var S, L := Plan(I), After(Plan(I), queues, I.Days());
    var latest := result[i].start.value - 1 - I.dependencies[k].lag;
    DemandsBoundFinish(S, L, R, j, latest);
    if NothingDemandedAfter(S, L, j, latest) { BoundedDemandsForbidRisingRings(S, L, j, latest); }
    if NoRisingRing(S, L, j) { ShortDemandsSuffice(S, L, j, latest); }
  }

  ghost predicate RoomDecides(S: Setup, L: Leaves, j: int, latest: Day, kept: bool) {
    && (NothingDemandedAfter(S, L, j, latest) <==> kept && NoRisingRing(S, L, j))
    && (kept ==> Covers(S, L, j, |L|, latest))
  }

  // The returned start of i is at least a day and the lag after the returned finish of j.
  predicate StartsAfter(result: Results, i: int, j: int, lag: int) {
    && i in result && j in result && result[i].start.Some? && result[j].finish.Some?
    && result[j].finish.value + 1 + lag <= result[i].start.value
  }

  lemma ForecastRuns(I: Inputs, queues: seq<SeatQueue>, R: Leaves, result: Results)
    requires IsForecast(I, queues, R, result)
    ensures I.Valid() && Lifted(Plan(I), After(Plan(I), queues, I.Days()), R)
  {
    hide Lifted, ValidQueues, LeafResultsAre, RollsUp, Plan, After;
  }

  lemma ForecastOfLeaf(I: Inputs, queues: seq<SeatQueue>, R: Leaves, result: Results, j: int)
    requires IsForecast(I, queues, R, result) && j in Plan(I).info && R[j].finish.Some?
    ensures j in result && result[j].finish == R[j].finish
  {
    hide RaisedRun, RollsUp, Dropped, Classify, Candidates;
    LeafInPlanIsChildless(I, j);
  }

  // When the days have been run, the predecessor is done in time.
  lemma SimulatedInTime(I: Inputs, queues: seq<SeatQueue>, R: Leaves, result: Results, k: nat, i: int, j: int)
    requires IsForecast(I, queues, R, result)
    requires k < |I.dependencies| && I.dependencies[k].kind.FS? && Applies(I, k, i)
    requires i in Childless(I) && result[i].start.Some?
    requires j in LeafSet(I.children, I.dependencies[k].predecessor) && j in Plan(I).info
    ensures var L := After(Plan(I), queues, I.Days());
            && j in L && L[j].finish.Some? && L[j].finish.value + 1 + I.dependencies[k].lag <= result[i].start.value
            && j in R && R[j].finish.Some?
  {
    hide ValidQueues, Attained, LeafCovers, AllSatisfied, Dropped, Classify, LeafSet, After, RollsUp, Candidates,
         ConstraintSet, LeafResultsAre, Applies;
    var S := Plan(I);
    var L := After(S, queues, I.Days());
    ForecastLeafIsInPlan(I, queues, R, result, i);
    DependencyBinds(I, k, i);
    var c := I.dependencies[k].Constraint();
    assert L[i].start == R[i].start == result[i].start;
    DependenciesHold(S, queues, I.Days(), I.Days(), i, c, L[i].start.value);
    assert j in S.Behind(c.predecessor);
  }

  lemma LeafInPlanIsChildless(I: Inputs, j: int)
    requires I.Valid() && j in Plan(I).info
    ensures j in Childless(I)
  {
    hide Dropped, Classify;
  }

  lemma ForecastLeafIsInPlan(I: Inputs, queues: seq<SeatQueue>, R: Leaves, result: Results, i: int)
    requires IsForecast(I, queues, R, result) && i in Childless(I) && result[i].start.Some?
    ensures i in Plan(I).info && i in R && R[i].finish.Some? && R[i].start == result[i].start
  {
    hide RaisedRun, RollsUp, AllSatisfied, Dropped, Classify;
  }

  // ---- the order of the input does not matter ----------------------------------------------------

  lemma WalksDependOnMembers(g: Graph, h: Graph, a: int, b: int)
    requires forall x, y :: y in Next(g, x) <==> y in Next(h, x)
    requires Reachable(g, a, b)
    ensures Reachable(h, a, b)
  {
    var p :| WalkBetween(g, a, b, p);
    forall k | 0 <= k < |p| - 1 ensures Linked(h, p, k) {
      assert Linked(g, p, k);
      var x, y := p[k], p[k + 1];
      assert y in Next(g, x);
    }
    assert WalkBetween(h, a, b, p);
  }

  // However the tasks came in, the leaves behind a task are the same.
  lemma LeafSetIsOrderFree(tasks: map<int, Task>, g: Graph, h: Graph, p: int)
    requires ChildrenOf(tasks, g) && ChildrenOf(tasks, h)
    ensures LeafSet(g, p) == LeafSet(h, p)
  {
    forall x, y ensures y in Next(g, x) <==> y in Next(h, x) {
      assert y in Next(g, x) <==> y in tasks && tasks[y].parent == Some(x) && x != y && x in tasks;
    }
    forall x ensures HasSubtasks(g, x) <==> HasSubtasks(h, x) {
      if HasSubtasks(g, x) { var y := Next(g, x)[0]; assert y in Next(g, x) && y in Next(h, x); }
      if HasSubtasks(h, x) { var y := Next(h, x)[0]; assert y in Next(h, x) && y in Next(g, x); }
    }
    forall d ensures d in From(g, p) <==> d in From(h, p) {
      if Reachable(g, p, d) { WalksDependOnMembers(g, h, p, d); }
      if Reachable(h, p, d) { WalksDependOnMembers(h, g, p, d); }
    }
  }

  // The same tasks and dependencies, in another order.
  ghost predicate SameInputs(I: Inputs, J: Inputs) {
    && I.Valid() && J.Valid()
    && J == I.(children := J.children, dependencies := J.dependencies)
    && ToSet(I.dependencies) == ToSet(J.dependencies)
  }

  lemma SameLeafSets(I: Inputs, J: Inputs)
    requires SameInputs(I, J)
    ensures forall p :: LeafSet(I.children, p) == LeafSet(J.children, p)
    ensures Childless(I) == Childless(J)
  {
    forall p ensures LeafSet(I.children, p) == LeafSet(J.children, p) {
      LeafSetIsOrderFree(I.tasks, I.children, J.children, p);
    }
    forall i ensures HasSubtasks(I.children, i) <==> HasSubtasks(J.children, i) {
      LeafSetTellsSubtasks(I.children, i);
      LeafSetTellsSubtasks(J.children, i);
    }
  }

  lemma LeafSetTellsSubtasks(g: Graph, i: int)
    ensures !HasSubtasks(g, i) <==> LeafSet(g, i) == {i}
  {
  }

  lemma ConstraintsAreOrderFree(I: Inputs, J: Inputs, i: int, c: Constraint)
    requires SameInputs(I, J) && c in ConstraintSet(I, i)
    ensures c in ConstraintSet(J, i)
  {
    hide LeafSet;
    SameLeafSets(I, J);
    var k :| 0 <= k < |I.dependencies| && Applies(I, k, i) && c == I.dependencies[k].Constraint();
    var d := I.dependencies[k];
    assert d in ToSet(I.dependencies);
    assert d in ToSet(J.dependencies);
    var m :| 0 <= m < |J.dependencies| && J.dependencies[m] == d;
    assert Applies(J, m, i);
  }

  lemma SameInputsSymmetrically(I: Inputs, J: Inputs)
    requires SameInputs(I, J)
    ensures SameInputs(J, I)
  {
  }

  lemma SameConstraints(I: Inputs, J: Inputs)
    requires SameInputs(I, J)
    ensures forall i :: ConstraintSet(I, i) == ConstraintSet(J, i)
    ensures Predecessors(I) == Predecessors(J)
  {
    SameInputsSymmetrically(I, J);
    forall i ensures ConstraintSet(I, i) == ConstraintSet(J, i) {
      forall c ensures c in ConstraintSet(I, i) <==> c in ConstraintSet(J, i) {
        if c in ConstraintSet(I, i) { ConstraintsAreOrderFree(I, J, i, c); }
        if c in ConstraintSet(J, i) { ConstraintsAreOrderFree(J, I, i, c); }
      }
    }
    forall p ensures p in Predecessors(I) <==> p in Predecessors(J) {
      if k :| 0 <= k < |I.dependencies| && I.dependencies[k].predecessor == p {
        assert I.dependencies[k] in ToSet(J.dependencies);
      }
      if k :| 0 <= k < |J.dependencies| && J.dependencies[k].predecessor == p {
        assert J.dependencies[k] in ToSet(I.dependencies);
      }
    }
  }

  lemma SameSorting(I: Inputs, J: Inputs)
    requires SameInputs(I, J)
    ensures Candidates(I) == Candidates(J) && FirstResults(I) == FirstResults(J)
  {
    hide LeafSet, Classify;
    SameLeafSets(I, J);
  }

  lemma SamePlan(I: Inputs, J: Inputs)
    requires SameInputs(I, J)
    ensures Plan(I) == Plan(J) && Candidates(I) == Candidates(J) && FirstResults(I) == FirstResults(J)
  {
    hide Classify, BlockedLeaves, ConstraintSet, WorksOf, HoursOf, Candidates, FirstResults, DependeeTable, BehindTable;
    SameConstraints(I, J);
    SameSorting(I, J);
    SameTables(I, J);
  }

  lemma SameTables(I: Inputs, J: Inputs)
    requires SameInputs(I, J) && Candidates(I) == Candidates(J)
    ensures DependeeTable(I) == DependeeTable(J) && BehindTable(I) == BehindTable(J)
  {
    hide LeafSet, ConstraintSet, Predecessors, Candidates;
    SameLeafSets(I, J);
    SameConstraints(I, J);
    forall i ensures DependeesOf(I, i) == DependeesOf(J, i) { }
    assert BehindTable(I) == BehindTable(J);
  }

  lemma SpanIsUnique(result: Results, open: set<int>, f: TaskForecast, g: TaskForecast)
    requires Spans(result, open, f) && Spans(result, open, g)
    ensures f.start == g.start && f.finish == g.finish
  {
    var j :| j in open && j in result && result[j].finish == f.finish;
    var k :| k in open && k in result && result[k].finish == g.finish;
    assert f.finish.value <= g.finish.value && g.finish.value <= f.finish.value;
    if f.start.Some? {
      var m :| m in open && m in result && result[m].start == f.start;
      assert g.start.Some? && g.start.value <= f.start.value;
    }
    if g.start.Some? {
      var m :| m in open && m in result && result[m].start == g.start;
      assert f.start.Some? && f.start.value <= g.start.value;
    }
  }

  lemma RollUpIsUnique(children: Graph, result: Results, task: Task, f: TaskForecast, g: TaskForecast)
    requires RollsUp(children, result, task, f) && RollsUp(children, result, task, g)
    ensures f == g
  {
    hide Spans, LeafSet;
    var open := OpenBelow(children, result, task.id);
    if !task.Closed() && open != {} && !exists j :: j in open && result[j].finish.None? {
      SpanIsUnique(result, open, f, g);
    }
  }

  lemma RollUpIsOrderFree(I: Inputs, J: Inputs, result: Results, result': Results, task: Task, f: TaskForecast)
    requires SameInputs(I, J) && RollsUp(I.children, result, task, f)
    requires forall j :: j in LeafSet(I.children, task.id) ==> (j in result <==> j in result')
    requires forall j :: j in LeafSet(I.children, task.id) && j in result ==> result[j] == result'[j]
    ensures RollsUp(J.children, result', task, f)
  {
    hide LeafSet, Spans, SameInputs;
    SameLeafSets(I, J);
    var open, open' := OpenBelow(I.children, result, task.id), OpenBelow(J.children, result', task.id);
    forall j ensures j in open <==> j in open' {
      assert j in LeafSet(I.children, task.id) <==> j in LeafSet(J.children, task.id);
    }
    assert open == open';
    forall j | j in open ensures j in result && j in result' && result[j] == result'[j] {
      assert j in LeafSet(I.children, task.id);
    }
    SpanSeesOpen(result, result', open, f);
    if j :| j in open && result[j].finish.None? { assert j in open' && result'[j].finish.None?; }
    if j :| j in open' && result'[j].finish.None? { assert j in open && result[j].finish.None?; }
  }

  lemma SpanSeesOpen(result: Results, result': Results, open: set<int>, f: TaskForecast)
    requires forall j :: j in open ==> j in result && j in result' && result[j] == result'[j]
    ensures Spans(result, open, f) <==> Spans(result', open, f)
  {
  }

  lemma LeavesBelowAreChildless(I: Inputs, i: int, j: int)
    requires I.Valid() && j in LeafSet(I.children, i)
    ensures j in I.tasks ==> j in Childless(I)
  {
  }

  // If no start waits for what can still happen on the same day (FS lags at least 0, SS lags at least 1), and no ring of
  // finish-to-finish dependencies rises, the whole forecast is a function of the tasks, dependencies and seats as sets:
  // listing them in another order, or visiting the seats in another order, changes no result.
  lemma ForecastIgnoresOrder(I: Inputs, J: Inputs, queues: seq<SeatQueue>, queues': seq<SeatQueue>, R: Leaves,
                             R': Leaves, result: Results, result': Results)
    requires SameInputs(I, J) && IsForecast(I, queues, R, result) && IsForecast(J, queues', R', result')
    requires OnlyForwardStarts(Plan(I)) && NoRingRises(Plan(I), After(Plan(I), queues, I.Days()))
    ensures result == result'
  {
    hide ValidQueues, NoRingRises, Lifted, BelowSolutions, AllFloorsMet, Solvable, OnlyForwardStarts, Raised, After,
         LeafResult, RollsUp, Candidates, FirstResults, Plan, Childless;
    SamePlan(I, J);
    SameLeafSets(I, J);
    var S := Plan(I);
    OrderDoesNotMatter(S, queues, queues', I.Days());
    FloorsAreMetExactly(S, After(S, queues, I.Days()), R);
    FloorsAreMetExactly(S, After(S, queues, I.Days()), R');
    LeastSolutionIsUnique(S, After(S, queues, I.Days()), R, R');
    forall i | i in Childless(I) ensures i in result && i in result' && result[i] == result'[i] {
    }
    forall i | i in I.tasks ensures result[i] == result'[i] {
      if HasSubtasks(I.children, i) {
        LeafSetTellsSubtasks(I.children, i);
        LeafSetTellsSubtasks(J.children, i);
        ParentsAgree(I, J, result, result', i);
      } else {
        ChildlessHere(I, i);
      }
    }
  }

  lemma ParentsAgree(I: Inputs, J: Inputs, result: Results, result': Results, i: int)
    requires SameInputs(I, J) && result.Keys == I.tasks.Keys == result'.Keys && i in I.tasks
    requires forall j :: j in Childless(I) ==> j in result && j in result' && result[j] == result'[j]
    requires RollsUp(I.children, result, I.tasks[i], result[i]) && RollsUp(J.children, result', I.tasks[i], result'[i])
    requires I.tasks[i].id == i && HasSubtasks(I.children, i) && LeafSet(I.children, i) == LeafSet(J.children, i)
    ensures result[i] == result'[i]
  {
    hide RollsUp, LeafSet, Childless;
    forall j | j in LeafSet(I.children, i) && j in result ensures j in result' && result[j] == result'[j] {
      LeavesBelowAreChildless(I, i, j);
    }
    RollUpIsOrderFree(I, J, result, result', I.tasks[i], result[i]);
    RollUpIsUnique(J.children, result', I.tasks[i], result[i], result'[i]);
  }

  lemma ChildlessHere(I: Inputs, i: int)
    requires i in I.tasks && !HasSubtasks(I.children, i)
    ensures i in Childless(I)
  {
  }

  // ---- parents ----------------------------------------------------------------------------------

  // The leaves below a task with subtasks are the leaves below its children, closed ones included; so what a parent
  // is forecast from is found by going down the tree one level at a time.
  lemma LeafSetUnfolds(children: Graph, p: int)
    requires HasSubtasks(children, p)
    ensures LeafSet(children, p) == set c, d | c in Next(children, p) && d in LeafSet(children, c) :: d
  {
    forall d | d in LeafSet(children, p)
      ensures exists c :: c in Next(children, p) && d in LeafSet(children, c)
    {
      var c := FirstStep(children, p, d);
      if !HasSubtasks(children, c) && c != d {
        var e := FirstStep(children, c, d);
      }
      assert c in Next(children, p) && d in LeafSet(children, c);
    }
    forall c, d | c in Next(children, p) && d in LeafSet(children, c) ensures d in LeafSet(children, p) {
      ReachesItself(children, c);
      ReachesFromNext(children, p, c, d);
    }
  }
}
