/** A seat working through a plain queue: the day-by-day simulation against a formula on prefix sums. */
module ForecastClosedForm {
  import opened Basics
  import opened WorkSeats
  import opened TaskBoard
  import opened ForecastModel
  import opened ForecastInvariants
  import opened ForecastLedger
  import opened ForecastFairness
  import opened ForecastLocality
  import opened ForecastConfluence

  ghost predicate WaitsForNothing(S: Setup, i: int) {
    forall c :: c in S.ConstraintsOn(i) ==> c.kind.FF? || c.kind.SF?
  }

  // Leaves whose start waits for nothing, that take no percentage, may start today and share one calendar.
  ghost predicate PlainSeat(S: Setup, sq: SeatQueue) {
    && S.eps == 0.0
    && (forall i :: i in sq.queue ==>
          i in S.info && WaitsForNothing(S, i) && S.Share(i) <= 0 && PlannedToStart(S, i, S.today))
    && (forall i, j, day :: i in sq.queue && j in sq.queue ==> (S.works(i, day) <==> S.works(j, day)))
  }

  // The hours the seat can really work on a day.
  ghost function WorkableHours(S: Setup, sq: SeatQueue, day: Day): (r: real)
    ensures r >= 0.0
  {
    if exists i :: i in sq.queue && S.works(i, day) then S.hours(sq.key, day) else 0.0
  }

  // And over the first n days.
  ghost function Workable(S: Setup, sq: SeatQueue, n: nat): (r: real)
    ensures r >= 0.0
  {
    if n == 0 then 0.0 else Workable(S, sq, n - 1) + WorkableHours(S, sq, S.today + n - 1)
  }

  // The work that must be done before the leaves in ids are all finished.
  ghost function WorkOf(S: Setup, ids: seq<int>): real {
    if ids == [] then 0.0 else (if ids[0] in S.info then S.info[ids[0]].initial else 0.0) + WorkOf(S, ids[1..])
  }

  function Backlog(L: Leaves, ids: seq<int>): real {
    if ids == [] then 0.0 else (if ids[0] in L then L[ids[0]].remaining else 0.0) + Backlog(L, ids[1..])
  }

  lemma {:induction false} BacklogIsNotNegative(L: Leaves, ids: seq<int>)
    requires NoneOverdone(L)
    ensures Backlog(L, ids) >= 0.0
  {
    if ids != [] {
      var i := ids[0];
      assert i in L ==> L[i].remaining >= 0.0;
      BacklogIsNotNegative(L, ids[1..]);
    }
  }

  lemma {:induction false} SameBacklog(L: Leaves, L': Leaves, ids: seq<int>)
    requires forall i :: i in ids ==> i in L && i in L' && L[i].remaining == L'[i].remaining
    ensures Backlog(L, ids) == Backlog(L', ids)
  {
    if ids != [] {
      var i := ids[0];
      assert i in ids;
      SameBacklog(L, L', ids[1..]);
    }
  }

  // Open leaves have something left to do, the others nothing.
  ghost predicate Clear(L: Leaves) {
    forall i :: i in L ==> if L[i].finish.None? then L[i].remaining > 0.0 else L[i].remaining == 0.0
  }

  lemma {:induction false} NothingSharedLine(S: Setup, ids: seq<int>)
    requires NoneShared(S, ids)
    ensures Shared(S, ids) == [] && Unshared(S, ids) == ids
  {
    if ids != [] {
      assert ids[0] in ids;
      NothingSharedLine(S, ids[1..]);
    }
  }

  lemma ReadyFront(S: Setup, sq: SeatQueue, ids: seq<int>, day: Day, L: Leaves)
    requires PlainSeat(S, sq) && S.today <= day && ids != [] && ids[0] in sq.queue && ids[0] in L && S.works(ids[0], day)
    ensures ReadyList(S, ids, day, L, {})
            == (if L[ids[0]].finish.None? then [ids[0]] else []) + ReadyList(S, ids[1..], day, L, {})
  {
    var i := ids[0];
    assert i in sq.queue;
    assert AllSatisfied(S, i, day, L);
  }

  lemma ServeOneOfQueue(S: Setup, key: SeatKey, i: int, scale: real, day: Day, ds: DayState)
    requires S.eps == 0.0 && key in S.seats && i in S.info && i in ds.leaves && S.Share(i) <= 0
    requires ds.leaves[i].remaining > 0.0 && ds.Left(key) >= 0.0
    ensures var next := ServeOne(S, key, i, scale, day, ds);
            var used := Min(ds.Left(key), ds.leaves[i].remaining);
            && next.Left(key) == ds.Left(key) - used
            && next.leaves[i].remaining == ds.leaves[i].remaining - used
            && forall j :: j in ds.leaves && j != i ==> next.leaves[j] == ds.leaves[j]
  {
  }

  // The first leaf of a plain queue takes the hours it needs, as far as there are any, and leaves the rest alone.
  lemma ServeFront(S: Setup, sq: SeatQueue, ids: seq<int>, scale: real, day: Day, L: Leaves, ds: DayState)
    returns (next: DayState)
    requires PlainSeat(S, sq) && sq.key in S.seats && Distinct(ids) && ids != [] && S.today <= day
    requires Clear(L) && ds.leaves.Keys == L.Keys && ds.Left(sq.key) >= 0.0
    requires forall i :: i in ids ==> i in sq.queue && i in L && ds.leaves[i] == L[i] && S.works(i, day)
    ensures next.leaves.Keys == L.Keys && forall i :: i in ids[1..] ==> next.leaves[i] == L[i]
    ensures ids[0] !in ids[1..] && ids[0] in L && next.leaves[ids[0]].remaining == Max(0.0, L[ids[0]].remaining - ds.Left(sq.key))
    ensures next.Left(sq.key) == Max(0.0, ds.Left(sq.key) - L[ids[0]].remaining)
    ensures Serve(S, sq.key, ReadyList(S, ids, day, L, {}), scale, day, ds)
            == Serve(S, sq.key, ReadyList(S, ids[1..], day, L, {}), scale, day, next)
  {
    hide ServeOne, ReadyList, Backlog;
    var i, rest := ids[0], ids[1..];
    assert i in ids && i in sq.queue && i !in rest;
    ReadyFront(S, sq, ids, day, L);
    ReadyInInfo(S, rest, day, L, {});
    var line := ReadyList(S, rest, day, L, {});
    assert ([i] + line)[1..] == line && [] + line == line;
    if L[i].finish.None? {
      ServeOneOfQueue(S, sq.key, i, scale, day, ds);
      next := ServeOne(S, sq.key, i, scale, day, ds);
    } else {
      next := ds;
    }
  }

  // Serving a plain queue takes the hours off the front of its backlog.
  lemma {:induction false} ServingClearsBacklog(S: Setup, sq: SeatQueue, ids: seq<int>, scale: real, day: Day,
                                                L: Leaves, ds: DayState, k: nat)
    requires PlainSeat(S, sq) && sq.key in S.seats && Distinct(ids) && k <= |ids| && S.today <= day
    requires Clear(L) && ds.leaves.Keys == L.Keys && ds.Left(sq.key) >= 0.0
    requires forall i :: i in ids ==> i in sq.queue && i in L && ds.leaves[i] == L[i] && S.works(i, day)
    ensures var r := Serve(S, sq.key, ReadyList(S, ids, day, L, {}), scale, day, ds);
            Backlog(r.leaves, ids[..k]) == Max(0.0, Backlog(L, ids[..k]) - ds.Left(sq.key))
  {
    hide Serve, ReadyList, Backlog, Clear, PlainSeat;
    if k == 0 {
      assert ids[..0] == [];
      EmptyBacklog(L);
      EmptyBacklog(Serve(S, sq.key, ReadyList(S, ids, day, L, {}), scale, day, ds).leaves);
    } else {
      var rest := ids[1..];
      assert ids[0] in ids && ids[..k][0] == ids[0] && ids[..k][1..] == rest[..k - 1];
      var next := ServeFront(S, sq, ids, scale, day, L, ds);
      ReadyInInfo(S, rest, day, L, {});
      var line := ReadyList(S, rest, day, L, {});
      ServeTouchesOnlyTheLine(S, sq.key, line, scale, day, next, ids[0]);
      ServingClearsBacklog(S, sq, rest, scale, day, L, next, k - 1);
      ClearIsNotOverdone(L);
      BacklogIsNotNegative(L, rest[..k - 1]);
      FrontOfBacklog(Serve(S, sq.key, line, scale, day, next).leaves, ids[..k]);
      FrontOfBacklog(L, ids[..k]);
    }
  }

  lemma ClearIsNotOverdone(L: Leaves)
    requires Clear(L)
    ensures NoneOverdone(L)
  {
  }

  lemma EmptyBacklog(L: Leaves)
    ensures Backlog(L, []) == 0.0
  {
  }

  lemma FrontOfBacklog(L: Leaves, ids: seq<int>)
    requires ids != [] && ids[0] in L
    ensures Backlog(L, ids) == L[ids[0]].remaining + Backlog(L, ids[1..])
  {
  }

  // A day takes its workable hours off the front of the backlog.
  lemma DayClearsBacklog(S: Setup, queues: seq<SeatQueue>, a: nat, day: Day, L: Leaves, k: nat)
    requires ValidQueues(S, queues) && a < |queues| && PlainSeat(S, queues[a]) && S.today <= day
    requires Clear(L) && L.Keys == S.info.Keys && k <= |queues[a].queue|
    ensures Backlog(RunDay(S, queues, day, L).leaves, queues[a].queue[..k])
            == Max(0.0, Backlog(L, queues[a].queue[..k]) - WorkableHours(S, queues[a], day))
  {
    hide RunDay, Serve, AllSatisfied;
    var sq := queues[a];
    var front := sq.queue[..k];
    var M := Morning(S, day, L);
    var T := Visit(S, sq, day, M);
    PlainSeatIsSteady(S, sq, day, L);
    OneVisitSettlesTheDay(S, queues, a, day, L);
    forall i | i in front ensures i in sq.queue { }
    assert Agree(sq, RunDay(S, queues, day, L), T);
    DayKeepsLeaves(S, queues, day, L);
    SameBacklog(RunDay(S, queues, day, L).leaves, T.leaves, front);
    VisitClearsBacklog(S, queues, a, day, L, k);
  }

  lemma PlainSeatIsSteady(S: Setup, sq: SeatQueue, day: Day, L: Leaves)
    requires PlainSeat(S, sq)
    ensures Steady(S, sq, day, L)
  {
  }

  lemma PlainReadyLine(S: Setup, sq: SeatQueue, day: Day, L: Leaves)
    requires PlainSeat(S, sq)
    ensures NoneShared(S, ReadyList(S, sq.queue, day, L, {}))
    ensures !(exists i :: i in sq.queue && S.works(i, day)) ==> ReadyList(S, sq.queue, day, L, {}) == []
  {
    hide AllSatisfied;
    var ready := ReadyList(S, sq.queue, day, L, {});
    if ready != [] {
      var i := ready[0];
      assert i in ready && i in sq.queue && Eligible(S, i, day, L, {});
    }
  }

  lemma VisitClearsBacklog(S: Setup, queues: seq<SeatQueue>, a: nat, day: Day, L: Leaves, k: nat)
    requires ValidQueues(S, queues) && a < |queues| && PlainSeat(S, queues[a]) && S.today <= day
    requires Clear(L) && L.Keys == S.info.Keys && k <= |queues[a].queue|
    ensures Backlog(Visit(S, queues[a], day, Morning(S, day, L)).leaves, queues[a].queue[..k])
            == Max(0.0, Backlog(L, queues[a].queue[..k]) - WorkableHours(S, queues[a], day))
  {
    hide Serve, AllSatisfied, Before, ReadyList, Backlog, Eligible, DayScale;
    var sq := queues[a];
    assert InOrder(S, sq.queue) && sq.key in S.seats;
    InOrderIsDistinct(S, sq.queue);
    var M := Morning(S, day, L);
    var ready := ReadyList(S, sq.queue, day, L, {});
    assert M.given.Keys == {};
    assert ready == ReadyAt(S, sq, day, M);
    BacklogIsNotNegative(L, sq.queue[..k]);
    PlainReadyLine(S, sq, day, L);
    NothingSharedLine(S, ready);
    ReadyInInfo(S, sq.queue, day, L, {});
    var scale := DayScale(S, ready);
    assert Line(S, ready) == ready;
    assert M.Left(sq.key) == S.hours(sq.key, day);
    if exists i :: i in sq.queue && S.works(i, day) {
      ServingClearsBacklog(S, sq, sq.queue, scale, day, L, M, k);
      if ready == [] { ServingNobody(S, sq.key, scale, day, M); }
    }
  }

  lemma RunIsClear(S: Setup, queues: seq<SeatQueue>, n: nat)
    requires ValidQueues(S, queues) && S.eps == 0.0
    ensures Clear(After(S, queues, n))
  {
    hide RunDay, ValidQueues, Ledger;
    var states, logs := States(S, queues, n), Logs(S, queues, n);
    RunKeepsLedger(S, queues, n);
    forall i | i in S.info
      ensures var s := After(S, queues, n)[i]; if s.finish.None? then s.remaining > 0.0 else s.remaining == 0.0
    {
      HoursAreConserved(S, queues, states, logs, i);
    }
  }

  lemma {:induction false} InitialBacklog(S: Setup, ids: seq<int>)
    ensures Backlog(Initial(S), ids) == WorkOf(S, ids)
  {
    if ids != [] {
      var i := ids[0];
      assert i in Initial(S) <==> i in S.info;
      InitialBacklog(S, ids[1..]);
    }
  }

  // After n days, what the first k leaves of the queue still need is their work less the hours worked so far.
  lemma {:induction false} BacklogClosedForm(S: Setup, queues: seq<SeatQueue>, a: nat, n: nat, k: nat)
    requires ValidQueues(S, queues) && a < |queues| && PlainSeat(S, queues[a]) && k <= |queues[a].queue|
    ensures Backlog(After(S, queues, n), queues[a].queue[..k])
            == Max(0.0, WorkOf(S, queues[a].queue[..k]) - Workable(S, queues[a], n))
  {
    hide RunDay, ValidQueues, PlainSeat, WorkableHours;
    assert S.eps == 0.0 by { EpsOfPlainSeat(S, queues[a]); }
    if n == 0 {
      InitialBacklog(S, queues[a].queue[..k]);
      assert NoneOverdone(Initial(S)) by { RunIsNeverOverdone(S, queues, 0); }
      BacklogIsNotNegative(Initial(S), queues[a].queue[..k]);
    } else {
      BacklogClosedForm(S, queues, a, n - 1, k);
      RunIsClear(S, queues, n - 1);
      var day := S.today + n - 1;
      DayClearsBacklog(S, queues, a, day, After(S, queues, n - 1), k);
      assert WorkableHours(S, queues[a], day) >= 0.0;
    }
  }

  lemma EpsOfPlainSeat(S: Setup, sq: SeatQueue)
    requires PlainSeat(S, sq)
    ensures S.eps == 0.0
  {
  }

  lemma {:induction false} BacklogAppends(L: Leaves, ids: seq<int>, i: int)
    ensures Backlog(L, ids + [i]) == Backlog(L, ids) + if i in L then L[i].remaining else 0.0
  {
    if ids == [] {
      assert ids + [i] == [i];
      assert Backlog(L, [i][1..]) == 0.0;
    } else {
      assert (ids + [i])[1..] == ids[1..] + [i];
      BacklogAppends(L, ids[1..], i);
    }
  }

  lemma {:induction false} WorkAppends(S: Setup, ids: seq<int>, i: int)
    ensures WorkOf(S, ids + [i]) == WorkOf(S, ids) + if i in S.info then S.info[i].initial else 0.0
  {
    if ids == [] {
      assert ids + [i] == [i];
      assert WorkOf(S, [i][1..]) == 0.0;
    } else {
      assert (ids + [i])[1..] == ids[1..] + [i];
      WorkAppends(S, ids[1..], i);
    }
  }

  // d is the day on which the workable hours first reach `target`.
  ghost predicate ReachedOn(S: Setup, sq: SeatQueue, target: real, d: Day) {
    S.today <= d && Workable(S, sq, d - S.today) < target <= Workable(S, sq, d - S.today + 1)
  }

  // d is the day on which the workable hours first exceed `target`.
  ghost predicate ExceededOn(S: Setup, sq: SeatQueue, target: real, d: Day) {
    S.today <= d && Workable(S, sq, d - S.today) <= target < Workable(S, sq, d - S.today + 1)
  }

  ghost predicate FollowsFormula(S: Setup, sq: SeatQueue, k: nat, n: nat, s: LeafState)
    requires k < |sq.queue|
  {
    var ahead, done, worked := WorkOf(S, sq.queue[..k]), WorkOf(S, sq.queue[..k + 1]), Workable(S, sq, n);
    && s.remaining == Max(0.0, done - worked) - Max(0.0, ahead - worked)
    && (s.finish.Some? <==> worked >= done)
    && (s.finish.Some? ==> ReachedOn(S, sq, done, s.finish.value))
    && (s.start.Some? <==> worked > ahead)
    && (s.start.Some? ==> ExceededOn(S, sq, ahead, s.start.value))
  }

  lemma RemainderFormula(S: Setup, queues: seq<SeatQueue>, a: nat, k: nat, n: nat)
    requires ValidQueues(S, queues) && a < |queues| && PlainSeat(S, queues[a]) && k < |queues[a].queue|
    ensures var i := queues[a].queue[k];
            var q := queues[a].queue;
            && i in S.info && S.info[i].initial > 0.0
            && WorkOf(S, q[..k + 1]) == WorkOf(S, q[..k]) + S.info[i].initial
            && After(S, queues, n)[i].remaining
               == Max(0.0, WorkOf(S, q[..k + 1]) - Workable(S, queues[a], n)) - Max(0.0, WorkOf(S, q[..k]) - Workable(S, queues[a], n))
  {
    hide RunDay, ValidQueues, WorkableHours, After, Backlog, WorkOf, Workable;
    var q := queues[a].queue;
    var i := q[k];
    assert i in q && i in S.info;
    assert q[..k + 1] == q[..k] + [i];
    BacklogClosedForm(S, queues, a, n, k);
    BacklogClosedForm(S, queues, a, n, k + 1);
    BacklogAppends(After(S, queues, n), q[..k], i);
    WorkAppends(S, q[..k], i);
  }

  // One more day keeps a leaf on the formula.
  lemma FormulaStep(S: Setup, sq: SeatQueue, k: nat, n: nat, s: LeafState, s': LeafState, served: bool, hours: real)
    requires S.eps == 0.0 && k < |sq.queue| && FollowsFormula(S, sq, k, n, s)
    requires LeafEntry(S, sq.queue[k], S.today + n, s, s', served, hours)
    requires WorkOf(S, sq.queue[..k]) < WorkOf(S, sq.queue[..k + 1])
    requires s'.remaining == Max(0.0, WorkOf(S, sq.queue[..k + 1]) - Workable(S, sq, n + 1))
                             - Max(0.0, WorkOf(S, sq.queue[..k]) - Workable(S, sq, n + 1))
    requires s'.finish.None? <==> s'.remaining > 0.0
    ensures FollowsFormula(S, sq, k, n + 1, s')
  {
    hide WorkOf, WorkableHours;
  }

  lemma FormulaAtStart(S: Setup, sq: SeatQueue, k: nat, s: LeafState)
    requires k < |sq.queue| && sq.queue[k] in S.info && s == LeafState(S.info[sq.queue[k]].initial, None, None)
    requires S.info[sq.queue[k]].initial > 0.0
    requires WorkOf(S, sq.queue[..k + 1]) == WorkOf(S, sq.queue[..k]) + S.info[sq.queue[k]].initial
    ensures FollowsFormula(S, sq, k, 0, s)
  {
    hide WorkOf, WorkableHours;
    WorkIsNotNegative(S, sq.queue[..k]);
  }

  lemma ClearLeaf(L: Leaves, i: int)
    requires Clear(L) && i in L
    ensures L[i].finish.None? <==> L[i].remaining > 0.0
  {
  }

  // A day of the run keeps its leaves on the formula.
  lemma FormulaNextDay(S: Setup, queues: seq<SeatQueue>, a: nat, k: nat, m: nat, i: int)
    requires ValidQueues(S, queues) && a < |queues| && PlainSeat(S, queues[a])
    requires k < |queues[a].queue| && i == queues[a].queue[k] && i in S.info
    requires FollowsFormula(S, queues[a], k, m, After(S, queues, m)[i])
    ensures FollowsFormula(S, queues[a], k, m + 1, After(S, queues, m + 1)[i])
  {
    hide After, ValidQueues, PlainSeat, WorkableHours, Workable, WorkOf, DayEntry, LeafEntry, FollowsFormula, Clear;
    EpsOfPlainSeat(S, queues[a]);
    RemainderFormula(S, queues, a, k, m + 1);
    DayOfRun(S, queues, m);
    RunIsClear(S, queues, m + 1);
    var L, L', log := After(S, queues, m), After(S, queues, m + 1), Given(S, queues, m);
    LeafOfDay(S, queues, S.today + m, L, L', log, i);
    ClearLeaf(L', i);
    FormulaStep(S, queues[a], k, m, L[i], L'[i], i in log, Entry(log, i));
  }

  // The k-th leaf of a plain queue starts on the first day whose cumulative workable hours exceed the work ahead
  // of it, and finishes on the first day whose cumulative workable hours reach the work up to and including it.
  lemma {:induction false} PlainQueueFollowsFormula(S: Setup, queues: seq<SeatQueue>, a: nat, k: nat, n: nat)
    requires ValidQueues(S, queues) && a < |queues| && PlainSeat(S, queues[a]) && k < |queues[a].queue|
    ensures queues[a].queue[k] in S.info
    ensures FollowsFormula(S, queues[a], k, n, After(S, queues, n)[queues[a].queue[k]])
  {
    hide RunDay, ValidQueues, PlainSeat, WorkOf, Workable, FollowsFormula;
    RemainderFormula(S, queues, a, k, n);
    var i := queues[a].queue[k];
    if n == 0 {
      FormulaAtStart(S, queues[a], k, After(S, queues, 0)[i]);
    } else {
      PlainQueueFollowsFormula(S, queues, a, k, n - 1);
      FormulaNextDay(S, queues, a, k, n - 1, i);
    }
  }

  lemma {:induction false} WorkIsNotNegative(S: Setup, ids: seq<int>)
    ensures WorkOf(S, ids) >= 0.0
  {
    if ids != [] {
      var i := ids[0];
      assert i in S.info ==> S.info[i].initial >= 0.0;
      WorkIsNotNegative(S, ids[1..]);
    }
  }
}
