/** Seats that cannot disturb each other within a day: one visit settles such a seat for the day, whatever
    the other seats do and in whatever order they are visited. */
module ForecastLocality {
  import opened Basics
  import opened WorkSeats
  import opened TaskBoard
  import opened ForecastModel
  import opened ForecastInvariants
  import opened ForecastFairness

  // Two states look the same from a seat.
  ghost predicate Agree(sq: SeatQueue, ds: DayState, ds': DayState) {
    && ds.Left(sq.key) == ds'.Left(sq.key)
    && forall i :: i in sq.queue ==>
         && (i in ds.leaves <==> i in ds'.leaves) && (i in ds.leaves ==> ds.leaves[i] == ds'.leaves[i])
         && (i in ds.given <==> i in ds'.given)
  }

  lemma AgreeTransitively(sq: SeatQueue, a: DayState, b: DayState, c: DayState)
    requires Agree(sq, a, b) && Agree(sq, b, c)
    ensures Agree(sq, a, c)
  {
  }

  lemma {:induction false} ServeAgrees(S: Setup, sq: SeatQueue, ids: seq<int>, scale: real, day: Day, ds: DayState,
                                       ds': DayState)
    requires sq.key in S.seats && Agree(sq, ds, ds')
    requires forall i :: i in ids ==> i in sq.queue && i in S.info && i in ds.leaves
    ensures forall i :: i in ids ==> i in ds'.leaves
    ensures Agree(sq, Serve(S, sq.key, ids, scale, day, ds), Serve(S, sq.key, ids, scale, day, ds'))
  {
    if ids != [] {
      assert ids[0] in ids;
      ServeAgrees(S, sq, ids[1..], scale, day, ServeOne(S, sq.key, ids[0], scale, day, ds),
                  ServeOne(S, sq.key, ids[0], scale, day, ds'));
    }
  }

  lemma {:induction false} ServeSpendsOnlyItsOwn(S: Setup, key: SeatKey, ids: seq<int>, scale: real, day: Day,
                                                 ds: DayState, other: SeatKey)
    requires key in S.seats && other != key
    requires forall i :: i in ids ==> i in S.info && i in ds.leaves
    ensures Serve(S, key, ids, scale, day, ds).Left(other) == ds.Left(other)
  {
    if ids != [] {
      ServeSpendsOnlyItsOwn(S, key, ids[1..], scale, day, ServeOne(S, key, ids[0], scale, day, ds), other);
    }
  }

  lemma ReadyInInfo(S: Setup, queue: seq<int>, day: Day, L: Leaves, given: set<int>)
    ensures forall i :: i in ReadyList(S, queue, day, L, given) ==> i in S.info && i in L && i in queue
  {
  }

  lemma QueuesAreDisjoint(S: Setup, queues: seq<SeatQueue>, a: nat, b: nat, i: int)
    requires ValidQueues(S, queues) && a < |queues| && b < |queues| && a != b && i in queues[a].queue
    ensures i !in queues[b].queue
  {
    hide InOrder;
    assert S.info[i].seat == queues[a].key;
    assert queues[a].key != queues[b].key;
  }

  // A visit to another seat cannot be noticed.
  lemma OtherVisitIsUnnoticed(S: Setup, queues: seq<SeatQueue>, a: nat, b: nat, day: Day, ds: DayState)
    requires ValidQueues(S, queues) && a < |queues| && b < |queues| && a != b
    ensures Agree(queues[a], ds, Visit(S, queues[b], day, ds))
  {
    hide Eligible, Serve, Line, DayScale, InOrder;
    ReadyInInfo(S, queues[b].queue, day, ds.leaves, ds.given.Keys);
    var sq, other := queues[a], queues[b];
    assert sq.key != other.key;
    if CanServe(S, other, day, ds) {
      var ready := ReadyAt(S, other, day, ds);
      var line, scale := Line(S, ready), DayScale(S, ready);
      ServeSpendsOnlyItsOwn(S, other.key, line, scale, day, ds, sq.key);
      forall i | i in sq.queue
        ensures i !in line
      {
        QueuesAreDisjoint(S, queues, a, b, i);
      }
      forall i | i in sq.queue
        ensures var r := Visit(S, other, day, ds);
                && (i in r.leaves <==> i in ds.leaves) && (i in ds.leaves ==> r.leaves[i] == ds.leaves[i])
                && (i in r.given <==> i in ds.given)
      {
        ServeTouchesOnlyTheLine(S, other.key, line, scale, day, ds, i);
      }
    }
  }

  // Where the leaves can be between the morning of a day and its evening.
  ghost predicate DuringDay(day: Day, L: Leaves, L': Leaves) {
    && L.Keys == L'.Keys
    && (forall j :: j in L ==> L'[j].finish == L[j].finish || (L[j].finish.None? && L'[j].finish == Some(day)))
    && (forall j :: j in L ==> L'[j].start == L[j].start || (L[j].start.None? && L'[j].start == Some(day)))
  }

  // Nothing that can happen on this day changes what the leaves of this seat wait for.
  ghost predicate Steady(S: Setup, sq: SeatQueue, day: Day, L: Leaves) {
    forall i, L' :: i in sq.queue && DuringDay(day, L, L') ==> (AllSatisfied(S, i, day, L') <==> AllSatisfied(S, i, day, L))
  }

  lemma {:induction false} SameReady(S: Setup, sq: SeatQueue, ids: seq<int>, day: Day, L: Leaves, ds: DayState,
                                     ds': DayState)
    requires Steady(S, sq, day, L) && DuringDay(day, L, ds.leaves) && DuringDay(day, L, ds'.leaves)
    requires Agree(sq, ds, ds') && forall i :: i in ids ==> i in sq.queue
    ensures ReadyList(S, ids, day, ds.leaves, ds.given.Keys) == ReadyList(S, ids, day, ds'.leaves, ds'.given.Keys)
  {
    hide AllSatisfied, DuringDay;
    if ids != [] {
      SameReady(S, sq, ids[1..], day, L, ds, ds');
      var i := ids[0];
      assert i in ids && i in sq.queue;
      assert AllSatisfied(S, i, day, ds.leaves) <==> AllSatisfied(S, i, day, L);
      assert AllSatisfied(S, i, day, ds'.leaves) <==> AllSatisfied(S, i, day, L);
    }
  }

  lemma SameVisit(S: Setup, sq: SeatQueue, day: Day, L: Leaves, ds: DayState, ds': DayState)
    requires Steady(S, sq, day, L) && DuringDay(day, L, ds.leaves) && DuringDay(day, L, ds'.leaves)
    requires Agree(sq, ds, ds')
    ensures CanServe(S, sq, day, ds) <==> CanServe(S, sq, day, ds')
    ensures Agree(sq, Visit(S, sq, day, ds), Visit(S, sq, day, ds'))
  {
    hide Steady, DuringDay, Eligible, Serve, Line, DayScale;
    SameReady(S, sq, sq.queue, day, L, ds, ds');
    if CanServe(S, sq, day, ds) {
      var ready := ReadyAt(S, sq, day, ds);
      assert forall i :: i in ready ==> Eligible(S, i, day, ds.leaves, ds.given.Keys);
      ReadyInInfo(S, sq.queue, day, ds.leaves, ds.given.Keys);
      ServeAgrees(S, sq, Line(S, ready), DayScale(S, ready), day, ds, ds');
    }
  }

  // ---- one visit settles the seat --------------------------------------------------------

  // Serving a line with hours to spare serves everyone in it.
  lemma {:induction false} HoursToSpareServeAll(S: Setup, key: SeatKey, ids: seq<int>, scale: real, day: Day,
                                                ds: DayState, i: int)
    requires key in S.seats && i in ids && forall x :: x in ids ==> x in S.info && x in ds.leaves && ds.leaves[x].remaining >= 0.0
    requires Distinct(ids) && Serve(S, key, ids, scale, day, ds).Left(key) > S.eps
    ensures i in Serve(S, key, ids, scale, day, ds).given
  {
    hide ServeOne;
    var first := ids[0];
    assert first in ids && first !in ids[1..];
    ServeOneSpends(S, key, first, scale, day, ds);
    var next := ServeOne(S, key, first, scale, day, ds);
    if i == first {
      LeftNeverGrows(S, key, ids[1..], scale, day, next);
    } else {
      HoursToSpareServeAll(S, key, ids[1..], scale, day, next, i);
    }
  }

  lemma {:induction false} LeftNeverGrows(S: Setup, key: SeatKey, ids: seq<int>, scale: real, day: Day, ds: DayState)
    requires key in S.seats && Distinct(ids)
    requires forall x :: x in ids ==> x in S.info && x in ds.leaves && ds.leaves[x].remaining >= 0.0
    ensures Serve(S, key, ids, scale, day, ds).Left(key) <= ds.Left(key)
  {
    hide ServeOne;
    if ids != [] {
      assert ids[0] in ids && ids[0] !in ids[1..];
      ServeOneSpends(S, key, ids[0], scale, day, ds);
      LeftNeverGrows(S, key, ids[1..], scale, day, ServeOne(S, key, ids[0], scale, day, ds));
    }
  }

  lemma ServeOneSpends(S: Setup, key: SeatKey, i: int, scale: real, day: Day, ds: DayState)
    requires key in S.seats && i in S.info && i in ds.leaves && ds.leaves[i].remaining >= 0.0
    ensures var next := ServeOne(S, key, i, scale, day, ds);
            && next.Left(key) <= ds.Left(key)
            && (next.Left(key) > S.eps ==> i in next.given)
            && forall j :: j in ds.leaves && j != i ==> next.leaves[j] == ds.leaves[j]
  {
    hide Cut;
  }

  ghost predicate NoneOverdone(L: Leaves) {
    forall i :: i in L ==> L[i].remaining >= 0.0
  }

  lemma VisitSettles(S: Setup, queues: seq<SeatQueue>, a: nat, day: Day, L: Leaves, ds: DayState)
    requires ValidQueues(S, queues) && a < |queues|
    requires Steady(S, queues[a], day, L) && DuringDay(day, L, ds.leaves)
    requires DuringDay(day, L, Visit(S, queues[a], day, ds).leaves)
    requires NoneOverdone(ds.leaves)
    ensures !CanServe(S, queues[a], day, Visit(S, queues[a], day, ds))
  {
    hide Serve, Line, DayScale, AllSatisfied, DuringDay, Steady;
    var sq := queues[a];
    assert InOrder(S, sq.queue);
    InOrderIsDistinct(S, sq.queue);
    var r := Visit(S, sq, day, ds);
    if CanServe(S, sq, day, ds) && CanServe(S, sq, day, r) {
      var ready := ReadyAt(S, sq, day, ds);
      var i := ReadyAt(S, sq, day, r)[0];
      assert i in ReadyAt(S, sq, day, r) && Eligible(S, i, day, r.leaves, r.given.Keys);
      SteadyBetween(S, sq, day, L, ds.leaves, r.leaves, i);
      if i in ready {
        HoursToSpareServeAll(S, sq.key, Line(S, ready), DayScale(S, ready), day, ds, i);
      } else {
        ServeTouchesOnlyTheLine(S, sq.key, Line(S, ready), DayScale(S, ready), day, ds, i);
      }
      assert false;
    }
  }

  lemma SteadyBetween(S: Setup, sq: SeatQueue, day: Day, L: Leaves, L': Leaves, L'': Leaves, i: int)
    requires Steady(S, sq, day, L) && DuringDay(day, L, L') && DuringDay(day, L, L'') && i in sq.queue
    ensures AllSatisfied(S, i, day, L') <==> AllSatisfied(S, i, day, L'')
  {
    hide AllSatisfied, DuringDay;
    assert AllSatisfied(S, i, day, L') <==> AllSatisfied(S, i, day, L);
  }

  ghost function WithinDay(day: Day, L: Leaves): DayState -> bool {
    (ds: DayState) => DuringDay(day, L, ds.leaves) && NoneOverdone(ds.leaves)
  }

  lemma WithinDayIsKept(S: Setup, day: Day, L: Leaves)
    ensures Kept(S, day, WithinDay(day, L))
  {
    hide AllSatisfied;
    forall ds, key, i, hours | WithinDay(day, L)(ds) && Legal(S, day, ds, key, i, hours)
      ensures WithinDay(day, L)(Give(S.eps, day, ds, key, i, hours))
    {
    }
  }

  // A state on the way through the day.
  ghost predicate OnTheWay(S: Setup, day: Day, L: Leaves, ds: DayState) {
    NothingOverspent(ds) && WithinDay(day, L)(ds)
  }

  lemma SettledStaysSettled(S: Setup, queues: seq<SeatQueue>, a: nat, b: nat, day: Day, L: Leaves, T: DayState,
                            ds: DayState)
    requires ValidQueues(S, queues) && a < |queues| && b < |queues| && Steady(S, queues[a], day, L)
    requires DuringDay(day, L, T.leaves) && !CanServe(S, queues[a], day, T)
    requires OnTheWay(S, day, L, ds) && Agree(queues[a], ds, T)
    ensures OnTheWay(S, day, L, Visit(S, queues[b], day, ds)) && Agree(queues[a], Visit(S, queues[b], day, ds), T)
  {
    hide CanServe, Agree, DuringDay, Steady, ValidQueues;
    WithinDayIsKept(S, day, L);
    VisitKeeps(S, queues, b, day, ds, WithinDay(day, L));
    if a == b {
      SameVisit(S, queues[a], day, L, ds, T);
      assert Visit(S, queues[a], day, ds) == ds;
    } else {
      OtherVisitIsUnnoticed(S, queues, a, b, day, ds);
      AgreeSymmetrically(queues[a], ds, Visit(S, queues[b], day, ds));
      AgreeTransitively(queues[a], Visit(S, queues[b], day, ds), ds, T);
    }
  }

  lemma AgreeSymmetrically(sq: SeatQueue, a: DayState, b: DayState)
    requires Agree(sq, a, b)
    ensures Agree(sq, b, a)
  {
  }

  lemma {:induction false} PassKeepsSettled(S: Setup, queues: seq<SeatQueue>, a: nat, from: nat, day: Day, L: Leaves,
                                            T: DayState, ds: DayState)
    requires ValidQueues(S, queues) && a < |queues| && from <= |queues| && Steady(S, queues[a], day, L)
    requires DuringDay(day, L, T.leaves) && !CanServe(S, queues[a], day, T)
    requires OnTheWay(S, day, L, ds) && Agree(queues[a], ds, T)
    ensures var r := Pass(S, queues[from..], day, ds).0; OnTheWay(S, day, L, r) && Agree(queues[a], r, T)
    decreases |queues| - from
  {
    hide CanServe, Agree, DuringDay, Steady, ValidQueues, Visit, OnTheWay;
    if from < |queues| {
      SettledStaysSettled(S, queues, a, from, day, L, T, ds);
      PassKeepsSettled(S, queues, a, from + 1, day, L, T, Visit(S, queues[from], day, ds));
      assert queues[from..][1..] == queues[from + 1..];
    }
  }

  lemma {:induction false} PassSettles(S: Setup, queues: seq<SeatQueue>, a: nat, from: nat, day: Day, L: Leaves,
                                       T: DayState, ds: DayState)
    requires ValidQueues(S, queues) && from <= a < |queues| && Steady(S, queues[a], day, L)
    requires OnTheWay(S, day, L, Morning(S, day, L)) && T == Visit(S, queues[a], day, Morning(S, day, L))
    requires DuringDay(day, L, T.leaves) && !CanServe(S, queues[a], day, T)
    requires OnTheWay(S, day, L, ds) && Agree(queues[a], ds, Morning(S, day, L))
    ensures var r := Pass(S, queues[from..], day, ds).0; OnTheWay(S, day, L, r) && Agree(queues[a], r, T)
    decreases |queues| - from
  {
    hide CanServe, Agree, DuringDay, Steady, ValidQueues, Visit, Morning;
    WithinDayIsKept(S, day, L);
    VisitKeeps(S, queues, from, day, ds, WithinDay(day, L));
    var next := Visit(S, queues[from], day, ds);
    assert queues[from..][1..] == queues[from + 1..];
    if from == a {
      SameVisit(S, queues[a], day, L, ds, Morning(S, day, L));
      PassKeepsSettled(S, queues, a, from + 1, day, L, T, next);
    } else {
      OtherVisitIsUnnoticed(S, queues, a, from, day, ds);
      AgreeSymmetrically(queues[a], ds, next);
      AgreeTransitively(queues[a], next, ds, Morning(S, day, L));
      PassSettles(S, queues, a, from + 1, day, L, T, next);
    }
  }

  lemma {:induction false} RoundsKeepSettled(S: Setup, queues: seq<SeatQueue>, a: nat, day: Day, L: Leaves,
                                             T: DayState, ds: DayState)
    requires ValidQueues(S, queues) && a < |queues| && Steady(S, queues[a], day, L)
    requires DuringDay(day, L, T.leaves) && !CanServe(S, queues[a], day, T)
    requires OnTheWay(S, day, L, ds) && Agree(queues[a], Pass(S, queues, day, ds).0, T)
    ensures Agree(queues[a], Rounds(S, queues, day, ds), T)
    decreases Unserved(S, ds)
  {
    hide CanServe, Agree, DuringDay, Steady, ValidQueues, Visit, Pass;
    WithinDayIsKept(S, day, L);
    assert queues[0..] == queues;
    PassKeeps(S, queues, 0, day, ds, WithinDay(day, L));
    PassServes(S, queues, day, ds);
    var (after, progressed) := Pass(S, queues, day, ds);
    if progressed {
      PassKeepsSettled(S, queues, a, 0, day, L, T, after);
      RoundsKeepSettled(S, queues, a, day, L, T, after);
    }
  }

  // A seat whose leaves wait for nothing that can still change today gets its whole day in one hand-out from the
  // morning's hours. Later rounds, the other seats and their order make no difference to it.
  lemma OneVisitSettlesTheDay(S: Setup, queues: seq<SeatQueue>, a: nat, day: Day, L: Leaves)
    requires ValidQueues(S, queues) && a < |queues| && Steady(S, queues[a], day, L)
    requires NoneOverdone(L)
    ensures Agree(queues[a], RunDay(S, queues, day, L), Visit(S, queues[a], day, Morning(S, day, L)))
  {
    hide CanServe, Steady, ValidQueues, Visit, Pass, Rounds;
    var M := Morning(S, day, L);
    var T := Visit(S, queues[a], day, M);
    assert OnTheWay(S, day, L, M);
    WithinDayIsKept(S, day, L);
    VisitKeeps(S, queues, a, day, M, WithinDay(day, L));
    VisitSettles(S, queues, a, day, L, M);
    assert queues[0..] == queues;
    PassSettles(S, queues, a, 0, day, L, T, M);
    RoundsKeepSettled(S, queues, a, day, L, T, M);
  }
}
