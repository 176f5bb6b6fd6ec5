/** Who gets a day's hours: nobody is left idle, the queue is honoured, and percentages are met exactly. */
module ForecastFairness {
  import opened Basics
  import opened WorkSeats
  import opened TaskBoard
  import opened ForecastModel
  import opened ForecastInvariants

  // ---- no idle capacity ------------------------------------------------------------------

  lemma {:induction false} QuietPass(S: Setup, queues: seq<SeatQueue>, day: Day, ds: DayState)
    requires !Pass(S, queues, day, ds).1
    ensures Pass(S, queues, day, ds).0 == ds
    ensures forall a :: 0 <= a < |queues| ==> !CanServe(S, queues[a], day, ds)
  {
    hide CanServe;
    if queues != [] {
      QuietPass(S, queues[1..], day, Visit(S, queues[0], day, ds));
      forall a | 0 <= a < |queues| ensures !CanServe(S, queues[a], day, ds) {
        if a > 0 { assert queues[a] == queues[1..][a - 1]; }
      }
    }
  }

  lemma {:induction false} RoundsEndQuietly(S: Setup, queues: seq<SeatQueue>, day: Day, ds: DayState)
    ensures !Pass(S, queues, day, Rounds(S, queues, day, ds)).1
    decreases Unserved(S, ds)
  {
    hide CanServe, Visit;
    PassServes(S, queues, day, ds);
    var (after, progressed) := Pass(S, queues, day, ds);
    if progressed {
      RoundsEndQuietly(S, queues, day, after);
    } else {
      QuietPass(S, queues, day, ds);
    }
  }

  // When a day is over, every seat has spent its hours, or every leaf of it that could be worked on has been
  // served.
  lemma NoIdleCapacity(S: Setup, queues: seq<SeatQueue>, day: Day, L: Leaves, a: nat, i: int)
    requires ValidQueues(S, queues) && a < |queues| && i in queues[a].queue
    ensures var ds := RunDay(S, queues, day, L);
            ds.Left(queues[a].key) <= S.eps || !Eligible(S, i, day, ds.leaves, ds.given.Keys)
  {
    hide Rounds, Eligible, Morning;
    var ds := RunDay(S, queues, day, L);
    RoundsEndQuietly(S, queues, day, Morning(S, day, L));
    QuietPass(S, queues, day, ds);
    assert !CanServe(S, queues[a], day, ds);
  }

  // ---- the queue is honoured -------------------------------------------------------------

  // Leaves in line are open: more than eps is left to do on each.
  ghost predicate AllOpen(S: Setup, ids: seq<int>, ds: DayState) {
    forall i :: i in ids ==> i in S.info && i in ds.leaves && ds.leaves[i].finish.None? && ds.leaves[i].remaining > S.eps
  }

  ghost predicate NoneShared(S: Setup, ids: seq<int>) {
    forall i :: i in ids ==> i in S.info && S.Share(i) <= 0
  }

  lemma {:induction false} NothingLeftNothingGiven(S: Setup, key: SeatKey, ids: seq<int>, scale: real, day: Day,
                                                   ds: DayState)
    requires key in S.seats && NoneShared(S, ids) && AllOpen(S, ids, ds) && ds.Left(key) <= S.eps
    ensures Serve(S, key, ids, scale, day, ds) == ds
  {
    if ids != [] {
      assert ids[0] in ids;
      NothingLeftNothingGiven(S, key, ids[1..], scale, day, ds);
    }
  }

  // Leaves outside the line are not touched.
  lemma {:induction false} ServeTouchesOnlyTheLine(S: Setup, key: SeatKey, ids: seq<int>, scale: real, day: Day,
                                                   ds: DayState, j: int)
    requires key in S.seats && j !in ids
    requires forall i :: i in ids ==> i in S.info && i in ds.leaves
    ensures var r := Serve(S, key, ids, scale, day, ds);
            && (j in r.leaves <==> j in ds.leaves) && (j in ds.leaves ==> r.leaves[j] == ds.leaves[j])
            && (j in r.given <==> j in ds.given) && (j in ds.given ==> r.given[j] == ds.given[j])
  {
    if ids != [] {
      ServeTouchesOnlyTheLine(S, key, ids[1..], scale, day, ServeOne(S, key, ids[0], scale, day, ds), j);
    }
  }

  lemma StillOpen(S: Setup, key: SeatKey, ids: seq<int>, scale: real, day: Day, ds: DayState, i: int)
    requires key in S.seats && i !in ids && i in S.info && i in ds.leaves && AllOpen(S, ids, ds)
    ensures AllOpen(S, ids, ServeOne(S, key, i, scale, day, ds))
  {
  }

  // An unshared leaf that is served and not finished takes all the hours.
  lemma FinishedOrSpent(S: Setup, key: SeatKey, i: int, scale: real, day: Day, ds: DayState)
    requires key in S.seats && NoneShared(S, [i]) && AllOpen(S, [i], ds)
    ensures var next := ServeOne(S, key, i, scale, day, ds);
            next.leaves[i].finish == Some(day) || next.Left(key) <= S.eps
  {
    assert i in [i];
  }

  // An unshared leaf is served only after every unshared leaf before it in line was finished.
  lemma {:induction false} EarlierFinishFirst(S: Setup, key: SeatKey, ids: seq<int>, scale: real, day: Day,
                                              ds: DayState, j: nat, k: nat)
    requires key in S.seats && Distinct(ids) && AllOpen(S, ids, ds) && j < k < |ids|
    requires NoneShared(S, ids[j..])
    requires ids[k] !in ds.given
    requires ids[k] in Serve(S, key, ids, scale, day, ds).given
    ensures Serve(S, key, ids, scale, day, ds).leaves[ids[j]].finish == Some(day)
  {
    hide ServeOne;
    var i := ids[0];
    assert i in ids && i !in ids[1..] && ids[k] in ids[1..] && ids[k] != i;
    var next := ServeOne(S, key, i, scale, day, ds);
    StillOpen(S, key, ids[1..], scale, day, ds, i);
    GivenOnlyTo(S, key, i, scale, day, ds, ids[k]);
    if j == 0 {
      assert ids[0..] == ids;
      FinishedOrSpent(S, key, i, scale, day, ds);
      if next.leaves[i].finish != Some(day) {
        NothingLeftNothingGiven(S, key, ids[1..], scale, day, next);
        assert false;
      }
      ServeTouchesOnlyTheLine(S, key, ids[1..], scale, day, next, i);
    } else {
      assert ids[1..][j - 1..] == ids[j..];
      EarlierFinishFirst(S, key, ids[1..], scale, day, next, j - 1, k - 1);
    }
  }

  lemma GivenOnlyTo(S: Setup, key: SeatKey, i: int, scale: real, day: Day, ds: DayState, j: int)
    requires key in S.seats && i in S.info && i in ds.leaves && i != j && j !in ds.given
    ensures j !in ServeOne(S, key, i, scale, day, ds).given
  {
    hide Cut;
  }

  // Members taken from an ordered list keep its order.
  lemma AheadOfTheRest(S: Setup, ids: seq<int>, rest: seq<int>)
    requires InOrder(S, ids) && ids != [] && InOrder(S, rest) && forall i :: i in rest ==> i in ids[1..]
    ensures InOrder(S, [ids[0]] + rest)
  {
    hide Before;
    forall k | 0 <= k < |rest| ensures Before(S.info[ids[0]].task, S.info[rest[k]].task) {
      var tail, x := ids[1..], rest[k];
      assert x in rest && x in tail;
      var m :| 0 <= m < |tail| && tail[m] == x;
      assert ids[m + 1] == x;
    }
  }

  lemma {:induction false} ReadyStayInOrder(S: Setup, queue: seq<int>, day: Day, L: Leaves, given: set<int>)
    requires InOrder(S, queue)
    ensures InOrder(S, ReadyList(S, queue, day, L, given))
  {
    hide Eligible, Before;
    if queue != [] {
      ReadyStayInOrder(S, queue[1..], day, L, given);
      AheadOfTheRest(S, queue, ReadyList(S, queue[1..], day, L, given));
    }
  }

  lemma {:induction false} UnsharedStayInOrder(S: Setup, ids: seq<int>)
    requires InOrder(S, ids)
    ensures InOrder(S, Unshared(S, ids))
  {
    hide Before;
    if ids != [] {
      UnsharedStayInOrder(S, ids[1..]);
      AheadOfTheRest(S, ids, Unshared(S, ids[1..]));
    }
  }

  // From an unshared leaf on, the line is the rest of the queue.
  lemma LineFrom(S: Setup, ready: seq<int>, x: nat)
    requires forall i :: i in ready ==> i in S.info
    requires x < |Unshared(S, ready)|
    ensures var line, p := Line(S, ready), |Shared(S, ready)| + x;
            p < |line| && line[p] == Unshared(S, ready)[x] && NoneShared(S, line[p..])
  {
    var others, line, p := Unshared(S, ready), Line(S, ready), |Shared(S, ready)| + x;
    assert line[p..] == others[x..];
    forall z | z in others[x..] ensures z in S.info && S.Share(z) <= 0 { assert z in others; }
  }

  // Where two unshared leaves stand in line.
  lemma PlacesInLine(S: Setup, ready: seq<int>, i: int, j: int) returns (p: nat, q: nat)
    requires InOrder(S, ready) && i in ready && j in ready
    requires S.Share(i) <= 0 && S.Share(j) <= 0 && Before(S.info[i].task, S.info[j].task)
    ensures var line := Line(S, ready); p < q < |line| && line[p] == i && line[q] == j && NoneShared(S, line[p..])
  {
    hide Before, Line, NoneShared;
    UnsharedStayInOrder(S, ready);
    var others := Unshared(S, ready);
    assert i in others && j in others;
    var x :| 0 <= x < |others| && others[x] == i;
    var y :| 0 <= y < |others| && others[y] == j;
    PlacesFollowOrder(S, others, x, y);
    LineFrom(S, ready, x);
    LineFrom(S, ready, y);
    p, q := |Shared(S, ready)| + x, |Shared(S, ready)| + y;
  }

  lemma PlacesFollowOrder(S: Setup, ids: seq<int>, x: nat, y: nat)
    requires InOrder(S, ids) && x < |ids| && y < |ids| && Before(S.info[ids[x]].task, S.info[ids[y]].task)
    ensures x < y
  {
  }

  ghost predicate OpenHaveWork(S: Setup, L: Leaves) {
    forall x :: x in L && L[x].finish.None? ==> L[x].remaining > S.eps
  }

  lemma LineIsOpen(S: Setup, queue: seq<int>, day: Day, ds: DayState)
    requires OpenHaveWork(S, ds.leaves)
    ensures AllOpen(S, Line(S, ReadyList(S, queue, day, ds.leaves, ds.given.Keys)), ds)
  {
    hide AllSatisfied;
    var ready := ReadyList(S, queue, day, ds.leaves, ds.given.Keys);
    forall x | x in Line(S, ready)
      ensures x in S.info && x in ds.leaves && ds.leaves[x].finish.None? && ds.leaves[x].remaining > S.eps
    {
      assert x in ready && Eligible(S, x, day, ds.leaves, ds.given.Keys);
    }
  }

  // Priority: if a visit gives hours to an unshared leaf, every ready unshared leaf ahead of it in the queue
  // was finished by that same visit.
  lemma VisitHonoursQueue(S: Setup, queues: seq<SeatQueue>, a: nat, day: Day, ds: DayState, i: int, j: int)
    requires ValidQueues(S, queues) && a < |queues| && OpenHaveWork(S, ds.leaves)
    requires i in ReadyAt(S, queues[a], day, ds) && j in ReadyAt(S, queues[a], day, ds)
    requires S.Share(i) <= 0 && S.Share(j) <= 0 && Before(S.info[i].task, S.info[j].task)
    requires j in Visit(S, queues[a], day, ds).given
    ensures Visit(S, queues[a], day, ds).leaves[i].finish == Some(day)
  {
    hide AllSatisfied, Before, Serve, Line, DayScale, OpenHaveWork, AllOpen;
    var sq := queues[a];
    assert InOrder(S, sq.queue) && sq.key in S.seats;
    var ready := ReadyAt(S, sq, day, ds);
    assert Eligible(S, j, day, ds.leaves, ds.given.Keys);
    InOrderIsDistinct(S, sq.queue);
    ReadyStayInOrder(S, sq.queue, day, ds.leaves, ds.given.Keys);
    var p, q := PlacesInLine(S, ready, i, j);
    LineIsOpen(S, sq.queue, day, ds);
    EarlierFinishFirst(S, sq.key, Line(S, ready), DayScale(S, ready), day, ds, p, q);
  }

  // ---- percentages -----------------------------------------------------------------------

  lemma PortionAdds(hours: real, a: int, b: int, scale: real)
    ensures Portion(hours, a + b, scale) == Portion(hours, a, scale) + Portion(hours, b, scale)
  {
    var x, y := a as real / 100.0, b as real / 100.0;
    assert (a + b) as real / 100.0 == x + y;
    assert hours * (x + y) == hours * x + hours * y;
    assert (hours * x + hours * y) * scale == hours * x * scale + hours * y * scale;
  }

  // Scaled down together, the shares never add up to more than the day.
  lemma ScaledTotalFits(hours: real, total: int)
    requires hours >= 0.0 && total >= 0
    ensures Portion(hours, total, Scale(total)) <= hours
  {
    var share := total as real / 100.0;
    if total <= 100 {
      var scale := Scale(total);
      assert share <= 1.0;
      assert 0.0 <= hours * share <= hours by { ScaledIsBounded(hours, share); }
      assert hours * share * scale <= hours * share by { ScaledIsBounded(hours * share, scale); }
    } else {
      var inverse := 100.0 / total as real;
      assert Scale(total) == inverse && share * inverse == 1.0;
      assert hours * share * inverse == hours * (share * inverse);
    }
  }

  ghost function CutSum(S: Setup, key: SeatKey, ids: seq<int>, day: Day, scale: real): real
    requires key in S.seats && forall i :: i in ids ==> i in S.info
  {
    if ids == [] then 0.0 else Cut(S, key, ids[0], day, scale) + CutSum(S, key, ids[1..], day, scale)
  }

  lemma {:induction false} CutSumIsPortion(S: Setup, key: SeatKey, ids: seq<int>, day: Day, scale: real)
    requires key in S.seats && forall i :: i in ids ==> i in S.info
    ensures CutSum(S, key, ids, day, scale) == Portion(S.hours(key, day), TotalPercent(S, ids), scale)
  {
    hide Portion;
    if ids == [] {
      PortionAdds(S.hours(key, day), 0, 0, scale);
    } else {
      CutSumIsPortion(S, key, ids[1..], day, scale);
      PortionAdds(S.hours(key, day), S.Share(ids[0]), TotalPercent(S, ids[1..]), scale);
    }
  }

  lemma {:induction false} CutSumIsNotNegative(S: Setup, key: SeatKey, ids: seq<int>, day: Day, scale: real)
    requires key in S.seats && 0.0 <= scale <= 1.0 && forall i :: i in ids ==> i in S.info
    ensures CutSum(S, key, ids, day, scale) >= 0.0
  {
    hide Cut;
    if ids != [] {
      CutBounds(S, key, ids[0], day, scale);
      CutSumIsNotNegative(S, key, ids[1..], day, scale);
    }
  }

  // As long as the seat still holds the cuts of everyone in line, everyone gets the whole cut, or what is left
  // to do if that is less.
  lemma {:induction false} CutsAreMet(S: Setup, key: SeatKey, shared: seq<int>, others: seq<int>, scale: real,
                                      day: Day, ds: DayState, i: int)
    requires S.eps == 0.0 && key in S.seats && 0.0 <= scale <= 1.0
    requires Distinct(shared + others) && AllOpen(S, shared + others, ds)
    requires i in shared && forall x :: x in shared ==> x in S.info && S.Share(x) > 0
    requires CutSum(S, key, shared, day, scale) <= ds.Left(key)
    ensures i in Serve(S, key, shared + others, scale, day, ds).given
    ensures Serve(S, key, shared + others, scale, day, ds).given[i]
            == Min(Cut(S, key, i, day, scale), ds.leaves[i].remaining)
  {
    hide Cut;
    var ids := shared + others;
    var first := ids[0];
    assert first == shared[0] && first in shared && first in ids && first !in ids[1..];
    assert ids[1..] == shared[1..] + others;
    var next := ServeOne(S, key, first, scale, day, ds);
    CutBounds(S, key, first, day, scale);
    CutSumIsNotNegative(S, key, shared[1..], day, scale);
    assert next.given[first] == Min(Cut(S, key, first, day, scale), ds.leaves[first].remaining);
    if i == first {
      ServeTouchesOnlyTheLine(S, key, ids[1..], scale, day, next, first);
    } else {
      StillOpen(S, key, ids[1..], scale, day, ds, first);
      CutsAreMet(S, key, shared[1..], others, scale, day, next, i);
    }
  }

  // However over-committed the percentages are, in the first hand-out of a day each shared leaf gets exactly its
  // scaled cut, or what is left to do if that is less: running out of hours never cuts it short.
  lemma VisitMeetsShares(S: Setup, queues: seq<SeatQueue>, a: nat, day: Day, ds: DayState, i: int)
    requires S.eps == 0.0 && ValidQueues(S, queues) && a < |queues|
    requires OpenHaveWork(S, ds.leaves)
    requires CanServe(S, queues[a], day, ds) && ds.Left(queues[a].key) == S.hours(queues[a].key, day)
    requires i in ReadyAt(S, queues[a], day, ds) && S.Share(i) > 0
    ensures var r := Visit(S, queues[a], day, ds);
            && i in r.given
            && r.given[i] == Min(Cut(S, queues[a].key, i, day, DayScale(S, ReadyAt(S, queues[a], day, ds))),
                                 ds.leaves[i].remaining)
  {
    hide Portion, Cut;
    var sq := queues[a];
    assert InOrder(S, sq.queue);
    InOrderIsDistinct(S, sq.queue);
    var ready := ReadyAt(S, sq, day, ds);
    var shared, others := Shared(S, ready), Unshared(S, ready);
    assert Distinct(Line(S, ready)) && Line(S, ready) == shared + others;
    LineIsOpen(S, sq.queue, day, ds);
    var scale := DayScale(S, ready);
    CutSumIsPortion(S, sq.key, shared, day, scale);
    ScaledTotalFits(S.hours(sq.key, day), TotalPercent(S, shared));
    CutsAreMet(S, sq.key, shared, others, scale, day, ds, i);
  }
}
