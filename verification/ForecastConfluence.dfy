/** If no start waits for what can still happen on the same day, a day is one pass over the seats and its outcome does
    not depend on the order in which tasks and seats come. */
module ForecastConfluence {
  import opened Basics
  import opened WorkSeats
  import opened TaskBoard
  import opened ForecastModel
  import opened ForecastInvariants
  import opened ForecastFairness
  import opened ForecastLocality

  // What happens today lets nothing start today that could not start before it: a finish counts from the next day on,
  // a start too.
  predicate LooksBack(kind: DependencyType, lag: int) {
    match kind
    case FS => lag >= 0
    case SS => lag >= 1
    case FF => true
    case SF => true
  }

  ghost predicate OnlyForwardStarts(S: Setup) {
    forall i, c :: i in S.info && c in S.ConstraintsOn(i) ==> LooksBack(c.kind, c.lag)
  }

  lemma ForwardConstraintIsSteady(S: Setup, c: Constraint, day: Day, L: Leaves, L': Leaves)
    requires LooksBack(c.kind, c.lag) && DuringDay(day, L, L')
    ensures Satisfied(S, c, day, L') <==> Satisfied(S, c, day, L)
  {
    hide BegunBefore;
    if c.kind.SS? {
      BegunIsTheSame(S, c.predecessor, L, L');
    }
  }

  lemma ForwardSeatsAreSteady(S: Setup, sq: SeatQueue, day: Day, L: Leaves)
    requires OnlyForwardStarts(S) && forall i :: i in sq.queue ==> i in S.info
    ensures Steady(S, sq, day, L)
  {
    hide DuringDay, Satisfied;
    forall i, L' | i in sq.queue && DuringDay(day, L, L')
      ensures AllSatisfied(S, i, day, L') <==> AllSatisfied(S, i, day, L)
    {
      forall c | c in S.ConstraintsOn(i) ensures Satisfied(S, c, day, L') <==> Satisfied(S, c, day, L) {
        ForwardConstraintIsSteady(S, c, day, L, L');
      }
    }
  }

  lemma QueueSteady(S: Setup, queues: seq<SeatQueue>, a: nat, day: Day, L: Leaves)
    requires OnlyForwardStarts(S) && ValidQueues(S, queues) && a < |queues|
    ensures Steady(S, queues[a], day, L)
  {
    hide OnlyForwardStarts, Steady;
    forall i | i in queues[a].queue ensures i in S.info { }
    ForwardSeatsAreSteady(S, queues[a], day, L);
  }

  lemma {:induction false} IdlePass(S: Setup, queues: seq<SeatQueue>, day: Day, ds: DayState)
    requires forall a :: 0 <= a < |queues| ==> !CanServe(S, queues[a], day, ds)
    ensures Pass(S, queues, day, ds) == (ds, false)
  {
    hide CanServe;
    if queues != [] {
      forall a | 0 <= a < |queues[1..]| ensures !CanServe(S, queues[1..][a], day, ds) {
        assert queues[1..][a] == queues[a + 1];
      }
      IdlePass(S, queues[1..], day, ds);
    }
  }

  // The second pass of a day finds no ready leaf, so the whole day is its first pass.
  lemma SecondPassIsIdle(S: Setup, queues: seq<SeatQueue>, day: Day, L: Leaves)
    requires OnlyForwardStarts(S) && ValidQueues(S, queues) && NoneOverdone(L)
    ensures var first := Pass(S, queues, day, Morning(S, day, L)).0;
            !Pass(S, queues, day, first).1 && RunDay(S, queues, day, L) == first
  {
    hide CanServe, Steady, ValidQueues, Visit, Morning, OnlyForwardStarts, Pass;
    var M := Morning(S, day, L);
    var first := Pass(S, queues, day, M).0;
    assert OnTheWay(S, day, L, M) by { MorningIsOnTheWay(S, day, L); }
    assert queues[0..] == queues;
    WithinDayIsKept(S, day, L);
    forall a | 0 <= a < |queues| ensures !CanServe(S, queues[a], day, first) {
      QueueSteady(S, queues, a, day, L);
      VisitKeeps(S, queues, a, day, M, WithinDay(day, L));
      var T := Visit(S, queues[a], day, M);
      VisitSettles(S, queues, a, day, L, M);
      PassSettles(S, queues, a, 0, day, L, T, M);
      SameVisit(S, queues[a], day, L, first, T);
    }
    IdlePass(S, queues, day, first);
    OneRoundIsEnough(S, queues, day, M);
  }

  lemma MorningIsOnTheWay(S: Setup, day: Day, L: Leaves)
    requires NoneOverdone(L)
    ensures OnTheWay(S, day, L, Morning(S, day, L))
  {
  }

  lemma OneRoundIsEnough(S: Setup, queues: seq<SeatQueue>, day: Day, ds: DayState)
    requires var first := Pass(S, queues, day, ds).0; Pass(S, queues, day, first) == (first, false)
    ensures Rounds(S, queues, day, ds) == Pass(S, queues, day, ds).0
  {
    hide Pass;
    PassServes(S, queues, day, ds);
    var first := Pass(S, queues, day, ds).0;
    assert Rounds(S, queues, day, first) == first;
  }

  // ---- order does not matter ---------------------------------------------------------------

  lemma BeforeIsAsymmetric(a: Task, b: Task)
    requires Before(a, b)
    ensures !Before(b, a)
  {
  }

  // A queue is determined by who is in it.
  lemma {:induction false} QueueIsDetermined(S: Setup, p: seq<int>, q: seq<int>)
    requires InOrder(S, p) && InOrder(S, q) && ToSet(p) == ToSet(q)
    ensures p == q
  {
    hide Before;
    if p != [] { assert p[0] in ToSet(p); }
    if q != [] { assert q[0] in ToSet(q); }
    if p != [] {
      var x, y := p[0], q[0];
      assert x in q && y in p by { assert x in ToSet(q) && y in ToSet(p); }
      if x != y {
        var k :| 0 <= k < |q| && q[k] == x;
        var m :| 0 <= m < |p| && p[m] == y;
        assert Before(S.info[q[0]].task, S.info[q[k]].task) && Before(S.info[p[0]].task, S.info[p[m]].task);
        BeforeIsAsymmetric(S.info[x].task, S.info[y].task);
        assert false;
      }
      TailMembers(S, p);
      TailMembers(S, q);
      QueueIsDetermined(S, p[1..], q[1..]);
    }
  }

  lemma TailMembers(S: Setup, p: seq<int>)
    requires InOrder(S, p) && p != []
    ensures ToSet(p[1..]) == ToSet(p) - {p[0]} && InOrder(S, p[1..])
  {
    hide Before;
    if p[0] in p[1..] {
      var k :| 0 <= k < |p[1..]| && p[1..][k] == p[0];
      assert Before(S.info[p[0]].task, S.info[p[k + 1]].task);
      BeforeIsAsymmetric(S.info[p[0]].task, S.info[p[0]].task);
    }
    assert p == [p[0]] + p[1..];
  }

  lemma SameSeatSameQueue(S: Setup, queues: seq<SeatQueue>, queues': seq<SeatQueue>, a: nat, b: nat)
    requires ValidQueues(S, queues) && ValidQueues(S, queues') && a < |queues| && b < |queues'|
    requires queues[a].key == queues'[b].key
    ensures queues[a] == queues'[b]
  {
    hide Before;
    forall i ensures i in queues[a].queue <==> i in queues'[b].queue {
      assert i in queues[a].queue <==> i in S.info && S.info[i].seat == queues[a].key;
      assert i in queues'[b].queue <==> i in S.info && S.info[i].seat == queues'[b].key;
    }
    assert ToSet(queues[a].queue) == ToSet(queues'[b].queue);
    QueueIsDetermined(S, queues[a].queue, queues'[b].queue);
  }

  lemma LeafOfSeat(S: Setup, queues: seq<SeatQueue>, i: int) returns (a: nat)
    requires ValidQueues(S, queues) && i in S.info
    ensures a < |queues| && queues[a].key == S.info[i].seat && i in queues[a].queue
  {
    a :| 0 <= a < |queues| && queues[a].key == S.info[i].seat;
  }

  lemma DayIsConfluent(S: Setup, queues: seq<SeatQueue>, queues': seq<SeatQueue>, day: Day, L: Leaves)
    requires OnlyForwardStarts(S) && ValidQueues(S, queues) && ValidQueues(S, queues')
    requires NoneOverdone(L) && L.Keys == S.info.Keys
    ensures RunDay(S, queues, day, L).leaves == RunDay(S, queues', day, L).leaves
  {
    hide RunDay, Steady, ValidQueues, Visit, Morning, OnlyForwardStarts, Agree;
    var r, r' := RunDay(S, queues, day, L).leaves, RunDay(S, queues', day, L).leaves;
    DayKeepsLeaves(S, queues, day, L);
    DayKeepsLeaves(S, queues', day, L);
    forall i | i in S.info ensures r[i] == r'[i] {
      var a := LeafOfSeat(S, queues, i);
      var b := LeafOfSeat(S, queues', i);
      SameSeatSameQueue(S, queues, queues', a, b);
      QueueSteady(S, queues, a, day, L);
      OneVisitSettlesTheDay(S, queues, a, day, L);
      OneVisitSettlesTheDay(S, queues', b, day, L);
      AgreeOnLeaf(queues[a], RunDay(S, queues, day, L), Visit(S, queues[a], day, Morning(S, day, L)), i);
      AgreeOnLeaf(queues[a], RunDay(S, queues', day, L), Visit(S, queues[a], day, Morning(S, day, L)), i);
    }
  }

  lemma AgreeOnLeaf(sq: SeatQueue, a: DayState, b: DayState, i: int)
    requires Agree(sq, a, b) && i in sq.queue && i in a.leaves
    ensures i in b.leaves && a.leaves[i] == b.leaves[i]
  {
  }

  lemma DayKeepsLeaves(S: Setup, queues: seq<SeatQueue>, day: Day, L: Leaves)
    ensures RunDay(S, queues, day, L).leaves.Keys == L.Keys
  {
  }

  lemma {:induction false} RunIsNeverOverdone(S: Setup, queues: seq<SeatQueue>, n: nat)
    requires ValidQueues(S, queues)
    ensures NoneOverdone(After(S, queues, n))
  {
    hide RunDay, ValidQueues, Legal, Give;
    if n > 0 {
      RunIsNeverOverdone(S, queues, n - 1);
      var day, L := S.today + n - 1, After(S, queues, n - 1);
      WithinDayIsKept(S, day, L);
      MorningIsOnTheWay(S, day, L);
      DayKeeps(S, queues, day, L, WithinDay(day, L));
    }
  }

  // The forecast does not depend on the order of the tasks or of the seats: any two ways to line up the same
  // leaves give the same starts, finishes and remainders on every day.
  lemma {:induction false} OrderDoesNotMatter(S: Setup, queues: seq<SeatQueue>, queues': seq<SeatQueue>, n: nat)
    requires OnlyForwardStarts(S) && ValidQueues(S, queues) && ValidQueues(S, queues')
    ensures After(S, queues, n) == After(S, queues', n)
  {
    hide RunDay, ValidQueues, OnlyForwardStarts;
    if n > 0 {
      OrderDoesNotMatter(S, queues, queues', n - 1);
      RunIsNeverOverdone(S, queues, n - 1);
      DayIsConfluent(S, queues, queues', S.today + n - 1, After(S, queues, n - 1));
    }
  }
}
