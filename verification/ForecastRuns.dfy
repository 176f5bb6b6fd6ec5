/** Who gets a day's hours, for every visit of every day of a forecast: the queue is honoured whenever a seat is visited,
    and percentages are met exactly the first time on each day. */
module ForecastRuns {
  import opened Basics
  import opened WorkSeats
  import opened TaskBoard
  import opened ForecastModel
  import opened ForecastInvariants
  import opened ForecastLedger
  import opened ForecastFairness
  import opened ForecastLocality

  // ---- the moments of a forecast -----------------------------------------------------------------

  // In a round that began with ds, after the first a seats have been visited.
  ghost function Midway(S: Setup, queues: seq<SeatQueue>, day: Day, ds: DayState, a: nat): (m: DayState)
    requires a <= |queues|
    ensures m.leaves.Keys == ds.leaves.Keys
  {
    if a == 0 then ds else Visit(S, queues[a - 1], day, Midway(S, queues, day, ds, a - 1))
  }

  // After r rounds of a day that began with ds.
  ghost function AfterRounds(S: Setup, queues: seq<SeatQueue>, day: Day, ds: DayState, r: nat): (m: DayState)
    ensures m.leaves.Keys == ds.leaves.Keys
  {
    if r == 0 then ds else Midway(S, queues, day, AfterRounds(S, queues, day, ds, r - 1), |queues|)
  }

  // When seat a is visited in round r of the (n+1)-st day.
  ghost function AtVisit(S: Setup, queues: seq<SeatQueue>, n: nat, r: nat, a: nat): (m: DayState)
    requires a <= |queues|
    ensures m.leaves.Keys == S.info.Keys
  {
    var day := S.today + n;
    Midway(S, queues, day, AfterRounds(S, queues, day, Morning(S, day, After(S, queues, n)), r), a)
  }

  lemma {:induction false} PassFromMidway(S: Setup, queues: seq<SeatQueue>, day: Day, ds: DayState, a: nat)
    requires a <= |queues|
    ensures Pass(S, queues, day, ds).0 == Pass(S, queues[a..], day, Midway(S, queues, day, ds, a)).0
  {
    hide Visit;
    if a == 0 {
      assert queues[0..] == queues;
    } else {
      PassFromMidway(S, queues, day, ds, a - 1);
      assert queues[a - 1..][0] == queues[a - 1] && queues[a - 1..][1..] == queues[a..];
    }
  }

  lemma PassIsMidway(S: Setup, queues: seq<SeatQueue>, day: Day, ds: DayState)
    ensures Pass(S, queues, day, ds).0 == Midway(S, queues, day, ds, |queues|)
  {
    hide Visit;
    PassFromMidway(S, queues, day, ds, |queues|);
    assert queues[|queues|..] == [];
  }

  // The days of a forecast really are made of these moments.
  lemma {:induction false} RoundsAreReached(S: Setup, queues: seq<SeatQueue>, day: Day, ds: DayState, sofar: nat, now: DayState)
    returns (r: nat)
    requires now == AfterRounds(S, queues, day, ds, sofar)
    ensures r > sofar && Rounds(S, queues, day, now) == AfterRounds(S, queues, day, ds, r)
    decreases Unserved(S, now)
  {
    hide Visit, Midway, Pass;
    PassServes(S, queues, day, now);
    PassIsMidway(S, queues, day, now);
    var (after, progressed) := Pass(S, queues, day, now);
    assert after == AfterRounds(S, queues, day, ds, sofar + 1);
    if progressed {
      r := RoundsAreReached(S, queues, day, ds, sofar + 1, after);
    } else {
      r := sofar + 1;
    }
  }

  lemma DayEndsAfterRounds(S: Setup, queues: seq<SeatQueue>, n: nat) returns (r: nat)
    ensures After(S, queues, n + 1) == AtVisit(S, queues, n, r, 0).leaves
  {
    hide Midway, Rounds, Morning;
    var day := S.today + n;
    var M := Morning(S, day, After(S, queues, n));
    AfterNextDay(S, queues, n);
    r := RoundsAreReached(S, queues, day, M, 0, M);
    NothingVisitedYet(S, queues, day, AfterRounds(S, queues, day, M, r));
  }

  lemma NothingVisitedYet(S: Setup, queues: seq<SeatQueue>, day: Day, ds: DayState)
    ensures Midway(S, queues, day, ds, 0) == ds
  {
  }

  // ---- what holds at every moment ------------------------------------------------------------------

  lemma {:induction false} MidwayKeeps(S: Setup, queues: seq<SeatQueue>, day: Day, ds: DayState, a: nat, inv: DayState -> bool)
    requires ValidQueues(S, queues) && a <= |queues|
    requires NothingOverspent(ds) && Kept(S, day, inv) && inv(ds)
    ensures var m := Midway(S, queues, day, ds, a); NothingOverspent(m) && inv(m)
  {
    hide ValidQueues, Kept, Visit, NothingOverspent;
    if a > 0 {
      MidwayKeeps(S, queues, day, ds, a - 1, inv);
      VisitKeeps(S, queues, a - 1, day, Midway(S, queues, day, ds, a - 1), inv);
    }
  }

  lemma {:induction false} AfterRoundsKeep(S: Setup, queues: seq<SeatQueue>, day: Day, ds: DayState, r: nat,
                                           inv: DayState -> bool)
    requires ValidQueues(S, queues) && NothingOverspent(ds) && Kept(S, day, inv) && inv(ds)
    ensures var m := AfterRounds(S, queues, day, ds, r); NothingOverspent(m) && inv(m)
  {
    hide ValidQueues, Kept, Midway, NothingOverspent;
    if r > 0 {
      AfterRoundsKeep(S, queues, day, ds, r - 1, inv);
      MidwayKeeps(S, queues, day, AfterRounds(S, queues, day, ds, r - 1), |queues|, inv);
    }
  }

  ghost function HaveWork(S: Setup): DayState -> bool {
    (ds: DayState) => OpenHaveWork(S, ds.leaves)
  }

  lemma HaveWorkIsKept(S: Setup, day: Day)
    ensures Kept(S, day, HaveWork(S))
  {
    hide AllSatisfied;
    forall ds, key, i, hours | HaveWork(S)(ds) && Legal(S, day, ds, key, i, hours)
      ensures HaveWork(S)(Give(S.eps, day, ds, key, i, hours))
    {
    }
  }

  lemma OpenHaveWorkInRuns(S: Setup, queues: seq<SeatQueue>, n: nat)
    requires ValidQueues(S, queues)
    ensures OpenHaveWork(S, After(S, queues, n))
  {
    hide RunDay, ValidQueues, Ledger;
    var L := After(S, queues, n);
    forall i | i in L && L[i].finish.None? ensures L[i].remaining > S.eps {
      RunKeepsLedger(S, queues, n);
      HoursAreConserved(S, queues, States(S, queues, n), Logs(S, queues, n), i);
    }
  }

  lemma MorningBegins(S: Setup, day: Day, L: Leaves)
    ensures NothingOverspent(Morning(S, day, L)) && Morning(S, day, L).leaves == L
    ensures forall key :: key in S.seats ==> Morning(S, day, L).Left(key) == S.hours(key, day)
  {
  }

  // Whenever a seat is visited, every open leaf has more than eps left to do.
  lemma WorkIsOpenAtVisits(S: Setup, queues: seq<SeatQueue>, n: nat, r: nat, a: nat)
    requires ValidQueues(S, queues) && a <= |queues|
    ensures OpenHaveWork(S, AtVisit(S, queues, n, r, a).leaves)
  {
    hide ValidQueues, Kept, Midway, AfterRounds, Morning, After, OpenHaveWork, NothingOverspent;
    var day := S.today + n;
    var M := Morning(S, day, After(S, queues, n));
    HaveWorkIsKept(S, day);
    OpenHaveWorkInRuns(S, queues, n);
    MorningBegins(S, day, After(S, queues, n));
    AfterRoundsKeep(S, queues, day, M, r, HaveWork(S));
    MidwayKeeps(S, queues, day, AfterRounds(S, queues, day, M, r), a, HaveWork(S));
  }

  // ---- who gets the hours ----------------------------------------------------------------------------

  /** Priority, on every day of every forecast: whenever a seat is visited and a leaf without a percentage gets hours, every
      ready leaf without a percentage ahead of it in the queue was finished by that same visit. */
  lemma QueueIsHonoured(S: Setup, queues: seq<SeatQueue>, n: nat, r: nat, a: nat, i: int, j: int)
    requires ValidQueues(S, queues) && a < |queues|
    requires i in S.info && j in S.info
    requires S.Share(i) <= 0 && S.Share(j) <= 0 && Before(S.info[i].task, S.info[j].task)
    requires i in ReadyAt(S, queues[a], S.today + n, AtVisit(S, queues, n, r, a))
    requires j in ReadyAt(S, queues[a], S.today + n, AtVisit(S, queues, n, r, a))
    requires j in AtVisit(S, queues, n, r, a + 1).given
    ensures AtVisit(S, queues, n, r, a + 1).leaves[i].finish == Some(S.today + n)
  {
    hide ValidQueues, AfterRounds, Morning, After, OpenHaveWork, Visit, ReadyAt, Before;
    WorkIsOpenAtVisits(S, queues, n, r, a);
    VisitHonoursQueue(S, queues, a, S.today + n, AtVisit(S, queues, n, r, a), i, j);
  }

  // Until its own turn in the first round, a seat has all its hours.
  lemma {:induction false} HoursUntilOwnTurn(S: Setup, queues: seq<SeatQueue>, day: Day, M: DayState, a: nat, k: nat)
    requires ValidQueues(S, queues) && k <= a < |queues|
    ensures Agree(queues[a], Midway(S, queues, day, M, k), M)
  {
    hide ValidQueues, Agree, Visit;
    if k == 0 {
      AgreesWithItself(queues[a], M);
    } else {
      var before := Midway(S, queues, day, M, k - 1);
      HoursUntilOwnTurn(S, queues, day, M, a, k - 1);
      OtherVisitIsUnnoticed(S, queues, a, k - 1, day, before);
      AgreeSymmetrically(queues[a], before, Visit(S, queues[k - 1], day, before));
      AgreeTransitively(queues[a], Visit(S, queues[k - 1], day, before), before, M);
    }
  }

  lemma AgreesWithItself(sq: SeatQueue, ds: DayState)
    ensures Agree(sq, ds, ds)
  {
  }

  lemma AgreeOnHours(sq: SeatQueue, a: DayState, b: DayState)
    requires Agree(sq, a, b)
    ensures a.Left(sq.key) == b.Left(sq.key)
  {
  }

  /** Percentages, on every day of every forecast on which the seat has hours: however over-committed they are, the first
      time the seat is visited each ready leaf with a percentage gets exactly its scaled cut of the day, or what is left to
      do if that is less. */
  lemma SharesAreExact(S: Setup, queues: seq<SeatQueue>, n: nat, a: nat, i: int)
    requires S.eps == 0.0 && ValidQueues(S, queues) && a < |queues| && queues[a].key in S.seats
    requires S.hours(queues[a].key, S.today + n) > 0.0 && i in S.info && S.Share(i) > 0
    requires i in ReadyAt(S, queues[a], S.today + n, AtVisit(S, queues, n, 0, a)) && i in AtVisit(S, queues, n, 0, a).leaves
    ensures var day := S.today + n;
            var ds := AtVisit(S, queues, n, 0, a);
            var scale := Scale(TotalPercent(S, Shared(S, ReadyAt(S, queues[a], day, ds))));
            var given := AtVisit(S, queues, n, 0, a + 1).given;
            i in given && given[i] == Min(Cut(S, queues[a].key, i, day, scale), ds.leaves[i].remaining)
  {
    hide ValidQueues, Morning, After, OpenHaveWork, Visit, ReadyAt, Agree, Cut;
    var day := S.today + n;
    var M := Morning(S, day, After(S, queues, n));
    var ds := AtVisit(S, queues, n, 0, a);
    WorkIsOpenAtVisits(S, queues, n, 0, a);
    HoursUntilOwnTurn(S, queues, day, M, a, a);
    AgreeOnHours(queues[a], ds, M);
    MorningBegins(S, day, After(S, queues, n));
    VisitMeetsShares(S, queues, a, day, ds, i);
  }
}
