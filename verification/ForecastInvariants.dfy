/** What every single hand-out keeps holds over whole days, and the guarantees that follow from it:
    hours are conserved, capacity is respected and dependencies hold when work starts. */
module ForecastInvariants {
  import opened Basics
  import opened Reachability
  import opened WorkSeats
  import opened TaskBoard
  import opened ForecastModel

  // ---- one induction for all invariants of a day ---------------------------------------

  // The hours a leaf may be given: never more than the seat has left, never more than its percentage.
  ghost predicate Legal(S: Setup, day: Day, ds: DayState, key: SeatKey, i: int, hours: real) {
    && Eligible(S, i, day, ds.leaves, ds.given.Keys)
    && S.info[i].seat == key
    && 0.0 <= hours <= ds.Left(key)
    && (S.Share(i) > 0 ==> hours <= Cut(S, key, i, day, 1.0))
  }

  ghost predicate Kept(S: Setup, day: Day, inv: DayState -> bool) {
    forall ds, key, i, hours :: inv(ds) && Legal(S, day, ds, key, i, hours) ==> inv(Give(S.eps, day, ds, key, i, hours))
  }

  ghost predicate NothingOverspent(ds: DayState) {
    forall key :: ds.Left(key) >= 0.0
  }

  // From one state to a later one, starts and finishes stay.
  ghost predicate Grows(L: Leaves, L': Leaves) {
    && L.Keys == L'.Keys
    && (forall j :: j in L && L[j].start.Some? ==> L'[j].start == L[j].start)
    && (forall j :: j in L && L[j].finish.Some? ==> L'[j].finish == L[j].finish)
  }

  // What was satisfied stays satisfied: on every later day and as the leaves move on.
  lemma SatisfiedIsMonotone(S: Setup, c: Constraint, day: Day, day': Day, L: Leaves, L': Leaves)
    requires Grows(L, L') && day <= day' && Satisfied(S, c, day, L)
    ensures Satisfied(S, c, day', L')
  {
    match c.kind
    case FS =>
    case SS =>
      if !BegunBefore(S, c.predecessor, L) {
        assert !BegunBefore(S, c.predecessor, L');
        var j :| j in S.Behind(c.predecessor) && j in L && L[j].start.Some? && L[j].start.value <= day - c.lag;
        assert j in L' && L'[j].start.Some? && L'[j].start.value <= day' - c.lag;
      } else {
        var j :| j in S.Behind(c.predecessor) && (j !in L || j !in S.info || S.info[j].startedBefore);
        assert j !in L' || j !in S.info || S.info[j].startedBefore;
      }
    case FF =>
    case SF =>
  }

  lemma AllSatisfiedIsMonotone(S: Setup, i: int, day: Day, day': Day, L: Leaves, L': Leaves)
    requires Grows(L, L') && day <= day' && AllSatisfied(S, i, day, L)
    ensures AllSatisfied(S, i, day', L')
  {
    forall c | c in S.ConstraintsOn(i) ensures Satisfied(S, c, day', L') {
      SatisfiedIsMonotone(S, c, day, day', L, L');
    }
  }

  lemma GiveGrows(S: Setup, day: Day, ds: DayState, key: SeatKey, i: int, hours: real)
    requires i in ds.leaves && ds.leaves[i].finish.None?
    ensures Grows(ds.leaves, Give(S.eps, day, ds, key, i, hours).leaves)
  {
  }

  lemma GiveSpendsWhatIsThere(S: Setup, day: Day, ds: DayState, key: SeatKey, i: int, hours: real)
    requires i in ds.leaves && NothingOverspent(ds) && hours <= ds.Left(key)
    ensures NothingOverspent(Give(S.eps, day, ds, key, i, hours))
  {
    var ds' := Give(S.eps, day, ds, key, i, hours);
    forall k ensures ds'.Left(k) >= 0.0 {
      assert k != key ==> ds'.Left(k) == ds.Left(k);
      assert ds.Left(k) >= 0.0;
    }
  }

  lemma PortionBounds(hours: real, percent: int, scale: real)
    requires hours >= 0.0 && 0 <= percent <= 100 && 0.0 <= scale <= 1.0
    ensures 0.0 <= Portion(hours, percent, scale) <= Portion(hours, percent, 1.0) <= hours
  {
    var share := percent as real / 100.0;
    assert 0.0 <= share <= 1.0;
    var full := hours * share;
    assert 0.0 <= full <= hours by { ScaledIsBounded(hours, share); }
    assert 0.0 <= full * scale <= full by { ScaledIsBounded(full, scale); }
    assert Portion(hours, percent, 1.0) == full && Portion(hours, percent, scale) == full * scale;
  }

  lemma CutBounds(S: Setup, key: SeatKey, i: int, day: Day, scale: real)
    requires i in S.info && key in S.seats && 0.0 <= scale <= 1.0
    ensures 0.0 <= Cut(S, key, i, day, scale) <= Cut(S, key, i, day, 1.0)
  {
    PortionBounds(S.hours(key, day), S.Share(i), scale);
  }

  ghost predicate AllEligible(S: Setup, key: SeatKey, ids: seq<int>, day: Day, ds: DayState) {
    forall i :: i in ids ==> Eligible(S, i, day, ds.leaves, ds.given.Keys) && S.info[i].seat == key
  }

  // Serving one leaf leaves the others as eligible as they were.
  lemma StillEligible(S: Setup, key: SeatKey, ids: seq<int>, day: Day, ds: DayState, i: int, hours: real)
    requires i !in ids && i in ds.leaves && ds.leaves[i].finish.None?
    requires AllEligible(S, key, ids, day, ds)
    ensures AllEligible(S, key, ids, day, Give(S.eps, day, ds, key, i, hours))
  {
    var ds' := Give(S.eps, day, ds, key, i, hours);
    GiveGrows(S, day, ds, key, i, hours);
    forall j | j in ids ensures Eligible(S, j, day, ds'.leaves, ds'.given.Keys) {
      AllSatisfiedIsMonotone(S, j, day, day, ds.leaves, ds'.leaves);
    }
  }

  lemma {:induction false} ServeKeeps(S: Setup, key: SeatKey, ids: seq<int>, scale: real, day: Day, ds: DayState,
                                      inv: DayState -> bool)
    requires key in S.seats && 0.0 <= scale <= 1.0 && Distinct(ids)
    requires AllEligible(S, key, ids, day, ds) && NothingOverspent(ds)
    requires Kept(S, day, inv) && inv(ds)
    ensures NothingOverspent(Serve(S, key, ids, scale, day, ds)) && inv(Serve(S, key, ids, scale, day, ds))
  {
    if ids != [] {
      var i := ids[0];
      assert i in ids && i !in ids[1..];
      var hours := if S.Share(i) > 0 then Min(Cut(S, key, i, day, scale), ds.Left(key)) else ds.Left(key);
      CutBounds(S, key, i, day, scale);
      assert ds.Left(key) >= 0.0;
      assert Legal(S, day, ds, key, i, hours);
      GiveSpendsWhatIsThere(S, day, ds, key, i, hours);
      StillEligible(S, key, ids[1..], day, ds, i, hours);
      ServeKeeps(S, key, ids[1..], scale, day, ServeOne(S, key, i, scale, day, ds), inv);
    }
  }

  lemma VisitKeeps(S: Setup, queues: seq<SeatQueue>, a: nat, day: Day, ds: DayState, inv: DayState -> bool)
    requires ValidQueues(S, queues) && a < |queues|
    requires NothingOverspent(ds) && Kept(S, day, inv) && inv(ds)
    ensures NothingOverspent(Visit(S, queues[a], day, ds)) && inv(Visit(S, queues[a], day, ds))
  {
    var sq := queues[a];
    if CanServe(S, sq, day, ds) {
      InOrderIsDistinct(S, sq.queue);
      var ready := ReadyAt(S, sq, day, ds);
      assert AllEligible(S, sq.key, Line(S, ready), day, ds) by {
        forall i | i in Line(S, ready) ensures S.info[i].seat == sq.key { assert i in ready; assert i in sq.queue; }
      }
      ServeKeeps(S, sq.key, Line(S, ready), DayScale(S, ready), day, ds, inv);
    }
  }

  lemma {:induction false} PassKeeps(S: Setup, queues: seq<SeatQueue>, from: nat, day: Day, ds: DayState,
                                     inv: DayState -> bool)
    requires ValidQueues(S, queues) && from <= |queues|
    requires NothingOverspent(ds) && Kept(S, day, inv) && inv(ds)
    ensures var r := Pass(S, queues[from..], day, ds).0; NothingOverspent(r) && inv(r)
    decreases |queues| - from
  {
    if from < |queues| {
      VisitKeeps(S, queues, from, day, ds, inv);
      PassKeeps(S, queues, from + 1, day, Visit(S, queues[from], day, ds), inv);
      assert queues[from..][1..] == queues[from + 1..];
    }
  }

  lemma {:induction false} RoundsKeep(S: Setup, queues: seq<SeatQueue>, day: Day, ds: DayState, inv: DayState -> bool)
    requires ValidQueues(S, queues)
    requires NothingOverspent(ds) && Kept(S, day, inv) && inv(ds)
    ensures var r := Rounds(S, queues, day, ds); NothingOverspent(r) && inv(r)
    decreases Unserved(S, ds)
  {
    PassKeeps(S, queues, 0, day, ds, inv);
    assert queues[0..] == queues;
    PassServes(S, queues, day, ds);
    var (after, progressed) := Pass(S, queues, day, ds);
    if progressed {
      RoundsKeep(S, queues, day, after, inv);
    }
  }

  // Whatever each legal hand-out keeps, a whole day keeps.
  lemma DayKeeps(S: Setup, queues: seq<SeatQueue>, day: Day, L: Leaves, inv: DayState -> bool)
    requires ValidQueues(S, queues) && Kept(S, day, inv) && inv(Morning(S, day, L))
    ensures NothingOverspent(RunDay(S, queues, day, L)) && inv(RunDay(S, queues, day, L))
  {
    RoundsKeep(S, queues, day, Morning(S, day, L), inv);
  }

  // ---- hours are conserved, capacity is respected ---------------------------------------

  // What `hours` of work on one day make of a leaf.
  ghost predicate Worked(eps: real, day: Day, a: LeafState, b: LeafState, hours: real) {
    if hours == 0.0 then b == a
    else
      && eps < hours <= a.remaining
      && b.start == (if a.start.None? then Some(day) else a.start)
      && (if a.remaining - hours <= eps then b.remaining == 0.0 && b.finish == Some(day)
          else b.remaining == a.remaining - hours && b.finish == a.finish)
  }

  // Only leaves whose calendar and planned start allow it are served; nobody is served beyond the percentage.
  ghost predicate ServedRightly(S: Setup, i: int, day: Day, L: Leaves, ds: DayState)
    requires i in L && i in ds.leaves
  {
    if i in ds.given then
      && i in S.info && L[i].finish.None? && S.works(i, day) && PlannedToStart(S, i, day)
      && ds.given[i] >= 0.0
      && Worked(S.eps, day, L[i], ds.leaves[i], ds.given[i])
      && (S.Share(i) > 0 ==> ds.given[i] <= Cut(S, S.info[i].seat, i, day, 1.0))
    else ds.leaves[i] == L[i]
  }

  ghost predicate SeatBalances(S: Setup, sq: SeatQueue, day: Day, ds: DayState) {
    sq.key in S.seats && ds.Left(sq.key) + Sum(sq.queue, ds.given) == S.hours(sq.key, day)
  }

  ghost predicate Books(S: Setup, queues: seq<SeatQueue>, day: Day, L: Leaves, ds: DayState) {
    && ds.leaves.Keys == L.Keys && ds.given.Keys <= L.Keys
    && (forall i :: i in L ==> ServedRightly(S, i, day, L, ds))
    && (forall a :: 0 <= a < |queues| ==> SeatBalances(S, queues[a], day, ds))
  }

  lemma WorkIsRight(eps: real, s: LeafState, hours: real, day: Day)
    requires eps >= 0.0 && hours >= 0.0
    ensures var (s', used) := Work(eps, s, hours, day); 0.0 <= used <= hours && Worked(eps, day, s, s', used)
  {
  }

  lemma GiveKeepsSeats(S: Setup, queues: seq<SeatQueue>, a: nat, day: Day, ds: DayState, key: SeatKey, i: int,
                       hours: real)
    requires ValidQueues(S, queues) && a < |queues| && SeatBalances(S, queues[a], day, ds)
    requires Legal(S, day, ds, key, i, hours)
    ensures SeatBalances(S, queues[a], day, Give(S.eps, day, ds, key, i, hours))
  {
    var used := Work(S.eps, ds.leaves[i], hours, day).1;
    if queues[a].key == key {
      assert i in queues[a].queue;
      InOrderIsDistinct(S, queues[a].queue);
      SumAddsEntry(queues[a].queue, ds.given, i, used);
    } else {
      assert i !in queues[a].queue;
      SumUnaffected(queues[a].queue, ds.given, i, used);
    }
  }

  lemma GiveKeepsBooks(S: Setup, queues: seq<SeatQueue>, day: Day, L: Leaves, ds: DayState, key: SeatKey, i: int,
                       hours: real)
    requires ValidQueues(S, queues) && Books(S, queues, day, L, ds) && Legal(S, day, ds, key, i, hours)
    ensures Books(S, queues, day, L, Give(S.eps, day, ds, key, i, hours))
  {
    hide ValidQueues, SeatBalances, AllSatisfied, Portion, Sum;
    var ds' := Give(S.eps, day, ds, key, i, hours);
    assert ServedRightly(S, i, day, L, ds);
    WorkIsRight(S.eps, ds.leaves[i], hours, day);
    forall j | j in L ensures ServedRightly(S, j, day, L, ds') {
      assert ServedRightly(S, j, day, L, ds);
    }
    forall a | 0 <= a < |queues| ensures SeatBalances(S, queues[a], day, ds') {
      GiveKeepsSeats(S, queues, a, day, ds, key, i, hours);
    }
  }

  lemma {:induction false} SumOfNothing(ids: seq<int>)
    ensures Sum(ids, map[]) == 0.0
  {
    if ids != [] { SumOfNothing(ids[1..]); }
  }

  // On every day, in every seat: hours handed out plus hours left over are exactly the hours the person has,
  // nothing is overdrawn, and each leaf served was open, allowed to be worked on, and worked once.
  lemma DayBalances(S: Setup, queues: seq<SeatQueue>, day: Day, L: Leaves)
    requires ValidQueues(S, queues) && L.Keys == S.info.Keys
    ensures Books(S, queues, day, L, RunDay(S, queues, day, L)) && NothingOverspent(RunDay(S, queues, day, L))
  {
    var inv := ds => Books(S, queues, day, L, ds);
    var morning := Morning(S, day, L);
    forall a | 0 <= a < |queues| ensures SeatBalances(S, queues[a], day, morning) {
      SumOfNothing(queues[a].queue);
    }
    forall ds, key, i, hours | inv(ds) && Legal(S, day, ds, key, i, hours)
      ensures inv(Give(S.eps, day, ds, key, i, hours))
    {
      GiveKeepsBooks(S, queues, day, L, ds, key, i, hours);
    }
    DayKeeps(S, queues, day, L, inv);
  }
}
