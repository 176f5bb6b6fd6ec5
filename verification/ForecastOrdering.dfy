/** Dependencies: work starts only when everything it depends on allows it, and leaves that wait for each
    other in a ring never start. */
module ForecastOrdering {
  import opened Basics
  import opened WorkSeats
  import opened TaskBoard
  import opened ForecastModel
  import opened ForecastInvariants

  // Every leaf that has started was planned for that day or earlier, and all it depends on allowed it.
  ghost predicate StartsReady(S: Setup, L: Leaves) {
    forall i :: i in L && L[i].start.Some? ==>
      i in S.info && PlannedToStart(S, i, L[i].start.value) && AllSatisfied(S, i, L[i].start.value, L)
  }

  lemma GiveKeepsStarts(S: Setup, day: Day, ds: DayState, key: SeatKey, i: int, hours: real)
    requires StartsReady(S, ds.leaves) && Legal(S, day, ds, key, i, hours)
    ensures StartsReady(S, Give(S.eps, day, ds, key, i, hours).leaves)
  {
    hide Satisfied;
    var ds' := Give(S.eps, day, ds, key, i, hours);
    GiveGrows(S, day, ds, key, i, hours);
    forall j | j in ds'.leaves && ds'.leaves[j].start.Some?
      ensures j in S.info && PlannedToStart(S, j, ds'.leaves[j].start.value)
      ensures AllSatisfied(S, j, ds'.leaves[j].start.value, ds'.leaves)
    {
      var s := ds'.leaves[j].start.value;
      AllSatisfiedIsMonotone(S, j, s, s, ds.leaves, ds'.leaves);
    }
  }

  lemma {:induction false} StartsAreReady(S: Setup, queues: seq<SeatQueue>, n: nat)
    requires ValidQueues(S, queues)
    ensures StartsReady(S, After(S, queues, n))
  {
    hide RunDay, StartsReady, AllSatisfied, ValidQueues;
    if n == 0 {
      assert StartsReady(S, Initial(S)) by { NothingHasStarted(S); }
    } else {
      StartsAreReady(S, queues, n - 1);
      var day := S.today + n - 1;
      var inv := (ds: DayState) => StartsReady(S, ds.leaves);
      forall ds, key, i, hours | inv(ds) && Legal(S, day, ds, key, i, hours)
        ensures inv(Give(S.eps, day, ds, key, i, hours))
      {
        GiveKeepsStarts(S, day, ds, key, i, hours);
      }
      DayKeeps(S, queues, day, After(S, queues, n - 1), inv);
    }
  }

  lemma NothingHasStarted(S: Setup)
    ensures StartsReady(S, Initial(S))
  {
  }

  lemma GrowsTransitively(L: Leaves, L': Leaves, L'': Leaves)
    requires Grows(L, L') && Grows(L', L'')
    ensures Grows(L, L'')
  {
  }

  // Days only ever add starts and finishes.
  lemma DayGrows(S: Setup, queues: seq<SeatQueue>, day: Day, L: Leaves)
    requires ValidQueues(S, queues)
    ensures Grows(L, RunDay(S, queues, day, L).leaves)
  {
    hide RunDay, Satisfied;
    var inv := (ds: DayState) => Grows(L, ds.leaves);
    forall ds, key, i, hours | inv(ds) && Legal(S, day, ds, key, i, hours)
      ensures inv(Give(S.eps, day, ds, key, i, hours))
    {
      GiveGrows(S, day, ds, key, i, hours);
      GrowsTransitively(L, ds.leaves, Give(S.eps, day, ds, key, i, hours).leaves);
    }
    DayKeeps(S, queues, day, L, inv);
  }

  lemma {:induction false} RunGrows(S: Setup, queues: seq<SeatQueue>, m: nat, n: nat)
    requires ValidQueues(S, queues) && m <= n
    ensures Grows(After(S, queues, m), After(S, queues, n))
    decreases n - m
  {
    hide RunDay, ValidQueues;
    if m < n {
      DayGrows(S, queues, S.today + m, After(S, queues, m));
      AfterNextDay(S, queues, m);
      RunGrows(S, queues, m + 1, n);
      GrowsTransitively(After(S, queues, m), After(S, queues, m + 1), After(S, queues, n));
    }
  }

  // Dependencies hold in every forecast. A leaf that has started did so after the last leaf behind each FS
  // predecessor finished, plus one day and the lag, and no earlier than the first start behind each SS
  // predecessor plus the lag; both go on holding on every later day, however long the forecast goes on.
  lemma DependenciesHold(S: Setup, queues: seq<SeatQueue>, n: nat, later: nat, i: int, c: Constraint, day: Day)
    requires ValidQueues(S, queues) && i in S.info && c in S.ConstraintsOn(i)
    requires After(S, queues, n)[i].start.Some? && After(S, queues, n)[i].start.value <= day && n <= later
    ensures var L := After(S, queues, later);
            L[i].start == After(S, queues, n)[i].start && Satisfied(S, c, L[i].start.value, L) && Satisfied(S, c, day, L)
    ensures var L := After(S, queues, later);
            c.kind.FS? ==> forall j :: j in S.Behind(c.predecessor) && j in S.info ==>
              L[j].finish.Some? && L[j].finish.value + 1 + c.lag <= L[i].start.value
    ensures var L := After(S, queues, later);
            c.kind.SS? && !BegunBefore(S, c.predecessor, L) ==>
              exists j :: j in S.Behind(c.predecessor) && j in S.info && L[j].start.Some?
                          && L[j].start.value + c.lag <= L[i].start.value
  {
    hide RunDay, ValidQueues;
    var L := After(S, queues, later);
    RunGrows(S, queues, n, later);
    StartsAreReady(S, queues, later);
    assert Satisfied(S, c, L[i].start.value, L);
    SatisfiedIsMonotone(S, c, L[i].start.value, day, L, L);
    if c.kind.SS? && !BegunBefore(S, c.predecessor, L) {
      var j :| j in S.Behind(c.predecessor) && j in L && L[j].start.Some?
               && L[j].start.value <= L[i].start.value - c.lag;
      assert j in S.info && L[j].start.value + c.lag <= L[i].start.value;
    }
  }

  // ---- rings ---------------------------------------------------------------------------

  // i may not start before j has finished.
  ghost predicate WaitsFor(S: Setup, i: int, j: int) {
    exists c :: c in S.ConstraintsOn(i) && c.kind.FS? && j in S.Behind(c.predecessor)
  }

  // Each of these leaves waits for another of them.
  ghost predicate Ring(S: Setup, ring: set<int>) {
    ring <= S.info.Keys && forall i :: i in ring ==> exists j :: j in ring && WaitsFor(S, i, j)
  }

  ghost predicate Untouched(ring: set<int>, L: Leaves) {
    forall i :: i in ring && i in L ==> L[i].start.None? && L[i].finish.None?
  }

  // A chain of waits that runs back into itself is a ring, so every leaf on a cycle, or behind one, is in one.
  lemma ChainIntoItselfIsRing(S: Setup, chain: seq<int>, back: nat)
    requires |chain| > 0 && back < |chain|
    requires forall k :: 0 <= k < |chain| ==> chain[k] in S.info
    requires forall k :: 0 <= k < |chain| - 1 ==> WaitsFor(S, chain[k], chain[k + 1])
    requires WaitsFor(S, chain[|chain| - 1], chain[back])
    ensures Ring(S, ToSet(chain))
  {
    hide WaitsFor;
    forall i | i in ToSet(chain) ensures exists j :: j in ToSet(chain) && WaitsFor(S, i, j) {
      var k :| 0 <= k < |chain| && chain[k] == i;
      var j := if k == |chain| - 1 then chain[back] else chain[k + 1];
      assert j in ToSet(chain) && WaitsFor(S, i, j);
    }
  }

  lemma RingStep(S: Setup, ring: set<int>, i: int) returns (j: int)
    requires Ring(S, ring) && i in ring
    ensures j in ring && j in S.info && WaitsFor(S, i, j)
  {
    hide WaitsFor;
    j :| j in ring && WaitsFor(S, i, j);
  }

  lemma WaitingHoldsBack(S: Setup, i: int, j: int, day: Day, L: Leaves)
    requires WaitsFor(S, i, j) && j in L && L[j].finish.None?
    ensures !AllSatisfied(S, i, day, L)
  {
    var c :| c in S.ConstraintsOn(i) && c.kind.FS? && j in S.Behind(c.predecessor);
    assert !Satisfied(S, c, day, L);
  }

  lemma RingMemberIsHeldBack(S: Setup, ring: set<int>, i: int, day: Day, L: Leaves)
    requires Ring(S, ring) && i in ring && S.info.Keys == L.Keys && Untouched(ring, L)
    ensures !AllSatisfied(S, i, day, L)
  {
    hide WaitsFor, AllSatisfied, Ring;
    var j := RingStep(S, ring, i);
    WaitingHoldsBack(S, i, j, day, L);
  }

  // However long the forecast runs, no leaf of a ring ever starts, and none may ever start.
  lemma {:induction false} RingNeverStarts(S: Setup, queues: seq<SeatQueue>, ring: set<int>, n: nat)
    requires ValidQueues(S, queues) && Ring(S, ring)
    ensures Untouched(ring, After(S, queues, n))
    ensures forall i, day :: i in ring ==> !AllSatisfied(S, i, day, After(S, queues, n))
  {
    hide RunDay, AllSatisfied, Ring, ValidQueues;
    if n > 0 {
      RingNeverStarts(S, queues, ring, n - 1);
      var day := S.today + n - 1;
      var inv := (ds: DayState) => ds.leaves.Keys == S.info.Keys && Untouched(ring, ds.leaves);
      forall ds, key, i, hours | inv(ds) && Legal(S, day, ds, key, i, hours)
        ensures inv(Give(S.eps, day, ds, key, i, hours))
      {
        if i in ring { RingMemberIsHeldBack(S, ring, i, day, ds.leaves); }
      }
      DayKeeps(S, queues, day, After(S, queues, n - 1), inv);
    }
    forall i, day | i in ring ensures !AllSatisfied(S, i, day, After(S, queues, n)) {
      RingMemberIsHeldBack(S, ring, i, day, After(S, queues, n));
    }
  }
}
