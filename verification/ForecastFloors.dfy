/** Finish-to-finish and start-to-finish dependencies: the floors they put under finishes, and what it means to raise
    finishes to them. */
module ForecastFloors {
  import opened Basics
  import opened WorkSeats
  import opened TaskBoard
  import opened ForecastModel

  // x is not below the floor that c puts under a finish. A floor whose base is not known holds nothing up.
  ghost predicate FloorMet(S: Setup, c: Constraint, L: Leaves, x: Day) {
    match c.kind
    case FF => FinishKnown(S, c.predecessor, L) ==> NotBeforeFinish(S, c.predecessor, L, x - c.lag)
    case SF => StartKnown(S, c.predecessor, L) ==> NotBeforeStart(S, c.predecessor, L, x - c.lag)
    case FS => true
    case SS => true
  }

  ghost predicate FloorsMet(S: Setup, L: Leaves, i: int) {
    i in L && (L[i].finish.Some? ==> forall c :: c in S.ConstraintsOn(i) ==> FloorMet(S, c, L, L[i].finish.value))
  }

  ghost predicate AllFloorsMet(S: Setup, L: Leaves) {
    forall i :: i in L ==> FloorsMet(S, L, i)
  }

  // L' differs from L at most in later finishes.
  ghost predicate Raised(L: Leaves, L': Leaves) {
    && L.Keys == L'.Keys
    && forall i :: i in L ==>
         && L'[i].remaining == L[i].remaining && L'[i].start == L[i].start
         && (L'[i].finish.Some? <==> L[i].finish.Some?)
         && (L[i].finish.Some? ==> L[i].finish.value <= L'[i].finish.value)
  }

  // L is nowhere later than any assignment above L0 that meets every floor.
  ghost predicate BelowSolutions(S: Setup, L0: Leaves, L: Leaves) {
    forall G: Leaves :: Raised(L0, G) && AllFloorsMet(S, G) ==> Raised(L, G)
  }

  ghost predicate LeastSolution(S: Setup, L0: Leaves, L: Leaves) {
    Raised(L0, L) && AllFloorsMet(S, L) && BelowSolutions(S, L0, L)
  }

  // There is only one.
  lemma LeastSolutionIsUnique(S: Setup, L0: Leaves, L: Leaves, L': Leaves)
    requires LeastSolution(S, L0, L) && LeastSolution(S, L0, L')
    ensures L == L'
  {
    hide AllFloorsMet;
    assert Raised(L, L') && Raised(L', L);
    forall i | i in L ensures L[i] == L'[i] { }
  }

  // The date a floor rests on, as the forecaster computes it.
  ghost predicate IsBase(S: Setup, c: Constraint, L: Leaves, base: Day) {
    match c.kind
    case FF =>
      && NotBeforeFinish(S, c.predecessor, L, base)
      && (base == S.today - 1
          || exists j :: j in S.Behind(c.predecessor) && j in L && L[j].finish == Some(base))
    case SF =>
      if BegunBefore(S, c.predecessor, L) then base == S.today - 1
      else
        && (exists j :: j in S.Behind(c.predecessor) && j in L && L[j].start == Some(base))
        && (forall j :: j in S.Behind(c.predecessor) && j in L && L[j].start.Some? ==> base <= L[j].start.value)
    case FS => false
    case SS => false
  }

  lemma FloorMetFromBase(S: Setup, c: Constraint, L: Leaves, base: Day, x: Day)
    requires IsBase(S, c, L, base)
    ensures FloorMet(S, c, L, x) <==> base + c.lag <= x
  {
    hide BegunBefore;
    if c.kind.SF? {
      assert StartKnown(S, c.predecessor, L);
      if !BegunBefore(S, c.predecessor, L) {
        var j :| j in S.Behind(c.predecessor) && j in L && L[j].start == Some(base);
      }
    }
  }

  function RaiseTo(L: Leaves, i: int, floor: Day): Leaves
    requires i in L && L[i].finish.Some?
  {
    if floor > L[i].finish.value then L[i := L[i].(finish := Some(floor))] else L
  }

  lemma RaisedTransitively(L: Leaves, L': Leaves, L'': Leaves)
    requires Raised(L, L') && Raised(L', L'')
    ensures Raised(L, L'')
  {
  }

  lemma RaiseToRaises(L: Leaves, i: int, floor: Day)
    requires i in L && L[i].finish.Some?
    ensures Raised(L, RaiseTo(L, i, floor))
  {
  }

  // No finish of leaf i rests on another leaf.
  ghost predicate Floorless(S: Setup, i: int) {
    forall c :: c in S.ConstraintsOn(i) ==> !c.kind.FF? && !c.kind.SF?
  }

  // Where leaves finish sooner, floors that held still hold.
  lemma SoonerStillMet(S: Setup, L: Leaves, L': Leaves, c: Constraint, x: Day)
    requires L.Keys == L'.Keys && FloorMet(S, c, L, x)
    requires forall j :: j in L ==> L'[j].start == L[j].start && (L'[j].finish.Some? <==> L[j].finish.Some?)
    requires forall j :: j in L && L[j].finish.Some? ==> L'[j].finish.value <= L[j].finish.value
    ensures FloorMet(S, c, L', x)
  {
    BegunIsTheSame(S, c.predecessor, L, L');
    match c.kind
    case SF =>
      if StartKnown(S, c.predecessor, L') && !BegunBefore(S, c.predecessor, L') {
        var j :| j in S.Behind(c.predecessor) && j in L' && L'[j].start.Some?;
        assert L[j].start.Some?;
        var k :| k in S.Behind(c.predecessor) && k in L && L[k].start.Some? && L[k].start.value <= x - c.lag;
        assert L'[k].start.Some? && L'[k].start.value <= x - c.lag;
      }
    case _ =>
  }

  function Sooner(L: Leaves, i: int): Leaves
    requires i in L && L[i].finish.Some?
  {
    L[i := L[i].(finish := Some(L[i].finish.value - 1))]
  }

  lemma SoonerIsSolution(S: Setup, L0: Leaves, L: Leaves, i: int)
    requires Raised(L0, L) && AllFloorsMet(S, L) && i in L && L[i].finish.Some? && L[i].finish != L0[i].finish
    requires forall c :: c in S.ConstraintsOn(i) ==> FloorMet(S, c, L, L[i].finish.value - 1)
    ensures Raised(L0, Sooner(L, i)) && AllFloorsMet(S, Sooner(L, i))
  {
    hide FloorMet;
    var G := Sooner(L, i);
    forall k | k in G ensures FloorsMet(S, G, k) {
      assert FloorsMet(S, L, k);
      if G[k].finish.Some? {
        forall c | c in S.ConstraintsOn(k) ensures FloorMet(S, c, G, G[k].finish.value) {
          assert FloorMet(S, c, L, G[k].finish.value);
          SoonerStillMet(S, L, G, c, G[k].finish.value);
        }
      }
    }
  }

  /** In the least solution every finish is as it was before, or some floor under it is met and would not be a day sooner. */
  lemma LeastIsNeeded(S: Setup, L0: Leaves, L: Leaves, i: int)
    requires LeastSolution(S, L0, L) && i in L && L[i].finish.Some?
    ensures i in L0
    ensures L[i].finish == L0[i].finish
            || exists c :: c in S.ConstraintsOn(i) && FloorMet(S, c, L, L[i].finish.value) && !FloorMet(S, c, L, L[i].finish.value - 1)
  {
    hide FloorMet;
    assert FloorsMet(S, L, i);
    if L[i].finish != L0[i].finish && forall c :: c in S.ConstraintsOn(i) ==> FloorMet(S, c, L, L[i].finish.value - 1) {
      SoonerIsSolution(S, L0, L, i);
      assert false;
    }
  }
}
