/** What raising finishes comes to: the finish of a leaf is the latest date that a chain of finish-to-finish
    dependencies carries down to it. The rounds of raising find these dates, unless a ring of such dependencies keeps
    lifting itself. */
module ForecastChains {
  import opened Basics
  import opened WorkSeats
  import opened TaskBoard
  import opened ForecastModel
  import opened ForecastFloors

  // ---- chains ----------------------------------------------------------------------------------

  // From a leaf to one whose finish, plus the lag, it may not finish before.
  datatype Hop = Hop(lag: int, leaf: int)

  ghost predicate LiftsBy(S: Setup, L: Leaves, c: Constraint, hop: Hop) {
    && c.kind.FF? && c.lag == hop.lag && FinishKnown(S, c.predecessor, L)
    && hop.leaf in S.Behind(c.predecessor) && hop.leaf in L
  }

  ghost predicate Lifts(S: Setup, L: Leaves, i: int, hop: Hop) {
    exists c :: c in S.ConstraintsOn(i) && LiftsBy(S, L, c, hop)
  }

  // Where k hops lead.
  function Stop(i: int, hops: seq<Hop>, k: nat): int
    requires k <= |hops|
  {
    if k == 0 then i else hops[k - 1].leaf
  }

  function End(i: int, hops: seq<Hop>): int {
    Stop(i, hops, |hops|)
  }

  ghost predicate Chain(S: Setup, L: Leaves, i: int, hops: seq<Hop>) {
    && i in L && L[i].finish.Some?
    && forall k :: 0 <= k < |hops| ==> Lifts(S, L, Stop(i, hops, k), hops[k])
  }

  function Lags(hops: seq<Hop>): int {
    if hops == [] then 0 else hops[0].lag + Lags(hops[1..])
  }

  // A finish-to-finish floor under what is over, or a start-to-finish floor: it rests on no finish still to be raised.
  ghost predicate OwnFloor(S: Setup, c: Constraint, L: Leaves, d: Day) {
    match c.kind
    case FF => FinishKnown(S, c.predecessor, L) && d == S.today - 1 + c.lag
    case SF => IsBase(S, c, L, d - c.lag)
    case FS => false
    case SS => false
  }

  // A date leaf e cannot finish before, whatever the other leaves do.
  ghost predicate Source(S: Setup, L: Leaves, e: int, d: Day) {
    e in L && L[e].finish.Some? && (d == L[e].finish.value || exists c :: c in S.ConstraintsOn(e) && OwnFloor(S, c, L, d))
  }

  // The chain carries the date d from its far end to leaf i, which may not finish before d plus the lags.
  ghost predicate Demands(S: Setup, L: Leaves, i: int, hops: seq<Hop>, d: Day) {
    Chain(S, L, i, hops) && Source(S, L, End(i, hops), d)
  }

  ghost predicate NothingDemandedAfter(S: Setup, L: Leaves, j: int, x: Day) {
    forall hops, d :: Demands(S, L, j, hops, d) ==> d + Lags(hops) <= x
  }

  // However far one follows the chains from j, no ring comes back with a later date than it set out with.
  ghost predicate NoRisingRing(S: Setup, L: Leaves, j: int) {
    forall hops, ring ::
      Chain(S, L, j, hops) && Chain(S, L, End(j, hops), ring) && End(End(j, hops), ring) == End(j, hops) ==> Lags(ring) <= 0
  }

  ghost predicate NoRingRises(S: Setup, L: Leaves) {
    forall j :: j in L ==> NoRisingRing(S, L, j)
  }

  lemma FirstHop(S: Setup, L: Leaves, i: int, hops: seq<Hop>)
    requires Chain(S, L, i, hops) && hops != []
    ensures Lifts(S, L, i, hops[0]) && Chain(S, L, hops[0].leaf, hops[1..])
    ensures End(i, hops) == End(hops[0].leaf, hops[1..])
  {
    hide Lifts;
    StopHasFinish(S, L, i, hops, 1);
    assert Lifts(S, L, Stop(i, hops, 0), hops[0]);
    var rest, j := hops[1..], hops[0].leaf;
    forall k | 0 <= k < |rest| ensures Lifts(S, L, Stop(j, rest, k), rest[k]) {
      assert Lifts(S, L, Stop(i, hops, k + 1), hops[k + 1]);
    }
  }

  lemma AddHop(S: Setup, L: Leaves, i: int, hop: Hop, hops: seq<Hop>)
    requires i in L && L[i].finish.Some? && Lifts(S, L, i, hop) && Chain(S, L, hop.leaf, hops)
    ensures Chain(S, L, i, [hop] + hops) && End(i, [hop] + hops) == End(hop.leaf, hops)
    ensures Lags([hop] + hops) == hop.lag + Lags(hops)
  {
    hide Lifts;
    var longer := [hop] + hops;
    forall k | 0 <= k < |longer| ensures Lifts(S, L, Stop(i, longer, k), longer[k]) {
      if k > 0 { assert Lifts(S, L, Stop(hop.leaf, hops, k - 1), hops[k - 1]); }
    }
    assert longer[1..] == hops;
  }

  lemma {:induction false} LagsAdd(p: seq<Hop>, q: seq<Hop>)
    ensures Lags(p + q) == Lags(p) + Lags(q)
  {
    if p == [] {
      assert p + q == q;
    } else {
      assert (p + q)[1..] == p[1..] + q;
      LagsAdd(p[1..], q);
    }
  }

  lemma StopHasFinish(S: Setup, L: Leaves, i: int, hops: seq<Hop>, a: nat)
    requires Chain(S, L, i, hops) && a <= |hops|
    ensures Stop(i, hops, a) in L && L[Stop(i, hops, a)].finish.Some?
  {
    if a > 0 { assert Lifts(S, L, Stop(i, hops, a - 1), hops[a - 1]); }
  }

  lemma StopOfPart(i: int, hops: seq<Hop>, a: nat, b: nat, k: nat)
    requires a <= b <= |hops| && k <= b - a
    ensures Stop(Stop(i, hops, a), hops[a..b], k) == Stop(i, hops, a + k)
  {
  }

  // Any stretch of a chain is a chain.
  lemma PartOfChain(S: Setup, L: Leaves, i: int, hops: seq<Hop>, a: nat, b: nat)
    requires Chain(S, L, i, hops) && a <= b <= |hops|
    ensures Chain(S, L, Stop(i, hops, a), hops[a..b]) && End(Stop(i, hops, a), hops[a..b]) == Stop(i, hops, b)
  {
    hide Lifts, Stop;
    var part, from := hops[a..b], Stop(i, hops, a);
    StopHasFinish(S, L, i, hops, a);
    forall k | 0 <= k < |part| ensures Lifts(S, L, Stop(from, part, k), part[k]) {
      StopOfPart(i, hops, a, b, k);
      assert Lifts(S, L, Stop(i, hops, a + k), hops[a + k]);
    }
    StopOfPart(i, hops, a, b, b - a);
  }

  lemma JoinChains(S: Setup, L: Leaves, i: int, p: seq<Hop>, q: seq<Hop>)
    requires Chain(S, L, i, p) && Chain(S, L, End(i, p), q)
    ensures Chain(S, L, i, p + q) && End(i, p + q) == End(End(i, p), q)
  {
    hide Lifts;
    var both := p + q;
    forall k | 0 <= k < |both| ensures Lifts(S, L, Stop(i, both, k), both[k]) {
      if k < |p| { assert Lifts(S, L, Stop(i, p, k), p[k]); }
      else { assert Lifts(S, L, Stop(End(i, p), q, k - |p|), q[k - |p|]); }
    }
  }

  function Stops(i: int, hops: seq<Hop>): seq<int> {
    seq(|hops| + 1, k requires 0 <= k <= |hops| => Stop(i, hops, k))
  }

  lemma FewStops(S: Setup, L: Leaves, i: int, hops: seq<Hop>)
    requires Chain(S, L, i, hops) && Distinct(Stops(i, hops))
    ensures |hops| < |L|
  {
    var stops := Stops(i, hops);
    forall x | x in ToSet(stops) ensures x in L.Keys {
      var k :| 0 <= k < |stops| && stops[k] == x;
      PartOfChain(S, L, i, hops, k, k);
    }
    DistinctLength(stops);
    SubsetIsSmaller(ToSet(stops), L.Keys);
  }

  lemma {:induction false} SubsetIsSmaller(a: set<int>, b: set<int>)
    requires a <= b
    ensures |a| <= |b|
  {
    if a != {} {
      var x := Pick(a);
      SubsetIsSmaller(a - {x}, b - {x});
    }
  }

  // Without a rising ring, cutting the rings out of a chain loses nothing; what is left has few hops.
  lemma {:induction false} ShortChain(S: Setup, L: Leaves, j: int, hops: seq<Hop>) returns (short: seq<Hop>)
    requires Chain(S, L, j, hops) && NoRisingRing(S, L, j)
    ensures Chain(S, L, j, short) && End(j, short) == End(j, hops)
    ensures Lags(short) >= Lags(hops) && |short| < |L|
    decreases |hops|
  {
    hide Chain, NoRisingRing;
    var stops := Stops(j, hops);
    if Distinct(stops) {
      short := hops;
      FewStops(S, L, j, hops);
    } else {
      var a, b :| 0 <= a < b < |stops| && stops[a] == stops[b];
      short := WithoutRing(S, L, j, hops, a, b);
      short := ShortChain(S, L, j, short);
    }
  }

  lemma WithoutRing(S: Setup, L: Leaves, j: int, hops: seq<Hop>, a: nat, b: nat) returns (cut: seq<Hop>)
    requires Chain(S, L, j, hops) && NoRisingRing(S, L, j)
    requires a < b <= |hops| && Stop(j, hops, a) == Stop(j, hops, b)
    ensures Chain(S, L, j, cut) && End(j, cut) == End(j, hops) && Lags(cut) >= Lags(hops) && |cut| < |hops|
  {
    hide Chain;
    var head, ring, tail := hops[0..a], hops[a..b], hops[b..|hops|];
    PartOfChain(S, L, j, hops, 0, a);
    PartOfChain(S, L, j, hops, a, b);
    PartOfChain(S, L, j, hops, b, |hops|);
    JoinChains(S, L, j, head, tail);
    LagsOfParts(hops, a, b);
    LagsAdd(head, tail);
    cut := head + tail;
  }

  lemma LagsOfParts(hops: seq<Hop>, a: nat, b: nat)
    requires a <= b <= |hops|
    ensures Lags(hops) == Lags(hops[0..a]) + Lags(hops[a..b]) + Lags(hops[b..|hops|])
  {
    hide Lags;
    LagsAdd(hops[0..a], hops[a..b]);
    LagsAdd(hops[0..a] + hops[a..b], hops[b..|hops|]);
    assert hops[0..a] + hops[a..b] == hops[0..b];
    assert hops[0..b] + hops[b..|hops|] == hops;
  }

  // ---- what every solution has to meet -----------------------------------------------------------

  lemma SameFinishKnown(S: Setup, node: int, L: Leaves, L': Leaves)
    requires Raised(L, L')
    ensures FinishKnown(S, node, L) <==> FinishKnown(S, node, L')
  {
  }

  lemma SameStartBase(S: Setup, c: Constraint, L: Leaves, L': Leaves, base: Day)
    requires Raised(L, L') && c.kind.SF?
    ensures IsBase(S, c, L, base) <==> IsBase(S, c, L', base)
  {
    hide BegunBefore;
    BegunIsTheSame(S, c.predecessor, L, L');
    if j :| j in S.Behind(c.predecessor) && j in L && L[j].start == Some(base) { assert j in L' && L'[j].start == Some(base); }
    if j :| j in S.Behind(c.predecessor) && j in L' && L'[j].start == Some(base) { assert j in L && L[j].start == Some(base); }
  }

  lemma OwnFloorHolds(S: Setup, L0: Leaves, G: Leaves, c: Constraint, d: Day, x: Day)
    requires Raised(L0, G) && OwnFloor(S, c, L0, d) && FloorMet(S, c, G, x)
    ensures d <= x
  {
    SameFinishKnown(S, c.predecessor, L0, G);
    if c.kind.SF? {
      hide IsBase, FloorMet;
      SameStartBase(S, c, L0, G, d - c.lag);
      FloorMetFromBase(S, c, G, d - c.lag, x);
    }
  }

  lemma SourceHolds(S: Setup, L0: Leaves, G: Leaves, e: int, d: Day)
    requires Raised(L0, G) && FloorsMet(S, G, e) && Source(S, L0, e, d)
    ensures e in G && G[e].finish.Some? && d <= G[e].finish.value
  {
    hide OwnFloor, FloorMet;
    if d != L0[e].finish.value {
      var c :| c in S.ConstraintsOn(e) && OwnFloor(S, c, L0, d);
      OwnFloorHolds(S, L0, G, c, d, G[e].finish.value);
    }
  }

  lemma HopHolds(S: Setup, L0: Leaves, G: Leaves, i: int, hop: Hop)
    requires Raised(L0, G) && FloorsMet(S, G, i) && Lifts(S, L0, i, hop) && i in L0 && L0[i].finish.Some?
    ensures hop.leaf in G && G[hop.leaf].finish.Some? && G[hop.leaf].finish.value + hop.lag <= G[i].finish.value
  {
    var c :| c in S.ConstraintsOn(i) && LiftsBy(S, L0, c, hop);
    SameFinishKnown(S, c.predecessor, L0, G);
    assert FloorMet(S, c, G, G[i].finish.value);
  }

  // No finishes that meet all floors are earlier than a chain demands, and none rise around a ring.
  lemma {:induction false} ChainHolds(S: Setup, L0: Leaves, G: Leaves, i: int, hops: seq<Hop>)
    requires Raised(L0, G) && AllFloorsMet(S, G) && Chain(S, L0, i, hops)
    ensures i in G && G[i].finish.Some? && End(i, hops) in G && G[End(i, hops)].finish.Some?
    ensures G[End(i, hops)].finish.value + Lags(hops) <= G[i].finish.value
    decreases |hops|
  {
    hide FloorsMet, Lifts;
    if hops != [] {
      FirstHop(S, L0, i, hops);
      assert FloorsMet(S, G, i);
      HopHolds(S, L0, G, i, hops[0]);
      ChainHolds(S, L0, G, hops[0].leaf, hops[1..]);
    }
  }

  lemma DemandHolds(S: Setup, L0: Leaves, G: Leaves, i: int, hops: seq<Hop>, d: Day)
    requires Raised(L0, G) && AllFloorsMet(S, G) && Demands(S, L0, i, hops, d)
    ensures i in G && G[i].finish.Some? && d + Lags(hops) <= G[i].finish.value
  {
    hide Source, FloorsMet;
    ChainHolds(S, L0, G, i, hops);
    assert FloorsMet(S, G, End(i, hops));
    SourceHolds(S, L0, G, End(i, hops), d);
  }

  lemma SolutionForbidsRisingRings(S: Setup, L0: Leaves, G: Leaves, j: int)
    requires Raised(L0, G) && AllFloorsMet(S, G)
    ensures NoRisingRing(S, L0, j)
  {
    hide Chain, AllFloorsMet, Raised;
    forall hops, ring | Chain(S, L0, j, hops) && Chain(S, L0, End(j, hops), ring) && End(End(j, hops), ring) == End(j, hops)
      ensures Lags(ring) <= 0
    {
      ChainHolds(S, L0, G, End(j, hops), ring);
    }
  }

  // ---- what raising keeps ------------------------------------------------------------------------

  // Some chain demands exactly this date.
  ghost predicate Attained(S: Setup, L0: Leaves, i: int, x: Day) {
    exists hops, d :: Demands(S, L0, i, hops, d) && x == d + Lags(hops)
  }

  // Nothing has been raised further than some chain demands.
  ghost predicate Justified(S: Setup, L0: Leaves, L: Leaves) {
    Raised(L0, L) && forall i :: i in L && L[i].finish.Some? ==> Attained(S, L0, i, L[i].finish.value)
  }

  // x is not before the date of any chain with fewer than n hops.
  ghost predicate Covers(S: Setup, L0: Leaves, i: int, n: nat, x: Day) {
    forall hops, d :: Demands(S, L0, i, hops, d) && |hops| < n ==> d + Lags(hops) <= x
  }

  ghost predicate LeafCovers(S: Setup, L0: Leaves, L: Leaves, i: int, n: nat) {
    i in L && L[i].finish.Some? ==> Covers(S, L0, i, n, L[i].finish.value)
  }

  ghost predicate AllCover(S: Setup, L0: Leaves, L: Leaves, n: nat) {
    forall i :: i in L ==> LeafCovers(S, L0, L, i, n)
  }

  // What the rounds leave behind: every finish is demanded by a chain, and met are all chains with fewer hops than
  // there are leaves.
  ghost predicate Lifted(S: Setup, L0: Leaves, R: Leaves) {
    Justified(S, L0, R) && AllCover(S, L0, R, |L0|)
  }

  lemma NothingRaisedYet(S: Setup, L: Leaves)
    ensures Justified(S, L, L) && AllCover(S, L, L, 0)
  {
    forall i | i in L && L[i].finish.Some? ensures Attained(S, L, i, L[i].finish.value) {
      assert Demands(S, L, i, [], L[i].finish.value);
    }
  }

  lemma CoversMore(S: Setup, L0: Leaves, L: Leaves, L': Leaves, i: int, n: nat)
    requires LeafCovers(S, L0, L, i, n) && Raised(L, L')
    ensures LeafCovers(S, L0, L', i, n)
  {
    hide Demands;
  }

  lemma AllCoverMore(S: Setup, L0: Leaves, L: Leaves, L': Leaves, n: nat)
    requires AllCover(S, L0, L, n) && Raised(L, L')
    ensures AllCover(S, L0, L', n)
  {
    hide LeafCovers, Raised;
    assert L'.Keys == L.Keys by { RaisedKeys(L, L'); }
    forall i | i in L' ensures LeafCovers(S, L0, L', i, n) { CoversMore(S, L0, L, L', i, n); }
  }

  lemma RaisedKeys(L: Leaves, L': Leaves)
    requires Raised(L, L')
    ensures L.Keys == L'.Keys
  {
  }

  // A floor rests on a source of its own or on a finish that is itself demanded.
  lemma FloorIsAttained(S: Setup, L0: Leaves, L: Leaves, i: int, c: Constraint, base: Day)
    requires Justified(S, L0, L) && i in L && L[i].finish.Some? && c in S.ConstraintsOn(i) && IsBase(S, c, L, base)
    ensures Attained(S, L0, i, base + c.lag)
  {
    hide Attained;
    SameFinishKnown(S, c.predecessor, L0, L);
    if c.kind.SF? {
      SameStartBase(S, c, L0, L, base);
      OwnFloorIsAttained(S, L0, i, c, base + c.lag);
    } else if base == S.today - 1 {
      OwnFloorIsAttained(S, L0, i, c, base + c.lag);
    } else {
      var j :| j in S.Behind(c.predecessor) && j in L && L[j].finish == Some(base);
      assert LiftsBy(S, L0, c, Hop(c.lag, j));
      HopIsAttained(S, L0, i, Hop(c.lag, j), base);
    }
  }

  lemma OwnFloorIsAttained(S: Setup, L0: Leaves, i: int, c: Constraint, d: Day)
    requires i in L0 && L0[i].finish.Some? && c in S.ConstraintsOn(i) && OwnFloor(S, c, L0, d)
    ensures Attained(S, L0, i, d)
  {
    hide OwnFloor, Demands;
    OwnFloorDemands(S, L0, i, c, d);
    assert Lags([]) == 0;
  }

  lemma OwnFloorDemands(S: Setup, L0: Leaves, i: int, c: Constraint, d: Day)
    requires i in L0 && L0[i].finish.Some? && c in S.ConstraintsOn(i) && OwnFloor(S, c, L0, d)
    ensures Demands(S, L0, i, [], d)
  {
    hide OwnFloor;
  }

  lemma HopIsAttained(S: Setup, L0: Leaves, i: int, hop: Hop, x: Day)
    requires i in L0 && L0[i].finish.Some? && Lifts(S, L0, i, hop) && Attained(S, L0, hop.leaf, x)
    ensures Attained(S, L0, i, x + hop.lag)
  {
    hide Lifts, Chain, Source;
    var hops, d :| Demands(S, L0, hop.leaf, hops, d) && x == d + Lags(hops);
    AddHop(S, L0, i, hop, hops);
    assert Demands(S, L0, i, [hop] + hops, d);
  }

  lemma RaiseKeepsJustified(S: Setup, L0: Leaves, L: Leaves, i: int, c: Constraint, base: Day)
    requires Justified(S, L0, L) && i in L && L[i].finish.Some? && c in S.ConstraintsOn(i) && IsBase(S, c, L, base)
    ensures Justified(S, L0, RaiseTo(L, i, base + c.lag)) && Raised(L, RaiseTo(L, i, base + c.lag))
  {
    hide Attained, IsBase;
    FloorIsAttained(S, L0, L, i, c, base);
    RaiseToRaises(L, i, base + c.lag);
    RaisedTransitively(L0, L, RaiseTo(L, i, base + c.lag));
  }

  // x is not before what c carries to a leaf in at most n hops.
  ghost predicate CoversVia(S: Setup, L0: Leaves, c: Constraint, n: nat, x: Day) {
    && (forall d :: OwnFloor(S, c, L0, d) ==> d <= x)
    && (forall hop, hops, d :: LiftsBy(S, L0, c, hop) && Demands(S, L0, hop.leaf, hops, d) && |hops| < n ==>
          hop.lag + Lags(hops) + d <= x)
  }

  lemma MetFloorCovers(S: Setup, L0: Leaves, L: Leaves, c: Constraint, n: nat, x: Day)
    requires Raised(L0, L) && AllCover(S, L0, L, n) && FloorMet(S, c, L, x)
    ensures CoversVia(S, L0, c, n, x)
  {
    hide Demands, OwnFloor;
    forall d | OwnFloor(S, c, L0, d) ensures d <= x { OwnFloorHolds(S, L0, L, c, d, x); }
    SameFinishKnown(S, c.predecessor, L0, L);
    forall hop, hops, d | LiftsBy(S, L0, c, hop) && Demands(S, L0, hop.leaf, hops, d) && |hops| < n
      ensures hop.lag + Lags(hops) + d <= x
    {
      assert LeafCovers(S, L0, L, hop.leaf, n);
    }
  }

  lemma CoversViaLater(S: Setup, L0: Leaves, c: Constraint, n: nat, x: Day, y: Day)
    requires CoversVia(S, L0, c, n, x) && x <= y
    ensures CoversVia(S, L0, c, n, y)
  {
    hide OwnFloor, LiftsBy, Demands;
  }

  // A leaf that meets all its floors covers chains with one hop more.
  lemma AllViaCover(S: Setup, L0: Leaves, i: int, n: nat, x: Day)
    requires i in L0 && L0[i].finish.Some? && L0[i].finish.value <= x
    requires forall c :: c in S.ConstraintsOn(i) ==> CoversVia(S, L0, c, n, x)
    ensures Covers(S, L0, i, n + 1, x)
  {
    hide OwnFloor, LiftsBy, Chain, CoversVia;
    forall hops, d | Demands(S, L0, i, hops, d) && |hops| < n + 1 ensures d + Lags(hops) <= x {
      if hops == [] {
        if d != L0[i].finish.value {
          var c :| c in S.ConstraintsOn(i) && OwnFloor(S, c, L0, d);
          ViaSource(S, L0, c, n, x, d);
        }
      } else {
        FirstHop(S, L0, i, hops);
        var c :| c in S.ConstraintsOn(i) && LiftsBy(S, L0, c, hops[0]);
        ViaHop(S, L0, c, n, x, hops[0], hops[1..], d);
      }
    }
  }

  lemma ViaSource(S: Setup, L0: Leaves, c: Constraint, n: nat, x: Day, d: Day)
    requires CoversVia(S, L0, c, n, x) && OwnFloor(S, c, L0, d)
    ensures d <= x
  {
  }

  lemma ViaHop(S: Setup, L0: Leaves, c: Constraint, n: nat, x: Day, hop: Hop, hops: seq<Hop>, d: Day)
    requires CoversVia(S, L0, c, n, x) && LiftsBy(S, L0, c, hop) && Demands(S, L0, hop.leaf, hops, d) && |hops| < n
    ensures hop.lag + Lags(hops) + d <= x
  {
    hide Demands;
  }

  // When a round changes nothing, everything is covered.
  lemma MetIsLifted(S: Setup, L0: Leaves, R: Leaves)
    requires Justified(S, L0, R) && AllFloorsMet(S, R)
    ensures Lifted(S, L0, R)
  {
    hide Demands, AllFloorsMet, Attained;
    forall i, hops, d | i in R && R[i].finish.Some? && Demands(S, L0, i, hops, d) && |hops| < |L0|
      ensures d + Lags(hops) <= R[i].finish.value
    {
      DemandHolds(S, L0, R, i, hops, d);
    }
  }

  // ---- what the rounds find ------------------------------------------------------------------------

  // Whatever rings there are: a finish is not after x if nothing is demanded after x, and only if no chain with fewer hops
  // than there are leaves demands more.
  lemma DemandsBoundFinish(S: Setup, L0: Leaves, R: Leaves, j: int, x: Day)
    requires Lifted(S, L0, R) && j in R && R[j].finish.Some?
    ensures NothingDemandedAfter(S, L0, j, x) ==> R[j].finish.value <= x
    ensures R[j].finish.value <= x ==> Covers(S, L0, j, |L0|, x)
  {
    hide Demands, Raised;
    assert LeafCovers(S, L0, R, j, |L0|);
    assert Attained(S, L0, j, R[j].finish.value);
    var hops, d :| Demands(S, L0, j, hops, d) && R[j].finish.value == d + Lags(hops);
  }

  lemma ShortDemandsSuffice(S: Setup, L0: Leaves, j: int, x: Day)
    requires NoRisingRing(S, L0, j)
    ensures Covers(S, L0, j, |L0|, x) <==> NothingDemandedAfter(S, L0, j, x)
  {
    hide Demands, NoRisingRing;
    if Covers(S, L0, j, |L0|, x) {
      forall hops, d | Demands(S, L0, j, hops, d) ensures d + Lags(hops) <= x {
        var short := ShortDemand(S, L0, j, hops, d);
      }
    }
  }

  function Times(ring: seq<Hop>, n: nat): seq<Hop> {
    if n == 0 then [] else ring + Times(ring, n - 1)
  }

  lemma {:induction false} AroundTheRing(S: Setup, L: Leaves, e: int, ring: seq<Hop>, n: nat)
    requires Chain(S, L, e, ring) && End(e, ring) == e && Lags(ring) > 0
    ensures Chain(S, L, e, Times(ring, n)) && End(e, Times(ring, n)) == e && Lags(Times(ring, n)) >= n
  {
    hide Lifts;
    if n > 0 {
      AroundTheRing(S, L, e, ring, n - 1);
      JoinChains(S, L, e, ring, Times(ring, n - 1));
      LagsAdd(ring, Times(ring, n - 1));
    }
  }

  // A rising ring demands any date at all of the leaves that reach it.
  lemma RisingRingDemands(S: Setup, L: Leaves, j: int, hops: seq<Hop>, ring: seq<Hop>, x: Day)
    returns (longer: seq<Hop>, d: Day)
    requires Chain(S, L, j, hops) && Chain(S, L, End(j, hops), ring) && End(End(j, hops), ring) == End(j, hops)
    requires Lags(ring) > 0
    ensures Demands(S, L, j, longer, d) && d + Lags(longer) > x
  {
    hide Chain, Source;
    d := ChainEndsAtSource(S, L, j, hops);
    var n := if x < d + Lags(hops) then 0 else x - d - Lags(hops) + 1;
    AroundTheRing(S, L, End(j, hops), ring, n);
    longer := hops + Times(ring, n);
    JoinChains(S, L, j, hops, Times(ring, n));
    LagsAdd(hops, Times(ring, n));
  }

  lemma BoundedDemandsForbidRisingRings(S: Setup, L: Leaves, j: int, x: Day)
    requires NothingDemandedAfter(S, L, j, x)
    ensures NoRisingRing(S, L, j)
  {
    hide Chain, Demands;
    forall hops, ring | Chain(S, L, j, hops) && Chain(S, L, End(j, hops), ring) && End(End(j, hops), ring) == End(j, hops)
      ensures Lags(ring) <= 0
    {
      if Lags(ring) > 0 {
        var longer, d := RisingRingDemands(S, L, j, hops, ring, x);
        assert false;
      }
    }
  }

  lemma ChainEndsAtSource(S: Setup, L: Leaves, j: int, hops: seq<Hop>) returns (d: Day)
    requires Chain(S, L, j, hops)
    ensures Source(S, L, End(j, hops), d)
  {
    StopHasFinish(S, L, j, hops, |hops|);
    d := L[End(j, hops)].finish.value;
  }

  /** The finish of a leaf after raising: not after x exactly if no chain to it demands a later date. Chains are read off
      the leaves before raising; nothing needs to be known but that no rising ring is reached from the leaf. */
  lemma FinishIsLatestDemand(S: Setup, L0: Leaves, R: Leaves, j: int, x: Day)
    requires Lifted(S, L0, R) && j in R && R[j].finish.Some? && NoRisingRing(S, L0, j)
    ensures R[j].finish.value <= x <==> NothingDemandedAfter(S, L0, j, x)
  {
    hide Lifted, NoRisingRing, NothingDemandedAfter, Covers;
    DemandsBoundFinish(S, L0, R, j, x);
    ShortDemandsSuffice(S, L0, j, x);
  }

  lemma ShortDemand(S: Setup, L0: Leaves, j: int, hops: seq<Hop>, d: Day) returns (short: seq<Hop>)
    requires Demands(S, L0, j, hops, d) && NoRisingRing(S, L0, j)
    ensures Demands(S, L0, j, short, d) && Lags(short) >= Lags(hops) && |short| < |L0|
  {
    hide Chain, Source, NoRisingRing;
    short := ShortChain(S, L0, j, hops);
  }

  // A leaf without floors keeps the finish the days gave it.
  lemma FloorlessKeepsFinish(S: Setup, L0: Leaves, R: Leaves, i: int)
    requires Justified(S, L0, R) && i in R && Floorless(S, i)
    ensures R[i] == L0[i]
  {
    if R[i].finish.Some? {
      var hops, d :| Demands(S, L0, i, hops, d) && R[i].finish.value == d + Lags(hops);
      if hops != [] {
        FirstHop(S, L0, i, hops);
        assert false;
      }
    }
  }

  // Whatever the rings do, no finish is later than every solution has it.
  lemma JustifiedIsBelow(S: Setup, L0: Leaves, R: Leaves)
    requires Justified(S, L0, R)
    ensures BelowSolutions(S, L0, R)
  {
    hide Demands, AllFloorsMet;
    forall G: Leaves | Raised(L0, G) && AllFloorsMet(S, G) ensures Raised(R, G) {
      forall i | i in R && R[i].finish.Some? ensures R[i].finish.value <= G[i].finish.value {
        assert Attained(S, L0, i, R[i].finish.value);
        var hops, d :| Demands(S, L0, i, hops, d) && R[i].finish.value == d + Lags(hops);
        DemandHolds(S, L0, G, i, hops, d);
      }
    }
  }

  // ---- when the rounds meet all floors -----------------------------------------------------------------

  lemma {:induction false} SmallestOf(s: set<int>) returns (least: int)
    requires s != {}
    ensures least in s && forall x :: x in s ==> least <= x
  {
    least := Pick(s);
    var rest := s - {least};
    if rest != {} {
      var other := SmallestOf(rest);
      if other < least { least := other; }
    }
    forall x | x in s ensures least <= x { assert x in rest || x !in rest; }
  }

  lemma StartBase(S: Setup, c: Constraint, L: Leaves) returns (base: Day)
    requires c.kind.SF? && StartKnown(S, c.predecessor, L)
    ensures IsBase(S, c, L, base)
  {
    hide BegunBefore;
    if BegunBefore(S, c.predecessor, L) {
      base := S.today - 1;
    } else {
      var starts := set j | j in S.Behind(c.predecessor) && j in L && L[j].start.Some? :: L[j].start.value;
      var j :| j in S.Behind(c.predecessor) && j in L && L[j].start.Some?;
      assert L[j].start.value in starts;
      base := SmallestOf(starts);
      forall k | k in S.Behind(c.predecessor) && k in L && L[k].start.Some? ensures base <= L[k].start.value {
        assert L[k].start.value in starts;
      }
    }
  }

  lemma OwnFloorIsCovered(S: Setup, L0: Leaves, R: Leaves, i: int, c: Constraint, d: Day)
    requires Lifted(S, L0, R) && i in R && R[i].finish.Some? && c in S.ConstraintsOn(i) && OwnFloor(S, c, L0, d)
    ensures d <= R[i].finish.value
  {
    hide OwnFloor, Attained, Demands;
    assert i in L0 && L0[i].finish.Some?;
    OwnFloorDemands(S, L0, i, c, d);
    assert LeafCovers(S, L0, R, i, |L0|);
  }

  lemma HopIsCovered(S: Setup, L0: Leaves, R: Leaves, i: int, hop: Hop)
    requires Lifted(S, L0, R) && i in R && R[i].finish.Some? && Lifts(S, L0, i, hop) && NoRisingRing(S, L0, i)
    requires hop.leaf in R && R[hop.leaf].finish.Some?
    ensures R[hop.leaf].finish.value + hop.lag <= R[i].finish.value
  {
    hide Demands, NoRisingRing, Lifts;
    assert Attained(S, L0, hop.leaf, R[hop.leaf].finish.value);
    HopIsAttained(S, L0, i, hop, R[hop.leaf].finish.value);
    var hops, d :| Demands(S, L0, i, hops, d) && R[hop.leaf].finish.value + hop.lag == d + Lags(hops);
    FinishIsLatestDemand(S, L0, R, i, R[i].finish.value);
  }

  // A leaf from which no rising ring is reached meets all its floors.
  lemma LiftedMeetsFloors(S: Setup, L0: Leaves, R: Leaves, i: int)
    requires Lifted(S, L0, R) && i in R && NoRisingRing(S, L0, i)
    ensures FloorsMet(S, R, i)
  {
    hide Attained, LeafCovers, Lifted, NoRisingRing, BegunBefore;
    assert Raised(L0, R) by { LiftedRaises(S, L0, R); }
    if R[i].finish.Some? {
      forall c | c in S.ConstraintsOn(i) ensures FloorMet(S, c, R, R[i].finish.value) {
        SameFinishKnown(S, c.predecessor, L0, R);
        if c.kind.FF? && FinishKnown(S, c.predecessor, R) {
          OwnFloorIsCovered(S, L0, R, i, c, S.today - 1 + c.lag);
          forall j | j in S.Behind(c.predecessor) && j in R ensures R[j].finish.value + c.lag <= R[i].finish.value {
            assert LiftsBy(S, L0, c, Hop(c.lag, j));
            HopIsCovered(S, L0, R, i, Hop(c.lag, j));
          }
        } else if c.kind.SF? && StartKnown(S, c.predecessor, R) {
          var base := StartBase(S, c, R);
          SameStartBase(S, c, L0, R, base);
          OwnFloorIsCovered(S, L0, R, i, c, base + c.lag);
          FloorMetFromBase(S, c, R, base, R[i].finish.value);
        }
      }
    }
  }

  lemma LiftedRaises(S: Setup, L0: Leaves, R: Leaves)
    requires Lifted(S, L0, R)
    ensures Raised(L0, R) && Justified(S, L0, R)
  {
  }

  ghost predicate Solvable(S: Setup, L0: Leaves) {
    exists G: Leaves :: Raised(L0, G) && AllFloorsMet(S, G)
  }

  /** The rounds meet all floors exactly if any finishes do, and that is exactly if no ring of finish-to-finish
      dependencies comes back with a later date; what they find then is the least solution. */
  lemma FloorsAreMetExactly(S: Setup, L0: Leaves, R: Leaves)
    requires Lifted(S, L0, R)
    ensures AllFloorsMet(S, R) <==> Solvable(S, L0)
    ensures Solvable(S, L0) <==> NoRingRises(S, L0)
    ensures Solvable(S, L0) ==> LeastSolution(S, L0, R)
  {
    hide NoRisingRing, Lifted, FloorsMet, Raised, BelowSolutions;
    LiftedRaises(S, L0, R);
    RaisedKeys(L0, R);
    JustifiedIsBelow(S, L0, R);
    if Solvable(S, L0) {
      var G :| Raised(L0, G) && AllFloorsMet(S, G);
      forall j | j in L0 ensures NoRisingRing(S, L0, j) { SolutionForbidsRisingRings(S, L0, G, j); }
    }
    if NoRingRises(S, L0) {
      forall i | i in R ensures FloorsMet(S, R, i) { LiftedMeetsFloors(S, L0, R, i); }
    }
  }
}
