/** What the completion forecaster does, as functions on values: one hand-out, one pass over the seats,
    one day, and any number of days. The class in CompletionForecaster.dfy is proved to compute these. */
module ForecastModel {
  import opened Basics
  import opened WorkSeats
  import opened TaskBoard

  datatype DependencyType = FS | SS | FF | SF

  datatype Constraint = Constraint(predecessor: int, kind: DependencyType, lag: int)

  // The percentage a task is entitled to every day; 0 for one that queues for what is left over.
  function ShareOf(task: Task): int {
    if task.allocationPercent.Some? then task.allocationPercent.value else 0
  }

  // What does not change about a leaf during a forecast.
  datatype LeafInfo = LeafInfo(task: Task, seat: SeatKey, initial: real, startedBefore: bool)

  // What does.
  datatype LeafState = LeafState(remaining: real, start: Option<Day>, finish: Option<Day>)

  type Leaves = map<int, LeafState>

  // constraints[i] is what leaf i depends on, behind[p] the leaves a dependency on task p speaks of.
  // hours(key, day) are the hours the seat has on a day, works(i, day) says whether leaf i's calendar lets it
  // be worked on.
  datatype SetupData = SetupData(today: Day, eps: real, info: map<int, LeafInfo>,
                                 constraints: map<int, set<Constraint>>, behind: map<int, set<int>>, seats: set<SeatKey>,
                                 hours: (SeatKey, Day) -> real, works: (int, Day) -> bool)
  {
    ghost predicate Valid() {
      && eps >= 0.0
      && (forall key, day :: hours(key, day) >= 0.0)
      && (forall i :: i in info ==>
            && info[i].task.id == i
            && info[i].seat in seats
            && info[i].initial > eps
            && (info[i].task.allocationPercent.Some? ==> 1 <= info[i].task.allocationPercent.value <= 100))
    }

    function ConstraintsOn(i: int): set<Constraint> {
      if i in constraints then constraints[i] else {}
    }

    function Behind(p: int): set<int> {
      if p in behind then behind[p] else {}
    }

    function Share(i: int): int
      requires i in info
    {
      ShareOf(info[i].task)
    }
  }

  type Setup = s: SetupData | s.Valid() witness 
    SetupData(0, 0.0, map[], map[], map[], {}, (key, day) => 0.0, (i, day) => false)

  // ---- when a leaf may be worked on --------------------------------------------------

  // Every leaf behind `node` that is still being forecast has a finish.
  ghost predicate FinishKnown(S: Setup, node: int, L: Leaves) {
    forall j :: j in S.Behind(node) && j in L ==> L[j].finish.Some?
  }

  // x is not before the finish of `node`, which counts as yesterday when all of it is already done.
  ghost predicate NotBeforeFinish(S: Setup, node: int, L: Leaves, x: Day) {
    && S.today - 1 <= x
    && forall j :: j in S.Behind(node) && j in L ==> L[j].finish.Some? && L[j].finish.value <= x
  }

  // Part of `node` was under way, or over, before today.
  ghost predicate BegunBefore(S: Setup, node: int, L: Leaves) {
    exists j :: j in S.Behind(node) && (j !in L || j !in S.info || S.info[j].startedBefore)
  }

  lemma BegunIsTheSame(S: Setup, node: int, L: Leaves, L': Leaves)
    requires L.Keys == L'.Keys
    ensures BegunBefore(S, node, L) <==> BegunBefore(S, node, L')
  {
  }

  ghost predicate StartKnown(S: Setup, node: int, L: Leaves) {
    BegunBefore(S, node, L) || exists j :: j in S.Behind(node) && j in L && L[j].start.Some?
  }

  // x is not before the start of `node`, which counts as yesterday when part of it has begun already.
  ghost predicate NotBeforeStart(S: Setup, node: int, L: Leaves, x: Day) {
    if BegunBefore(S, node, L) then S.today - 1 <= x
    else exists j :: j in S.Behind(node) && j in L && L[j].start.Some? && L[j].start.value <= x
  }

  // FF and SF never hold a start back.
  ghost predicate Satisfied(S: Setup, c: Constraint, day: Day, L: Leaves) {
    match c.kind
    case FS => NotBeforeFinish(S, c.predecessor, L, day - 1 - c.lag)
    case SS => NotBeforeStart(S, c.predecessor, L, day - c.lag)
    case FF => true
    case SF => true
  }

  ghost predicate AllSatisfied(S: Setup, i: int, day: Day, L: Leaves) {
    forall c :: c in S.ConstraintsOn(i) ==> Satisfied(S, c, day, L)
  }

  predicate PlannedToStart(S: Setup, i: int, day: Day)
    requires i in S.info
  {
    S.info[i].task.startDate.None? || S.info[i].task.startDate.value <= day
  }

  ghost predicate Eligible(S: Setup, i: int, day: Day, L: Leaves, given: set<int>) {
    && i in S.info && i in L
    && L[i].finish.None? && i !in given
    && S.works(i, day)
    && PlannedToStart(S, i, day)
    && AllSatisfied(S, i, day, L)
  }

  // ---- one hand-out ------------------------------------------------------------------

  // Work a leaf for up to `hours`; a remainder within eps counts as nothing left.
  function Work(eps: real, s: LeafState, hours: real, day: Day): (LeafState, real) {
    var used := Min(Max(hours, 0.0), s.remaining);
    if used <= eps then (s, 0.0)
    else
      var start := if s.start.None? then Some(day) else s.start;
      var rest := s.remaining - used;
      (if rest <= eps then LeafState(0.0, start, Some(day)) else LeafState(rest, start, s.finish), used)
  }

  // Within a day: the leaves, the hours each seat has left, and what each leaf served today was given.
  datatype DayState = DayState(leaves: Leaves, left: map<SeatKey, real>, given: map<int, real>)
  {
    function Left(key: SeatKey): real {
      if key in left then left[key] else 0.0
    }
  }

  function Give(eps: real, day: Day, ds: DayState, key: SeatKey, i: int, hours: real): DayState
    requires i in ds.leaves
  {
    var (state, used) := Work(eps, ds.leaves[i], hours, day);
    DayState(ds.leaves[i := state], ds.left[key := ds.Left(key) - used], ds.given[i := used])
  }

  datatype SeatQueue = SeatQueue(key: SeatKey, queue: seq<int>)

  ghost function ReadyList(S: Setup, queue: seq<int>, day: Day, L: Leaves, given: set<int>): (r: seq<int>)
    ensures forall i :: i in r <==> i in queue && Eligible(S, i, day, L, given)
    ensures Distinct(queue) ==> Distinct(r)
  {
    if queue == [] then []
    else
      var rest := ReadyList(S, queue[1..], day, L, given);
      if Eligible(S, queue[0], day, L, given) then [queue[0]] + rest else rest
  }

  function Shared(S: Setup, ids: seq<int>): (r: seq<int>)
    requires forall i :: i in ids ==> i in S.info
    ensures forall i :: i in r <==> i in ids && S.Share(i) > 0
    ensures Distinct(ids) ==> Distinct(r)
  {
    if ids == [] then []
    else (if S.Share(ids[0]) > 0 then [ids[0]] else []) + Shared(S, ids[1..])
  }

  function Unshared(S: Setup, ids: seq<int>): (r: seq<int>)
    requires forall i :: i in ids ==> i in S.info
    ensures forall i :: i in r <==> i in ids && S.Share(i) <= 0
    ensures Distinct(ids) ==> Distinct(r)
  {
    if ids == [] then []
    else (if S.Share(ids[0]) > 0 then [] else [ids[0]]) + Unshared(S, ids[1..])
  }

  function TotalPercent(S: Setup, ids: seq<int>): (r: int)
    requires forall i :: i in ids ==> i in S.info
    ensures r >= 0
  {
    if ids == [] then 0 else S.Share(ids[0]) + TotalPercent(S, ids[1..])
  }

  // Shares that add up to more than the whole are scaled down together.
  function Scale(total: int): (r: real)
    requires total >= 0
    ensures 0.0 <= r <= 1.0
  {
    if total == 0 then 1.0 else Min(1.0, 100.0 / total as real)
  }

  function Portion(hours: real, percent: int, scale: real): real {
    hours * (percent as real / 100.0) * scale
  }

  // A leaf's cut of the day's hours.
  function Cut(S: Setup, key: SeatKey, i: int, day: Day, scale: real): real
    requires i in S.info && key in S.seats
  {
    Portion(S.hours(key, day), S.Share(i), scale)
  }

  // A shared leaf gets its cut, any other whatever is left.
  function ServeOne(S: Setup, key: SeatKey, i: int, scale: real, day: Day, ds: DayState): (r: DayState)
    requires key in S.seats && i in S.info && i in ds.leaves
    ensures r.leaves.Keys == ds.leaves.Keys && ds.given.Keys <= r.given.Keys
  {
    if S.Share(i) > 0 then Give(S.eps, day, ds, key, i, Min(Cut(S, key, i, day, scale), ds.Left(key)))
    else if ds.Left(key) <= S.eps then ds
    else Give(S.eps, day, ds, key, i, ds.Left(key))
  }

  function Serve(S: Setup, key: SeatKey, ids: seq<int>, scale: real, day: Day, ds: DayState): (r: DayState)
    requires key in S.seats
    requires forall i :: i in ids ==> i in S.info && i in ds.leaves
    ensures r.leaves.Keys == ds.leaves.Keys && ds.given.Keys <= r.given.Keys
  {
    if ids == [] then ds else Serve(S, key, ids[1..], scale, day, ServeOne(S, key, ids[0], scale, day, ds))
  }

  lemma ServingNobody(S: Setup, key: SeatKey, scale: real, day: Day, ds: DayState)
    requires key in S.seats
    ensures Serve(S, key, [], scale, day, ds) == ds
  {
  }

  // Shared leaves first, then the others in queue order.
  function Line(S: Setup, ready: seq<int>): (r: seq<int>)
    requires forall i :: i in ready ==> i in S.info
    ensures forall i :: i in r <==> i in ready
    ensures Distinct(ready) ==> Distinct(r)
  {
    var shared, others := Shared(S, ready), Unshared(S, ready);
    assert Distinct(ready) ==> Distinct(shared + others) by {
      if Distinct(ready) {
        forall x | x in shared ensures x !in others { assert S.Share(x) > 0; }
        ConcatDistinct(shared, others);
      }
    }
    shared + others
  }

  function DayScale(S: Setup, ready: seq<int>): (r: real)
    requires forall i :: i in ready ==> i in S.info
    ensures 0.0 <= r <= 1.0
  {
    Scale(TotalPercent(S, Shared(S, ready)))
  }

  function HandOut(S: Setup, key: SeatKey, ready: seq<int>, day: Day, ds: DayState): (r: DayState)
    requires key in S.seats
    requires forall i :: i in ready ==> i in S.info && i in ds.leaves
    ensures r.leaves.Keys == ds.leaves.Keys && ds.given.Keys <= r.given.Keys
  {
    Serve(S, key, Line(S, ready), DayScale(S, ready), day, ds)
  }

  // ---- one pass, one day, many days ----------------------------------------------------

  ghost function ReadyAt(S: Setup, sq: SeatQueue, day: Day, ds: DayState): seq<int> {
    ReadyList(S, sq.queue, day, ds.leaves, ds.given.Keys)
  }

  // The seat still has hours today and a leaf to spend them on.
  ghost predicate CanServe(S: Setup, sq: SeatQueue, day: Day, ds: DayState) {
    sq.key in S.seats && ds.Left(sq.key) > S.eps && ReadyAt(S, sq, day, ds) != []
  }

  ghost function Visit(S: Setup, sq: SeatQueue, day: Day, ds: DayState): (r: DayState)
    ensures r.leaves.Keys == ds.leaves.Keys
  {
    if CanServe(S, sq, day, ds) then HandOut(S, sq.key, ReadyAt(S, sq, day, ds), day, ds) else ds
  }

  // One round over the seats, and whether any of them handed out hours.
  ghost function Pass(S: Setup, queues: seq<SeatQueue>, day: Day, ds: DayState): (r: (DayState, bool))
    ensures r.0.leaves.Keys == ds.leaves.Keys
  {
    if queues == [] then (ds, false)
    else
      var (after, progressed) := Pass(S, queues[1..], day, Visit(S, queues[0], day, ds));
      (after, progressed || CanServe(S, queues[0], day, ds))
  }

  ghost function Unserved(S: Setup, ds: DayState): set<int> {
    S.info.Keys - ds.given.Keys
  }

  lemma EligibleIsUnserved(S: Setup, i: int, day: Day, ds: DayState)
    requires Eligible(S, i, day, ds.leaves, ds.given.Keys)
    ensures i in S.info && i in ds.leaves && i !in ds.given
  {
  }

  // The first leaf in line is always served, so a seat that can serve someone does.
  lemma VisitServes(S: Setup, sq: SeatQueue, day: Day, ds: DayState)
    ensures ds.given.Keys <= Visit(S, sq, day, ds).given.Keys
    ensures CanServe(S, sq, day, ds) ==> Unserved(S, Visit(S, sq, day, ds)) < Unserved(S, ds)
  {
    if CanServe(S, sq, day, ds) {
      hide Eligible, Shared, Unshared, Work, Cut, DayScale;
      var ready := ReadyAt(S, sq, day, ds);
      assert ready[0] in ready;
      var i := Line(S, ready)[0];
      assert i in Line(S, ready) && Eligible(S, i, day, ds.leaves, ds.given.Keys);
      assert i in S.info && i !in ds.given by { EligibleIsUnserved(S, i, day, ds); }
      assert i in ServeOne(S, sq.key, i, DayScale(S, ready), day, ds).given;
      assert i in Unserved(S, ds);
    }
  }

  lemma {:induction false} PassServes(S: Setup, queues: seq<SeatQueue>, day: Day, ds: DayState)
    ensures ds.given.Keys <= Pass(S, queues, day, ds).0.given.Keys
    ensures Pass(S, queues, day, ds).1 ==> Unserved(S, Pass(S, queues, day, ds).0) < Unserved(S, ds)
  {
    if queues != [] {
      VisitServes(S, queues[0], day, ds);
      PassServes(S, queues[1..], day, Visit(S, queues[0], day, ds));
    }
  }

  // Rounds until a round hands nothing out. Every other round serves a leaf for the first time today.
  ghost function Rounds(S: Setup, queues: seq<SeatQueue>, day: Day, ds: DayState): (r: DayState)
    ensures r.leaves.Keys == ds.leaves.Keys
    decreases Unserved(S, ds)
  {
    var (after, progressed) := Pass(S, queues, day, ds);
    PassServes(S, queues, day, ds);
    if progressed then Rounds(S, queues, day, after) else after
  }

  function Morning(S: Setup, day: Day, L: Leaves): DayState {
    DayState(L, map key | key in S.seats :: S.hours(key, day), map[])
  }

  ghost function RunDay(S: Setup, queues: seq<SeatQueue>, day: Day, L: Leaves): DayState {
    Rounds(S, queues, day, Morning(S, day, L))
  }

  function Initial(S: Setup): Leaves {
    map i | i in S.info :: LeafState(S.info[i].initial, None, None)
  }

  // The leaves after the first n days, today being the first.
  ghost function After(S: Setup, queues: seq<SeatQueue>, n: nat): (r: Leaves)
    ensures r.Keys == S.info.Keys
  {
    if n == 0 then Initial(S) else RunDay(S, queues, S.today + n - 1, After(S, queues, n - 1)).leaves
  }

  // Hours given to each leaf on the (n+1)-st day.
  ghost function Given(S: Setup, queues: seq<SeatQueue>, n: nat): map<int, real> {
    RunDay(S, queues, S.today + n, After(S, queues, n)).given
  }

  lemma AfterNextDay(S: Setup, queues: seq<SeatQueue>, m: nat)
    ensures After(S, queues, m + 1) == RunDay(S, queues, S.today + m, After(S, queues, m)).leaves
    ensures Given(S, queues, m) == RunDay(S, queues, S.today + m, After(S, queues, m)).given
  {
    assert S.today + (m + 1) - 1 == S.today + m;
  }

  // ---- the queues ----------------------------------------------------------------------

  function OrLast(d: Option<Day>): Day {
    if d.Some? then d.value else LAST_DATE
  }

  // Due date, then priority (higher first), then planned start, then number.
  predicate Before(a: Task, b: Task) {
    if OrLast(a.dueDate) != OrLast(b.dueDate) then OrLast(a.dueDate) < OrLast(b.dueDate)
    else if a.priority != b.priority then a.priority > b.priority
    else if OrLast(a.startDate) != OrLast(b.startDate) then OrLast(a.startDate) < OrLast(b.startDate)
    else a.id < b.id
  }

  ghost predicate InOrder(S: Setup, queue: seq<int>) {
    && (forall k :: 0 <= k < |queue| ==> queue[k] in S.info)
    && (forall j, k :: 0 <= j < k < |queue| ==> Before(S.info[queue[j]].task, S.info[queue[k]].task))
  }

  // One queue for every seat with a leaf, each holding exactly that seat's leaves in order; the seats
  // themselves may come in any order.
  ghost predicate ValidQueues(S: Setup, queues: seq<SeatQueue>) {
    && (forall a, b :: 0 <= a < b < |queues| ==> queues[a].key != queues[b].key)
    && (forall a :: 0 <= a < |queues| ==> InOrder(S, queues[a].queue) && queues[a].key in S.seats)
    && (forall a, i :: 0 <= a < |queues| ==>
          (i in queues[a].queue <==> i in S.info && S.info[i].seat == queues[a].key))
    && (forall i :: i in S.info ==> exists a :: 0 <= a < |queues| && queues[a].key == S.info[i].seat)
  }

  lemma InOrderIsDistinct(S: Setup, queue: seq<int>)
    requires InOrder(S, queue)
    ensures Distinct(queue)
  {
  }
}
