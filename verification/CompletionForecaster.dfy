/** The forecaster itself: it classifies, simulates day by day, raises finishes and rolls parents up, working
    on leaf objects and counters that change as it goes. */
module CompletionForecaster {
  import opened Basics
  import opened WorkSeats
  import opened TaskBoard
  import opened ForecastModel
  import opened ForecastInvariants
  import opened ForecastLedger
  import opened ForecastLocality
  import opened ForecastWaiting
  import opened ForecastFloors
  import opened ForecastChains
  import opened ForecastSpec
  import opened LeafWork
  import opened SeatQueues
  import opened Reachability

  // Constraints under each leaf, in the order the dependencies came.
  type ConstraintLists = map<int, seq<Constraint>>

  function ListOn(constraints: ConstraintLists, i: int): seq<Constraint> {
    if i in constraints then constraints[i] else []
  }

  // S describes these leaves, and the constraint lists and the board say what S says.
  ghost predicate Fits(S: Setup, leaves: map<int, Leaf>, seats: map<SeatKey, WorkSeat>, constraints: ConstraintLists,
                        board: TaskProgressBoard) {
    && board.Valid() && Describes(S, leaves, seats)
    && (forall i, c :: i in leaves ==> (c in ListOn(constraints, i) <==> c in S.ConstraintsOn(i)))
    && (forall i, c :: i in leaves && c in S.ConstraintsOn(i) ==>
          S.Behind(c.predecessor) == LeafSet(board.children, c.predecessor))
  }

  class CompletionForecaster {
    const today: Day
    const horizonDays: int
    const eps: real

    // The last day on which work is planned.
    const lastDay: Day := today + horizonDays - 1

    constructor (today: Day, horizonDays: int, eps: real)
      ensures this.today == today && this.horizonDays == horizonDays && this.eps == eps
    {
      this.today, this.horizonDays, this.eps := today, horizonDays, eps;
    }

    // The finish of what a dependency is on: yesterday if it is all over, nothing while part of it is open.
    method NodeFinish(task: int, leaves: map<int, Leaf>, board: TaskProgressBoard, ghost S: Setup)
      returns (latest: Option<Day>)
      requires board.Valid() && S.today == today && S.Behind(task) == LeafSet(board.children, task)
      ensures latest.Some? <==> FinishKnown(S, task, Snapshot(leaves))
      ensures latest.Some? ==> IsBase(S, Constraint(task, FF, 0), Snapshot(leaves), latest.value)
    {
      var best := today - 1;
      var ids := board.LeafIds(task);
      ghost var L := Snapshot(leaves);
      for k := 0 to |ids|
        invariant today - 1 <= best
        invariant forall m :: 0 <= m < k && ids[m] in leaves ==> leaves[ids[m]].finish.Some? && leaves[ids[m]].finish.value <= best
        invariant best == today - 1 || exists m :: 0 <= m < k && ids[m] in leaves && leaves[ids[m]].finish == Some(best)
      {
        if ids[k] in leaves {
          var leaf := leaves[ids[k]];
          if leaf.finish.None? {
            assert ids[k] in ToSet(ids) && L[ids[k]].finish.None?;
            return None;
          }
          if leaf.finish.value > best { best := leaf.finish.value; }
        }
      }
      forall j | j in S.Behind(task) && j in L ensures L[j].finish.Some? && L[j].finish.value <= best {
        assert j in ToSet(ids);
        var m :| 0 <= m < |ids| && ids[m] == j;
      }
      if best != today - 1 {
        var m :| 0 <= m < |ids| && ids[m] in leaves && leaves[ids[m]].finish == Some(best);
        assert ids[m] in ToSet(ids) && L[ids[m]].finish == Some(best);
      }
      return Some(best);
    }

    // Its start: yesterday if part of it has begun or is over, else the earliest start so far, if any.
    method NodeStart(task: int, leaves: map<int, Leaf>, board: TaskProgressBoard, ghost S: Setup)
      returns (earliest: Option<Day>)
      requires board.Valid() && S.today == today && S.Behind(task) == LeafSet(board.children, task)
      requires leaves.Keys == S.info.Keys && forall i :: i in leaves ==> leaves[i].startedBefore == S.info[i].startedBefore
      ensures earliest.Some? <==> StartKnown(S, task, Snapshot(leaves))
      ensures earliest.Some? ==> IsBase(S, Constraint(task, SF, 0), Snapshot(leaves), earliest.value)
    {
      earliest := None;
      var ids := board.LeafIds(task);
      ghost var L := Snapshot(leaves);
      for k := 0 to |ids|
        invariant forall m :: 0 <= m < k ==> ids[m] in leaves && !leaves[ids[m]].startedBefore
        invariant forall m :: 0 <= m < k && leaves[ids[m]].start.Some? ==> earliest.Some? && earliest.value <= leaves[ids[m]].start.value
        invariant earliest.Some? ==> exists m :: 0 <= m < k && leaves[ids[m]].start == earliest
      {
        if ids[k] !in leaves || leaves[ids[k]].startedBefore {
          assert ids[k] in ToSet(ids) && (ids[k] !in L || S.info[ids[k]].startedBefore);
          assert BegunBefore(S, task, L);
          return Some(today - 1);
        }
        var start := leaves[ids[k]].start;
        if start.Some? && (earliest.None? || start.value < earliest.value) {
          earliest := start;
        }
      }
      assert forall m :: 0 <= m < |ids| ==> L[ids[m]].start == leaves[ids[m]].start;
      EarliestStart(S, task, L, ids, earliest);
    }

    method IsSatisfied(c: Constraint, day: Day, leaves: map<int, Leaf>, board: TaskProgressBoard, ghost S: Setup)
      returns (r: bool)
      requires board.Valid() && S.today == today && S.Behind(c.predecessor) == LeafSet(board.children, c.predecessor)
      requires leaves.Keys == S.info.Keys && forall i :: i in leaves ==> leaves[i].startedBefore == S.info[i].startedBefore
      ensures r == Satisfied(S, c, day, Snapshot(leaves))
    {
      match c.kind
      case FS =>
        var finish := NodeFinish(c.predecessor, leaves, board, S);
        if finish.Some? { FloorMetFromBase(S, Constraint(c.predecessor, FF, 0), Snapshot(leaves), finish.value, day - 1 - c.lag); }
        return finish.Some? && day >= finish.value + 1 + c.lag;
      case SS =>
        var start := NodeStart(c.predecessor, leaves, board, S);
        if start.Some? { FloorMetFromBase(S, Constraint(c.predecessor, SF, 0), Snapshot(leaves), start.value, day - c.lag); }
        return start.Some? && day >= start.value + c.lag;
      case FF =>
        return true;
      case SF =>
        return true;
    }

    method AllAreSatisfied(i: int, day: Day, leaves: map<int, Leaf>, seats: map<SeatKey, WorkSeat>,
                           constraints: ConstraintLists, board: TaskProgressBoard, ghost S: Setup)
      returns (r: bool)
      requires S.today == today && Fits(S, leaves, seats, constraints, board) && i in leaves
      ensures r == AllSatisfied(S, i, day, Snapshot(leaves))
    {
      hide Satisfied;
      var list := ListOn(constraints, i);
      for k := 0 to |list|
        invariant forall m :: 0 <= m < k ==> Satisfied(S, list[m], day, Snapshot(leaves))
      {
        assert list[k] in list && list[k] in S.ConstraintsOn(i);
        var ok := IsSatisfied(list[k], day, leaves, board, S);
        if !ok {
          return false;
        }
      }
      forall c | c in S.ConstraintsOn(i) ensures Satisfied(S, c, day, Snapshot(leaves)) {
        assert c in list;
      }
      return true;
    }

    method IsEligible(i: int, day: Day, given: set<int>, leaves: map<int, Leaf>, seats: map<SeatKey, WorkSeat>,
                      constraints: ConstraintLists, board: TaskProgressBoard, ghost S: Setup)
      returns (r: bool)
      requires S.today == today && S.eps == eps && Fits(S, leaves, seats, constraints, board) && i in leaves
      ensures r == Eligible(S, i, day, Snapshot(leaves), given)
    {
      hide AllSatisfied;
      var leaf := leaves[i];
      var seat := seats[leaf.seatKey];
      if leaf.finish.Some? || i in given || !seat.WorksOn(eps, day, LeafCalendar(leaf, seat)) {
        return false;
      }
      if leaf.task.startDate.Some? && day < leaf.task.startDate.value {
        return false;
      }
      r := AllAreSatisfied(i, day, leaves, seats, constraints, board, S);
    }

    method ReadyLeaves(queue: seq<int>, day: Day, given: set<int>, leaves: map<int, Leaf>, seats: map<SeatKey, WorkSeat>,
                       constraints: ConstraintLists, board: TaskProgressBoard, ghost S: Setup)
      returns (ready: seq<int>)
      requires S.today == today && S.eps == eps && Fits(S, leaves, seats, constraints, board)
      requires forall i :: i in queue ==> i in leaves
      ensures ready == ReadyList(S, queue, day, Snapshot(leaves), given)
    {
      hide Eligible, Fits;
      ready := [];
      ghost var L := Snapshot(leaves);
      assert queue[0..] == queue;
      for k := 0 to |queue|
        invariant ready + ReadyList(S, queue[k..], day, L, given) == ReadyList(S, queue, day, L, given)
      {
        var i := queue[k];
        assert i in queue;
        assert queue[k..][0] == i && queue[k..][1..] == queue[k + 1..];
        var ok := IsEligible(i, day, given, leaves, seats, constraints, board, S);
        if ok {
          assert ready + ReadyList(S, queue[k..], day, L, given) == ready + [i] + ReadyList(S, queue[k + 1..], day, L, given);
          ready := ready + [i];
        }
      }
      assert ready + ReadyList(S, queue[|queue|..], day, L, given) == ready;
    }

    // One seat's turn: its ready leaves share what is left of its day. Returns how many of them were finished.
    method VisitSeat(sq: SeatQueue, capacity: real, left: real, day: Day, given: set<int>, leaves: map<int, Leaf>,
                     seats: map<SeatKey, WorkSeat>, constraints: ConstraintLists, board: TaskProgressBoard,
                     ghost S: Setup, ghost ds: DayState)
      returns (rest: real, served: set<int>, progressed: bool, done: nat, ghost after: DayState)
      requires S.today == today && S.eps == eps && Fits(S, leaves, seats, constraints, board)
      requires Tracks(S, leaves, sq.key, left, given, ds) && capacity == S.hours(sq.key, day)
      requires Distinct(sq.queue) && forall i :: i in sq.queue ==> i in leaves
      modifies leaves.Values
      ensures Tracks(S, leaves, sq.key, rest, served, after)
      ensures after == Visit(S, sq, day, ds) && progressed == CanServe(S, sq, day, ds)
      ensures |OpenLeaves(after.leaves)| == |OpenLeaves(ds.leaves)| - done
    {
      hide Eligible, Fits, ForecastModel.HandOut;
      rest, served, progressed, done, after := left, given, false, 0, ds;
      if left <= eps {
        return;
      }
      var ready := ReadyLeaves(sq.queue, day, given, leaves, seats, constraints, board, S);
      if ready == [] {
        return;
      }
      progressed := true;
      forall i | i in ready ensures i in leaves && ds.leaves[i].finish.None? {
        EligibleIsOpen(S, i, day, ds.leaves, given);
      }
      rest, served, after := HandOutHours(eps, leaves, ready, capacity, left, day, given, S, sq.key, ds);
      done := CountFinished(leaves, ready, day);
      HandOutFinishes(S, sq.key, ready, day, ds);
      FinishedLeaveTheOpen(ds.leaves, after.leaves, ready, day);
    }

    // One round over the seats.
    method RunPass(queues: seq<SeatQueue>, capacity: map<SeatKey, real>, left: map<SeatKey, real>, day: Day,
                   given: set<int>, open: int, leaves: map<int, Leaf>, seats: map<SeatKey, WorkSeat>,
                   constraints: ConstraintLists, board: TaskProgressBoard, ghost S: Setup, ghost ds: DayState)
      returns (rest: map<SeatKey, real>, served: set<int>, stillOpen: int, progressed: bool, ghost after: DayState)
      requires S.today == today && S.eps == eps && Fits(S, leaves, seats, constraints, board) && ValidQueues(S, queues)
      requires forall a :: 0 <= a < |queues| ==> queues[a].key in capacity && capacity[queues[a].key] == S.hours(queues[a].key, day)
      requires TracksAll(S, leaves, queues, left, given, ds) && open == |OpenLeaves(ds.leaves)|
      modifies leaves.Values
      ensures TracksAll(S, leaves, queues, rest, served, after) && stillOpen == |OpenLeaves(after.leaves)|
      ensures (after, progressed) == Pass(S, queues, day, ds)
    {
      hide Fits, Visit, CanServe, Agree;
      rest, served, stillOpen, progressed, after := left, given, open, false, ds;
      assert queues[0..] == queues;
      for k := 0 to |queues|
        invariant TracksAll(S, leaves, queues, rest, served, after) && stillOpen == |OpenLeaves(after.leaves)|
        invariant var (end, more) := Pass(S, queues[k..], day, after);
                  Pass(S, queues, day, ds) == (end, more || progressed)
      {
        var sq := queues[k];
        assert queues[k..][0] == sq && queues[k..][1..] == queues[k + 1..];
        assert Distinct(sq.queue) && forall i :: i in sq.queue ==> i in leaves by {
          QueueOfSeat(S, queues, k);
        }
        TrackedSeat(S, leaves, queues, k, rest, served, after);
        var hours, more, done;
        ghost var next;
        hours, served, more, done, next := VisitSeat(sq, capacity[sq.key], rest[sq.key], day, served, leaves, seats,
                                                     constraints, board, S, after);
        TrackedAfterVisit(S, leaves, queues, k, day, rest, hours, served, after, next);
        rest := rest[sq.key := hours];
        after := next;
        progressed := progressed || more;
        stillOpen := stillOpen - done;
      }
    }

    // A whole day: seats are visited again as long as somebody is served, since a start-to-start successor may
    // become ready on the day its predecessor starts.
    method RunOneDay(queues: seq<SeatQueue>, day: Day, open: int, leaves: map<int, Leaf>, seats: map<SeatKey, WorkSeat>,
                     constraints: ConstraintLists, board: TaskProgressBoard, ghost S: Setup)
      returns (stillOpen: int)
      requires S.today == today && S.eps == eps && Fits(S, leaves, seats, constraints, board) && ValidQueues(S, queues)
      requires open == |OpenLeaves(Snapshot(leaves))|
      modifies leaves.Values
      ensures Snapshot(leaves) == RunDay(S, queues, day, old(Snapshot(leaves))).leaves
      ensures stillOpen == |OpenLeaves(Snapshot(leaves))|
    {
      hide Fits, Pass, RunDay, ValidQueues;
      var left := DayHours(queues, day, seats, leaves, constraints, board, S);
      var capacity := left;
      var given: set<int> := {};
      var progressed := true;
      ghost var ds := Morning(S, day, Snapshot(leaves));
      ghost var goal := RunDay(S, queues, day, Snapshot(leaves));
      stillOpen := open;
      MorningIsTracked(S, leaves, seats, constraints, board, queues, left, day);
      assert goal == Rounds(S, queues, day, ds) by { DayIsRounds(S, queues, day, Snapshot(leaves)); }
      while progressed
        invariant TracksAll(S, leaves, queues, left, given, ds) && stillOpen == |OpenLeaves(ds.leaves)|
        invariant if progressed then Rounds(S, queues, day, ds) == goal else ds == goal
        decreases Unserved(S, ds), progressed
      {
        PassServes(S, queues, day, ds);
        left, given, stillOpen, progressed, ds := RunPass(queues, capacity, left, day, given, stillOpen, leaves, seats,
                                                          constraints, board, S, ds);
      }
    }

    // The hours of every seat with a leaf, today.
    method DayHours(queues: seq<SeatQueue>, day: Day, seats: map<SeatKey, WorkSeat>, ghost leaves: map<int, Leaf>,
                    ghost constraints: ConstraintLists, ghost board: TaskProgressBoard, ghost S: Setup)
      returns (left: map<SeatKey, real>)
      requires Fits(S, leaves, seats, constraints, board) && ValidQueues(S, queues)
      ensures forall a :: 0 <= a < |queues| ==> queues[a].key in left && left[queues[a].key] == S.hours(queues[a].key, day)
    {
      left := map[];
      for k := 0 to |queues|
        invariant forall a :: 0 <= a < k ==> queues[a].key in left && left[queues[a].key] == S.hours(queues[a].key, day)
      {
        assert queues[k].key in seats;
        left := left[queues[k].key := seats[queues[k].key].PersonHours(day)];
      }
    }

    // Day after day until everything is finished or the horizon is reached. Stopping as soon as nothing is open
    // loses nothing: the result is that of running every day up to the horizon.
    method RunDays(queues: seq<SeatQueue>, leaves: map<int, Leaf>, seats: map<SeatKey, WorkSeat>,
                   constraints: ConstraintLists, board: TaskProgressBoard, ghost S: Setup, ghost days: nat)
      requires S.today == today && S.eps == eps && Fits(S, leaves, seats, constraints, board) && ValidQueues(S, queues)
      requires Snapshot(leaves) == Initial(S)
      requires days == if lastDay < today then 0 else lastDay - today + 1
      modifies leaves.Values
      ensures Snapshot(leaves) == After(S, queues, days)
    {
      hide Fits, RunDay, ValidQueues, After, Snapshot, OpenLeaves, Initial;
      var open := |leaves|;
      NothingFinishedYet(S, Snapshot(leaves));
      KeysOfSnapshot(leaves);
      NoDaysRun(S, queues);
      var day := today;
      while open != 0 && day <= lastDay
        invariant today <= day <= today + days
        invariant Snapshot(leaves) == After(S, queues, day - today) && open == |OpenLeaves(Snapshot(leaves))|
        decreases lastDay - day
      {
        AfterNextDay(S, queues, day - today);
        open := RunOneDay(queues, day, open, leaves, seats, constraints, board, S);
        day := day + 1;
      }
      if open == 0 {
        NothingOpenNothingChanges(S, queues, day - today, days);
      }
    }

    // The base of an FF or SF floor, if it is known.
    method FloorBase(c: Constraint, leaves: map<int, Leaf>, board: TaskProgressBoard, ghost S: Setup)
      returns (base: Option<Day>)
      requires board.Valid() && S.today == today && S.Behind(c.predecessor) == LeafSet(board.children, c.predecessor)
      requires leaves.Keys == S.info.Keys && forall i :: i in leaves ==> leaves[i].startedBefore == S.info[i].startedBefore
      ensures base.Some? ==> IsBase(S, c, Snapshot(leaves), base.value)
      ensures base.None? ==> forall x :: FloorMet(S, c, Snapshot(leaves), x)
    {
      match c.kind
      case FF => base := NodeFinish(c.predecessor, leaves, board, S);
      case SF => base := NodeStart(c.predecessor, leaves, board, S);
      case FS => base := None;
      case SS => base := None;
    }

    // Lift one leaf's finish to one of its floors, which it meets afterwards.
    method RaiseOnce(i: int, c: Constraint, leaves: map<int, Leaf>, seats: map<SeatKey, WorkSeat>,
                     constraints: ConstraintLists, board: TaskProgressBoard, ghost S: Setup, ghost L0: Leaves, ghost n: nat)
      returns (changed: bool)
      requires S.today == today && Fits(S, leaves, seats, constraints, board)
      requires i in leaves && leaves[i].finish.Some? && c in S.ConstraintsOn(i)
      requires Justified(S, L0, Snapshot(leaves)) && AllCover(S, L0, Snapshot(leaves), n)
      modifies leaves[i]
      ensures leaves[i].finish.Some? && leaves[i].finish.value >= old(leaves[i].finish.value)
      ensures !changed ==> leaves[i].finish == old(leaves[i].finish)
      ensures Justified(S, L0, Snapshot(leaves)) && Raised(old(Snapshot(leaves)), Snapshot(leaves))
      ensures CoversVia(S, L0, c, n, leaves[i].finish.value)
      ensures !changed ==> Snapshot(leaves) == old(Snapshot(leaves))
                           && FloorMet(S, c, Snapshot(leaves), leaves[i].finish.value)
    {
      hide FloorMet, IsBase, Justified, AllCover, CoversVia, Raised;
      changed := false;
      ghost var L := Snapshot(leaves);
      FitsPredecessor(S, leaves, seats, constraints, board, i, c);
      RaisesItself(L);
      JustifiedRaises(S, L0, L);
      var base := FloorBase(c, leaves, board, S);
      if base.Some? {
        var floor := base.value + c.lag;
        FloorMetFromBase(S, c, L, base.value, leaves[i].finish.value);
        if floor > leaves[i].finish.value {
          RaiseKeepsJustified(S, L0, L, i, c, base.value);
          FloorMetFromBase(S, c, L, base.value, floor);
          SetFinish(leaves, i, floor);
          changed := true;
        }
      } else {
        assert Snapshot(leaves) == L && FloorMet(S, c, Snapshot(leaves), leaves[i].finish.value);
      }
      MetFloorCovers(S, L0, L, c, n, leaves[i].finish.value);
    }

    // Lift one leaf's finish to all its floors. If the leaves covered all chains with fewer than n hops, this one now
    // covers those with one hop more.
    method RaiseLeaf(i: int, leaves: map<int, Leaf>, seats: map<SeatKey, WorkSeat>, constraints: ConstraintLists,
                     board: TaskProgressBoard, ghost S: Setup, ghost L0: Leaves, ghost n: nat)
      returns (changed: bool)
      requires S.today == today && Fits(S, leaves, seats, constraints, board) && i in leaves
      requires Justified(S, L0, Snapshot(leaves)) && AllCover(S, L0, Snapshot(leaves), n)
      modifies leaves[i]
      ensures Justified(S, L0, Snapshot(leaves)) && Raised(old(Snapshot(leaves)), Snapshot(leaves))
      ensures LeafCovers(S, L0, Snapshot(leaves), i, n + 1)
      ensures !changed ==> Snapshot(leaves) == old(Snapshot(leaves)) && FloorsMet(S, Snapshot(leaves), i)
    {
      hide FloorMet, Justified, AllCover, Raised, CoversVia, Covers, Fits;
      changed := false;
      var leaf := leaves[i];
      var list := ListOn(constraints, i);
      ghost var start := Snapshot(leaves);
      ListIsConstraints(S, leaves, seats, constraints, board, i);
      RaisesItself(start);
      if leaf.finish.None? {
        return;
      }
      for m := 0 to |list|
        invariant Justified(S, L0, Snapshot(leaves)) && Raised(start, Snapshot(leaves)) && leaf.finish.Some?
        invariant !changed ==> Snapshot(leaves) == start
        invariant !changed ==> forall q :: 0 <= q < m ==> FloorMet(S, list[q], start, leaf.finish.value)
        invariant forall q :: 0 <= q < m ==> CoversVia(S, L0, list[q], n, leaf.finish.value)
      {
        ghost var before, x := Snapshot(leaves), leaf.finish.value;
        assert list[m] in list;
        AllCoverMore(S, L0, start, before, n);
        var more := RaiseOnce(i, list[m], leaves, seats, constraints, board, S, L0, n);
        RaisedTransitively(start, before, Snapshot(leaves));
        forall q | 0 <= q < m ensures CoversVia(S, L0, list[q], n, leaf.finish.value) {
          CoversViaLater(S, L0, list[q], n, x, leaf.finish.value);
        }
        changed := changed || more;
      }
      JustifiedRaises(S, L0, Snapshot(leaves));
      ListCovers(S, L0, Snapshot(leaves), i, n, list);
    }

    // One round over the leaves: every one of them covers chains with one hop more.
    method FloorRound(ids: seq<int>, leaves: map<int, Leaf>, seats: map<SeatKey, WorkSeat>, constraints: ConstraintLists,
                      board: TaskProgressBoard, ghost S: Setup, ghost L0: Leaves, ghost n: nat)
      returns (changed: bool)
      requires S.today == today && Fits(S, leaves, seats, constraints, board) && ToSet(ids) == leaves.Keys
      requires Justified(S, L0, Snapshot(leaves)) && AllCover(S, L0, Snapshot(leaves), n)
      modifies leaves.Values
      ensures Justified(S, L0, Snapshot(leaves)) && AllCover(S, L0, Snapshot(leaves), n + 1)
      ensures !changed ==> AllFloorsMet(S, Snapshot(leaves))
    {
      hide Justified, FloorsMet, Fits, AllCover, LeafCovers, Raised;
      changed := false;
      ghost var start := Snapshot(leaves);
      RaisesItself(start);
      for m := 0 to |ids|
        invariant Justified(S, L0, Snapshot(leaves)) && Raised(start, Snapshot(leaves))
        invariant forall q :: 0 <= q < m ==> LeafCovers(S, L0, Snapshot(leaves), ids[q], n + 1)
        invariant !changed ==> forall q :: 0 <= q < m ==> FloorsMet(S, Snapshot(leaves), ids[q])
      {
        ghost var before := Snapshot(leaves);
        assert ids[m] in ToSet(ids);
        AllCoverMore(S, L0, start, before, n);
        var more := RaiseLeaf(ids[m], leaves, seats, constraints, board, S, L0, n);
        RaisedTransitively(start, before, Snapshot(leaves));
        forall q | 0 <= q < m ensures LeafCovers(S, L0, Snapshot(leaves), ids[q], n + 1) {
          CoversMore(S, L0, before, Snapshot(leaves), ids[q], n + 1);
        }
        changed := changed || more;
      }
      RoundCovers(S, L0, Snapshot(leaves), ids, n + 1);
      if !changed {
        RoundMeets(S, Snapshot(leaves), ids);
      }
    }

    // FF and SF dependencies: rounds of raising, at most one more than there are leaves. Afterwards every finish is what
    // some chain of dependencies demands of it, and not before what any chain without a ring demands.
    method ApplyFinishFloors(ids: seq<int>, leaves: map<int, Leaf>, seats: map<SeatKey, WorkSeat>,
                             constraints: ConstraintLists, board: TaskProgressBoard, ghost S: Setup)
      requires S.today == today && Fits(S, leaves, seats, constraints, board)
      requires ToSet(ids) == leaves.Keys && Distinct(ids)
      modifies leaves.Values
      ensures Lifted(S, old(Snapshot(leaves)), Snapshot(leaves))
      ensures AllFloorsMet(S, Snapshot(leaves)) <==> Solvable(S, old(Snapshot(leaves)))
    {
      hide Justified, AllFloorsMet, Fits, AllCover, Lifted, Solvable;
      ghost var L0 := Snapshot(leaves);
      NothingRaisedYet(S, L0);
      for round := 0 to |ids| + 1
        invariant Justified(S, L0, Snapshot(leaves)) && AllCover(S, L0, Snapshot(leaves), round)
      {
        var changed := FloorRound(ids, leaves, seats, constraints, board, S, L0, round);
        if !changed {
          MetIsLifted(S, L0, Snapshot(leaves));
          FloorsAreMetExactly(S, L0, Snapshot(leaves));
          return;
        }
      }
      RoundsLift(S, L0, Snapshot(leaves), ids);
      FloorsAreMetExactly(S, L0, Snapshot(leaves));
    }

    // Some leaf behind `task` is out of the forecast and not because it is finished.
    method IsUnforecast(task: int, leaves: map<int, Leaf>, result: Results, board: TaskProgressBoard) returns (r: bool)
      requires board.Valid()
      ensures r <==> exists j :: j in LeafSet(board.children, task) && j !in leaves && HasNoForecast(result, j)
    {
      var ids := board.LeafIds(task);
      for k := 0 to |ids|
        invariant forall m :: 0 <= m < k ==> ids[m] in leaves || !HasNoForecast(result, ids[m])
      {
        if ids[k] !in leaves && ids[k] in result && result[ids[k]].gap != Some(Finished) {
          assert ids[k] in ToSet(ids);
          return true;
        }
      }
      forall j | j in LeafSet(board.children, task) ensures j in leaves || !HasNoForecast(result, j) {
        assert j in ToSet(ids);
        var m :| 0 <= m < |ids| && ids[m] == j;
      }
      return false;
    }

    method IsHeld(i: int, leaves: map<int, Leaf>, result: Results, constraints: ConstraintLists,
                  board: TaskProgressBoard, ghost deps: Dependees)
      returns (r: bool)
      requires board.Valid() && DependeesMatch(deps, i, constraints, board)
      ensures r <==> Held(deps, leaves.Keys, result, i)
    {
      hide HasNoForecast;
      var list := ListOn(constraints, i);
      for k := 0 to |list|
        invariant forall m :: 0 <= m < k ==>
          !(exists j :: j in LeafSet(board.children, list[m].predecessor) && j !in leaves && HasNoForecast(result, j))
      {
        var stuck := IsUnforecast(list[k].predecessor, leaves, result, board);
        if stuck {
          ghost var j :| j in LeafSet(board.children, list[k].predecessor) && j !in leaves && HasNoForecast(result, j);
          assert list[k] in list;
          assert j in Of(deps, i);
          return true;
        }
      }
      forall j | j in Of(deps, i) ensures j in leaves || !HasNoForecast(result, j) {
        var c :| c in list && j in LeafSet(board.children, c.predecessor);
        var m :| 0 <= m < |list| && list[m] == c;
      }
      return false;
    }

    // One round over the leaves still in, taking out those that are held.
    method WaitRound(order: seq<int>, leaves: map<int, Leaf>, result: Results, constraints: ConstraintLists,
                     board: TaskProgressBoard, ghost deps: Dependees, ghost all: map<int, Leaf>, ghost first: Results,
                     ghost removed: set<int>)
      returns (order': seq<int>, leaves': map<int, Leaf>, result': Results, changed: bool, ghost removed': set<int>)
      requires board.Valid() && TakenOut(deps, all, first, order, leaves, result, removed)
      requires forall i :: i in all ==> DependeesMatch(deps, i, constraints, board)
      ensures TakenOut(deps, all, first, order', leaves', result', removed')
      ensures changed ==> leaves'.Keys < leaves.Keys
      ensures !changed ==> leaves' == leaves && forall i :: i in leaves' ==> !Held(deps, leaves'.Keys, result', i)
    {
      hide DependeesMatch, Held, Blocked, TakenOut;
      order', leaves', result', changed, removed' := order, leaves, result, false, removed;
      var ids := order;
      TakenOutKeys(deps, all, first, order, leaves, result, removed);
      for k := 0 to |ids|
        invariant TakenOut(deps, all, first, order', leaves', result', removed')
        invariant leaves'.Keys <= all.Keys
        invariant forall m :: k <= m < |ids| ==> ids[m] in leaves'
        invariant if changed then leaves'.Keys < leaves.Keys else leaves' == leaves
        invariant !changed ==> forall m :: 0 <= m < k ==> !Held(deps, leaves'.Keys, result', ids[m])
      {
        var i := ids[k];
        assert i in leaves';
        var held := IsHeld(i, leaves', result', constraints, board, deps);
        if held {
          TakeOut(deps, all, first, order', leaves', result', removed', i);
          leaves' := leaves' - {i};
          order' := Without(order', i);
          result' := result'[i := WAITS];
          removed' := removed' + {i};
          changed := true;
        }
      }
      if !changed {
        forall i | i in leaves' ensures !Held(deps, leaves'.Keys, result', i) {
          assert i in ToSet(ids);
          var m :| 0 <= m < |ids| && ids[m] == i;
        }
      }
    }

    // Take out the leaves that wait for something without a forecast, until none is left that does. Exactly the
    // blocked ones go.
    method WaitForUnforecast(order: seq<int>, leaves: map<int, Leaf>, result: Results, constraints: ConstraintLists,
                             board: TaskProgressBoard, ghost deps: Dependees)
      returns (order': seq<int>, leaves': map<int, Leaf>, result': Results)
      requires board.Valid() && Distinct(order) && ToSet(order) == leaves.Keys && leaves.Keys !! result.Keys
      requires forall i :: i in leaves ==> DependeesMatch(deps, i, constraints, board)
      ensures Distinct(order') && ToSet(order') == leaves'.Keys
      ensures leaves'.Keys == leaves.Keys - BlockedLeaves(deps, leaves.Keys, result)
      ensures forall i :: i in leaves' ==> leaves'[i] == leaves[i]
      ensures result' == Marked(result, BlockedLeaves(deps, leaves.Keys, result))
    {
      hide DependeesMatch, Held;
      order', leaves', result' := order, leaves, result;
      ghost var removed: set<int> := {};
      assert Marked(result, {}) == result;
      var changed := true;
      while changed
        invariant TakenOut(deps, leaves, result, order', leaves', result', removed)
        invariant !changed ==> forall i :: i in leaves' ==> !Held(deps, leaves'.Keys, result', i)
        decreases leaves'.Keys, changed
      {
        order', leaves', result', changed, removed := WaitRound(order', leaves', result', constraints, board, deps,
                                                                leaves, result, removed);
      }
      AllBlockedTakenOut(deps, leaves, result, order', leaves', result', removed);
    }

    method AddUnderEach(ids: seq<int>, c: Constraint, constraints: ConstraintLists) returns (more: ConstraintLists)
      ensures forall i, e :: e in ListOn(more, i) <==> e in ListOn(constraints, i) || (e == c && i in ids)
    {
      more := constraints;
      for m := 0 to |ids|
        invariant forall i, e :: e in ListOn(more, i) <==> e in ListOn(constraints, i) || (e == c && i in ids[..m])
      {
        assert ids[..m + 1] == ids[..m] + [ids[m]];
        more := more[ids[m] := ListOn(more, ids[m]) + [c]];
      }
      assert ids[..|ids|] == ids;
    }

    // Dependencies under each leaf they bear on: a dependency of a task with subtasks bears on all leaves below it.
    method BuildConstraints(dependencies: seq<TaskDependency>, board: TaskProgressBoard, ghost I: Inputs)
      returns (constraints: ConstraintLists)
      requires board.Valid() && I.tasks == board.tasks && I.children == board.children && I.dependencies == dependencies
      ensures forall i, c :: c in ListOn(constraints, i) <==> c in ConstraintSet(I, i)
    {
      hide LeafSet, Applies, AppliesBefore, ConstraintSet, ListOn;
      constraints := map[];
      NothingListed();
      NothingApplies(I);
      for k := 0 to |dependencies|
        invariant forall i, c :: c in ListOn(constraints, i) <==> AppliesBefore(I, k, i, c)
      {
        var d := dependencies[k];
        if d.predecessor in board.tasks && d.successor in board.tasks {
          var ids := board.LeafIds(d.successor);
          BearsOn(I, k, ids);
          constraints := AddUnderEach(ids, d.Constraint(), constraints);
        } else {
          BearsOnNothing(I, k);
        }
        OneMoreApplies(I, k);
      }
      EverythingApplies(I);
    }

    method RollUp(task: Task, board: TaskProgressBoard, result: Results) returns (f: TaskForecast)
      requires board.Valid() && HasSubtasks(board.children, task.id)
      ensures RollsUp(board.children, result, task, f)
    {
      hide LeafSet, Spans, Widen;
      if task.Closed() {
        return Gapped(Finished);
      }
      var below := board.LeafIds(task.id);
      f := TaskForecast(None, None, None, 0);
      ghost var open := OpenBelow(board.children, result, task.id);
      ghost var seen: set<int> := {};
      for k := 0 to |below|
        invariant f.gap.None? && f.overdueDays == 0
        invariant seen == open * ToSet(below[..k])
        invariant if f.finish.None? then f.start.None? && seen == {} else Spans(result, seen, f)
        invariant forall j :: j in seen ==> result[j].finish.Some?
      {
        var j := below[k];
        assert below[..k + 1] == below[..k] + [j];
        assert ToSet(below[..k + 1]) == ToSet(below[..k]) + {j};
        assert j in ToSet(below);
        if j in result && result[j].gap != Some(Finished) {
          assert j in open;
          if result[j].finish.None? {
            return Gapped(ChildUnforecast);
          }
          WidenSpans(result, seen, f, j);
          f := Widen(f, result[j]);
          seen := seen + {j};
        } else {
          assert j !in open;
        }
      }
      assert below[..|below|] == below;
      assert open * ToSet(below) == open;
      if f.finish.None? {
        return Gapped(Finished);
      }
      SpansIgnoresOverdue(result, open, f, Overdue(f.finish.value, task.dueDate));
      f := f.(overdueDays := Overdue(f.finish.value, task.dueDate));
    }

    // Sort the childless tasks into leaves to forecast and tasks that get none.
    method ClassifyAll(tasks: seq<Task>, board: TaskProgressBoard, seats: map<SeatKey, WorkSeat>, rootOf: RootOf,
                       projectCalendar: CalendarOf, ghost I: Inputs)
      returns (order: seq<int>, leaves: map<int, Leaf>, result: Results)
      requires board.Valid() && UniqueIds(tasks) && Matches(I, tasks, board, seats, rootOf, projectCalendar)
      requires I.eps == eps
      ensures Distinct(order) && ToSet(order) == leaves.Keys && leaves.Keys == Candidates(I)
      ensures forall i :: i in leaves ==> IsLeafOf(I, i, leaves[i])
      ensures forall i :: i in leaves ==> fresh(leaves[i]) && StartsAt(I, i, leaves[i].State())
      ensures result == FirstResults(I)
    {
      hide Classify, SortedUpTo, Candidates, FirstResults;
      order, leaves, result := [], map[], map[];
      NothingSortedYet(I, tasks);
      for k := 0 to |tasks|
        invariant SortedUpTo(I, tasks, k, order, leaves, result)
        invariant forall i :: i in leaves ==> fresh(leaves[i]) && StartsAt(I, i, leaves[i].State())
      {
        var task := tasks[k];
        MatchedTask(I, tasks, board, seats, rootOf, projectCalendar, k);
        if HasSubtasks(board.children, task.id) {
          SortParent(I, tasks, k, order, leaves, result);
        } else {
          var sorted := Classify(task, board.ActualHours(task.id), eps, seats, rootOf);
          match sorted
          case Out(gap) =>
            SortOut(I, tasks, k, order, leaves, result);
            result := result[task.id := Gapped(gap)];
          case In(info) =>
            ClassifiedLeaf(I, task.id);
            var leaf := new Leaf(task, info.seat, info.initial, info.startedBefore, projectCalendar(task.project));
            SortIn(I, tasks, k, order, leaves, result, leaf);
            order := order + [task.id];
            leaves := leaves[task.id := leaf];
        }
      }
      EverythingSorted(I, tasks, order, leaves, result);
    }

    // Queue the leaves up, run the days and raise the finishes.
    method Simulate(order: seq<int>, leaves: map<int, Leaf>, seats: map<SeatKey, WorkSeat>,
                    constraints: ConstraintLists, board: TaskProgressBoard, ghost S: Setup, ghost days: nat)
      returns (ghost queues: seq<SeatQueue>)
      requires S.today == today && S.eps == eps && Fits(S, leaves, seats, constraints, board)
      requires Distinct(order) && ToSet(order) == leaves.Keys && Snapshot(leaves) == Initial(S)
      requires days == if horizonDays < 0 then 0 else horizonDays
      modifies leaves.Values
      ensures RaisedRun(S, queues, days, Snapshot(leaves))
    {
      hide ValidQueues, Lifted, Solvable, AllFloorsMet;
      var lines := BuildQueues(order, leaves, S);
      queues := lines;
      RunDays(lines, leaves, seats, constraints, board, S, days);
      ApplyFinishFloors(order, leaves, seats, constraints, board, S);
    }

    // The result of one leaf: finished within the horizon, waiting, or beyond it.
    method LeafOutcome(i: int, leaves: map<int, Leaf>, seats: map<SeatKey, WorkSeat>, constraints: ConstraintLists,
                       board: TaskProgressBoard, ghost S: Setup)
      returns (r: TaskForecast)
      requires S.today == today && S.eps == eps && Fits(S, leaves, seats, constraints, board) && i in leaves
      ensures i in S.info && r == LeafResult(S, lastDay, Snapshot(leaves), i)
    {
      hide AllSatisfied;
      var leaf := leaves[i];
      if leaf.finish.Some? {
        return TaskForecast(leaf.start, leaf.finish, None, Overdue(leaf.finish.value, leaf.task.dueDate));
      }
      if leaf.start.Some? {
        return Gapped(BeyondHorizon);
      }
      var ok := AllAreSatisfied(i, lastDay + 1, leaves, seats, constraints, board, S);
      return if ok then Gapped(BeyondHorizon) else Gapped(WaitingForOthers);
    }

    method LeafResults(order: seq<int>, leaves: map<int, Leaf>, first: Results, seats: map<SeatKey, WorkSeat>,
                       constraints: ConstraintLists, board: TaskProgressBoard, ghost S: Setup)
      returns (result: Results)
      requires S.today == today && S.eps == eps && Fits(S, leaves, seats, constraints, board)
      requires Distinct(order) && ToSet(order) == leaves.Keys
      ensures result.Keys == first.Keys + leaves.Keys
      ensures forall i :: i in leaves ==> i in S.info && result[i] == LeafResult(S, lastDay, Snapshot(leaves), i)
      ensures forall i :: i in first && i !in leaves ==> result[i] == first[i]
    {
      hide LeafResult, Fits, Entered, ToSet, Distinct;
      result := first;
      ghost var R := Snapshot(leaves);
      NothingEntered(S, lastDay, R, first, order);
      for k := 0 to |order|
        invariant Entered(S, lastDay, R, first, order[..k], result)
      {
        MemberOf(order, k);
        var one := LeafOutcome(order[k], leaves, seats, constraints, board, S);
        OneMoreEntered(S, lastDay, R, first, order, k, result);
        result := result[order[k] := one];
      }
      AllEntered(S, lastDay, R, first, order, result);
    }

    // Parents take their forecast from the leaves below them.
    method RollUps(tasks: seq<Task>, board: TaskProgressBoard, leafResults: Results) returns (result: Results)
      requires board.Valid() && UniqueIds(tasks)
      requires forall i :: i in leafResults ==> !HasSubtasks(board.children, i)
      ensures result.Keys == leafResults.Keys + set k | 0 <= k < |tasks| && HasSubtasks(board.children, tasks[k].id) :: tasks[k].id
      ensures forall i :: i in leafResults ==> result[i] == leafResults[i]
      ensures forall k :: 0 <= k < |tasks| && HasSubtasks(board.children, tasks[k].id) ==>
                RollsUp(board.children, result, tasks[k], result[tasks[k].id])
    {
      hide RollsUp;
      result := leafResults;
      for k := 0 to |tasks|
        invariant result.Keys == leafResults.Keys + set m | 0 <= m < k && HasSubtasks(board.children, tasks[m].id) :: tasks[m].id
        invariant forall i :: i in leafResults ==> result[i] == leafResults[i]
        invariant forall m :: 0 <= m < k && HasSubtasks(board.children, tasks[m].id) ==>
                    RollsUp(board.children, leafResults, tasks[m], result[tasks[m].id])
      {
        if HasSubtasks(board.children, tasks[k].id) {
          var one := RollUp(tasks[k], board, result);
          RollUpSeesLeaves(board.children, result, leafResults, tasks[k], one);
          result := result[tasks[k].id := one];
        }
      }
      forall k | 0 <= k < |tasks| && HasSubtasks(board.children, tasks[k].id)
        ensures RollsUp(board.children, result, tasks[k], result[tasks[k].id])
      {
        RollUpSeesLeaves(board.children, leafResults, result, tasks[k], result[tasks[k].id]);
      }
    }

    // The leaves to forecast, with what they depend on, once the blocked ones have been taken out.
    method Prepare(tasks: seq<Task>, board: TaskProgressBoard, dependencies: seq<TaskDependency>,
                   seats: map<SeatKey, WorkSeat>, rootOf: RootOf, projectCalendar: CalendarOf, ghost I: Inputs)
      returns (order: seq<int>, leaves: map<int, Leaf>, waiting: Results, constraints: ConstraintLists)
      requires board.Valid() && UniqueIds(tasks) && Matches(I, tasks, board, seats, rootOf, projectCalendar)
      requires I.eps == eps && I.dependencies == dependencies
      ensures Distinct(order) && ToSet(order) == leaves.Keys && leaves.Keys == Candidates(I) - Dropped(I)
      ensures forall i :: i in leaves ==> IsLeafOf(I, i, leaves[i])
      ensures forall i :: i in leaves ==> fresh(leaves[i]) && StartsAt(I, i, leaves[i].State())
      ensures forall i, c :: c in ListOn(constraints, i) <==> c in ConstraintSet(I, i)
      ensures waiting == Marked(FirstResults(I), Dropped(I))
    {
      hide IsLeafOf, DependeesMatch, ConstraintSet, FirstResults, Candidates, BlockedLeaves, StartsAt, DependeeTable, Marked;
      assert Candidates(I) !! FirstResults(I).Keys by { ChildlessAreSorted(I); }
      var first;
      order, leaves, first := ClassifyAll(tasks, board, seats, rootOf, projectCalendar, I);
      constraints := BuildConstraints(dependencies, board, I);
      DependeesOfLists(I, constraints, board);
      order, leaves, waiting := WaitForUnforecast(order, leaves, first, constraints, board, DependeeTable(I));
    }

    // The whole forecast.
    method Forecast(tasks: seq<Task>, board: TaskProgressBoard, dependencies: seq<TaskDependency>,
                    seats: map<SeatKey, WorkSeat>, rootOf: RootOf, projectCalendar: CalendarOf)
      returns (result: Results)
      requires eps >= 0.0 && board.Valid() && UniqueIds(tasks)
      requires Ids(tasks) == board.tasks.Keys && forall k :: 0 <= k < |tasks| ==> board.tasks[tasks[k].id] == tasks[k]
      requires forall k :: 0 <= k < |tasks| ==> AllocationIsPercent(tasks[k])
      ensures var I := Inputs(today, horizonDays, eps, board.tasks, board.children, board.actual, dependencies, seats,
                              rootOf, projectCalendar);
              exists queues, R :: IsForecast(I, queues, R, result)
    {
      hide IsForecast, RaisedRun, RollsUp, IsLeafOf, ConstraintSet, LeafResultsAre, FirstResults, Candidates, Dropped, StartsAt,
           Marked, ListOn;
      ghost var I := Inputs(today, horizonDays, eps, board.tasks, board.children, board.actual, dependencies, seats, rootOf,
                            projectCalendar);
      InputsAreValid(I, tasks);
      var order, leaves, waiting, constraints := Prepare(tasks, board, dependencies, seats, rootOf, projectCalendar, I);
      var leafResults, queues, R := RunLeaves(order, leaves, waiting, seats, constraints, board, I);
      result := RollUps(tasks, board, leafResults);
      ForecastIsComplete(I, tasks, R, leafResults, result);
      ForecastFromParts(I, queues, R, result);
    }

    // The days run on the prepared leaves, and what becomes of each childless task.
    method RunLeaves(order: seq<int>, leaves: map<int, Leaf>, waiting: Results, seats: map<SeatKey, WorkSeat>,
                     constraints: ConstraintLists, board: TaskProgressBoard, ghost I: Inputs)
      returns (result: Results, ghost queues: seq<SeatQueue>, ghost R: Leaves)
      requires I.Valid() && board.Valid() && I.children == board.children && I.seats == seats
      requires I.today == today && I.horizonDays == horizonDays && I.eps == eps
      requires Distinct(order) && ToSet(order) == leaves.Keys && leaves.Keys == Candidates(I) - Dropped(I)
      requires forall i :: i in leaves ==> IsLeafOf(I, i, leaves[i]) && StartsAt(I, i, leaves[i].State())
      requires forall i, c :: c in ListOn(constraints, i) <==> c in ConstraintSet(I, i)
      requires waiting == Marked(FirstResults(I), Dropped(I))
      modifies leaves.Values
      ensures RaisedRun(Plan(I), queues, I.Days(), R)
      ensures LeafResultsAre(I, R, result) && result.Keys == Childless(I)
    {
      hide Plan, RaisedRun, LeafResult, IsLeafOf, Fits, ConstraintSet, LeafResultsAre, FirstResults;
      hide Candidates, Dropped, StartsAt, Marked, ListOn, Childless, Initial, ToSet, Distinct;
      ghost var S := Plan(I);
      PlanBasics(I);
      PlanFits(I, leaves, constraints, board);
      PlanStarts(I, leaves);
      queues := Simulate(order, leaves, seats, constraints, board, S, I.Days());
      R := Snapshot(leaves);
      result := LeafResults(order, leaves, waiting, seats, constraints, board, S);
      LeafResultsFit(I, R, FirstResults(I), waiting, result);
    }
  }

  lemma PlanBasics(I: Inputs)
    requires I.Valid()
    ensures Plan(I).today == I.today && Plan(I).eps == I.eps && Plan(I).info.Keys == Candidates(I) - Dropped(I)
  {
  }

  lemma ForecastFromParts(I: Inputs, queues: seq<SeatQueue>, R: Leaves, result: Results)
    requires I.Valid() && RaisedRun(Plan(I), queues, I.Days(), R) && result.Keys == I.tasks.Keys && LeafResultsAre(I, R, result)
    requires forall i :: i in I.tasks && HasSubtasks(I.children, i) ==> RollsUp(I.children, result, I.tasks[i], result[i])
    ensures IsForecast(I, queues, R, result)
  {
    hide RaisedRun, RollsUp, LeafResultsAre;
  }

  // The results with those of the given leaves entered.
  ghost predicate Entered(S: Setup, lastDay: Day, R: Leaves, first: Results, ids: seq<int>, result: Results) {
    && result.Keys == first.Keys + ToSet(ids)
    && (forall i :: i in ids ==> i in R && i in S.info && result[i] == LeafResult(S, lastDay, R, i))
    && (forall i :: i in first && i !in ids ==> result[i] == first[i])
  }

  lemma MemberOf(ids: seq<int>, k: nat)
    requires k < |ids|
    ensures ids[k] in ToSet(ids)
  {
  }

  lemma NothingEntered(S: Setup, lastDay: Day, R: Leaves, first: Results, order: seq<int>)
    ensures Entered(S, lastDay, R, first, order[..0], first)
  {
  }

  lemma OneMoreEntered(S: Setup, lastDay: Day, R: Leaves, first: Results, order: seq<int>, k: nat, result: Results)
    requires k < |order| && Entered(S, lastDay, R, first, order[..k], result) && order[k] in R && order[k] in S.info
    ensures Entered(S, lastDay, R, first, order[..k + 1], result[order[k] := LeafResult(S, lastDay, R, order[k])])
  {
    hide LeafResult;
    assert order[..k + 1] == order[..k] + [order[k]];
    assert ToSet(order[..k + 1]) == ToSet(order[..k]) + {order[k]};
  }

  lemma AllEntered(S: Setup, lastDay: Day, R: Leaves, first: Results, order: seq<int>, result: Results)
    requires Entered(S, lastDay, R, first, order[..|order|], result) && ToSet(order) == R.Keys
    ensures result.Keys == first.Keys + R.Keys
    ensures forall i :: i in R ==> i in S.info && result[i] == LeafResult(S, lastDay, R, i)
    ensures forall i :: i in first && i !in R ==> result[i] == first[i]
  {
    hide LeafResult;
    assert order[..|order|] == order;
    assert forall i :: i in order <==> i in ToSet(order);
  }

  // The earliest start among leaves of which none had begun before.
  lemma EarliestStart(S: Setup, task: int, L: Leaves, ids: seq<int>, earliest: Option<Day>)
    requires ToSet(ids) == S.Behind(task) && L.Keys == S.info.Keys
    requires forall m :: 0 <= m < |ids| ==> ids[m] in L && !S.info[ids[m]].startedBefore
    requires forall m :: 0 <= m < |ids| && L[ids[m]].start.Some? ==> earliest.Some? && earliest.value <= L[ids[m]].start.value
    requires earliest.Some? ==> exists m :: 0 <= m < |ids| && L[ids[m]].start == earliest
    ensures earliest.Some? <==> StartKnown(S, task, L)
    ensures earliest.Some? ==> IsBase(S, Constraint(task, SF, 0), L, earliest.value)
  {
    forall j | j in S.Behind(task)
      ensures j in L && !S.info[j].startedBefore
      ensures L[j].start.Some? ==> earliest.Some? && earliest.value <= L[j].start.value
    {
      assert j in ToSet(ids);
      var m :| 0 <= m < |ids| && ids[m] == j;
    }
    assert !BegunBefore(S, task, L);
    if earliest.Some? {
      var m :| 0 <= m < |ids| && L[ids[m]].start == earliest;
      var j := ids[m];
      assert j in ToSet(ids);
      assert j in S.Behind(task) && j in L && L[j].start == Some(earliest.value);
    }
  }

  lemma ListIsConstraints(S: Setup, leaves: map<int, Leaf>, seats: map<SeatKey, WorkSeat>, constraints: ConstraintLists,
                          board: TaskProgressBoard, i: int)
    requires Fits(S, leaves, seats, constraints, board) && i in leaves
    ensures forall c :: c in ListOn(constraints, i) <==> c in S.ConstraintsOn(i)
  {
  }

  lemma FitsPredecessor(S: Setup, leaves: map<int, Leaf>, seats: map<SeatKey, WorkSeat>, constraints: ConstraintLists,
                        board: TaskProgressBoard, i: int, c: Constraint)
    requires Fits(S, leaves, seats, constraints, board) && i in leaves && c in S.ConstraintsOn(i)
    ensures board.Valid() && S.Behind(c.predecessor) == LeafSet(board.children, c.predecessor)
    ensures leaves.Keys == S.info.Keys && Keyed(leaves)
    ensures forall j :: j in leaves ==> leaves[j].startedBefore == S.info[j].startedBefore
  {
  }

  lemma InputsAreValid(I: Inputs, tasks: seq<Task>)
    requires I.eps >= 0.0 && ChildrenOf(I.tasks, I.children) && Ids(tasks) == I.tasks.Keys
    requires forall i :: i in I.tasks ==> I.tasks[i].id == i
    requires forall k :: 0 <= k < |tasks| ==> I.tasks[tasks[k].id] == tasks[k] && AllocationIsPercent(tasks[k])
    ensures I.Valid()
  {
    forall i | i in I.tasks ensures AllocationIsPercent(I.tasks[i]) {
      assert i in Ids(tasks);
      var k :| 0 <= k < |tasks| && tasks[k].id == i;
    }
  }

  lemma DependeesOfLists(I: Inputs, constraints: ConstraintLists, board: TaskProgressBoard)
    requires I.children == board.children
    requires forall i, c :: c in ListOn(constraints, i) <==> c in ConstraintSet(I, i)
    ensures forall i :: i in Candidates(I) ==> DependeesMatch(DependeeTable(I), i, constraints, board)
  {
    hide ConstraintSet, LeafSet, Candidates;
    forall i | i in Candidates(I) ensures DependeesMatch(DependeeTable(I), i, constraints, board) {
      assert Of(DependeeTable(I), i) == DependeesOf(I, i);
      forall j
        ensures j in DependeesOf(I, i) <==> exists c :: c in ListOn(constraints, i) && j in LeafSet(board.children, c.predecessor)
      {
        if j in DependeesOf(I, i) {
          var c :| c in ConstraintSet(I, i) && j in LeafSet(I.children, c.predecessor);
          assert c in ListOn(constraints, i);
        }
        if c :| c in ListOn(constraints, i) && j in LeafSet(board.children, c.predecessor) {
          assert c in ConstraintSet(I, i);
        }
      }
    }
  }

  lemma PlanFits(I: Inputs, leaves: map<int, Leaf>, constraints: ConstraintLists, board: TaskProgressBoard)
    requires I.Valid() && board.Valid() && I.children == board.children
    requires leaves.Keys == Candidates(I) - Dropped(I) && forall i :: i in leaves ==> IsLeafOf(I, i, leaves[i])
    requires forall i, c :: c in ListOn(constraints, i) <==> c in ConstraintSet(I, i)
    ensures Fits(Plan(I), leaves, I.seats, constraints, board)
  {
    hide LeafSet, Candidates, Dropped, Classify, ConstraintSet;
    PlanDescribes(I, leaves);
    hide Describes;
    var S := Plan(I);
    forall i, c | i in leaves && c in S.ConstraintsOn(i)
      ensures S.Behind(c.predecessor) == LeafSet(board.children, c.predecessor)
    {
      assert c in ConstraintSet(I, i);
      ConstrainedIsPredecessor(I, i, c);
    }
  }

  lemma ConstrainedIsPredecessor(I: Inputs, i: int, c: Constraint)
    requires c in ConstraintSet(I, i)
    ensures c.predecessor in Predecessors(I)
  {
  }

  lemma PlanDescribes(I: Inputs, leaves: map<int, Leaf>)
    requires I.Valid() && leaves.Keys == Candidates(I) - Dropped(I)
    requires forall i :: i in leaves ==> IsLeafOf(I, i, leaves[i])
    ensures Describes(Plan(I), leaves, I.seats)
  {
    hide LeafSet, Candidates, Dropped, Classify, ConstraintSet;
    var S := Plan(I);
    forall i, day | i in leaves && leaves[i].seatKey in I.seats
      ensures S.works(i, day) == I.seats[leaves[i].seatKey].WorksOn(S.eps, day, LeafCalendar(leaves[i], I.seats[leaves[i].seatKey]))
    {
      WorkOfLeaf(I, i, leaves[i], day);
    }
  }

  lemma WorkOfLeaf(I: Inputs, i: int, leaf: Leaf, day: Day)
    requires IsLeafOf(I, i, leaf) && leaf.seatKey in I.seats
    ensures WorksOf(I.eps, I.tasks, I.seats, I.rootOf, I.projectCalendar)(i, day)
            == I.seats[leaf.seatKey].WorksOn(I.eps, day, LeafCalendar(leaf, I.seats[leaf.seatKey]))
  {
    assert SeatOf(I.tasks[i], I.rootOf) == Some(leaf.seatKey);
  }

  // A childless task is either a candidate or has its result already.
  lemma ChildlessAreSorted(I: Inputs)
    ensures Childless(I) == Candidates(I) + FirstResults(I).Keys && Candidates(I) !! FirstResults(I).Keys
    ensures Dropped(I) <= Candidates(I)
  {
    hide Classify, Blocked;
  }

  lemma PlanStarts(I: Inputs, leaves: map<int, Leaf>)
    requires I.Valid() && leaves.Keys == Candidates(I) - Dropped(I)
    requires forall i :: i in leaves ==> StartsAt(I, i, leaves[i].State())
    ensures Snapshot(leaves) == Initial(Plan(I))
  {
    hide Candidates, Dropped, Classify;
  }

  lemma LeafResultsFit(I: Inputs, R: Leaves, first: Results, waiting: Results, result: Results)
    requires I.Valid() && R.Keys == Plan(I).info.Keys && first == FirstResults(I)
    requires waiting == Marked(first, Dropped(I)) && result.Keys == waiting.Keys + R.Keys
    requires forall i :: i in R ==> i in Plan(I).info && result[i] == LeafResult(Plan(I), I.LastDay(), R, i)
    requires forall i :: i in waiting && i !in R ==> result[i] == waiting[i]
    ensures LeafResultsAre(I, R, result) && result.Keys == Childless(I)
  {
    hide LeafResult, Classify, BlockedLeaves, Candidates, FirstResults, Childless, DependeeTable;
    ChildlessAreSorted(I);
    forall i | i in Childless(I) && i !in Plan(I).info
      ensures i in result && result[i] == if i in Candidates(I) then WAITS else FirstResults(I)[i]
    {
      assert i in waiting && i !in R;
    }
  }

  lemma LeafResultsCarryOver(I: Inputs, R: Leaves, leafResults: Results, result: Results)
    requires I.Valid() && LeafResultsAre(I, R, leafResults)
    requires forall i :: i in leafResults ==> i in result && result[i] == leafResults[i]
    ensures LeafResultsAre(I, R, result)
  {
    hide LeafResult, Plan, Childless, Candidates, FirstResults;
  }

  ghost function Parents(I: Inputs, tasks: seq<Task>): set<int> {
    set k | 0 <= k < |tasks| && HasSubtasks(I.children, tasks[k].id) :: tasks[k].id
  }

  lemma EveryTaskIsLeafOrParent(I: Inputs, tasks: seq<Task>)
    requires Ids(tasks) == I.tasks.Keys
    ensures I.tasks.Keys == Childless(I) + Parents(I, tasks)
  {
    forall i | i in I.tasks ensures i in Childless(I) + Parents(I, tasks) {
      assert i in Ids(tasks);
      var k :| 0 <= k < |tasks| && tasks[k].id == i;
    }
    forall i | i in Parents(I, tasks) ensures i in I.tasks {
      assert i in Ids(tasks);
    }
  }

  lemma ForecastIsComplete(I: Inputs, tasks: seq<Task>, R: Leaves, leafResults: Results, result: Results)
    requires I.Valid() && LeafResultsAre(I, R, leafResults) && leafResults.Keys == Childless(I)
    requires Ids(tasks) == I.tasks.Keys && forall k :: 0 <= k < |tasks| ==> I.tasks[tasks[k].id] == tasks[k]
    requires result.Keys == leafResults.Keys + Parents(I, tasks)
    requires forall i :: i in leafResults ==> result[i] == leafResults[i]
    requires forall k :: 0 <= k < |tasks| && HasSubtasks(I.children, tasks[k].id) ==>
               RollsUp(I.children, result, tasks[k], result[tasks[k].id])
    ensures result.Keys == I.tasks.Keys && LeafResultsAre(I, R, result)
    ensures forall i :: i in I.tasks && HasSubtasks(I.children, i) ==> RollsUp(I.children, result, I.tasks[i], result[i])
  {
    hide RollsUp, LeafResultsAre, Childless, Parents;
    EveryTaskIsLeafOrParent(I, tasks);
    LeafResultsCarryOver(I, R, leafResults, result);
    forall i | i in I.tasks && HasSubtasks(I.children, i) ensures RollsUp(I.children, result, I.tasks[i], result[i]) {
      assert i in Ids(tasks);
      var k :| 0 <= k < |tasks| && tasks[k].id == i;
    }
  }

  // The first k tasks are sorted into leaves and results.
  ghost predicate SortedUpTo(I: Inputs, tasks: seq<Task>, k: nat, order: seq<int>, leaves: map<int, Leaf>, result: Results)
    requires k <= |tasks|
  {
    && Distinct(order) && ToSet(order) == leaves.Keys
    && leaves.Keys == Candidates(I) * Ids(tasks[..k]) && (forall i :: i in leaves ==> IsLeafOf(I, i, leaves[i]))
    && result.Keys == FirstResults(I).Keys * Ids(tasks[..k]) && (forall i :: i in result ==> result[i] == FirstResults(I)[i])
  }

  ghost predicate StartsAt(I: Inputs, i: int, s: LeafState) {
    i in I.tasks && ClassOf(I, i).In? && s == LeafState(ClassOf(I, i).info.initial, None, None)
  }

  lemma NothingSortedYet(I: Inputs, tasks: seq<Task>)
    ensures SortedUpTo(I, tasks, 0, [], map[], map[])
  {
  }

  lemma MatchedTask(I: Inputs, tasks: seq<Task>, board: TaskProgressBoard, seats: map<SeatKey, WorkSeat>,
                    rootOf: RootOf, projectCalendar: CalendarOf, k: nat)
    requires board.Valid() && Matches(I, tasks, board, seats, rootOf, projectCalendar) && k < |tasks|
    ensures var t := tasks[k];
            t.id in I.tasks && I.tasks[t.id] == t
            && ClassOf(I, t.id) == Classify(t, board.ActualHours(t.id), I.eps, seats, rootOf)
  {
    assert tasks[k].id in Ids(tasks);
  }

  lemma SortParent(I: Inputs, tasks: seq<Task>, k: nat, order: seq<int>, leaves: map<int, Leaf>, result: Results)
    requires UniqueIds(tasks) && k < |tasks| && SortedUpTo(I, tasks, k, order, leaves, result)
    requires HasSubtasks(I.children, tasks[k].id)
    ensures SortedUpTo(I, tasks, k + 1, order, leaves, result)
  {
    hide Classify, IsLeafOf;
    OneMoreId(tasks, k);
    assert tasks[k].id !in Candidates(I) && tasks[k].id !in FirstResults(I);
    assert Candidates(I) * Ids(tasks[..k + 1]) == Candidates(I) * Ids(tasks[..k]);
    assert FirstResults(I).Keys * Ids(tasks[..k + 1]) == FirstResults(I).Keys * Ids(tasks[..k]);
  }

  lemma SortOut(I: Inputs, tasks: seq<Task>, k: nat, order: seq<int>, leaves: map<int, Leaf>, result: Results)
    requires UniqueIds(tasks) && k < |tasks| && SortedUpTo(I, tasks, k, order, leaves, result)
    requires tasks[k].id in I.tasks && !HasSubtasks(I.children, tasks[k].id) && ClassOf(I, tasks[k].id).Out?
    ensures SortedUpTo(I, tasks, k + 1, order, leaves, result[tasks[k].id := Gapped(ClassOf(I, tasks[k].id).gap)])
  {
    hide Classify, IsLeafOf;
    OneMoreId(tasks, k);
    assert tasks[k].id !in Candidates(I) && tasks[k].id in FirstResults(I);
    assert Candidates(I) * Ids(tasks[..k + 1]) == Candidates(I) * Ids(tasks[..k]);
    assert FirstResults(I).Keys * Ids(tasks[..k + 1]) == FirstResults(I).Keys * Ids(tasks[..k]) + {tasks[k].id};
  }

  lemma SortIn(I: Inputs, tasks: seq<Task>, k: nat, order: seq<int>, leaves: map<int, Leaf>, result: Results, leaf: Leaf)
    requires UniqueIds(tasks) && k < |tasks| && SortedUpTo(I, tasks, k, order, leaves, result)
    requires tasks[k].id in I.tasks && !HasSubtasks(I.children, tasks[k].id) && ClassOf(I, tasks[k].id).In?
    requires IsLeafOf(I, tasks[k].id, leaf)
    ensures SortedUpTo(I, tasks, k + 1, order + [tasks[k].id], leaves[tasks[k].id := leaf], result)
  {
    hide Classify, IsLeafOf;
    var id := tasks[k].id;
    OneMoreId(tasks, k);
    assert id in Candidates(I) && id !in FirstResults(I) && id !in leaves;
    assert Candidates(I) * Ids(tasks[..k + 1]) == Candidates(I) * Ids(tasks[..k]) + {id};
    assert FirstResults(I).Keys * Ids(tasks[..k + 1]) == FirstResults(I).Keys * Ids(tasks[..k]);
    assert ToSet(order + [id]) == ToSet(order) + {id};
    ConcatDistinct(order, [id]);
  }

  lemma EverythingSorted(I: Inputs, tasks: seq<Task>, order: seq<int>, leaves: map<int, Leaf>, result: Results)
    requires SortedUpTo(I, tasks, |tasks|, order, leaves, result) && Ids(tasks) == I.tasks.Keys
    ensures Distinct(order) && ToSet(order) == leaves.Keys && leaves.Keys == Candidates(I)
    ensures forall i :: i in leaves ==> IsLeafOf(I, i, leaves[i])
    ensures result == FirstResults(I)
  {
    hide Classify, IsLeafOf;
    assert tasks[..|tasks|] == tasks;
    assert Candidates(I) * Ids(tasks) == Candidates(I);
    assert FirstResults(I).Keys * Ids(tasks) == FirstResults(I).Keys;
  }

  // I describes what the forecaster was given.
  ghost predicate Matches(I: Inputs, tasks: seq<Task>, board: TaskProgressBoard, seats: map<SeatKey, WorkSeat>,
                          rootOf: RootOf, projectCalendar: CalendarOf) {
    && I.Valid() && I.tasks == board.tasks && I.children == board.children && I.actual == board.actual
    && I.seats == seats && I.rootOf == rootOf && I.projectCalendar == projectCalendar
    && Ids(tasks) == I.tasks.Keys && forall k :: 0 <= k < |tasks| ==> I.tasks[tasks[k].id] == tasks[k]
  }

  ghost predicate IsLeafOf(I: Inputs, i: int, leaf: Leaf) {
    && i in I.tasks && ClassOf(I, i).In?
    && leaf.task == I.tasks[i] && leaf.task.id == i && leaf.task == ClassOf(I, i).info.task
    && leaf.seatKey == ClassOf(I, i).info.seat && leaf.startedBefore == ClassOf(I, i).info.startedBefore
    && leaf.calendar == I.projectCalendar(leaf.task.project)
  }

  lemma OneMoreId(tasks: seq<Task>, k: nat)
    requires UniqueIds(tasks) && k < |tasks|
    ensures Ids(tasks[..k + 1]) == Ids(tasks[..k]) + {tasks[k].id} && tasks[k].id !in Ids(tasks[..k])
    ensures tasks[k].id in Ids(tasks)
  {
  }

  lemma ClassifiedLeaf(I: Inputs, i: int)
    requires I.Valid() && i in I.tasks && ClassOf(I, i).In?
    ensures ClassOf(I, i).info.task == I.tasks[i] && I.tasks[i].id == i
    ensures SeatOf(I.tasks[i], I.rootOf) == Some(ClassOf(I, i).info.seat) && ClassOf(I, i).info.seat in I.seats
  {
  }

  lemma WidenSpans(result: Results, seen: set<int>, f: TaskForecast, j: int)
    requires j in result && result[j].finish.Some?
    requires if f.finish.None? then f.start.None? && seen == {} else Spans(result, seen, f)
    ensures Spans(result, seen + {j}, Widen(f, result[j]))
    ensures Widen(f, result[j]).finish.Some?
    ensures Widen(f, result[j]).gap == f.gap && Widen(f, result[j]).overdueDays == f.overdueDays
  {
  }

  lemma SpansIgnoresOverdue(result: Results, seen: set<int>, f: TaskForecast, days: nat)
    requires Spans(result, seen, f)
    ensures Spans(result, seen, f.(overdueDays := days))
  {
  }

  // The earliest start and the latest finish of both.
  function Widen(f: TaskForecast, g: TaskForecast): TaskForecast
    requires g.finish.Some?
  {
    f.(finish := if f.finish.Some? && f.finish.value >= g.finish.value then f.finish else g.finish,
       start := if g.start.None? || (f.start.Some? && f.start.value <= g.start.value) then f.start else g.start)
  }

  // The dependee table says what the constraint lists and the board say.
  ghost predicate DependeesMatch(deps: Dependees, i: int, constraints: ConstraintLists, board: TaskProgressBoard) {
    forall j :: j in Of(deps, i) <==>
      exists c :: c in ListOn(constraints, i) && j in LeafSet(board.children, c.predecessor)
  }

  // One of the first n dependencies puts c on leaf i.
  ghost predicate AppliesBefore(I: Inputs, n: nat, i: int, c: Constraint)
    requires n <= |I.dependencies|
  {
    exists k :: 0 <= k < n && Applies(I, k, i) && c == I.dependencies[k].Constraint()
  }

  lemma NothingListed()
    ensures forall i, c :: c !in ListOn(map[], i)
  {
  }

  lemma BearsOn(I: Inputs, k: nat, ids: seq<int>)
    requires k < |I.dependencies| && I.dependencies[k].predecessor in I.tasks && I.dependencies[k].successor in I.tasks
    requires ToSet(ids) == LeafSet(I.children, I.dependencies[k].successor)
    ensures forall i :: Applies(I, k, i) <==> i in ids
  {
    hide LeafSet;
    assert forall i :: i in ids <==> i in ToSet(ids);
  }

  lemma BearsOnNothing(I: Inputs, k: nat)
    requires k < |I.dependencies|
    requires I.dependencies[k].predecessor !in I.tasks || I.dependencies[k].successor !in I.tasks
    ensures forall i :: !Applies(I, k, i)
  {
  }

  lemma NothingApplies(I: Inputs)
    ensures forall i, c :: !AppliesBefore(I, 0, i, c)
  {
  }

  lemma OneMoreApplies(I: Inputs, k: nat)
    requires k < |I.dependencies|
    ensures forall i, c :: AppliesBefore(I, k + 1, i, c) <==>
              AppliesBefore(I, k, i, c) || (c == I.dependencies[k].Constraint() && Applies(I, k, i))
  {
    hide Applies;
    forall i, c
      ensures AppliesBefore(I, k + 1, i, c) <==>
              AppliesBefore(I, k, i, c) || (c == I.dependencies[k].Constraint() && Applies(I, k, i))
    {
      assert AppliesBefore(I, k, i, c) ==> AppliesBefore(I, k + 1, i, c);
    }
  }

  lemma EverythingApplies(I: Inputs)
    ensures forall i, c :: AppliesBefore(I, |I.dependencies|, i, c) <==> c in ConstraintSet(I, i)
  {
    hide Applies;
  }

  function Without(ids: seq<int>, x: int): (r: seq<int>)
    ensures forall i :: i in r <==> i in ids && i != x
    ensures Distinct(ids) ==> Distinct(r)
  {
    if ids == [] then []
    else
      var i := ids[0];
      assert Distinct(ids) ==> i !in ids[1..];
      (if i == x then [] else [i]) + Without(ids[1..], x)
  }

  // Move one finish.
  method SetFinish(leaves: map<int, Leaf>, i: int, floor: Day)
    requires Keyed(leaves) && i in leaves && leaves[i].finish.Some? && floor > leaves[i].finish.value
    modifies leaves[i]
    ensures leaves[i].finish == Some(floor)
    ensures Snapshot(leaves) == RaiseTo(old(Snapshot(leaves)), i, floor)
  {
    leaves[i].finish := Some(floor);
    assert forall j :: j in leaves && j != i ==> leaves[j] != leaves[i];
  }

  method CountFinished(leaves: map<int, Leaf>, ids: seq<int>, day: Day) returns (n: nat)
    requires Distinct(ids) && forall i :: i in ids ==> i in leaves
    ensures n == |FinishedOn(Snapshot(leaves), ids, day)|
  {
    n := 0;
    ghost var L := Snapshot(leaves);
    for k := 0 to |ids|
      invariant n == |FinishedOn(L, ids[..k], day)|
    {
      var i := ids[k];
      assert i in ids && i !in ids[..k];
      assert ids[..k + 1] == ids[..k] + [i];
      if leaves[i].finish == Some(day) {
        assert FinishedOn(L, ids[..k + 1], day) == FinishedOn(L, ids[..k], day) + {i};
        n := n + 1;
      } else {
        assert FinishedOn(L, ids[..k + 1], day) == FinishedOn(L, ids[..k], day);
      }
    }
    assert ids[..|ids|] == ids;
  }

  function OpenLeaves(L: Leaves): set<int> {
    set i | i in L && L[i].finish.None?
  }

  function FinishedOn(L: Leaves, ids: seq<int>, day: Day): set<int> {
    set i | i in ids && i in L && L[i].finish == Some(day)
  }

  lemma EligibleIsOpen(S: Setup, i: int, day: Day, L: Leaves, given: set<int>)
    requires Eligible(S, i, day, L, given)
    ensures i in S.info && i in L && L[i].finish.None?
  {
  }

  // A hand-out finishes some of the ready leaves and changes no other finish.
  lemma {:induction false} ServeFinishes(S: Setup, key: SeatKey, ids: seq<int>, scale: real, day: Day, ds: DayState, j: int)
    requires key in S.seats && Distinct(ids) && j in ds.leaves
    requires forall i :: i in ids ==> i in S.info && i in ds.leaves && ds.leaves[i].finish.None?
    ensures var r := Serve(S, key, ids, scale, day, ds);
            r.leaves[j].finish == ds.leaves[j].finish || (j in ids && r.leaves[j].finish == Some(day))
  {
    if ids != [] {
      var i := ids[0];
      assert i in ids && i !in ids[1..];
      ServeFinishes(S, key, ids[1..], scale, day, ServeOne(S, key, i, scale, day, ds), j);
    }
  }

  lemma HandOutFinishes(S: Setup, key: SeatKey, ready: seq<int>, day: Day, ds: DayState)
    requires key in S.seats && Distinct(ready)
    requires forall i :: i in ready ==> i in S.info && i in ds.leaves && ds.leaves[i].finish.None?
    ensures var r := ForecastModel.HandOut(S, key, ready, day, ds);
            && r.leaves.Keys == ds.leaves.Keys
            && forall j :: j in ds.leaves ==>
                 r.leaves[j].finish == ds.leaves[j].finish || (j in ready && r.leaves[j].finish == Some(day))
  {
    hide Serve;
    forall j | j in ds.leaves
      ensures var r := ForecastModel.HandOut(S, key, ready, day, ds);
              r.leaves[j].finish == ds.leaves[j].finish || (j in ready && r.leaves[j].finish == Some(day))
    {
      ServeFinishes(S, key, Line(S, ready), DayScale(S, ready), day, ds, j);
    }
  }

  lemma FinishedLeaveTheOpen(L: Leaves, L': Leaves, ready: seq<int>, day: Day)
    requires L.Keys == L'.Keys
    requires forall i :: i in ready ==> i in L && L[i].finish.None?
    requires forall j :: j in L ==> L'[j].finish == L[j].finish || (j in ready && L'[j].finish == Some(day))
    ensures |OpenLeaves(L')| == |OpenLeaves(L)| - |FinishedOn(L', ready, day)|
  {
    var done := FinishedOn(L', ready, day);
    forall i | i in done ensures i in OpenLeaves(L) { assert i in ready; }
    forall i ensures i in OpenLeaves(L') <==> i in OpenLeaves(L) - done {
      if i in L { assert L'[i].finish == L[i].finish || (i in ready && L'[i].finish == Some(day)); }
    }
    assert OpenLeaves(L') == OpenLeaves(L) - done;
  }

  // ---- what the counters stand for -----------------------------------------------------------

  ghost predicate TracksAll(S: Setup, leaves: map<int, Leaf>, queues: seq<SeatQueue>, left: map<SeatKey, real>,
                            given: set<int>, ds: DayState)
    reads leaves.Values
  {
    && Keyed(leaves) && leaves.Keys == S.info.Keys
    && (forall i :: i in leaves ==> leaves[i].task == S.info[i].task)
    && ds.leaves == Snapshot(leaves) && ds.given.Keys == given
    && (forall a :: 0 <= a < |queues| ==> HoldsHours(S, queues[a].key, left, ds))
  }

  ghost predicate HoldsHours(S: Setup, key: SeatKey, left: map<SeatKey, real>, ds: DayState) {
    key in S.seats && key in left && ds.Left(key) == left[key]
  }

  lemma TrackedSeat(S: Setup, leaves: map<int, Leaf>, queues: seq<SeatQueue>, k: nat, left: map<SeatKey, real>,
                    given: set<int>, ds: DayState)
    requires TracksAll(S, leaves, queues, left, given, ds) && k < |queues|
    ensures queues[k].key in left && Tracks(S, leaves, queues[k].key, left[queues[k].key], given, ds)
  {
    assert HoldsHours(S, queues[k].key, left, ds);
  }

  lemma TrackedAfterVisit(S: Setup, leaves: map<int, Leaf>, queues: seq<SeatQueue>, k: nat, day: Day,
                          left: map<SeatKey, real>, hours: real, given: set<int>, ds: DayState, next: DayState)
    requires ValidQueues(S, queues) && k < |queues| && next == Visit(S, queues[k], day, ds)
    requires forall a :: 0 <= a < |queues| ==> HoldsHours(S, queues[a].key, left, ds)
    requires Tracks(S, leaves, queues[k].key, hours, given, next)
    ensures TracksAll(S, leaves, queues, left[queues[k].key := hours], given, next)
  {
    hide Visit, InOrder;
    forall a | 0 <= a < |queues| ensures HoldsHours(S, queues[a].key, left[queues[k].key := hours], next) {
      assert HoldsHours(S, queues[a].key, left, ds);
      if a != k {
        assert queues[a].key != queues[k].key;
        OtherVisitIsUnnoticed(S, queues, a, k, day, ds);
      }
    }
  }

  lemma MorningIsTracked(S: Setup, leaves: map<int, Leaf>, seats: map<SeatKey, WorkSeat>, constraints: ConstraintLists,
                         board: TaskProgressBoard, queues: seq<SeatQueue>, left: map<SeatKey, real>, day: Day)
    requires Fits(S, leaves, seats, constraints, board) && ValidQueues(S, queues)
    requires forall a :: 0 <= a < |queues| ==> queues[a].key in left && left[queues[a].key] == S.hours(queues[a].key, day)
    ensures TracksAll(S, leaves, queues, left, {}, Morning(S, day, Snapshot(leaves)))
  {
    var ds := Morning(S, day, Snapshot(leaves));
    assert ds.given.Keys == {};
    forall a | 0 <= a < |queues| ensures HoldsHours(S, queues[a].key, left, ds) { }
  }

  lemma DayIsRounds(S: Setup, queues: seq<SeatQueue>, day: Day, L: Leaves)
    ensures RunDay(S, queues, day, L) == Rounds(S, queues, day, Morning(S, day, L))
  {
  }

  lemma QueueOfSeat(S: Setup, queues: seq<SeatQueue>, a: nat)
    requires ValidQueues(S, queues) && a < |queues|
    ensures Distinct(queues[a].queue) && forall i :: i in queues[a].queue ==> i in S.info
  {
    assert InOrder(S, queues[a].queue);
    InOrderIsDistinct(S, queues[a].queue);
  }

  lemma NothingFinishedYet(S: Setup, L: Leaves)
    requires L == Initial(S)
    ensures OpenLeaves(L) == L.Keys
  {
  }

  lemma KeysOfSnapshot(leaves: map<int, Leaf>)
    ensures Snapshot(leaves).Keys == leaves.Keys && |leaves| == |leaves.Keys|
  {
  }

  lemma NoDaysRun(S: Setup, queues: seq<SeatQueue>)
    ensures After(S, queues, 0) == Initial(S)
  {
  }

  // Once every leaf is finished the remaining days change nothing.
  lemma {:induction false} NothingOpenNothingChanges(S: Setup, queues: seq<SeatQueue>, m: nat, n: nat)
    requires ValidQueues(S, queues) && m <= n && OpenLeaves(After(S, queues, m)) == {}
    ensures After(S, queues, n) == After(S, queues, m)
  {
    hide RunDay, ValidQueues, DayEntry;
    if m < n {
      NothingOpenNothingChanges(S, queues, m, n - 1);
      DayOfRun(S, queues, n - 1);
      var L, L', log := After(S, queues, n - 1), After(S, queues, n), ForecastModel.Given(S, queues, n - 1);
      forall i | i in S.info ensures L'[i] == L[i] {
        LeafOfDay(S, queues, S.today + (n - 1), L, L', log, i);
        assert i !in OpenLeaves(L);
      }
    }
  }

  // ---- floors ----------------------------------------------------------------------------------

  lemma RaisesItself(L: Leaves)
    ensures Raised(L, L)
  {
  }

  lemma JustifiedRaises(S: Setup, L0: Leaves, L: Leaves)
    requires Justified(S, L0, L)
    ensures Raised(L0, L)
  {
  }

  lemma ListCovers(S: Setup, L0: Leaves, L: Leaves, i: int, n: nat, list: seq<Constraint>)
    requires Raised(L0, L) && i in L && L[i].finish.Some?
    requires forall c :: c in S.ConstraintsOn(i) ==> c in list
    requires forall q :: 0 <= q < |list| ==> CoversVia(S, L0, list[q], n, L[i].finish.value)
    ensures LeafCovers(S, L0, L, i, n + 1)
  {
    hide CoversVia, Covers;
    AllViaCover(S, L0, i, n, L[i].finish.value);
  }

  lemma RoundCovers(S: Setup, L0: Leaves, L: Leaves, ids: seq<int>, n: nat)
    requires ToSet(ids) == L.Keys && forall q :: 0 <= q < |ids| ==> LeafCovers(S, L0, L, ids[q], n)
    ensures AllCover(S, L0, L, n)
  {
    hide LeafCovers;
    forall i | i in L ensures LeafCovers(S, L0, L, i, n) {
      assert i in ToSet(ids);
      var q :| 0 <= q < |ids| && ids[q] == i;
    }
  }

  lemma RoundMeets(S: Setup, L: Leaves, ids: seq<int>)
    requires ToSet(ids) == L.Keys && forall q :: 0 <= q < |ids| ==> FloorsMet(S, L, ids[q])
    ensures AllFloorsMet(S, L)
  {
    hide FloorsMet;
    forall i | i in L ensures FloorsMet(S, L, i) {
      assert i in ToSet(ids);
      var q :| 0 <= q < |ids| && ids[q] == i;
    }
  }

  lemma RoundsLift(S: Setup, L0: Leaves, L: Leaves, ids: seq<int>)
    requires Justified(S, L0, L) && AllCover(S, L0, L, |ids| + 1) && Distinct(ids) && ToSet(ids) == L.Keys
    ensures Lifted(S, L0, L)
  {
    hide Demands, Attained;
    DistinctLength(ids);
    assert |L0.Keys| == |ids|;
    forall i | i in L ensures LeafCovers(S, L0, L, i, |L0|) {
      assert LeafCovers(S, L0, L, i, |ids| + 1);
    }
  }

  // ---- waiting -----------------------------------------------------------------------------------

  // From the leaves `all` and the results `first`, the blocked leaves in `removed` have been taken out.
  ghost predicate TakenOut(deps: Dependees, all: map<int, Leaf>, first: Results, order: seq<int>,
                           leaves: map<int, Leaf>, result: Results, removed: set<int>) {
    && all.Keys !! first.Keys
    && Distinct(order) && ToSet(order) == leaves.Keys
    && removed <= all.Keys && leaves.Keys == all.Keys - removed
    && (forall i :: i in leaves ==> leaves[i] == all[i])
    && result == Marked(first, removed)
    && (forall i :: i in removed ==> Blocked(deps, all.Keys, first, i))
  }

  lemma TakenOutKeys(deps: Dependees, all: map<int, Leaf>, first: Results, order: seq<int>,
                     leaves: map<int, Leaf>, result: Results, removed: set<int>)
    requires TakenOut(deps, all, first, order, leaves, result, removed)
    ensures leaves.Keys <= all.Keys && Distinct(order) && ToSet(order) == leaves.Keys
    ensures forall k :: 0 <= k < |order| ==> order[k] in leaves
  {
    forall k | 0 <= k < |order| ensures order[k] in leaves { assert order[k] in ToSet(order); }
  }

  lemma TakeOut(deps: Dependees, all: map<int, Leaf>, first: Results, order: seq<int>,
                leaves: map<int, Leaf>, result: Results, removed: set<int>, i: int)
    requires TakenOut(deps, all, first, order, leaves, result, removed)
    requires i in leaves && Held(deps, leaves.Keys, result, i)
    ensures TakenOut(deps, all, first, Without(order, i), leaves - {i}, result[i := WAITS], removed + {i})
  {
    hide Held, Blocked, Marked;
    HeldIsBlocked(deps, all.Keys, first, removed, i);
    WithoutMembers(order, i);
    MarkedOneMore(first, removed, i);
  }

  lemma WithoutMembers(order: seq<int>, i: int)
    ensures ToSet(Without(order, i)) == ToSet(order) - {i}
  {
  }

  lemma MarkedOneMore(first: Results, removed: set<int>, i: int)
    ensures Marked(first, removed)[i := WAITS] == Marked(first, removed + {i})
  {
  }

  lemma AllBlockedTakenOut(deps: Dependees, all: map<int, Leaf>, first: Results, order: seq<int>,
                           leaves: map<int, Leaf>, result: Results, removed: set<int>)
    requires TakenOut(deps, all, first, order, leaves, result, removed)
    requires forall i :: i in leaves ==> !Held(deps, leaves.Keys, result, i)
    ensures removed == BlockedLeaves(deps, all.Keys, first)
  {
    hide Held, Blocked;
    forall i | i in BlockedLeaves(deps, all.Keys, first) ensures i in removed {
      NoBlockedLeafRemains(deps, all.Keys, first, removed, i);
    }
  }
}
