/** The forecaster's working objects: leaves whose remainder, start and finish change as days go by. */
module LeafWork {
  import opened Basics
  import opened WorkSeats
  import opened TaskBoard
  import opened ForecastModel

  class Leaf {
    const task: Task
    const seatKey: SeatKey
    const startedBefore: bool
    const calendar: Option<TeamCalendar>
    var remaining: real
    var start: Option<Day>
    var finish: Option<Day>

    constructor (task: Task, seatKey: SeatKey, remaining: real, startedBefore: bool, calendar: Option<TeamCalendar>)
      ensures this.task == task && this.seatKey == seatKey && this.startedBefore == startedBefore
      ensures this.calendar == calendar && State() == LeafState(remaining, None, None)
    {
      this.task, this.seatKey, this.startedBefore, this.calendar := task, seatKey, startedBefore, calendar;
      this.remaining, start, finish := remaining, None, None;
    }

    function State(): LeafState
      reads this
    {
      LeafState(remaining, start, finish)
    }

    // Work on the leaf for up to `hours`; returns the hours used.
    method Work(eps: real, hours: real, day: Day) returns (used: real)
      modifies this
      ensures (State(), used) == ForecastModel.Work(eps, old(State()), hours, day)
    {
      used := Min(Max(hours, 0.0), remaining);
      if used <= eps {
        return 0.0;
      }
      if start.None? {
        start := Some(day);
      }
      remaining := remaining - used;
      if remaining <= eps {
        remaining := 0.0;
        finish := Some(day);
      }
    }
  }

  // Leaves are kept under the number of their task, so no two entries share an object.
  ghost predicate Keyed(leaves: map<int, Leaf>) {
    forall i :: i in leaves ==> leaves[i].task.id == i
  }

  ghost function Snapshot(leaves: map<int, Leaf>): Leaves
    reads leaves.Values
  {
    map i | i in leaves :: leaves[i].State()
  }

  // Working on one leaf changes one entry of the snapshot.
  method WorkOn(leaves: map<int, Leaf>, i: int, eps: real, hours: real, day: Day) returns (used: real)
    requires Keyed(leaves) && i in leaves
    modifies leaves[i]
    ensures var (state, spent) := ForecastModel.Work(eps, old(leaves[i].State()), hours, day);
            used == spent && Snapshot(leaves) == old(Snapshot(leaves))[i := state]
  {
    used := leaves[i].Work(eps, hours, day);
    assert forall j :: j in leaves && j != i ==> leaves[j] != leaves[i];
  }

  // A leaf's calendar is its project's, or else its seat's.
  function LeafCalendar(leaf: Leaf, seat: WorkSeat): TeamCalendar {
    if leaf.calendar.Some? then leaf.calendar.value else seat.calendar
  }

  // The leaves and tables the forecaster works with are those S describes.
  ghost predicate Describes(S: Setup, leaves: map<int, Leaf>, seats: map<SeatKey, WorkSeat>) {
    && Keyed(leaves) && leaves.Keys == S.info.Keys && S.seats == seats.Keys
    && (forall i :: i in leaves ==>
          && leaves[i].task == S.info[i].task && leaves[i].seatKey == S.info[i].seat
          && leaves[i].startedBefore == S.info[i].startedBefore)
    && (forall key, day :: key in seats ==> S.hours(key, day) == seats[key].PersonHours(day))
    && (forall i, day :: i in leaves && leaves[i].seatKey in seats ==>
          S.works(i, day) == seats[leaves[i].seatKey].WorksOn(S.eps, day, LeafCalendar(leaves[i], seats[leaves[i].seatKey])))
  }

  // The leaves that take a percentage.
  function SharedOf(leaves: map<int, Leaf>, ids: seq<int>): seq<int>
    requires forall i :: i in ids ==> i in leaves
  {
    if ids == [] then []
    else
      var i := ids[0];
      assert i in ids;
      (if ShareOf(leaves[i].task) > 0 then [i] else []) + SharedOf(leaves, ids[1..])
  }

  function PercentOf(leaves: map<int, Leaf>, ids: seq<int>): int
    requires forall i :: i in ids ==> i in leaves
  {
    if ids == [] then 0
    else
      var i := ids[0];
      assert i in ids;
      ShareOf(leaves[i].task) + PercentOf(leaves, ids[1..])
  }

  lemma {:induction false} SharesAgree(S: Setup, leaves: map<int, Leaf>, ids: seq<int>)
    requires leaves.Keys == S.info.Keys && forall i :: i in leaves ==> leaves[i].task == S.info[i].task
    requires forall i :: i in ids ==> i in leaves
    ensures SharedOf(leaves, ids) == Shared(S, ids) && PercentOf(leaves, ids) == TotalPercent(S, ids)
  {
    if ids != [] {
      var i := ids[0];
      assert i in ids;
      SharesAgree(S, leaves, ids[1..]);
    }
  }

  // The state `ds` is what the objects and this seat's counters stand for.
  ghost predicate Tracks(S: Setup, leaves: map<int, Leaf>, key: SeatKey, left: real, given: set<int>, ds: DayState)
    reads leaves.Values
  {
    && Keyed(leaves) && leaves.Keys == S.info.Keys && key in S.seats
    && (forall i :: i in leaves ==> leaves[i].task == S.info[i].task)
    && ds.leaves == Snapshot(leaves) && ds.Left(key) == left && ds.given.Keys == given
  }

  // Serve one leaf and keep the account.
  method ServeLeaf(eps: real, leaves: map<int, Leaf>, i: int, hours: real, left: real, day: Day, given: set<int>,
                   ghost S: Setup, ghost key: SeatKey, ghost ds: DayState)
    returns (rest: real, served: set<int>)
    requires eps == S.eps && Tracks(S, leaves, key, left, given, ds) && i in leaves
    modifies leaves[i]
    ensures Tracks(S, leaves, key, rest, served, Give(eps, day, ds, key, i, hours))
  {
    hide ForecastModel.Work;
    var used := WorkOn(leaves, i, eps, hours, day);
    rest := left - used;
    served := given + {i};
  }

  // Percentages first: "percentage of the day's hours", all scaled down together when they exceed the day.
  method HandOutShares(eps: real, leaves: map<int, Leaf>, shared: seq<int>, scale: real, capacity: real, left: real,
                       day: Day, given: set<int>, ghost others: seq<int>, ghost S: Setup, ghost key: SeatKey,
                       ghost ds: DayState)
    returns (rest: real, served: set<int>, ghost after: DayState)
    requires eps == S.eps && Tracks(S, leaves, key, left, given, ds) && capacity == S.hours(key, day)
    requires forall i :: i in shared ==> i in leaves && S.Share(i) > 0
    requires forall i :: i in others ==> i in leaves
    modifies leaves.Values
    ensures Tracks(S, leaves, key, rest, served, after) && after.leaves.Keys == ds.leaves.Keys
    ensures Serve(S, key, others, scale, day, after) == Serve(S, key, shared + others, scale, day, ds)
  {
    hide Portion, Give;
    rest, served, after := left, given, ds;
    assert shared[0..] == shared;
    for k := 0 to |shared|
      invariant Tracks(S, leaves, key, rest, served, after)
      invariant Serve(S, key, shared[k..] + others, scale, day, after) == Serve(S, key, shared + others, scale, day, ds)
    {
      var i := shared[k];
      assert i in shared;
      var hours := Min(Portion(capacity, ShareOf(leaves[i].task), scale), rest);
      ghost var next := Give(eps, day, after, key, i, hours);
      ShareStep(S, key, shared, others, k, scale, day, after);
      rest, served := ServeLeaf(eps, leaves, i, hours, rest, day, served, S, key, after);
      after := next;
    }
    assert shared[|shared|..] + others == others;
  }

  lemma ShareStep(S: Setup, key: SeatKey, shared: seq<int>, others: seq<int>, k: nat, scale: real, day: Day, ds: DayState)
    requires key in S.seats && k < |shared| && forall i :: i in shared + others ==> i in S.info && i in ds.leaves
    requires S.Share(shared[k]) > 0
    ensures var i := shared[k];
            Serve(S, key, shared[k..] + others, scale, day, ds)
            == Serve(S, key, shared[k + 1..] + others, scale, day,
                     Give(S.eps, day, ds, key, i, Min(Cut(S, key, i, day, scale), ds.Left(key))))
  {
    hide Give;
    var line := shared[k..] + others;
    assert line[0] == shared[k] && line[1..] == shared[k + 1..] + others;
  }

  lemma RestStep(S: Setup, key: SeatKey, ready: seq<int>, k: nat, scale: real, day: Day, ds: DayState)
    requires key in S.seats && k < |ready| && forall i :: i in ready ==> i in S.info && i in ds.leaves
    ensures var i := ready[k];
            i in ds.leaves && i in S.info &&
            Serve(S, key, Unshared(S, ready[k..]), scale, day, ds)
            == Serve(S, key, Unshared(S, ready[k + 1..]), scale, day,
                     if S.Share(i) > 0 || ds.Left(key) <= S.eps then ds else Give(S.eps, day, ds, key, i, ds.Left(key)))
  {
    hide Give;
    var i := ready[k];
    assert i in ready;
    assert ready[k..][0] == i && ready[k..][1..] == ready[k + 1..];
    if S.Share(i) > 0 {
      assert Unshared(S, ready[k..]) == Unshared(S, ready[k + 1..]);
    } else {
      var line := Unshared(S, ready[k..]);
      assert line[0] == i && line[1..] == Unshared(S, ready[k + 1..]);
    }
  }

  // What is left goes to the others in queue order.
  method HandOutRest(eps: real, leaves: map<int, Leaf>, ready: seq<int>, left: real, day: Day, given: set<int>,
                     ghost scale: real, ghost S: Setup, ghost key: SeatKey, ghost ds: DayState)
    returns (rest: real, served: set<int>, ghost after: DayState)
    requires eps == S.eps && Tracks(S, leaves, key, left, given, ds)
    requires forall i :: i in ready ==> i in leaves
    modifies leaves.Values
    ensures Tracks(S, leaves, key, rest, served, after)
    ensures after == Serve(S, key, Unshared(S, ready), scale, day, ds)
  {
    hide Serve, Give;
    rest, served, after := left, given, ds;
    assert ready[0..] == ready;
    for k := 0 to |ready|
      invariant Tracks(S, leaves, key, rest, served, after)
      invariant Serve(S, key, Unshared(S, ready[k..]), scale, day, after)
                == Serve(S, key, Unshared(S, ready), scale, day, ds)
    {
      var i := ready[k];
      assert i in ready;
      RestStep(S, key, ready, k, scale, day, after);
      if ShareOf(leaves[i].task) > 0 || rest <= eps {
        continue;
      }
      ghost var next := Give(eps, day, after, key, i, rest);
      rest, served := ServeLeaf(eps, leaves, i, rest, rest, day, served, S, key, after);
      after := next;
    }
    assert Unshared(S, ready[|ready|..]) == [];
    ServingNobody(S, key, scale, day, after);
  }

  // Hand a seat's hours to its ready leaves.
  method HandOutHours(eps: real, leaves: map<int, Leaf>, ready: seq<int>, capacity: real, left: real, day: Day,
                 given: set<int>, ghost S: Setup, ghost key: SeatKey, ghost ds: DayState)
    returns (rest: real, served: set<int>, ghost after: DayState)
    requires eps == S.eps && Tracks(S, leaves, key, left, given, ds) && capacity == S.hours(key, day)
    requires forall i :: i in ready ==> i in leaves
    modifies leaves.Values
    ensures Tracks(S, leaves, key, rest, served, after)
    ensures after == ForecastModel.HandOut(S, key, ready, day, ds)
  {
    hide Serve;
    SharesAgree(S, leaves, ready);
    var shared := SharedOf(leaves, ready);
    SharesAgree(S, leaves, shared);
    var scale := Scale(PercentOf(leaves, shared));
    rest, served, after := HandOutShares(eps, leaves, shared, scale, capacity, left, day, given, Unshared(S, ready), S,
                                         key, ds);
    rest, served, after := HandOutRest(eps, leaves, ready, rest, day, served, scale, S, key, after);
  }
}
