/** The books of a whole forecast: one entry per day, and what adds up over the days. */
module ForecastLedger {
  import opened Basics
  import opened WorkSeats
  import opened TaskBoard
  import opened ForecastModel
  import opened ForecastInvariants

  type DayLog = map<int, real>

  // What one day did to every leaf, and what it cost every seat.
  ghost predicate DayEntry(S: Setup, queues: seq<SeatQueue>, day: Day, L: Leaves, L': Leaves, log: DayLog) {
    && L.Keys == L'.Keys == S.info.Keys && log.Keys <= L.Keys
    && (forall i :: i in L ==> LeafEntry(S, i, day, L[i], L'[i], i in log, Entry(log, i)))
    && (forall a :: 0 <= a < |queues| ==> SeatEntry(S, queues[a], day, log))
  }

  ghost predicate LeafEntry(S: Setup, i: int, day: Day, s: LeafState, s': LeafState, served: bool, hours: real) {
    && i in S.info && 0.0 <= hours <= S.hours(S.info[i].seat, day)
    && Worked(S.eps, day, s, s', hours)
    && (served ==> s.finish.None? && S.works(i, day) && PlannedToStart(S, i, day)
                   && (S.Share(i) > 0 ==> hours <= Cut(S, S.info[i].seat, i, day, 1.0)))
    && (!served ==> hours == 0.0)
  }

  ghost predicate SeatEntry(S: Setup, sq: SeatQueue, day: Day, log: DayLog) {
    0.0 <= Sum(sq.queue, log) <= S.hours(sq.key, day)
  }

  // states[m] are the leaves after m days, logs[m] the hours of day m.
  ghost predicate Ledger(S: Setup, queues: seq<SeatQueue>, states: seq<Leaves>, logs: seq<DayLog>) {
    && |states| == |logs| + 1
    && states[0] == Initial(S)
    && (forall m :: 0 <= m < |logs| ==> DayEntry(S, queues, S.today + m, states[m], states[m + 1], logs[m]))
  }

  ghost function States(S: Setup, queues: seq<SeatQueue>, n: nat): seq<Leaves> {
    if n == 0 then [After(S, queues, 0)] else States(S, queues, n - 1) + [After(S, queues, n)]
  }

  ghost function Logs(S: Setup, queues: seq<SeatQueue>, n: nat): seq<DayLog> {
    if n == 0 then [] else Logs(S, queues, n - 1) + [Given(S, queues, n - 1)]
  }

  lemma {:induction false} SumIsNotNegative(ids: seq<int>, m: DayLog)
    requires forall i :: i in m ==> m[i] >= 0.0
    ensures Sum(ids, m) >= 0.0
  {
    if ids != [] { SumIsNotNegative(ids[1..], m); }
  }

  lemma {:induction false} EntryWithinSum(ids: seq<int>, m: DayLog, i: int)
    requires i in ids && forall j :: j in m ==> m[j] >= 0.0
    ensures Entry(m, i) <= Sum(ids, m)
  {
    SumIsNotNegative(ids[1..], m);
    if ids[0] != i { EntryWithinSum(ids[1..], m, i); }
  }

  lemma BooksMakeAnEntry(S: Setup, queues: seq<SeatQueue>, day: Day, L: Leaves, ds: DayState)
    requires ValidQueues(S, queues) && L.Keys == S.info.Keys && Books(S, queues, day, L, ds) && NothingOverspent(ds)
    ensures DayEntry(S, queues, day, L, ds.leaves, ds.given)
  {
    forall i | i in ds.given ensures ds.given[i] >= 0.0 { assert ServedRightly(S, i, day, L, ds); }
    forall a | 0 <= a < |queues| ensures SeatEntry(S, queues[a], day, ds.given) {
      assert SeatBalances(S, queues[a], day, ds);
      assert ds.Left(queues[a].key) >= 0.0;
      SumIsNotNegative(queues[a].queue, ds.given);
    }
    forall i | i in L
      ensures LeafEntry(S, i, day, L[i], ds.leaves[i], i in ds.given, Entry(ds.given, i))
    {
      assert ServedRightly(S, i, day, L, ds);
      var a :| 0 <= a < |queues| && queues[a].key == S.info[i].seat;
      assert SeatEntry(S, queues[a], day, ds.given);
      assert i in queues[a].queue;
      EntryWithinSum(queues[a].queue, ds.given, i);
    }
  }

  lemma DayOfRun(S: Setup, queues: seq<SeatQueue>, m: nat)
    requires ValidQueues(S, queues)
    ensures DayEntry(S, queues, S.today + m, After(S, queues, m), After(S, queues, m + 1), Given(S, queues, m))
  {
    hide RunDay, Books, DayEntry, ValidQueues, NothingOverspent;
    var L := After(S, queues, m);
    AfterNextDay(S, queues, m);
    DayBalances(S, queues, S.today + m, L);
    BooksMakeAnEntry(S, queues, S.today + m, L, RunDay(S, queues, S.today + m, L));
  }

  // Every forecast keeps the books.
  lemma {:induction false} RunKeepsLedger(S: Setup, queues: seq<SeatQueue>, n: nat)
    requires ValidQueues(S, queues)
    ensures Ledger(S, queues, States(S, queues, n), Logs(S, queues, n))
    ensures |States(S, queues, n)| == n + 1 && |Logs(S, queues, n)| == n
    ensures States(S, queues, n)[n] == After(S, queues, n)
  {
    hide RunDay, DayEntry, ValidQueues;
    if n > 0 {
      RunKeepsLedger(S, queues, n - 1);
      DayOfRun(S, queues, n - 1);
      LedgerExtends(S, queues, States(S, queues, n - 1), Logs(S, queues, n - 1), After(S, queues, n),
                    Given(S, queues, n - 1));
    }
  }

  lemma LedgerExtends(S: Setup, queues: seq<SeatQueue>, states: seq<Leaves>, logs: seq<DayLog>, L: Leaves, log: DayLog)
    requires Ledger(S, queues, states, logs)
    requires DayEntry(S, queues, S.today + |logs|, states[|logs|], L, log)
    ensures Ledger(S, queues, states + [L], logs + [log])
  {
    var states', logs' := states + [L], logs + [log];
    forall m | 0 <= m < |logs'|
      ensures DayEntry(S, queues, S.today + m, states'[m], states'[m + 1], logs'[m])
    {
      if m < |logs| { assert DayEntry(S, queues, S.today + m, states[m], states[m + 1], logs[m]); }
    }
  }

  // ---- what the books say ---------------------------------------------------------------

  // Hours leaf i was given over all logged days.
  function Hours(logs: seq<DayLog>, i: int): real {
    if logs == [] then 0.0 else Hours(logs[..|logs| - 1], i) + Entry(logs[|logs| - 1], i)
  }

  // An open leaf still has more than eps to do; a finished one has nothing, and started no later.
  ghost predicate Consistent(S: Setup, s: LeafState, until: Day) {
    if s.finish.None? then
      s.remaining > S.eps && (s.start.Some? ==> S.today <= s.start.value < until)
    else
      s.remaining == 0.0 && s.start.Some? && S.today <= s.start.value <= s.finish.value < until
  }

  ghost predicate Conserved(S: Setup, i: int, s: LeafState, hours: real) {
    i in S.info &&
    var rest := S.info[i].initial - hours;
    if s.finish.None? then s.remaining == rest else 0.0 <= rest <= S.eps
  }

  lemma ConservedStep(S: Setup, i: int, day: Day, s: LeafState, s': LeafState, served: bool, hours: real, sofar: real)
    requires LeafEntry(S, i, day, s, s', served, hours)
    requires S.today <= day && Consistent(S, s, day) && Conserved(S, i, s, sofar)
    ensures Consistent(S, s', day + 1) && Conserved(S, i, s', sofar + hours)
  {
  }

  lemma LedgerPrefix(S: Setup, queues: seq<SeatQueue>, states: seq<Leaves>, logs: seq<DayLog>)
    requires Ledger(S, queues, states, logs) && logs != []
    ensures Ledger(S, queues, states[..|logs|], logs[..|logs| - 1])
    ensures DayEntry(S, queues, S.today + |logs| - 1, states[|logs| - 1], states[|logs|], logs[|logs| - 1])
  {
    var m := |logs| - 1;
    assert DayEntry(S, queues, S.today + m, states[m], states[m + 1], logs[m]);
  }

  lemma LeafOfDay(S: Setup, queues: seq<SeatQueue>, day: Day, L: Leaves, L': Leaves, log: DayLog, i: int)
    requires DayEntry(S, queues, day, L, L', log) && i in S.info
    ensures i in L && i in L' && LeafEntry(S, i, day, L[i], L'[i], i in log, Entry(log, i))
  {
  }

  // Hours worked and hours left make up the initial remainder: exactly while the leaf is open, and up to one
  // eps once it is finished.
  lemma {:induction false} HoursAreConserved(S: Setup, queues: seq<SeatQueue>, states: seq<Leaves>, logs: seq<DayLog>,
                                             i: int)
    requires Ledger(S, queues, states, logs) && i in S.info
    ensures i in states[|logs|] && Hours(logs, i) >= 0.0
    ensures Consistent(S, states[|logs|][i], S.today + |logs|)
    ensures Conserved(S, i, states[|logs|][i], Hours(logs, i))
  {
    hide DayEntry, LeafEntry, Consistent, Conserved;
    if logs == [] {
      NothingDoneYet(S, i);
    } else {
      var m := |logs| - 1;
      LedgerPrefix(S, queues, states, logs);
      HoursAreConserved(S, queues, states[..m + 1], logs[..m], i);
      LeafOfDay(S, queues, S.today + m, states[m], states[m + 1], logs[m], i);
      ConservedStep(S, i, S.today + m, states[m][i], states[m + 1][i], i in logs[m], Entry(logs[m], i), Hours(logs[..m], i));
      HoursOfEntry(S, i, S.today + m, states[m][i], states[m + 1][i], i in logs[m], Entry(logs[m], i));
    }
  }

  lemma NothingDoneYet(S: Setup, i: int)
    requires i in S.info
    ensures i in Initial(S) && Consistent(S, Initial(S)[i], S.today) && Conserved(S, i, Initial(S)[i], 0.0)
  {
  }

  lemma HoursOfEntry(S: Setup, i: int, day: Day, s: LeafState, s': LeafState, served: bool, hours: real)
    requires LeafEntry(S, i, day, s, s', served, hours)
    ensures hours >= 0.0
  {
    hide Worked;
  }

  // The hours of a seat over the first n days.
  function Capacity(S: Setup, key: SeatKey, n: nat): real {
    if n == 0 then 0.0 else Capacity(S, key, n - 1) + S.hours(key, S.today + n - 1)
  }

  function TotalHours(logs: seq<DayLog>, ids: seq<int>): real {
    if ids == [] then 0.0 else Hours(logs, ids[0]) + TotalHours(logs, ids[1..])
  }

  lemma {:induction false} TotalHoursStep(logs: seq<DayLog>, ids: seq<int>)
    requires logs != []
    ensures TotalHours(logs, ids) == TotalHours(logs[..|logs| - 1], ids) + Sum(ids, logs[|logs| - 1])
  {
    if ids != [] { TotalHoursStep(logs, ids[1..]); }
  }

  lemma {:induction false} NoDaysNoHours(ids: seq<int>)
    ensures TotalHours([], ids) == 0.0
  {
    if ids != [] { NoDaysNoHours(ids[1..]); }
  }

  // However the days are spent, the leaves of a seat never get more hours than the person has.
  lemma {:induction false} CapacityIsRespected(S: Setup, queues: seq<SeatQueue>, states: seq<Leaves>,
                                               logs: seq<DayLog>, a: nat)
    requires Ledger(S, queues, states, logs) && a < |queues|
    ensures TotalHours(logs, queues[a].queue) <= Capacity(S, queues[a].key, |logs|)
  {
    if logs == [] {
      NoDaysNoHours(queues[a].queue);
    } else {
      var m := |logs| - 1;
      LedgerPrefix(S, queues, states, logs);
      CapacityIsRespected(S, queues, states[..m + 1], logs[..m], a);
      TotalHoursStep(logs, queues[a].queue);
      assert SeatEntry(S, queues[a], S.today + m, logs[m]);
    }
  }

  // The work of the finished leaves in a list, each rounded down by eps.
  ghost function FinishedWork(S: Setup, L: Leaves, ids: seq<int>): real {
    if ids == [] then 0.0
    else (if ids[0] in L && L[ids[0]].finish.Some? && ids[0] in S.info then S.info[ids[0]].initial - S.eps else 0.0)
         + FinishedWork(S, L, ids[1..])
  }

  lemma {:induction false} FinishedWorkWasDone(S: Setup, queues: seq<SeatQueue>, states: seq<Leaves>,
                                               logs: seq<DayLog>, ids: seq<int>)
    requires Ledger(S, queues, states, logs) && forall i :: i in ids ==> i in S.info
    ensures FinishedWork(S, states[|logs|], ids) <= TotalHours(logs, ids)
  {
    if ids != [] {
      assert ids[0] in ids;
      FinishedWorkWasDone(S, queues, states, logs, ids[1..]);
      HoursAreConserved(S, queues, states, logs, ids[0]);
    }
  }

  // No seat finishes leaves before its cumulative hours cover their work.
  lemma NoFinishBeforeCapacityCoversIt(S: Setup, queues: seq<SeatQueue>, n: nat, a: nat)
    requires ValidQueues(S, queues) && a < |queues|
    ensures FinishedWork(S, After(S, queues, n), queues[a].queue)
            <= Capacity(S, queues[a].key, n)
  {
    var states, logs := States(S, queues, n), Logs(S, queues, n);
    RunKeepsLedger(S, queues, n);
    FinishedWorkWasDone(S, queues, states, logs, queues[a].queue);
    CapacityIsRespected(S, queues, states, logs, a);
  }

  // The hours of the days on which leaf i may be worked on and its planned start has come.
  function OwnCapacity(S: Setup, i: int, n: nat): real
    requires i in S.info
  {
    if n == 0 then 0.0
    else
      var day := S.today + n - 1;
      OwnCapacity(S, i, n - 1) + if S.works(i, day) && PlannedToStart(S, i, day) then S.hours(S.info[i].seat, day) else 0.0
  }

  lemma {:induction false} OwnCapacityCoversHours(S: Setup, queues: seq<SeatQueue>, states: seq<Leaves>,
                                                  logs: seq<DayLog>, i: int)
    requires Ledger(S, queues, states, logs) && i in S.info
    ensures Hours(logs, i) <= OwnCapacity(S, i, |logs|)
  {
    if logs != [] {
      var m := |logs| - 1;
      LedgerPrefix(S, queues, states, logs);
      OwnCapacityCoversHours(S, queues, states[..m + 1], logs[..m], i);
      LeafOfDay(S, queues, S.today + m, states[m], states[m + 1], logs[m], i);
    }
  }

  // No leaf finishes before the days it may be worked on hold enough hours for it, whoever else is in the queue.
  lemma NoLeafFinishesEarly(S: Setup, queues: seq<SeatQueue>, n: nat, i: int)
    requires ValidQueues(S, queues) && i in S.info
    ensures After(S, queues, n)[i].finish.Some? ==> S.info[i].initial - S.eps <= OwnCapacity(S, i, n)
  {
    var states, logs := States(S, queues, n), Logs(S, queues, n);
    RunKeepsLedger(S, queues, n);
    HoursAreConserved(S, queues, states, logs, i);
    OwnCapacityCoversHours(S, queues, states, logs, i);
  }

  // ---- dates ------------------------------------------------------------------------------

  // Day m is the first that gave the leaf hours.
  ghost predicate FirstServed(logs: seq<DayLog>, i: int, m: nat) {
    m < |logs| && Entry(logs[m], i) > 0.0 && forall k :: 0 <= k < m ==> Entry(logs[k], i) == 0.0
  }

  // Day m gave the leaf hours, after which no more than eps was left to do.
  ghost predicate LastServed(S: Setup, logs: seq<DayLog>, i: int, m: nat)
    requires i in S.info
  {
    m < |logs| && Entry(logs[m], i) > 0.0 && S.info[i].initial - Hours(logs[..m + 1], i) <= S.eps
  }

  lemma {:induction false} UnservedHasNotStarted(S: Setup, queues: seq<SeatQueue>, states: seq<Leaves>, logs: seq<DayLog>, i: int)
    requires Ledger(S, queues, states, logs) && i in S.info
    ensures i in states[|logs|]
    ensures states[|logs|][i].start.None? <==> forall k :: 0 <= k < |logs| ==> Entry(logs[k], i) == 0.0
  {
    if logs != [] {
      var m := |logs| - 1;
      LedgerPrefix(S, queues, states, logs);
      UnservedHasNotStarted(S, queues, states[..m + 1], logs[..m], i);
      LeafOfDay(S, queues, S.today + m, states[m], states[m + 1], logs[m], i);
      hide DayEntry;
      assert forall k :: 0 <= k < m ==> logs[..m][k] == logs[k];
    }
  }

  lemma DatesOfEntry(S: Setup, i: int, day: Day, s: LeafState, s': LeafState, served: bool, hours: real, sofar: real)
    requires LeafEntry(S, i, day, s, s', served, hours)
    requires Consistent(S, s, day) && Conserved(S, i, s, sofar)
    ensures s'.start == Some(day) <==> s.start.None? && hours > 0.0
    ensures s'.finish == Some(day) <==> hours > 0.0 && S.info[i].initial - (sofar + hours) <= S.eps
    ensures forall d :: d < day ==> (s'.start == Some(d) <==> s.start == Some(d)) && (s'.finish == Some(d) <==> s.finish == Some(d))
    ensures forall d :: d > day ==> s'.start != Some(d) && s'.finish != Some(d)
  {
  }

  /** A leaf starts on the first day that gives it hours, and finishes on the day whose hours leave no more than eps to do. */
  lemma {:induction false} DatesFollowHours(S: Setup, queues: seq<SeatQueue>, states: seq<Leaves>, logs: seq<DayLog>, i: int,
                                            m: nat)
    requires Ledger(S, queues, states, logs) && i in S.info
    ensures i in states[|logs|]
    ensures states[|logs|][i].start == Some(S.today + m) <==> FirstServed(logs, i, m)
    ensures states[|logs|][i].finish == Some(S.today + m) <==> LastServed(S, logs, i, m)
  {
    hide DayEntry, LeafEntry, Consistent, Conserved;
    if logs != [] {
      var n := |logs| - 1;
      LedgerPrefix(S, queues, states, logs);
      DatesFollowHours(S, queues, states[..n + 1], logs[..n], i, m);
      UnservedHasNotStarted(S, queues, states[..n + 1], logs[..n], i);
      HoursAreConserved(S, queues, states[..n + 1], logs[..n], i);
      LeafOfDay(S, queues, S.today + n, states[n], states[n + 1], logs[n], i);
      DatesOfEntry(S, i, S.today + n, states[n][i], states[n + 1][i], i in logs[n], Entry(logs[n], i), Hours(logs[..n], i));
      assert forall k :: 0 <= k < n ==> logs[..n][k] == logs[k];
      if m < n { assert logs[..n][..m + 1] == logs[..m + 1]; }
      if m == n { assert logs[..m + 1] == logs; }
    }
  }
}
