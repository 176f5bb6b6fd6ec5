/** Which leaves are left out of a forecast because something they depend on cannot be forecast. */
module ForecastWaiting {
  import opened Basics
  import opened WorkSeats

  // Why a task has no forecast.
  datatype Gap = Finished | NoAssignee | NoRemaining | NoCapacity | WaitingForOthers | ChildUnforecast | BeyondHorizon

  datatype TaskForecast = TaskForecast(start: Option<Day>, finish: Option<Day>, gap: Option<Gap>, overdueDays: nat)

  type Results = map<int, TaskForecast>

  // Under each leaf, the leaves behind anything it depends on.
  type Dependees = map<int, set<int>>

  function Of(deps: Dependees, i: int): set<int> {
    if i in deps then deps[i] else {}
  }

  ghost predicate HasNoForecast(result: Results, j: int) {
    j in result && result[j].gap != Some(Finished)
  }

  // A chain of dependencies through leaves that ends at a task without a forecast.
  ghost predicate BlockingChain(deps: Dependees, leaves: set<int>, result: Results, chain: seq<int>) {
    && |chain| >= 2
    && (forall k :: 0 <= k < |chain| - 1 ==> chain[k] in leaves && chain[k + 1] in Of(deps, chain[k]))
    && chain[|chain| - 1] !in leaves && HasNoForecast(result, chain[|chain| - 1])
  }

  ghost predicate Blocked(deps: Dependees, leaves: set<int>, result: Results, i: int) {
    exists chain :: BlockingChain(deps, leaves, result, chain) && chain[0] == i
  }

  // Something leaf i depends on is out of the forecast for another reason than being finished.
  ghost predicate Held(deps: Dependees, leaves: set<int>, result: Results, i: int) {
    exists j :: j in Of(deps, i) && j !in leaves && HasNoForecast(result, j)
  }

  const WAITS := TaskForecast(None, None, Some(WaitingForOthers), 0)

  // The table once the leaves in `removed` have been marked as waiting.
  function Marked(result: Results, removed: set<int>): Results {
    result + map i | i in removed :: WAITS
  }

  // A removed leaf blocks whoever depends on it.
  lemma HeldIsBlocked(deps: Dependees, leaves: set<int>, result: Results, removed: set<int>, i: int)
    requires i in leaves && removed <= leaves && leaves !! result.Keys
    requires forall r :: r in removed ==> Blocked(deps, leaves, result, r)
    requires Held(deps, leaves - removed, Marked(result, removed), i)
    ensures Blocked(deps, leaves, result, i)
  {
    var j :| j in Of(deps, i) && j !in leaves - removed && HasNoForecast(Marked(result, removed), j);
    if j in removed {
      var chain :| BlockingChain(deps, leaves, result, chain) && chain[0] == j;
      var longer := [i] + chain;
      forall k | 0 <= k < |longer| - 1
        ensures longer[k] in leaves && longer[k + 1] in Of(deps, longer[k])
      {
        if k > 0 { assert longer[k] == chain[k - 1] && longer[k + 1] == chain[k - 1 + 1]; }
      }
      assert longer[|longer| - 1] == chain[|chain| - 1];
      assert BlockingChain(deps, leaves, result, longer);
    } else {
      assert BlockingChain(deps, leaves, result, [i, j]);
    }
  }

  // When nobody left in is held any more, every blocked leaf has been removed.
  lemma NoBlockedLeafRemains(deps: Dependees, leaves: set<int>, result: Results, removed: set<int>, i: int)
    requires removed <= leaves && leaves !! result.Keys
    requires forall x :: x in leaves - removed ==> !Held(deps, leaves - removed, Marked(result, removed), x)
    requires Blocked(deps, leaves, result, i)
    ensures i in removed
  {
    var chain :| BlockingChain(deps, leaves, result, chain) && chain[0] == i;
    var k := |chain| - 1;
    while k > 0
      invariant 0 <= k < |chain|
      invariant if k == |chain| - 1 then chain[k] !in leaves else chain[k] in removed
    {
      var x, j := chain[k - 1], chain[k - 1 + 1];
      assert x in leaves && j in Of(deps, x);
      assert HasNoForecast(Marked(result, removed), j) && j !in leaves - removed;
      assert Held(deps, leaves - removed, Marked(result, removed), x);
      k := k - 1;
    }
  }

  ghost function BlockedLeaves(deps: Dependees, leaves: set<int>, result: Results): set<int> {
    set i | i in leaves && Blocked(deps, leaves, result, i)
  }

  // Afterwards, a missing leaf behind anything a remaining leaf depends on is one that is finished (or no task at
  // all): reading "missing" as "already over" is right for the rest of the forecast.
  lemma MissingMeansFinished(deps: Dependees, leaves: set<int>, result: Results, i: int, j: int)
    requires leaves !! result.Keys
    requires var remaining := leaves - BlockedLeaves(deps, leaves, result);
             i in remaining && j in Of(deps, i) && j !in remaining
    ensures var final := Marked(result, BlockedLeaves(deps, leaves, result));
            j in final ==> final[j].gap == Some(Finished)
  {
    var removed := BlockedLeaves(deps, leaves, result);
    var final := Marked(result, removed);
    if HasNoForecast(final, j) {
      assert Held(deps, leaves - removed, final, i);
      HeldIsBlocked(deps, leaves, result, removed, i);
      assert false;
    }
  }
}
