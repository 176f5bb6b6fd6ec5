/** Dependencies between tasks, and the ring check that guards them. */
module DependencyUseCases {
  import opened Basics
  import opened Reachability

  datatype Kind = FinishToStart | StartToStart | FinishToFinish | StartToFinish

  datatype Link = Link(kind: Kind, lag: int)

  // The stored dependencies, one for each predecessor and successor.
  type Dependencies = map<(int, int), Link>

  // Up from a successor to its predecessors.
  ghost predicate Climbs(deps: Dependencies, p: seq<int>) {
    |p| > 0 && forall k :: 0 <= k < |p| - 1 ==> Rung(deps, p, k)
  }

  ghost predicate Rung(deps: Dependencies, p: seq<int>, k: int)
    requires 0 <= k < |p| - 1
  {
    (p[k + 1], p[k]) in deps
  }

  // b is a, or a predecessor of a, or a predecessor of one of those, and so on.
  ghost predicate DependsOn(deps: Dependencies, a: int, b: int) {
    exists p :: Climbs(deps, p) && p[0] == a && p[|p| - 1] == b
  }

  // No task waits for itself.
  ghost predicate Acyclic(deps: Dependencies) {
    forall e :: e in deps ==> !DependsOn(deps, e.0, e.1)
  }

  // ---- the check -------------------------------------------------------------------------------

  // g lists the predecessors of each successor.
  ghost predicate ListsPredecessors(deps: Dependencies, g: Graph) {
    forall x, y :: y in Next(g, x) <==> (y, x) in deps
  }

  lemma SameWalks(deps: Dependencies, g: Graph, a: int, b: int)
    requires ListsPredecessors(deps, g)
    ensures Reachable(g, a, b) <==> DependsOn(deps, a, b)
  {
    if Reachable(g, a, b) {
      var p :| WalkBetween(g, a, b, p);
      forall k | 0 <= k < |p| - 1 ensures Rung(deps, p, k) {
        assert Linked(g, p, k);
        var x, y := p[k], p[k + 1];
        assert y in Next(g, x) <==> (y, x) in deps;
      }
      assert Climbs(deps, p);
    }
    if DependsOn(deps, a, b) {
      var p :| Climbs(deps, p) && p[0] == a && p[|p| - 1] == b;
      forall k | 0 <= k < |p| - 1 ensures Linked(g, p, k) {
        assert Rung(deps, p, k);
        var x, y := p[k], p[k + 1];
        assert y in Next(g, x) <==> (y, x) in deps;
      }
      assert WalkBetween(g, a, b, p);
    }
  }

  method PredecessorLists(deps: Dependencies) returns (g: Graph)
    ensures ListsPredecessors(deps, g)
  {
    g := map[];
    var todo := deps.Keys;
    while todo != {}
      invariant todo <= deps.Keys
      invariant forall x, y :: y in Next(g, x) <==> (y, x) in deps.Keys - todo
      decreases todo
    {
      var e :| e in todo;
      ghost var before, left := g, todo;
      g := g[e.1 := Next(g, e.1) + [e.0]];
      todo := todo - {e};
      forall x, y
        ensures y in Next(g, x) <==> (y, x) in deps.Keys - todo
      {
        assert Next(g, x) == if x == e.1 then Next(before, x) + [e.0] else Next(before, x);
        assert y in Next(before, x) <==> (y, x) in deps.Keys - left;
      }
    }
  }

  /** The check answers yes exactly when the new successor is the new predecessor or is depended on by it. */
  method HasCycle(deps: Dependencies, newPred: int, newSucc: int) returns (cycle: bool)
    ensures cycle <==> DependsOn(deps, newPred, newSucc)
  {
    var graph := PredecessorLists(deps);
    SameWalks(deps, graph, newPred, newSucc);
    var visited := {};
    var stack := [newPred];
    ReachesItself(graph, newPred);
    while stack != []
      invariant Exploring(graph, newPred, visited, stack) && newSucc !in visited
      decreases From(graph, newPred) - visited, |stack|
    {
      ExploringPops(graph, newPred, visited, stack);
      var node := stack[|stack| - 1];
      assert node in stack;
      if node == newSucc { return true; }
      stack := stack[..|stack| - 1];
      if node !in visited {
        UnseenShrinks(graph, newPred, visited, node);
        visited := visited + {node};
        stack := stack + Next(graph, node);
      }
    }
    ExploringEnds(graph, newPred, visited);
    cycle := false;
  }

  // ---- why the check is enough --------------------------------------------------------------------

  lemma Joined(deps: Dependencies, a: int, b: int, c: int)
    requires DependsOn(deps, a, b) && DependsOn(deps, b, c)
    ensures DependsOn(deps, a, c)
  {
    var p :| Climbs(deps, p) && p[0] == a && p[|p| - 1] == b;
    var q :| Climbs(deps, q) && q[0] == b && q[|q| - 1] == c;
    var r := p + q[1..];
    forall k | 0 <= k < |r| - 1
      ensures Rung(deps, r, k)
    {
      if k < |p| - 1 { assert Rung(deps, p, k); } else { assert Rung(deps, q, k - |p| + 1); }
    }
    assert Climbs(deps, r);
  }

  lemma OneRung(deps: Dependencies, e: (int, int))
    requires e in deps
    ensures DependsOn(deps, e.1, e.0)
  {
    var p := [e.1, e.0];
    assert Rung(deps, p, 0);
    assert Climbs(deps, p);
  }

  lemma Trivially(deps: Dependencies, a: int)
    ensures DependsOn(deps, a, a)
  {
    assert Climbs(deps, [a]);
  }

  // A climb with one more dependency at hand either does without it, or meets its successor first and goes on from its
  // predecessor at the last.
  lemma {:induction false} WithOneMore(deps: Dependencies, e: (int, int), link: Link, p: seq<int>)
    requires Climbs(deps[e := link], p)
    ensures || DependsOn(deps, p[0], p[|p| - 1])
            || (DependsOn(deps, p[0], e.1) && DependsOn(deps, e.0, p[|p| - 1]))
    decreases |p|
  {
    Trivially(deps, p[0]);
    if |p| > 1 {
      var more := deps[e := link];
      var q := p[1..];
      forall k | 0 <= k < |q| - 1 ensures Rung(more, q, k) { assert Rung(more, p, k + 1); }
      WithOneMore(deps, e, link, q);
      assert Rung(more, p, 0);
      if (p[1], p[0]) == e {
        Trivially(deps, e.1);
      } else {
        OneRung(deps, (p[1], p[0]));
        if DependsOn(deps, p[1], p[|p| - 1]) {
          Joined(deps, p[0], p[1], p[|p| - 1]);
        } else {
          Joined(deps, p[0], p[1], e.1);
        }
      }
    }
  }

  lemma MoreClimbs(a: Dependencies, b: Dependencies, x: int, y: int)
    requires a.Keys <= b.Keys && DependsOn(a, x, y)
    ensures DependsOn(b, x, y)
  {
    var p :| Climbs(a, p) && p[0] == x && p[|p| - 1] == y;
    forall k | 0 <= k < |p| - 1 ensures Rung(b, p, k) { assert Rung(a, p, k); }
    assert Climbs(b, p);
  }

  /** Adding a dependency to an acyclic set leaves an acyclic set exactly when the check lets it through. */
  lemma AddingKeepsAcyclic(deps: Dependencies, e: (int, int), link: Link)
    requires Acyclic(deps)
    ensures Acyclic(deps[e := link]) <==> !DependsOn(deps, e.0, e.1)
  {
    var more := deps[e := link];
    if DependsOn(deps, e.0, e.1) {
      MoreClimbs(deps, more, e.0, e.1);
      assert e in more;
    } else {
      forall d | d in more
        ensures !DependsOn(more, d.0, d.1)
      {
        if DependsOn(more, d.0, d.1) { RingUsesNew(deps, e, link, d); }
      }
    }
  }

  // A ring among more dependencies is a ring through the new one.
  lemma RingUsesNew(deps: Dependencies, e: (int, int), link: Link, d: (int, int))
    requires Acyclic(deps) && d in deps[e := link] && DependsOn(deps[e := link], d.0, d.1)
    ensures DependsOn(deps, e.0, e.1)
  {
    var more := deps[e := link];
    var p :| Climbs(more, p) && p[0] == d.0 && p[|p| - 1] == d.1;
    WithOneMore(deps, e, link, p);
    if d != e && !DependsOn(deps, d.0, d.1) {
      OneRung(deps, d);
      Joined(deps, e.0, d.1, d.0);
      Joined(deps, e.0, d.0, e.1);
    }
  }

  lemma FewerStayAcyclic(deps: Dependencies, e: (int, int))
    requires Acyclic(deps)
    ensures Acyclic(deps - {e})
  {
    forall d | d in deps - {e}
      ensures !DependsOn(deps - {e}, d.0, d.1)
    {
      if DependsOn(deps - {e}, d.0, d.1) { MoreClimbs(deps - {e}, deps, d.0, d.1); }
    }
  }

  // ---- acyclic means that the tasks can be put in order --------------------------------------------------

  function Ends(deps: Dependencies): set<int> {
    (set e | e in deps :: e.0) + (set e | e in deps :: e.1)
  }

  // How many tasks x waits for, itself included.
  ghost function Rank(deps: Dependencies, x: int): nat {
    |set y | y in Ends(deps) && DependsOn(deps, x, y)|
  }

  // Every predecessor comes before its successor.
  ghost predicate InOrder(deps: Dependencies, place: int -> int) {
    forall e :: e in deps ==> place(e.0) < place(e.1)
  }

  lemma {:induction false} ClimbFalls(deps: Dependencies, place: int -> int, p: seq<int>)
    requires InOrder(deps, place) && Climbs(deps, p)
    ensures place(p[|p| - 1]) <= place(p[0])
    decreases |p|
  {
    if |p| > 1 {
      var q := p[1..];
      forall k | 0 <= k < |q| - 1 ensures Rung(deps, q, k) { assert Rung(deps, p, k + 1); }
      ClimbFalls(deps, place, q);
      assert Rung(deps, p, 0);
    }
  }

  lemma PredecessorsRankLower(deps: Dependencies, e: (int, int))
    requires Acyclic(deps) && e in deps
    ensures Rank(deps, e.0) < Rank(deps, e.1)
  {
    var fewer := set y | y in Ends(deps) && DependsOn(deps, e.0, y);
    var more := set y | y in Ends(deps) && DependsOn(deps, e.1, y);
    OneRung(deps, e);
    Trivially(deps, e.1);
    forall y | y in fewer ensures y in more { Joined(deps, e.1, e.0, y); }
    assert e.1 in more && e.1 !in fewer;
    Smaller(fewer, more);
  }

  lemma Smaller(a: set<int>, b: set<int>)
    requires a < b
    ensures |a| < |b|
  {
    assert b == a + (b - a);
    assert b - a != {};
  }

  ghost function RankOf(deps: Dependencies): int -> int {
    var ranks := map x | x in Ends(deps) :: Rank(deps, x);
    (x: int) => if x in ranks then ranks[x] else 0
  }

  lemma RanksAreInOrder(deps: Dependencies)
    requires Acyclic(deps)
    ensures InOrder(deps, RankOf(deps))
  {
    hide Rank, Acyclic;
    forall e | e in deps ensures RankOf(deps)(e.0) < RankOf(deps)(e.1) {
      PredecessorsRankLower(deps, e);
      assert e.0 in Ends(deps) && e.1 in Ends(deps);
    }
  }

  lemma OrderedHasNoRing(deps: Dependencies, place: int -> int)
    requires InOrder(deps, place)
    ensures Acyclic(deps)
  {
    forall e | e in deps ensures !DependsOn(deps, e.0, e.1) {
      if DependsOn(deps, e.0, e.1) {
        var p :| Climbs(deps, p) && p[0] == e.0 && p[|p| - 1] == e.1;
        ClimbFalls(deps, place, p);
        assert false;
      }
    }
  }

  /** No task waits for itself exactly when all tasks can be put in an order in which every predecessor comes first. */
  lemma AcyclicMeansOrdered(deps: Dependencies)
    ensures Acyclic(deps) <==> exists place: int -> int :: InOrder(deps, place)
  {
    hide InOrder, Acyclic, RankOf;
    if Acyclic(deps) { RanksAreInOrder(deps); }
    if place: int -> int :| InOrder(deps, place) { OrderedHasNoRing(deps, place); }
  }

  /** Saving a dependency that is there already, to change its kind or lag, is never refused. */
  lemma ResavingIsAccepted(deps: Dependencies, e: (int, int))
    requires Acyclic(deps) && e in deps
    ensures !DependsOn(deps, e.0, e.1)
  {
  }

  // ---- requests --------------------------------------------------------------------------------------

  datatype Request =
    | Add(successor: int, predecessor: int, link: Link)
    | Remove(successor: int, predecessor: int)

  datatype Refusal = NotFound | Cyclic

  ghost function Respond(live: set<int>, deps: Dependencies, r: Request): (Dependencies, Option<Refusal>) {
    match r
    case Add(s, p, link) =>
      if s !in live || p !in live then (deps, Some(NotFound))
      else if DependsOn(deps, p, s) then (deps, Some(Cyclic))
      else (deps[(p, s) := link], None)
    case Remove(s, p) =>
      if s !in live then (deps, Some(NotFound)) else (deps - {(p, s)}, None)
  }

  // The tasks come and go between requests.
  ghost function Run(deps: Dependencies, requests: seq<(set<int>, Request)>): Dependencies {
    if requests == [] then deps
    else
      var last := requests[|requests| - 1];
      Respond(last.0, Run(deps, requests[..|requests| - 1]), last.1).0
  }

  /** No sequence of requests makes a task wait for itself. */
  lemma {:induction false} RunsStayAcyclic(deps: Dependencies, requests: seq<(set<int>, Request)>)
    requires Acyclic(deps)
    ensures Acyclic(Run(deps, requests))
    decreases |requests|
  {
    if requests != [] {
      RunsStayAcyclic(deps, requests[..|requests| - 1]);
      var before := Run(deps, requests[..|requests| - 1]);
      match requests[|requests| - 1].1
      case Add(s, p, link) => AddingKeepsAcyclic(before, (p, s), link);
      case Remove(s, p) => FewerStayAcyclic(before, (p, s));
    }
  }

  // ---- what is stored --------------------------------------------------------------------------------

  // The request puts the pair e (predecessor, successor) down with this link, and is obeyed.
  ghost predicate Saves(live: set<int>, deps: Dependencies, r: Request, e: (int, int), link: Link) {
    r == Add(e.1, e.0, link) && e.0 in live && e.1 in live && !DependsOn(deps, e.0, e.1)
  }

  // The request takes the pair e away.
  predicate Removes(live: set<int>, r: Request, e: (int, int)) {
    r == Remove(e.1, e.0) && e.1 in live
  }

  // The k-th request of a run changes the row of e.
  ghost predicate Touches(deps: Dependencies, requests: seq<(set<int>, Request)>, k: nat, e: (int, int))
    requires k < |requests|
  {
    var (live, r) := requests[k];
    (r.Add? && Saves(live, Run(deps, requests[..k]), r, e, r.link)) || Removes(live, r, e)
  }

  ghost predicate UntouchedFrom(deps: Dependencies, requests: seq<(set<int>, Request)>, k: nat, e: (int, int)) {
    forall m :: k <= m < |requests| ==> !Touches(deps, requests, m, e)
  }

  // The k-th request put e down with this link, and nothing has touched e since.
  ghost predicate LastSavedBy(deps: Dependencies, requests: seq<(set<int>, Request)>, k: nat, e: (int, int), link: Link) {
    && k < |requests| && Saves(requests[k].0, Run(deps, requests[..k]), requests[k].1, e, link)
    && UntouchedFrom(deps, requests, k + 1, e)
  }

  ghost predicate Holds(deps: Dependencies, e: (int, int), link: Link) {
    e in deps && deps[e] == link
  }

  // One request, seen from one pair.
  lemma RowAfterRequest(live: set<int>, deps: Dependencies, r: Request, e: (int, int), link: Link)
    ensures var after := Respond(live, deps, r).0;
            Holds(after, e, link) <==>
              || Saves(live, deps, r, e, link)
              || (Holds(deps, e, link) && !Removes(live, r, e) && !(r.Add? && Saves(live, deps, r, e, r.link)))
  {
  }

  lemma UntouchedInPrefix(deps: Dependencies, requests: seq<(set<int>, Request)>, k: nat, e: (int, int))
    requires requests != [] && k <= |requests| - 1
    ensures var n := |requests| - 1;
            UntouchedFrom(deps, requests, k, e) <==> UntouchedFrom(deps, requests[..n], k, e) && !Touches(deps, requests, n, e)
  {
    hide Saves, Run;
    var n := |requests| - 1;
    forall m | k <= m < n ensures Touches(deps, requests[..n], m, e) == Touches(deps, requests, m, e) {
      assert requests[..n][..m] == requests[..m];
    }
    if UntouchedFrom(deps, requests[..n], k, e) && !Touches(deps, requests, n, e) {
      forall m | k <= m < |requests| ensures !Touches(deps, requests, m, e) {
        if m < n { assert !Touches(deps, requests[..n], m, e); }
      }
    }
  }

  /** After any run, a stored pair has the kind and lag it was last saved with: by a request that went through and has not
      been followed by one that saved or removed the pair, or before the run if none has touched it since. */
  lemma {:induction false} RowIsLastSaved(deps: Dependencies, requests: seq<(set<int>, Request)>, e: (int, int), link: Link)
    ensures Holds(Run(deps, requests), e, link) <==>
              || (exists k: nat :: LastSavedBy(deps, requests, k, e, link))
              || (Holds(deps, e, link) && UntouchedFrom(deps, requests, 0, e))
    decreases |requests|
  {
    hide Saves, DependsOn, Respond;
    if requests != [] {
      var n := |requests| - 1;
      var before := Run(deps, requests[..n]);
      var (live, r) := requests[n];
      RowIsLastSaved(deps, requests[..n], e, link);
      RowAfterRequest(live, before, r, e, link);
      UntouchedInPrefix(deps, requests, 0, e);
      forall k: nat | k <= n
        ensures LastSavedBy(deps, requests, k, e, link) <==>
                  if k == n then Saves(live, before, r, e, link)
                  else LastSavedBy(deps, requests[..n], k, e, link) && !Touches(deps, requests, n, e)
      {
        LastSavedInPrefix(deps, requests, k, e, link);
      }
      if Saves(live, before, r, e, link) { assert LastSavedBy(deps, requests, n, e, link); SavingIsExact(live, before, r, e, link); }
      if k: nat :| LastSavedBy(deps, requests[..n], k, e, link) && !Touches(deps, requests, n, e) {
        assert k < n && LastSavedBy(deps, requests, k, e, link);
      }
    }
  }

  lemma SavingIsExact(live: set<int>, deps: Dependencies, r: Request, e: (int, int), link: Link)
    requires Saves(live, deps, r, e, link)
    ensures r.Add? && r.link == link && !Removes(live, r, e)
  {
  }

  lemma LastSavedInPrefix(deps: Dependencies, requests: seq<(set<int>, Request)>, k: nat, e: (int, int), link: Link)
    requires requests != [] && k <= |requests| - 1
    ensures var n := |requests| - 1;
            LastSavedBy(deps, requests, k, e, link) <==>
              if k == n then Saves(requests[n].0, Run(deps, requests[..n]), requests[n].1, e, link)
              else LastSavedBy(deps, requests[..n], k, e, link) && !Touches(deps, requests, n, e)
  {
    hide Saves, Run, Touches;
    var n := |requests| - 1;
    if k < n {
      assert requests[..n][..k] == requests[..k];
      UntouchedInPrefix(deps, requests, k + 1, e);
    }
  }

  class DependencyUseCases {
    var dependencies: Dependencies
    var live: set<int>

    constructor (live: set<int>)
      ensures dependencies == map[] && this.live == live
    {
      dependencies, this.live := map[], live;
    }

    method AddDependency(successor: int, predecessor: int, link: Link) returns (refused: Option<Refusal>)
      modifies this`dependencies
      ensures (dependencies, refused) == Respond(live, old(dependencies), Add(successor, predecessor, link))
      ensures refused == Some(NotFound) <==> !({predecessor, successor} <= live)
      ensures refused == Some(Cyclic) <==> {predecessor, successor} <= live && DependsOn(old(dependencies), predecessor, successor)
      ensures dependencies == if refused.None? then old(dependencies)[(predecessor, successor) := link] else old(dependencies)
    {
      if successor !in live || predecessor !in live { return Some(NotFound); }
      var cycle := HasCycle(dependencies, predecessor, successor);
      if cycle { return Some(Cyclic); }
      dependencies := dependencies[(predecessor, successor) := link];
      refused := None;
    }

    method RemoveDependency(successor: int, predecessor: int) returns (refused: Option<Refusal>)
      modifies this`dependencies
      ensures (dependencies, refused) == Respond(live, old(dependencies), Remove(successor, predecessor))
      ensures refused == if successor in live then None else Some(NotFound)
      ensures dependencies.Keys == if refused.None? then old(dependencies).Keys - {(predecessor, successor)} else old(dependencies).Keys
      ensures forall e :: e in dependencies ==> dependencies[e] == old(dependencies)[e]
    {
      if successor !in live { return Some(NotFound); }
      dependencies := dependencies - {(predecessor, successor)};
      refused := None;
    }
  }
}
