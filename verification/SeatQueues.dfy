/** Grouping the leaves by seat and lining each group up. */
module SeatQueues {
  import opened Basics
  import opened WorkSeats
  import opened TaskBoard
  import opened ForecastModel
  import opened LeafWork

  ghost predicate Known(leaves: map<int, Leaf>, ids: seq<int>) {
    forall k :: 0 <= k < |ids| ==> ids[k] in leaves
  }

  ghost predicate LinedUp(leaves: map<int, Leaf>, queue: seq<int>) {
    && Known(leaves, queue)
    && forall j, k :: 0 <= j < k < |queue| ==> Before(leaves[queue[j]].task, leaves[queue[k]].task)
  }

  lemma BeforeIsTotal(a: Task, b: Task)
    requires a.id != b.id
    ensures Before(a, b) || Before(b, a)
  {
  }

  lemma BeforeIsTransitive(a: Task, b: Task, c: Task)
    requires Before(a, b) && Before(b, c)
    ensures Before(a, c)
  {
  }

  function Insert(leaves: map<int, Leaf>, i: int, queue: seq<int>): (r: seq<int>)
    requires i in leaves && Known(leaves, queue)
    ensures Known(leaves, r) && forall j :: j in r <==> j == i || j in queue
  {
    if queue == [] then [i]
    else if Before(leaves[i].task, leaves[queue[0]].task) then [i] + queue
    else [queue[0]] + Insert(leaves, i, queue[1..])
  }

  lemma {:induction false} InsertKeepsOrder(leaves: map<int, Leaf>, i: int, queue: seq<int>)
    requires Keyed(leaves) && i in leaves && i !in queue && LinedUp(leaves, queue)
    ensures LinedUp(leaves, Insert(leaves, i, queue))
  {
    hide Before;
    if queue != [] {
      var head := queue[0];
      assert head in queue && head != i;
      var first := leaves[head].task;
      if Before(leaves[i].task, first) {
        forall k | 0 < k < |queue| ensures Before(leaves[i].task, leaves[queue[k]].task) {
          BeforeIsTransitive(leaves[i].task, first, leaves[queue[k]].task);
        }
      } else {
        BeforeIsTotal(leaves[i].task, first);
        var rest := Insert(leaves, i, queue[1..]);
        InsertKeepsOrder(leaves, i, queue[1..]);
        forall k | 0 <= k < |rest| ensures Before(first, leaves[rest[k]].task) {
          var j := rest[k];
          assert j in rest;
          if j != i {
            var tail := queue[1..];
            assert j in tail;
            var m :| 0 <= m < |tail| && tail[m] == j;
            assert queue[m + 1] == j;
          }
        }
      }
    }
  }

  // The queue order: due date, priority, planned start, number.
  function LineUp(leaves: map<int, Leaf>, ids: seq<int>): (r: seq<int>)
    requires Known(leaves, ids)
    ensures Known(leaves, r) && forall j :: j in r <==> j in ids
  {
    if ids == [] then [] else Insert(leaves, ids[0], LineUp(leaves, ids[1..]))
  }

  lemma {:induction false} LineUpIsOrdered(leaves: map<int, Leaf>, ids: seq<int>)
    requires Keyed(leaves) && Known(leaves, ids) && Distinct(ids)
    ensures LinedUp(leaves, LineUp(leaves, ids))
  {
    if ids != [] {
      LineUpIsOrdered(leaves, ids[1..]);
      var i := ids[0];
      assert i !in ids[1..];
      InsertKeepsOrder(leaves, i, LineUp(leaves, ids[1..]));
    }
  }

  // Groups of the leaves in `ids` by seat.
  ghost predicate Grouped(leaves: map<int, Leaf>, ids: seq<int>, groups: seq<SeatQueue>) {
    && (forall a, b :: 0 <= a < b < |groups| ==> groups[a].key != groups[b].key)
    && (forall a :: 0 <= a < |groups| ==> Known(leaves, groups[a].queue) && Distinct(groups[a].queue))
    && (forall a, i :: 0 <= a < |groups| ==>
          (i in groups[a].queue <==> i in ids && i in leaves && leaves[i].seatKey == groups[a].key))
    && (forall i :: i in ids && i in leaves ==> exists a :: 0 <= a < |groups| && groups[a].key == leaves[i].seatKey)
  }

  method Group(order: seq<int>, leaves: map<int, Leaf>) returns (groups: seq<SeatQueue>)
    requires Distinct(order) && Known(leaves, order)
    ensures Grouped(leaves, order, groups)
    ensures forall a :: 0 <= a < |groups| ==> groups[a].queue != []
  {
    groups := [];
    for k := 0 to |order|
      invariant Grouped(leaves, order[..k], groups)
      invariant forall a :: 0 <= a < |groups| ==> groups[a].queue != []
    {
      var i := order[k];
      assert i !in order[..k] && order[..k + 1] == order[..k] + [i];
      var a := 0;
      while a < |groups| && groups[a].key != leaves[i].seatKey
        invariant 0 <= a <= |groups| && forall b :: 0 <= b < a ==> groups[b].key != leaves[i].seatKey
      {
        a := a + 1;
      }
      if a == |groups| {
        NewGroup(leaves, order[..k], groups, i);
        groups := groups + [SeatQueue(leaves[i].seatKey, [i])];
      } else {
        JoinGroup(leaves, order[..k], groups, i, a);
        groups := groups[a := SeatQueue(groups[a].key, groups[a].queue + [i])];
      }
    }
    assert order[..|order|] == order;
  }

  lemma NewGroup(leaves: map<int, Leaf>, ids: seq<int>, groups: seq<SeatQueue>, i: int)
    requires Grouped(leaves, ids, groups) && i in leaves && i !in ids
    requires forall b :: 0 <= b < |groups| ==> groups[b].key != leaves[i].seatKey
    ensures Grouped(leaves, ids + [i], groups + [SeatQueue(leaves[i].seatKey, [i])])
  {
    var groups' := groups + [SeatQueue(leaves[i].seatKey, [i])];
    forall a, j | 0 <= a < |groups'|
      ensures j in groups'[a].queue <==> j in ids + [i] && j in leaves && leaves[j].seatKey == groups'[a].key
    {
      if a == |groups| && j in ids && j in leaves {
        var b :| 0 <= b < |groups| && groups[b].key == leaves[j].seatKey;
      }
    }
    forall j | j in ids + [i] && j in leaves
      ensures exists a :: 0 <= a < |groups'| && groups'[a].key == leaves[j].seatKey
    {
      if j == i {
        assert groups'[|groups|].key == leaves[j].seatKey;
      } else {
        var b :| 0 <= b < |groups| && groups[b].key == leaves[j].seatKey;
        assert groups'[b].key == leaves[j].seatKey;
      }
    }
  }

  lemma JoinGroup(leaves: map<int, Leaf>, ids: seq<int>, groups: seq<SeatQueue>, i: int, a: nat)
    requires Grouped(leaves, ids, groups) && i in leaves && i !in ids
    requires a < |groups| && groups[a].key == leaves[i].seatKey
    ensures Grouped(leaves, ids + [i], groups[a := SeatQueue(groups[a].key, groups[a].queue + [i])])
  {
    var groups' := groups[a := SeatQueue(groups[a].key, groups[a].queue + [i])];
    assert i !in groups[a].queue;
    forall j | j in ids + [i] && j in leaves
      ensures exists b :: 0 <= b < |groups'| && groups'[b].key == leaves[j].seatKey
    {
      if j == i {
        assert groups'[a].key == leaves[j].seatKey;
      } else {
        var b :| 0 <= b < |groups| && groups[b].key == leaves[j].seatKey;
        assert groups'[b].key == leaves[j].seatKey;
      }
    }
  }

  // The queues of all seats that have a leaf.
  method BuildQueues(order: seq<int>, leaves: map<int, Leaf>, ghost S: Setup) returns (queues: seq<SeatQueue>)
    requires Distinct(order) && ToSet(order) == leaves.Keys && Keyed(leaves) && leaves.Keys == S.info.Keys
    requires forall i :: i in leaves ==> leaves[i].task == S.info[i].task && leaves[i].seatKey == S.info[i].seat
    ensures ValidQueues(S, queues)
  {
    hide LinedUp, LineUp, ValidQueues;
    forall k | 0 <= k < |order| ensures order[k] in leaves { assert order[k] in ToSet(order); }
    var groups := Group(order, leaves);
    queues := [];
    for k := 0 to |groups|
      invariant |queues| == k
      invariant forall a :: 0 <= a < k ==> queues[a].key == groups[a].key && LinedUp(leaves, queues[a].queue)
      invariant forall a, i :: 0 <= a < k ==> (i in queues[a].queue <==> i in groups[a].queue)
    {
      LineUpIsOrdered(leaves, groups[k].queue);
      queues := queues + [SeatQueue(groups[k].key, LineUp(leaves, groups[k].queue))];
    }
    GroupsMakeQueues(S, leaves, order, groups, queues);
  }

  lemma LinedUpInOrder(S: Setup, leaves: map<int, Leaf>, queue: seq<int>)
    requires leaves.Keys == S.info.Keys && forall i :: i in leaves ==> leaves[i].task == S.info[i].task
    requires LinedUp(leaves, queue)
    ensures InOrder(S, queue)
  {
    hide Before;
    forall k | 0 <= k < |queue| ensures queue[k] in S.info && leaves[queue[k]].task == S.info[queue[k]].task {
      var i := queue[k];
      assert i in leaves;
    }
  }

  lemma GroupsMakeQueues(S: Setup, leaves: map<int, Leaf>, order: seq<int>, groups: seq<SeatQueue>,
                         queues: seq<SeatQueue>)
    requires ToSet(order) == leaves.Keys == S.info.Keys && Grouped(leaves, order, groups)
    requires forall i :: i in leaves ==> leaves[i].task == S.info[i].task && leaves[i].seatKey == S.info[i].seat
    requires forall a :: 0 <= a < |groups| ==> groups[a].queue != []
    requires |queues| == |groups|
    requires forall a :: 0 <= a < |groups| ==> queues[a].key == groups[a].key && LinedUp(leaves, queues[a].queue)
    requires forall a, i :: 0 <= a < |groups| ==> (i in queues[a].queue <==> i in groups[a].queue)
    ensures ValidQueues(S, queues)
  {
    hide Before;
    forall i ensures i in order <==> i in S.info { assert i in ToSet(order) <==> i in order; }
    forall a | 0 <= a < |queues| ensures InOrder(S, queues[a].queue) && queues[a].key in S.seats {
      var i := groups[a].queue[0];
      assert i in groups[a].queue && i in S.info;
      LinedUpInOrder(S, leaves, queues[a].queue);
    }
    forall i | i in S.info ensures exists a :: 0 <= a < |queues| && queues[a].key == S.info[i].seat {
      var a :| 0 <= a < |groups| && groups[a].key == leaves[i].seatKey;
      assert queues[a].key == S.info[i].seat;
    }
  }
}
