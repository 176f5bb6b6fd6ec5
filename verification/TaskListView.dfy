/** The task list with subtasks nested under their parents. */
module TaskListView {
  import opened Basics
  import opened Reachability
  import opened ParentLinks

  datatype ListTask = ListTask(id: int, parent: Option<int>)

  datatype Row = Row(id: int, level: nat)

  function IdsOf(tasks: seq<ListTask>): (r: seq<int>)
    ensures |r| == |tasks| && forall i :: 0 <= i < |tasks| ==> r[i] == tasks[i].id
  {
    seq(|tasks|, i requires 0 <= i < |tasks| => tasks[i].id)
  }

  function RowIds(rows: seq<Row>): (r: seq<int>)
    ensures |r| == |rows| && forall i :: 0 <= i < |rows| ==> r[i] == rows[i].id
  {
    seq(|rows|, i requires 0 <= i < |rows| => rows[i].id)
  }

  // Who is nested under whom: the parent, if it is in the list.
  ghost predicate IsNesting(tasks: seq<ListTask>, links: Links) {
    && links.Keys == ToSet(IdsOf(tasks))
    && forall i :: 0 <= i < |tasks| ==>
         links[tasks[i].id] == if tasks[i].parent.Some? && tasks[i].parent.value in ToSet(IdsOf(tasks)) then tasks[i].parent else None
  }

  // x stands before y in the list.
  ghost predicate Before(ids: seq<int>, x: int, y: int) {
    exists a, b :: 0 <= a < b < |ids| && ids[a] == x && ids[b] == y
  }

  ghost predicate InListOrder(ids: seq<int>, s: seq<int>) {
    forall i, j :: 0 <= i < j < |s| ==> Before(ids, s[i], s[j])
  }

  // The subtasks of each task, in list order.
  ghost predicate ListsChildren(ids: seq<int>, links: Links, children: Graph) {
    && (forall p, c :: c in Next(children, p) <==> c in links && links[c] == Some(p))
    && (forall p :: InListOrder(ids, Next(children, p)))
  }

  // Row i stands under its parent: one level deeper, with nothing shallower than that in between.
  ghost predicate UnderParent(links: Links, rows: seq<Row>, i: nat)
    requires i < |rows|
  {
    exists j :: IsParentRow(links, rows, j, i) && rows[i].level == rows[j].level + 1
                && forall k :: j < k <= i ==> rows[k].level > rows[j].level
  }

  ghost predicate IsParentRow(links: Links, rows: seq<Row>, j: int, i: nat)
    requires i < |rows|
  {
    0 <= j < i && rows[i].id in links && links[rows[i].id] == Some(rows[j].id)
  }

  // A task's row followed by all that hangs under it.
  ghost predicate Branch(links: Links, rows: seq<Row>, id: int, level: nat) {
    && |rows| > 0 && rows[0] == Row(id, level)
    && forall i :: 0 < i < |rows| ==> rows[i].level > level && UnderParent(links, rows, i)
  }

  // Rows under the same parent keep the order of the list.
  ghost predicate SiblingsInOrder(ids: seq<int>, links: Links, rows: seq<Row>) {
    forall j, i, k :: 0 <= j < i < k < |rows| && IsParentRow(links, rows, j, i) && IsParentRow(links, rows, j, k) ==>
      Before(ids, rows[i].id, rows[k].id)
  }

  lemma UnderParentInMore(links: Links, a: seq<Row>, b: seq<Row>, c: seq<Row>, i: nat)
    requires i < |b| && UnderParent(links, b, i)
    ensures UnderParent(links, a + b + c, |a| + i)
  {
    var rows := a + b + c;
    var j :| IsParentRow(links, b, j, i) && b[i].level == b[j].level + 1 && forall k :: j < k <= i ==> b[k].level > b[j].level;
    assert rows[|a| + i] == b[i] && rows[|a| + j] == b[j];
    assert IsParentRow(links, rows, |a| + j, |a| + i);
    forall k | |a| + j < k <= |a| + i ensures rows[k].level > rows[|a| + j].level { assert rows[k] == b[k - |a|]; }
  }

  lemma KidUnderParent(links: Links, rows: seq<Row>, id: int, level: nat, more: seq<Row>, kid: int)
    requires |rows| > 0 && rows[0] == Row(id, level) && forall i :: 0 < i < |rows| ==> rows[i].level > level
    requires |more| > 0 && more[0] == Row(kid, level + 1) && kid in links && links[kid] == Some(id)
    ensures UnderParent(links, rows + more, |rows|)
  {
    var all := rows + more;
    assert all[0] == rows[0] && all[|rows|] == more[0];
    assert IsParentRow(links, all, 0, |rows|);
    forall k | 0 < k <= |rows| ensures all[k].level > level { if k < |rows| { assert all[k] == rows[k]; } }
  }

  // A child's branch put at the end of its parent's makes it longer.
  lemma BranchGrows(links: Links, rows: seq<Row>, id: int, level: nat, more: seq<Row>, kid: int)
    requires Branch(links, rows, id, level) && Branch(links, more, kid, level + 1)
    requires kid in links && links[kid] == Some(id)
    ensures Branch(links, rows + more, id, level)
  {
    hide UnderParent, IsParentRow;
    var all := rows + more;
    forall i | 0 < i < |all|
      ensures all[i].level > level && UnderParent(links, all, i)
    {
      if i < |rows| {
        assert all[i] == rows[i];
        UnderParentInMore(links, [], rows, more, i);
        assert [] + rows + more == all;
      } else if i == |rows| {
        KidUnderParent(links, rows, id, level, more, kid);
      } else {
        assert all[i] == more[i - |rows|];
        UnderParentInMore(links, rows, more, [], i - |rows|);
        assert rows + more + [] == all;
      }
    }
  }

  // ---- where a list of rows stands -------------------------------------------------------------

  // Each row once, subtasks of what is done are done, and siblings in order.
  ghost predicate Sound(ids: seq<int>, links: Links, rows: seq<Row>, open: set<int>) {
    && Distinct(RowIds(rows)) && ToSet(RowIds(rows)) <= links.Keys
    && (forall c :: c in links && links[c].Some? && links[c].value in ToSet(RowIds(rows)) && links[c].value !in open ==>
          c in ToSet(RowIds(rows)))
    && SiblingsInOrder(ids, links, rows)
  }

  // Rows under the row of `id` at place `at` are its first n children.
  ghost predicate FirstChildrenOnly(links: Links, rows: seq<Row>, at: nat, kids: seq<int>, n: nat)
    requires n <= |kids|
  {
    forall i :: at < i < |rows| && IsParentRow(links, rows, at, i) ==> rows[i].id in kids[..n]
  }

  // The rows of `id`'s parent so far leave room for `id` as the next child.
  ghost predicate NextChild(ids: seq<int>, links: Links, rows: seq<Row>, id: int)
    requires id in links
  {
    forall j, i :: 0 <= j < i < |rows| && IsParentRow(links, rows, j, i) && links[id] == Some(rows[j].id) ==>
      Before(ids, rows[i].id, id)
  }

  lemma RowPushed(ids: seq<int>, links: Links, rows: seq<Row>, open: set<int>, id: int, level: nat)
    requires Sound(ids, links, rows, open) && id in links && id !in ToSet(RowIds(rows)) && NextChild(ids, links, rows, id)
    ensures Sound(ids, links, rows + [Row(id, level)], open + {id})
    ensures ToSet(RowIds(rows + [Row(id, level)])) == ToSet(RowIds(rows)) + {id}
    ensures Branch(links, [Row(id, level)], id, level)
  {
    var more := rows + [Row(id, level)];
    assert RowIds(more) == RowIds(rows) + [id];
    ConcatDistinct(RowIds(rows), [id]) by {
      forall x | x in RowIds(rows) ensures x !in [id] { assert x in ToSet(RowIds(rows)); }
    }
    forall j, i, k | 0 <= j < i < k < |more| && IsParentRow(links, more, j, i) && IsParentRow(links, more, j, k)
      ensures Before(ids, more[i].id, more[k].id)
    {
      assert IsParentRow(links, rows, j, i);
      if k < |rows| { assert IsParentRow(links, rows, j, k); }
    }
  }

  lemma KidMayCome(ids: seq<int>, links: Links, rows: seq<Row>, at: nat, kids: seq<int>, n: nat)
    requires Distinct(RowIds(rows)) && at < |rows| && n < |kids| && InListOrder(ids, kids)
    requires kids[n] in links && links[kids[n]] == Some(rows[at].id) && FirstChildrenOnly(links, rows, at, kids, n)
    ensures NextChild(ids, links, rows, kids[n])
  {
    forall j, i | 0 <= j < i < |rows| && IsParentRow(links, rows, j, i) && links[kids[n]] == Some(rows[j].id)
      ensures Before(ids, rows[i].id, kids[n])
    {
      assert RowIds(rows)[j] == RowIds(rows)[at];
      assert rows[i].id in kids[..n];
      var m :| 0 <= m < n && kids[m] == rows[i].id;
    }
  }

  lemma SoundIsDistinct(ids: seq<int>, links: Links, rows: seq<Row>, open: set<int>)
    requires Sound(ids, links, rows, open)
    ensures Distinct(RowIds(rows))
  {
  }

  // Below the first, a branch's rows are under rows of the branch.
  lemma UnderOwnRows(links: Links, rows: seq<Row>, id: int, level: nat, other: int)
    requires Branch(links, rows, id, level) && forall j :: 0 <= j < |rows| ==> rows[j].id != other
    ensures rows[0].id == id
    ensures forall i :: 0 < i < |rows| ==> rows[i].id in links && links[rows[i].id] != Some(other)
  {
    forall i | 0 < i < |rows|
      ensures rows[i].id in links && links[rows[i].id] != Some(other)
    {
      assert UnderParent(links, rows, i);
      var j :| IsParentRow(links, rows, j, i);
    }
  }

  // After a child's branch, its parent's rows are its first n + 1 children.
  lemma ChildrenSoFar(links: Links, rows: seq<Row>, more: seq<Row>, at: nat, kids: seq<int>, n: nat)
    requires at < |rows| && n < |kids| && Distinct(RowIds(rows + more)) && FirstChildrenOnly(links, rows, at, kids, n)
    requires more == [] || exists level :: Branch(links, more, kids[n], level)
    ensures FirstChildrenOnly(links, rows + more, at, kids, n + 1)
  {
    var all := rows + more;
    forall j | 0 <= j < |more|
      ensures more[j].id != rows[at].id
    {
      assert RowIds(all)[|rows| + j] != RowIds(all)[at];
    }
    if more != [] {
      var level :| Branch(links, more, kids[n], level);
      UnderOwnRows(links, more, kids[n], level, rows[at].id);
    }
    forall i | at < i < |all| && IsParentRow(links, all, at, i)
      ensures all[i].id in kids[..n + 1]
    {
      if i < |rows| {
        assert IsParentRow(links, rows, at, i);
        assert rows[i].id in kids[..n];
      } else {
        assert all[i] == more[i - |rows|];
        assert kids[..n + 1][n] == kids[n];
      }
    }
  }

  class Nesting {
    const ids: seq<int>
    const links: Links
    const children: Graph
    var out: seq<Row>
    var done: set<int>

    constructor (ids: seq<int>, links: Links, children: Graph)
      ensures this.ids == ids && this.links == links && this.children == children && out == [] && done == {}
    {
      this.ids, this.links, this.children, this.out, this.done := ids, links, children, [], {};
    }

    ghost predicate Valid()
      reads this
    {
      ListsChildren(ids, links, children) && done == ToSet(RowIds(out))
    }

    // Put a task and what hangs under it at the end of the list, unless it is there already.
    method Visit(id: int, level: nat, ghost open: set<int>)
      requires Valid() && id in links && Sound(ids, links, out, open) && (id !in done ==> NextChild(ids, links, out, id))
      modifies this
      ensures Valid() && id in done && old(done) <= done && Sound(ids, links, out, open)
      ensures |old(out)| <= |out| && out[..|old(out)|] == old(out)
      ensures if id in old(done) then out == old(out) else Branch(links, out[|old(out)|..], id, level)
      decreases links.Keys - done, 0
    {
      if id in done { return; }
      ghost var at := |out|;
      Push(id, level, open);
      VisitKids(id, level, open + {id}, at, Next(children, id));
      KidsDone(open, id, Next(children, id));
    }

    method Push(id: int, level: nat, ghost open: set<int>)
      requires Valid() && id in links && Sound(ids, links, out, open) && NextChild(ids, links, out, id) && id !in done
      modifies this
      ensures Valid() && Sound(ids, links, out, open + {id}) && done == old(done) + {id}
      ensures out == old(out) + [Row(id, level)] && Branch(links, out[|old(out)|..], id, level)
      ensures FirstChildrenOnly(links, out, |old(out)|, Next(children, id), 0)
    {
      RowPushed(ids, links, out, open, id, level);
      done := done + {id};
      out := out + [Row(id, level)];
      assert out[|old(out)|..] == [Row(id, level)];
    }

    method VisitKids(id: int, level: nat, ghost open: set<int>, ghost at: nat, kids: seq<int>)
      requires Valid() && Sound(ids, links, out, open) && id in done && kids == Next(children, id)
      requires at < |out| && out[at].id == id && Branch(links, out[at..], id, level) && FirstChildrenOnly(links, out, at, kids, 0)
      modifies this
      ensures Valid() && Sound(ids, links, out, open) && old(done) <= done
      ensures |old(out)| <= |out| && out[..|old(out)|] == old(out)
      ensures Branch(links, out[at..], id, level) && forall m :: 0 <= m < |kids| ==> kids[m] in done
      decreases links.Keys - done, 2
    {
      hide Sound, Branch, FirstChildrenOnly, Nesting.Valid;
      for n := 0 to |kids|
        invariant Valid() && Sound(ids, links, out, open) && old(done) <= done
        invariant |old(out)| <= |out| && out[..|old(out)|] == old(out)
        invariant Branch(links, out[at..], id, level) && FirstChildrenOnly(links, out, at, kids, n)
        invariant forall m :: 0 <= m < n ==> kids[m] in done
      {
        ghost var before := out;
        VisitKid(id, level, open, at, kids, n);
        assert out[..|old(out)|] == before[..|old(out)|];
      }
    }

    lemma KidsDone(open: set<int>, id: int, kids: seq<int>)
      requires Valid() && Sound(ids, links, out, open + {id}) && kids == Next(children, id)
      requires forall m :: 0 <= m < |kids| ==> kids[m] in done
      ensures Sound(ids, links, out, open)
    {
    }

    // The n-th child, one level deeper.
    method VisitKid(id: int, level: nat, ghost open: set<int>, ghost at: nat, kids: seq<int>, n: nat)
      requires Valid() && Sound(ids, links, out, open) && id in done && n < |kids| && kids == Next(children, id)
      requires at < |out| && out[at].id == id && Branch(links, out[at..], id, level) && FirstChildrenOnly(links, out, at, kids, n)
      modifies this
      ensures Valid() && Sound(ids, links, out, open) && old(done) <= done && kids[n] in done
      ensures |old(out)| <= |out| && out[..|old(out)|] == old(out)
      ensures Branch(links, out[at..], id, level) && FirstChildrenOnly(links, out, at, kids, n + 1)
      decreases links.Keys - done, 1
    {
      hide Sound, Branch, FirstChildrenOnly, NextChild, ListsChildren, RowIds, InListOrder, Nesting.Valid;
      var kid := kids[n];
      ghost var before := out;
      KidIsNext(open, id, at, n);
      Visit(kid, level + 1, open);
      ghost var more := out[|before|..];
      assert out == before + more;
      assert out[at..] == before[at..] + more;
      if more != [] { BranchGrows(links, before[at..], id, level, more, kid); }
      SoundIsDistinct(ids, links, out, open);
      ChildrenSoFar(links, before, more, at, kids, n);
    }

    lemma KidIsNext(open: set<int>, id: int, at: nat, n: nat)
      requires Valid() && Sound(ids, links, out, open) && n < |Next(children, id)|
      requires at < |out| && out[at].id == id && FirstChildrenOnly(links, out, at, Next(children, id), n)
      ensures var kid := Next(children, id)[n]; kid in links && links[kid] == Some(id) && NextChild(ids, links, out, kid)
    {
      var kid := Next(children, id)[n];
      assert kid in Next(children, id);
      assert Distinct(RowIds(out)) && InListOrder(ids, Next(children, id));
      KidMayCome(ids, links, out, at, Next(children, id), n);
    }
  }

  // ---- the whole list ------------------------------------------------------------------------------

  // A row at the left edge has its parent nowhere above it; any other stands under its parent.
  ghost predicate Leveled(links: Links, rows: seq<Row>) {
    forall i :: 0 <= i < |rows| ==>
      if rows[i].level == 0 then !exists j :: IsParentRow(links, rows, j, i) else UnderParent(links, rows, i)
  }

  lemma BranchAtEdge(ids: seq<int>, links: Links, rows: seq<Row>, more: seq<Row>, id: int)
    requires Leveled(links, rows) && Branch(links, more, id, 0) && id in links
    requires Sound(ids, links, rows, {}) && id !in ToSet(RowIds(rows))
    ensures Leveled(links, rows + more)
  {
    var all := rows + more;
    forall i | 0 <= i < |all|
      ensures if all[i].level == 0 then !exists j :: IsParentRow(links, all, j, i) else UnderParent(links, all, i)
    {
      if i < |rows| {
        assert all[i] == rows[i];
        EarlierRow(links, rows, more, i);
      } else if i == |rows| {
        assert all[i] == more[0];
        forall j | 0 <= j < i ensures !IsParentRow(links, all, j, i) { assert RowIds(rows)[j] in RowIds(rows); }
      } else {
        assert all[i] == more[i - |rows|];
        UnderParentInMore(links, rows, more, [], i - |rows|);
        assert rows + more + [] == all;
      }
    }
  }

  lemma EarlierRow(links: Links, rows: seq<Row>, more: seq<Row>, i: nat)
    requires i < |rows|
    requires if rows[i].level == 0 then !exists j :: IsParentRow(links, rows, j, i) else UnderParent(links, rows, i)
    ensures var all := rows + more;
            if rows[i].level == 0 then !exists j :: IsParentRow(links, all, j, i) else UnderParent(links, all, i)
  {
    var all := rows + more;
    if rows[i].level == 0 {
      forall j | 0 <= j < i ensures !IsParentRow(links, all, j, i) { assert !IsParentRow(links, rows, j, i); }
    } else {
      UnderParentInMore(links, [], rows, more, i);
      assert [] + rows + more == all;
    }
  }

  // Only tasks without a parent in the list stand at the left edge.
  ghost predicate EdgeIsTop(links: Links, rows: seq<Row>) {
    forall i :: 0 <= i < |rows| && rows[i].level == 0 ==> rows[i].id in links && links[rows[i].id].None?
  }

  // Without rings, once all tops are listed everything is.
  lemma {:induction false} AllListed(ids: seq<int>, links: Links, rows: seq<Row>, x: int)
    requires Forest(links) && ParentsKnown(links) && Sound(ids, links, rows, {}) && x in links
    requires forall t :: t in links && links[t].None? ==> t in ToSet(RowIds(rows))
    ensures x in ToSet(RowIds(rows))
    decreases Depth(links, Some(x))
  {
    if links[x].Some? {
      ChainUnfolds(links, x);
      assert links[x] == Some(links[x].value);
      AllListed(ids, links, rows, links[x].value);
    }
  }

  method NestingLinks(tasks: seq<ListTask>) returns (links: Links)
    requires Distinct(IdsOf(tasks))
    ensures IsNesting(tasks, links)
  {
    var ids := IdsOf(tasks);
    var known := ToSet(ids);
    links := map[];
    for k := 0 to |tasks|
      invariant links.Keys == ToSet(ids[..k])
      invariant forall i :: 0 <= i < k ==>
                  links[ids[i]] == if tasks[i].parent.Some? && tasks[i].parent.value in known then tasks[i].parent else None
    {
      var t := tasks[k];
      assert ids[k] == t.id && ids[..k + 1] == ids[..k] + [t.id];
      links := links[t.id := if t.parent.Some? && t.parent.value in known then t.parent else None];
    }
    assert ids[..|ids|] == ids;
  }

  method ChildLists(ids: seq<int>, links: Links) returns (children: Graph)
    requires Distinct(ids) && links.Keys == ToSet(ids)
    ensures ListsChildren(ids, links, children)
  {
    children := map[];
    NoChildren(ids, links);
    assert forall k :: 0 <= k < |ids| ==> ids[k] in ToSet(ids);
    hide ListsUpTo;
    for k := 0 to |ids|
      invariant ListsUpTo(ids, links, children, k)
    {
      var id := ids[k];
      OneMoreChild(ids, links, children, k);
      if links[id].Some? {
        children := children[links[id].value := Next(children, links[id].value) + [id]];
      }
    }
    AllChildren(ids, links, children);
  }

  // The subtasks among the first k of the list.
  ghost predicate ListsUpTo(ids: seq<int>, links: Links, children: Graph, k: nat)
    requires k <= |ids| && links.Keys == ToSet(ids)
  {
    && (forall p, c :: c in Next(children, p) <==> c in ids[..k] && links[c] == Some(p))
    && (forall p :: InListOrder(ids, Next(children, p)))
  }

  lemma NoChildren(ids: seq<int>, links: Links)
    requires links.Keys == ToSet(ids)
    ensures ListsUpTo(ids, links, map[], 0)
  {
  }

  lemma AllChildren(ids: seq<int>, links: Links, children: Graph)
    requires links.Keys == ToSet(ids) && ListsUpTo(ids, links, children, |ids|)
    ensures ListsChildren(ids, links, children)
  {
    assert ids[..|ids|] == ids;
  }

  lemma OneMoreChild(ids: seq<int>, links: Links, children: Graph, k: nat)
    requires k < |ids| && links.Keys == ToSet(ids) && ids[k] in links && ListsUpTo(ids, links, children, k)
    ensures var parent := links[ids[k]];
            ListsUpTo(ids, links,
                      if parent.Some? then children[parent.value := Next(children, parent.value) + [ids[k]]] else children,
                      k + 1)
  {
    hide InListOrder, Next;
    var parent := links[ids[k]];
    var after := if parent.Some? then children[parent.value := Next(children, parent.value) + [ids[k]]] else children;
    forall p
      ensures InListOrder(ids, Next(after, p))
      ensures forall c :: c in Next(after, p) <==> c in ids[..k + 1] && links[c] == Some(p)
    {
      OneChildList(ids, links, children, k, p);
      NextAfter(children, parent, ids[k], p);
      if parent == Some(p) { NextInOrder(ids, Next(children, p), k); }
      assert ids[..k + 1] == ids[..k] + [ids[k]];
      assert ids[k] in ids;
    }
  }

  lemma NextAfter(children: Graph, parent: Option<int>, id: int, p: int)
    ensures var after := if parent.Some? then children[parent.value := Next(children, parent.value) + [id]] else children;
            Next(after, p) == if parent == Some(p) then Next(children, p) + [id] else Next(children, p)
  {
  }

  lemma OneChildList(ids: seq<int>, links: Links, children: Graph, k: nat, p: int)
    requires k < |ids| && links.Keys == ToSet(ids) && ListsUpTo(ids, links, children, k)
    ensures InListOrder(ids, Next(children, p))
    ensures forall c :: c in Next(children, p) <==> c in ids[..k] && links[c] == Some(p)
  {
  }

  lemma NextInOrder(ids: seq<int>, kids: seq<int>, k: nat)
    requires k < |ids| && InListOrder(ids, kids) && forall c :: c in kids ==> c in ids[..k]
    ensures InListOrder(ids, kids + [ids[k]])
  {
    var more := kids + [ids[k]];
    forall i, j | 0 <= i < j < |more|
      ensures Before(ids, more[i], more[j])
    {
      if j < |kids| {
        assert Before(ids, kids[i], kids[j]);
      } else {
        assert kids[i] in kids;
        assert kids[i] in ids[..k];
        var a :| 0 <= a < k && ids[..k][a] == kids[i];
        assert ids[a] == kids[i];
      }
    }
  }

  /** Every task is listed exactly once, rings or not. A task whose parent is listed above it stands under it, one level
      deeper and with nothing shallower in between, and siblings keep their order; any other stands at the left edge, first
      those without a parent in the list, in its order, then the first of each ring. Where the parent links have no rings,
      every task with a parent in the list stands under it. */
  method NestBySubtask(tasks: seq<ListTask>) returns (out: seq<Row>, ghost links: Links)
    requires Distinct(IdsOf(tasks))
    ensures IsNesting(tasks, links)
    ensures Distinct(RowIds(out)) && ToSet(RowIds(out)) == ToSet(IdsOf(tasks))
    ensures Leveled(links, out) && SiblingsInOrder(IdsOf(tasks), links, out) && EdgesInOrder(IdsOf(tasks), links, out)
    ensures Forest(links) ==>
              forall i :: 0 <= i < |out| ==> if links[out[i].id].Some? then UnderParent(links, out, i) else out[i].level == 0
  {
    var known := NestingLinks(tasks);
    links := known;
    var children := ChildLists(IdsOf(tasks), known);
    var nesting := new Nesting(IdsOf(tasks), known, children);
    TopsFirst(tasks, nesting);
    if Forest(links) { EverythingDone(tasks, IdsOf(tasks), links, nesting.out); }
    ghost var first := nesting.out;
    TheRest(tasks, nesting);
    out := nesting.out;
    if Forest(links) { NestedInForest(links, out, IdsOf(tasks)); }
  }

  // First every task that has no parent in the list.
  method TopsFirst(tasks: seq<ListTask>, nesting: Nesting)
    requires nesting.Valid() && nesting.ids == IdsOf(tasks) && IsNesting(tasks, nesting.links) && nesting.out == []
    modifies nesting
    ensures nesting.Valid() && Sound(nesting.ids, nesting.links, nesting.out, {}) && Leveled(nesting.links, nesting.out)
    ensures EdgeIsTop(nesting.links, nesting.out) && EdgesInOrder(IdsOf(tasks), nesting.links, nesting.out)
    ensures forall i :: 0 <= i < |tasks| && nesting.links[tasks[i].id].None? ==> tasks[i].id in nesting.done
  {
    NothingListed(nesting.ids, nesting.links);
    InList(tasks);
    var known := ToSet(IdsOf(tasks));
    hide Sound, Leveled, EdgeIsTop, EdgesInOrder, EdgesAmong, Nesting.Valid, IsNesting, IdsOf, ToSet, Branch;
    for k := 0 to |tasks|
      invariant nesting.Valid() && Sound(nesting.ids, nesting.links, nesting.out, {})
      invariant Leveled(nesting.links, nesting.out) && EdgeIsTop(nesting.links, nesting.out)
      invariant TopsListed(tasks, nesting.links, k, nesting.done)
      invariant EdgesInOrder(nesting.ids, nesting.links, nesting.out) && EdgesAmong(nesting.ids, nesting.out, k)
    {
      ghost var before := nesting.out;
      assert IdsOf(tasks)[k] == tasks[k].id;
      TopInList(tasks, nesting.links, k);
      TopsListedGrows(tasks, nesting.links, k);
      AmongMore(nesting.ids, before, k);
      if tasks[k].parent.None? || tasks[k].parent.value !in known {
        AtEdge(nesting, tasks[k].id);
        if nesting.out != before { TopAdded(nesting.ids, nesting.links, before, nesting.out[|before|..], k); }
      }
    }
  }

  lemma AmongMore(ids: seq<int>, rows: seq<Row>, k: nat)
    ensures EdgesAmong(ids, rows, k) ==> EdgesAmong(ids, rows, k + 1)
  {
    if EdgesAmong(ids, rows, k) {
      forall h | 0 <= h < |rows| && rows[h].level == 0 ensures exists a :: 0 <= a < k + 1 && a < |ids| && ids[a] == rows[h].id {
        var a :| 0 <= a < k && a < |ids| && ids[a] == rows[h].id;
        assert ids[a] == rows[h].id;
      }
    }
  }

  ghost predicate TopsListed(tasks: seq<ListTask>, links: Links, k: nat, done: set<int>) {
    forall i :: 0 <= i < k <= |tasks| && tasks[i].id in links && links[tasks[i].id].None? ==> tasks[i].id in done
  }

  lemma TopsListedGrows(tasks: seq<ListTask>, links: Links, k: nat)
    requires k < |tasks|
    ensures forall a: set<int>, b: set<int> ::
              (TopsListed(tasks, links, k, a) && a <= b
               && (tasks[k].id in links && links[tasks[k].id].None? ==> tasks[k].id in b))
              ==> TopsListed(tasks, links, k + 1, b)
  {
  }

  lemma TopInList(tasks: seq<ListTask>, links: Links, k: nat)
    requires IsNesting(tasks, links) && k < |tasks|
    ensures tasks[k].id in links
    ensures links[tasks[k].id].None? <==>
            tasks[k].parent.None? || tasks[k].parent.value !in ToSet(IdsOf(tasks))
  {
    InList(tasks);
  }

  lemma NothingListed(ids: seq<int>, links: Links)
    ensures Sound(ids, links, [], {}) && Leveled(links, []) && EdgeIsTop(links, [])
    ensures EdgesInOrder(ids, links, []) && EdgesAmong(ids, [], 0)
  {
    assert RowIds([]) == [];
  }

  lemma InList(tasks: seq<ListTask>)
    ensures forall i :: 0 <= i < |tasks| ==> tasks[i].id in ToSet(IdsOf(tasks))
  {
    assert forall i :: 0 <= i < |tasks| ==> IdsOf(tasks)[i] in IdsOf(tasks);
  }

  // Then whatever a ring has kept out.
  method TheRest(tasks: seq<ListTask>, nesting: Nesting)
    requires nesting.Valid() && nesting.ids == IdsOf(tasks) && IsNesting(tasks, nesting.links)
    requires Sound(nesting.ids, nesting.links, nesting.out, {}) && Leveled(nesting.links, nesting.out)
    requires EdgesInOrder(nesting.ids, nesting.links, nesting.out)
    requires forall i :: 0 <= i < |tasks| && nesting.links[tasks[i].id].None? ==> tasks[i].id in nesting.done
    modifies nesting
    ensures nesting.Valid() && Sound(nesting.ids, nesting.links, nesting.out, {}) && Leveled(nesting.links, nesting.out)
    ensures EdgesInOrder(nesting.ids, nesting.links, nesting.out)
    ensures nesting.done == ToSet(IdsOf(tasks))
    ensures old(nesting.done) == nesting.links.Keys ==> nesting.out == old(nesting.out)
  {
    hide Sound, Leveled, IdsOf, RowIds, ListsChildren, IsNesting, ToSet, Nesting.Valid, FirstListed, EdgesInOrder, Branch;
    ghost var rows, listed := nesting.out, nesting.done;
    NothingToList(tasks, nesting.done);
    DoneIsListed(nesting);
    for k := 0 to |tasks|
      invariant nesting.Valid() && Sound(nesting.ids, nesting.links, nesting.out, {}) && Leveled(nesting.links, nesting.out)
      invariant listed <= nesting.done <= nesting.links.Keys && FirstListed(tasks, k, nesting.done)
      invariant listed == nesting.links.Keys ==> nesting.out == rows
      invariant EdgesInOrder(nesting.ids, nesting.links, nesting.out)
    {
      ghost var before := nesting.out;
      assert IdsOf(tasks)[k] == tasks[k].id;
      ListedByNow(tasks, nesting, k);
      TopInList(tasks, nesting.links, k);
      AtEdge(nesting, tasks[k].id);
      if nesting.out != before { RingEntryAdded(nesting.ids, nesting.links, before, nesting.out[|before|..], k); }
      DoneIsListed(nesting);
      OneMoreFirst(tasks, k);
    }
    EveryTaskIn(tasks, nesting.done);
    LinkedAreTasks(tasks, nesting.links);
  }

  lemma ListedByNow(tasks: seq<ListTask>, nesting: Nesting, k: nat)
    requires nesting.Valid() && FirstListed(tasks, k, nesting.done) && k <= |tasks|
    ensures forall a :: 0 <= a < k ==> IdsOf(tasks)[a] in ToSet(RowIds(nesting.out))
  {
  }

  ghost predicate FirstListed(tasks: seq<ListTask>, k: nat, done: set<int>) {
    forall i :: 0 <= i < k <= |tasks| ==> tasks[i].id in done
  }

  lemma NothingToList(tasks: seq<ListTask>, done: set<int>)
    ensures FirstListed(tasks, 0, done)
  {
  }

  lemma OneMoreFirst(tasks: seq<ListTask>, k: nat)
    requires k < |tasks|
    ensures forall a: set<int>, b: set<int> :: FirstListed(tasks, k, a) && a <= b && tasks[k].id in b ==> FirstListed(tasks, k + 1, b)
  {
  }

  lemma LinkedAreTasks(tasks: seq<ListTask>, links: Links)
    requires IsNesting(tasks, links)
    ensures links.Keys == ToSet(IdsOf(tasks))
  {
  }

  lemma EveryTaskIn(tasks: seq<ListTask>, done: set<int>)
    requires FirstListed(tasks, |tasks|, done)
    ensures ToSet(IdsOf(tasks)) <= done
  {
    forall x | x in ToSet(IdsOf(tasks)) ensures x in done {
      var i :| 0 <= i < |tasks| && IdsOf(tasks)[i] == x;
    }
  }

  lemma DoneIsListed(nesting: Nesting)
    requires nesting.Valid() && Sound(nesting.ids, nesting.links, nesting.out, {})
    ensures nesting.done <= nesting.links.Keys
  {
  }

  // ---- the left edge ------------------------------------------------------------------------------

  // A row at the edge: if it has no parent in the list, it comes after those before it in the list; if a ring has brought it
  // there, it is the first in the list of all that had not been listed by then.
  ghost predicate EdgeAt(ids: seq<int>, links: Links, rows: seq<Row>, i: nat)
    requires i < |rows|
  {
    rows[i].level == 0 && rows[i].id in links ==>
      if links[rows[i].id].None? then
        forall h :: 0 <= h < i && rows[h].level == 0 ==>
          rows[h].id in links && links[rows[h].id].None? && Before(ids, rows[h].id, rows[i].id)
      else forall x :: x in ids && x !in RowIds(rows[..i + 1]) ==> Before(ids, rows[i].id, x)
  }

  ghost predicate EdgesInOrder(ids: seq<int>, links: Links, rows: seq<Row>) {
    forall i :: 0 <= i < |rows| ==> EdgeAt(ids, links, rows, i)
  }

  // Whatever is at the edge so far is among the first k of the list.
  ghost predicate EdgesAmong(ids: seq<int>, rows: seq<Row>, k: nat) {
    forall h :: 0 <= h < |rows| && rows[h].level == 0 ==> exists a :: 0 <= a < k && a < |ids| && ids[a] == rows[h].id
  }

  lemma EdgesStay(ids: seq<int>, links: Links, rows: seq<Row>, more: seq<Row>, id: int)
    requires EdgesInOrder(ids, links, rows) && Branch(links, more, id, 0)
    requires EdgeAt(ids, links, rows + more, |rows|)
    ensures EdgesInOrder(ids, links, rows + more)
  {
    hide Before, RowIds;
    var all := rows + more;
    forall i | 0 <= i < |all| ensures EdgeAt(ids, links, all, i) {
      if i < |rows| {
        assert EdgeAt(ids, links, rows, i);
        assert all[..i + 1] == rows[..i + 1];
      } else if i > |rows| {
        assert all[i] == more[i - |rows|];
      }
    }
  }

  lemma TopAdded(ids: seq<int>, links: Links, rows: seq<Row>, more: seq<Row>, k: nat)
    requires k < |ids| && Branch(links, more, ids[k], 0) && ids[k] in links && links[ids[k]].None?
    requires EdgesInOrder(ids, links, rows) && EdgeIsTop(links, rows) && EdgesAmong(ids, rows, k)
    ensures EdgesInOrder(ids, links, rows + more) && EdgesAmong(ids, rows + more, k + 1)
  {
    var all := rows + more;
    forall h | 0 <= h < |rows| && rows[h].level == 0 ensures Before(ids, rows[h].id, ids[k]) {
      var a :| 0 <= a < k && a < |ids| && ids[a] == rows[h].id;
    }
    forall h | 0 <= h < |all| && all[h].level == 0 ensures exists a :: 0 <= a < k + 1 && a < |ids| && ids[a] == all[h].id {
      if h < |rows| {
        var a :| 0 <= a < k && a < |ids| && ids[a] == rows[h].id;
        assert ids[a] == all[h].id;
      } else {
        assert all[h] == more[h - |rows|] && ids[k] == all[h].id;
      }
    }
    hide EdgesAmong, Before;
    EdgesStay(ids, links, rows, more, ids[k]);
  }

  lemma RingEntryAdded(ids: seq<int>, links: Links, rows: seq<Row>, more: seq<Row>, k: nat)
    requires k < |ids| && Branch(links, more, ids[k], 0) && ids[k] in links && links[ids[k]].Some?
    requires EdgesInOrder(ids, links, rows) && forall a :: 0 <= a < k ==> ids[a] in ToSet(RowIds(rows))
    ensures EdgesInOrder(ids, links, rows + more)
  {
    var all := rows + more;
    assert RowIds(all[..|rows| + 1]) == RowIds(rows) + [ids[k]];
    forall x | x in ids && x !in RowIds(all[..|rows| + 1]) ensures Before(ids, ids[k], x) {
      var a :| 0 <= a < |ids| && ids[a] == x;
      assert x !in RowIds(rows) && a != k;
      assert a >= k;
    }
    hide Before, RowIds;
    EdgesStay(ids, links, rows, more, ids[k]);
  }

  lemma NestedInForest(links: Links, rows: seq<Row>, ids: seq<int>)
    requires Leveled(links, rows) && EdgeIsTop(links, rows) && ParentsKnown(links) && Distinct(RowIds(rows))
    requires forall i :: 0 <= i < |rows| ==> rows[i].id in links
    ensures forall i :: 0 <= i < |rows| ==>
              if links[rows[i].id].Some? then UnderParent(links, rows, i) else rows[i].level == 0
  {
    forall i | 0 <= i < |rows| && links[rows[i].id].None?
      ensures rows[i].level == 0
    {
    }
  }

  lemma EverythingDone(tasks: seq<ListTask>, ids: seq<int>, links: Links, rows: seq<Row>)
    requires ids == IdsOf(tasks) && IsNesting(tasks, links) && Forest(links) && Sound(ids, links, rows, {})
    requires forall i :: 0 <= i < |ids| && links[ids[i]].None? ==> ids[i] in ToSet(RowIds(rows))
    ensures ToSet(RowIds(rows)) == links.Keys && ParentsKnown(links)
  {
    forall t | t in links && links[t].None? ensures t in ToSet(RowIds(rows)) {
      assert t in ids;
      var i :| 0 <= i < |ids| && ids[i] == t;
    }
    assert ParentsKnown(links) by {
      forall t | t in links && links[t].Some? ensures links[t].value in links {
        assert t in ids;
        var i :| 0 <= i < |ids| && ids[i] == t;
      }
    }
    forall x | x in links ensures x in ToSet(RowIds(rows)) { AllListed(ids, links, rows, x); }
  }

  // A task put at the left edge, unless it is listed already.
  method AtEdge(nesting: Nesting, id: int)
    requires nesting.Valid() && id in nesting.links
    requires Sound(nesting.ids, nesting.links, nesting.out, {}) && Leveled(nesting.links, nesting.out)
    modifies nesting
    ensures nesting.Valid() && id in nesting.done && old(nesting.done) <= nesting.done
    ensures Sound(nesting.ids, nesting.links, nesting.out, {}) && Leveled(nesting.links, nesting.out)
    ensures id in old(nesting.done) ==> nesting.out == old(nesting.out)
    ensures nesting.out != old(nesting.out) ==>
              && |old(nesting.out)| <= |nesting.out| && nesting.out == old(nesting.out) + nesting.out[|old(nesting.out)|..]
              && Branch(nesting.links, nesting.out[|old(nesting.out)|..], id, 0)
    ensures EdgeIsTop(nesting.links, old(nesting.out)) && nesting.links[id].None? ==> EdgeIsTop(nesting.links, nesting.out)
  {
    ghost var before := nesting.out;
    NewAtEdge(nesting.ids, nesting.links, before, id);
    hide Sound, Leveled, NextChild, ListsChildren, Branch, EdgeIsTop, RowIds;
    nesting.Visit(id, 0, {});
    ghost var more := nesting.out[|before|..];
    assert nesting.out == before + more;
    RowsAdded(before, more);
    if id !in ToSet(RowIds(before)) {
      BranchAtEdge(nesting.ids, nesting.links, before, more, id);
      EdgeStaysTop(nesting.links, before, more, id);
    }
  }

  lemma RowsAdded(rows: seq<Row>, more: seq<Row>)
    ensures ToSet(RowIds(rows)) <= ToSet(RowIds(rows + more))
  {
    assert RowIds(rows + more) == RowIds(rows) + RowIds(more);
  }

  lemma EdgeStaysTop(links: Links, rows: seq<Row>, more: seq<Row>, id: int)
    requires Branch(links, more, id, 0) && id in links
    ensures EdgeIsTop(links, rows) && links[id].None? ==> EdgeIsTop(links, rows + more)
  {
    if EdgeIsTop(links, rows) && links[id].None? {
      var all := rows + more;
      forall i | 0 <= i < |all| && all[i].level == 0
        ensures all[i].id in links && links[all[i].id].None?
      {
        assert all[i] == if i < |rows| then rows[i] else more[i - |rows|];
      }
    }
  }

  lemma NewAtEdge(ids: seq<int>, links: Links, rows: seq<Row>, id: int)
    requires Sound(ids, links, rows, {}) && id in links
    ensures id !in ToSet(RowIds(rows)) ==> NextChild(ids, links, rows, id)
  {
    assert forall j :: 0 <= j < |rows| ==> RowIds(rows)[j] in RowIds(rows);
  }
}
