/** Creating, moving and deleting projects against the store. */
module ProjectUseCases {
  import opened Basics
  import opened ParentLinks
  import opened ProjectTrees
  import opened ProjectCalendar
  import opened WorkspaceModel
  import opened WorkspaceStore
  import opened WorkSeats

  // The store and the answer after a request are those of the specification; a refusal has changed nothing.
  ghost predicate Answers(before: Workspace, o: Outcome, refused: Option<Refusal>, after: Workspace) {
    match o
    case Done(expected) => refused.None? && after == expected
    case Refused(why) => refused == Some(why) && after == before
  }

  function Without(s: seq<int>, x: int): (r: seq<int>)
    ensures forall y :: y in r <==> y in s && y != x
  {
    if s == [] then [] else (if s[0] == x then [] else [s[0]]) + Without(s[1..], x)
  }

  // x put into s at a position; anywhere outside s means at the end.
  function Inserted(s: seq<int>, position: Option<int>, x: int): seq<int> {
    var at := if position.None? || position.value < 0 || position.value > |s| then |s| else position.value;
    s[..at] + [x] + s[at..]
  }

  // The children of `parent` are those of s, numbered from 0 in that order.
  ghost predicate StandAs(links: Links, order: map<int, int>, parent: Option<int>, s: seq<int>) {
    IsChildrenOf(links, order, parent, s) && Numbered(order, s)
  }

  // The moved project stands at its place among its new siblings.
  ghost predicate PutInPlace(links: Links, order: map<int, int>, newLinks: Links, newOrder: map<int, int>, x: int,
                             parent: Option<int>, position: Option<int>)
  {
    forall s :: IsChildrenOf(links, order, parent, s) ==>
      StandAs(newLinks, newOrder, parent, Inserted(Without(s, x), position, x))
  }

  // The siblings it left close up.
  ghost predicate ClosedUp(links: Links, order: map<int, int>, newLinks: Links, newOrder: map<int, int>, x: int,
                           former: Option<int>)
  {
    forall s :: IsChildrenOf(links, order, former, s) ==> StandAs(newLinks, newOrder, former, Without(s, x))
  }

  // How siblings stand after a move.
  ghost predicate Reordered(links: Links, order: map<int, int>, newLinks: Links, newOrder: map<int, int>, x: int,
                            position: Option<int>)
    requires x in links && x in newLinks
  {
    && PutInPlace(links, order, newLinks, newOrder, x, newLinks[x], position)
    && (links[x] != newLinks[x] ==> ClosedUp(links, order, newLinks, newOrder, x, links[x]))
    && (forall y :: y in links && y in order && links[y] != links[x] && links[y] != newLinks[x] ==>
          y in newOrder && newOrder[y] == order[y])
  }

  lemma {:induction false} WithoutKeepsOrder(order: map<int, int>, s: seq<int>, x: int)
    requires InOrder(order, s)
    ensures InOrder(order, Without(s, x)) && Distinct(Without(s, x))
  {
    if s != [] {
      WithoutKeepsOrder(order, s[1..], x);
      var rest := Without(s[1..], x);
      forall i | 0 <= i < |rest|
        ensures Earlier(order, s[0], rest[i])
      {
        assert rest[i] in s[1..];
      }
      var all := Without(s, x);
      assert all == (if s[0] == x then [] else [s[0]]) + rest;
      forall i, j | 0 <= i < j < |all| ensures Earlier(order, all[i], all[j]) && all[i] != all[j] {
        if s[0] != x && i > 0 { assert Earlier(order, rest[i - 1], rest[j - 1]); }
      }
    }
  }

  lemma NumberedIsInOrder(order: map<int, int>, s: seq<int>)
    requires Numbered(order, s)
    ensures InOrder(order, s)
  {
  }

  lemma InsertedHasAll(s: seq<int>, position: Option<int>, x: int)
    requires Distinct(s) && x !in s
    ensures Distinct(Inserted(s, position, x)) && ToSet(Inserted(s, position, x)) == ToSet(s) + {x}
  {
    var at := if position.None? || position.value < 0 || position.value > |s| then |s| else position.value;
    assert s == s[..at] + s[at..];
    ConcatDistinct([x], s[at..]);
    ConcatDistinct(s[..at], [x] + s[at..]);
    assert s[..at] + [x] + s[at..] == s[..at] + ([x] + s[at..]);
  }

  lemma MovedChildren(links: Links, x: int, parent: Option<int>)
    requires x in links
    ensures ChildSet(links[x := parent], parent) == ChildSet(links, parent) + {x}
    ensures links[x] != parent ==> ChildSet(links[x := parent], links[x]) == ChildSet(links, links[x]) - {x}
  {
  }

  lemma WithoutAsSet(s: seq<int>, x: int)
    ensures ToSet(Without(s, x)) == ToSet(s) - {x}
  {
    hide Without;
  }

  // Who is a sibling of whom after a move.
  lemma MembersAfterMove(links: Links, order: map<int, int>, x: int, parent: Option<int>, siblings: seq<int>,
                         formerSiblings: seq<int>, position: Option<int>)
    requires x in links && IsChildrenOf(links, order, parent, siblings) && IsChildrenOf(links, order, links[x], formerSiblings)
    ensures var placed := Inserted(Without(siblings, x), position, x);
            && Distinct(placed) && ToSet(placed) == ChildSet(links[x := parent], parent)
    ensures Distinct(Without(formerSiblings, x))
    ensures links[x] != parent ==> ToSet(Without(formerSiblings, x)) == ChildSet(links[x := parent], links[x])
  {
    hide Inserted, Without, InOrder, ChildSet, ToSet, Distinct;
    WithoutKeepsOrder(order, siblings, x);
    WithoutKeepsOrder(order, formerSiblings, x);
    InsertedHasAll(Without(siblings, x), position, x);
    WithoutAsSet(siblings, x);
    WithoutAsSet(formerSiblings, x);
    MovedChildren(links, x, parent);
  }

  lemma PutInPlaceBy(links: Links, order: map<int, int>, x: int, parent: Option<int>, newOrder: map<int, int>,
                     siblings: seq<int>, position: Option<int>)
    requires x in links && IsChildrenOf(links, order, parent, siblings)
    requires Numbered(newOrder, Inserted(Without(siblings, x), position, x))
    requires ToSet(Inserted(Without(siblings, x), position, x)) == ChildSet(links[x := parent], parent)
    ensures PutInPlace(links, order, links[x := parent], newOrder, x, parent, position)
  {
    var placed := Inserted(Without(siblings, x), position, x);
    NumberedIsInOrder(newOrder, placed);
    assert StandAs(links[x := parent], newOrder, parent, placed);
    hide Inserted, Without, StandAs;
    forall s | IsChildrenOf(links, order, parent, s)
      ensures s == siblings
    {
      OrderIsUnique(order, s, siblings);
    }
  }

  lemma ClosedUpBy(links: Links, order: map<int, int>, x: int, parent: Option<int>, newOrder: map<int, int>,
                   formerSiblings: seq<int>)
    requires x in links && IsChildrenOf(links, order, links[x], formerSiblings)
    requires Numbered(newOrder, Without(formerSiblings, x))
    requires ToSet(Without(formerSiblings, x)) == ChildSet(links[x := parent], links[x])
    ensures ClosedUp(links, order, links[x := parent], newOrder, x, links[x])
  {
    NumberedIsInOrder(newOrder, Without(formerSiblings, x));
    assert StandAs(links[x := parent], newOrder, links[x], Without(formerSiblings, x));
    hide Without, StandAs;
    forall s | IsChildrenOf(links, order, links[x], s)
      ensures s == formerSiblings
    {
      OrderIsUnique(order, s, formerSiblings);
    }
  }

  // ---- where siblings stand after a move ------------------------------------------------------------

  lemma NumbersOf(order: map<int, int>, newOrder: map<int, int>, s: seq<int>, t: seq<int>, gap: nat)
    requires InOrder(order, s) && Numbered(newOrder, t) && gap <= |s|
    requires forall i :: 0 <= i < |s| ==> (if i < gap then i else i + |t| - |s|) < |t| && |s| <= |t|
                                          && t[if i < gap then i else i + |t| - |s|] == s[i]
    ensures forall y, z :: y in s && z in s && Earlier(order, y, z) ==>
              y in newOrder && z in newOrder && newOrder[y] < newOrder[z]
    ensures forall y :: y in s ==> y in newOrder && 0 <= newOrder[y] < |t|
  {
    forall y | y in s ensures y in newOrder && 0 <= newOrder[y] < |t| {
      var i :| 0 <= i < |s| && s[i] == y;
      assert t[if i < gap then i else i + |t| - |s|] == y;
    }
    forall y, z | y in s && z in s && Earlier(order, y, z) ensures newOrder[y] < newOrder[z] {
      var i :| 0 <= i < |s| && s[i] == y;
      var j :| 0 <= j < |s| && s[j] == z;
      assert t[if i < gap then i else i + |t| - |s|] == y && t[if j < gap then j else j + |t| - |s|] == z;
    }
  }

  /** After a move the project has the number asked for among its new siblings, or the last one; those siblings have the
      other numbers from 0 on, in the order they were in; and the siblings it left are numbered from 0 in theirs. */
  lemma NumbersAfterMove(links: Links, order: map<int, int>, newLinks: Links, newOrder: map<int, int>, x: int,
                         position: Option<int>)
    requires x in links && x in newLinks && Reordered(links, order, newLinks, newOrder, x, position)
    ensures var others := ChildSet(links, newLinks[x]) - {x};
            && x in newOrder
            && newOrder[x] == (if position.Some? && 0 <= position.value <= |others| then position.value else |others|)
            && (forall y :: y in others ==> y in newOrder && 0 <= newOrder[y] <= |others|)
            && (forall y, z :: y in others && z in others && Earlier(order, y, z) ==> newOrder[y] < newOrder[z])
    ensures var left := ChildSet(links, links[x]) - {x};
            newLinks[x] != links[x] ==>
              && (forall y :: y in left ==> y in newOrder && 0 <= newOrder[y] < |left|)
              && (forall y, z :: y in left && z in left && Earlier(order, y, z) ==> newOrder[y] < newOrder[z])
  {
    hide Without, ChildSet, Earlier;
    PutInPlaceNumbers(links, order, newLinks, newOrder, x, newLinks[x], position);
    if newLinks[x] != links[x] { ClosedUpNumbers(links, order, newLinks, newOrder, x, links[x]); }
  }

  lemma PutInPlaceNumbers(links: Links, order: map<int, int>, newLinks: Links, newOrder: map<int, int>, x: int,
                          parent: Option<int>, position: Option<int>)
    requires PutInPlace(links, order, newLinks, newOrder, x, parent, position)
    ensures var others := ChildSet(links, parent) - {x};
            && x in newOrder
            && newOrder[x] == (if position.Some? && 0 <= position.value <= |others| then position.value else |others|)
            && (forall y :: y in others ==> y in newOrder && 0 <= newOrder[y] <= |others|)
            && (forall y, z :: y in others && z in others && Earlier(order, y, z) ==> newOrder[y] < newOrder[z])
  {
    hide Without, ChildSet, Earlier, InOrder, Inserted, Numbered, Distinct;
    var others := ChildSet(links, parent) - {x};
    var s := SortedBy(order, ChildSet(links, parent));
    assert IsChildrenOf(links, order, parent, s);
    var rest := Without(s, x);
    WithoutKeepsOrder(order, s, x);
    WithoutAsSet(s, x);
    SortedIsDistinct(order, rest);
    assert ToSet(rest) == others;
    assert StandAs(newLinks, newOrder, parent, Inserted(rest, position, x));
    NumbersOfInserted(order, newOrder, rest, position, x);
  }

  lemma NumbersOfInserted(order: map<int, int>, newOrder: map<int, int>, rest: seq<int>, position: Option<int>, x: int)
    requires InOrder(order, rest) && Numbered(newOrder, Inserted(rest, position, x))
    ensures x in newOrder
    ensures newOrder[x] == (if position.Some? && 0 <= position.value <= |rest| then position.value else |rest|)
    ensures forall y :: y in rest ==> y in newOrder && 0 <= newOrder[y] <= |rest|
    ensures forall y, z :: y in rest && z in rest && Earlier(order, y, z) ==> newOrder[y] < newOrder[z]
  {
    hide Earlier;
    var at := if position.Some? && 0 <= position.value <= |rest| then position.value else |rest|;
    var placed := Inserted(rest, position, x);
    assert placed == rest[..at] + [x] + rest[at..];
    assert placed[at] == x;
    NumbersOf(order, newOrder, rest, placed, at);
  }

  lemma ClosedUpNumbers(links: Links, order: map<int, int>, newLinks: Links, newOrder: map<int, int>, x: int,
                        former: Option<int>)
    requires ClosedUp(links, order, newLinks, newOrder, x, former)
    ensures var left := ChildSet(links, former) - {x};
            && (forall y :: y in left ==> y in newOrder && 0 <= newOrder[y] < |left|)
            && (forall y, z :: y in left && z in left && Earlier(order, y, z) ==> newOrder[y] < newOrder[z])
  {
    hide Without, ChildSet, Earlier;
    var left := ChildSet(links, former) - {x};
    var s := SortedBy(order, ChildSet(links, former));
    assert IsChildrenOf(links, order, former, s);
    var rest := Without(s, x);
    WithoutKeepsOrder(order, s, x);
    WithoutAsSet(s, x);
    SortedIsDistinct(order, rest);
    assert ToSet(rest) == left;
    assert StandAs(newLinks, newOrder, former, rest);
    NumbersOf(order, newOrder, rest, rest, |rest|);
  }

  // ---- the copied calendar -----------------------------------------------------------------------

  lemma OwnDays(cal: Calendar, to: int, off: seq<CalendarDay>, extra: seq<CalendarDay>, day: Day)
    requires Lists(cal.daysOff, [to], false, off) && Lists(cal.extraWorkdays, [to], true, extra)
    requires forall c :: c in off + extra ==> c.project == to
    ensures (exists c :: c in off && c.day == day) || (exists c :: c in extra && c.day == day) <==> Own(cal, to, day).Some?
  {
    assert forall c :: c in off ==> c in off + extra;
    assert forall c :: c in extra ==> c in off + extra;
    var k := (to, day);
    if k in cal.daysOff { assert CalendarDay(k.0, k.1, cal.daysOff[k], false) in off; }
    if k in cal.extraWorkdays { assert CalendarDay(k.0, k.1, cal.extraWorkdays[k], true) in extra; }
  }

  // The layering above decides a day as the specification does.
  lemma LayeredSays(cal: Calendar, above: seq<int>, off: seq<CalendarDay>, extra: seq<CalendarDay>,
                    layered: seq<CalendarDay>, working: bool, day: Day)
    requires Lists(cal.daysOff, above, false, off) && Lists(cal.extraWorkdays, above, true, extra)
    requires IsLayered(above, off + extra, working, layered)
    ensures var rule := Effective(cal, above, day);
            var row := LastOf(layered, day);
            && (rule.Some? ==> day in DaysOf(cal))
            && (row.Some? <==> rule.Some? && rule.value.ExtraWorkday? == working)
            && (row.Some? ==> rule.value.name == row.value.name)
  {
    LayeringIsEffective(cal, above, above, off, extra, day);
    EffectiveDayIsStored(cal, above, day);
    NearestIsOnLineage(above, off + extra, day);
    LastOfIsThere(layered, day);
    var found := Nearest(above, off + extra, day);
    if found.Some? && found.value.working == working {
      assert found.value in layered;
    }
  }

  // Entering the layered rows, with the project's own days left out, is copying down.
  lemma LaidIsCopiedDown(cal: Calendar, fromRoot: int, above: seq<int>, to: int, off: seq<CalendarDay>,
                         extra: seq<CalendarDay>, layeredOff: seq<CalendarDay>, layeredExtra: seq<CalendarDay>, own: set<Day>)
    requires Lists(cal.daysOff, above, false, off) && Lists(cal.extraWorkdays, above, true, extra)
    requires IsLayered(above, off + extra, false, layeredOff) && IsLayered(above, off + extra, true, layeredExtra)
    requires forall day :: day in own <==> Own(cal, to, day).Some?
    ensures var copied := CopiedDown(cal, fromRoot, above, to);
            && copied.daysOff == Laid(cal.daysOff, layeredOff, own, to)
            && copied.extraWorkdays == Laid(cal.extraWorkdays, layeredExtra, own, to)
  {
    hide IsLayered, Lists, Laid, Own, Effective, DaysOf, LastOf;
    var copied := CopiedDown(cal, fromRoot, above, to);
    forall k: (int, Day)
      ensures k in copied.daysOff <==> k in Laid(cal.daysOff, layeredOff, own, to)
      ensures k in copied.daysOff ==> copied.daysOff[k] == Laid(cal.daysOff, layeredOff, own, to)[k]
    {
      LaidAt(cal.daysOff, layeredOff, own, to, k);
      LayeredSays(cal, above, off, extra, layeredOff, false, k.1);
    }
    forall k: (int, Day)
      ensures k in copied.extraWorkdays <==> k in Laid(cal.extraWorkdays, layeredExtra, own, to)
      ensures k in copied.extraWorkdays ==> copied.extraWorkdays[k] == Laid(cal.extraWorkdays, layeredExtra, own, to)[k]
    {
      LaidAt(cal.extraWorkdays, layeredExtra, own, to, k);
      LayeredSays(cal, above, off, extra, layeredExtra, true, k.1);
    }
    assert copied.daysOff == Laid(cal.daysOff, layeredOff, own, to);
    assert copied.extraWorkdays == Laid(cal.extraWorkdays, layeredExtra, own, to);
  }

  class ProjectUseCases {
    const store: Store

    constructor (store: Store)
      ensures this.store == store
    {
      this.store := store;
    }

    method CreateProject(id: int, parent: Option<int>) returns (refused: Option<Refusal>)
      requires store.Valid() && id !in store.projects
      modifies store
      ensures store.Valid()
      ensures Answers(old(store.Now()), WorkspaceModel.CreateProject(old(store.Now()), id, parent), refused, store.Now())
      ensures store.sortOrder == if refused.Some? then old(store.sortOrder)
                                 else old(store.sortOrder)[id := |ChildSet(old(store.projects), parent)|]
    {
      if parent.Some? && parent.value !in store.projects { return Some(NotFound); }
      var tree := store.Tree();
      var siblings := tree.ChildrenOf(parent);
      SortedIsDistinct(store.sortOrder, siblings);
      store.projects := store.projects[id := parent];
      store.sortOrder := store.sortOrder[id := |siblings|];
      refused := None;
    }

    // The old top's workdays, and the days inherited from above that the project says nothing about itself.
    method CopyTeamCalendar(fromRoot: int, above: seq<int>, to: int)
      requires Distinct(above)
      modifies store`calendar
      ensures store.calendar == CopiedDown(old(store.calendar), fromRoot, above, to)
    {
      ghost var before := store.calendar;
      if fromRoot in store.calendar.workweeks {
        store.calendar := store.calendar.(workweeks := store.calendar.workweeks[to := store.calendar.workweeks[fromRoot]]);
      }
      var ownOff := RowsOf(store.calendar.daysOff, [to], false);
      var ownExtra := RowsOf(store.calendar.extraWorkdays, [to], true);
      var own := (set c | c in ownOff :: c.day) + (set c | c in ownExtra :: c.day);
      forall day ensures day in own <==> Own(before, to, day).Some? { OwnDays(before, to, ownOff, ownExtra, day); }
      hide Own, Laid, Lists, IsLayered;
      var off := RowsOf(store.calendar.daysOff, above, false);
      var extra := RowsOf(store.calendar.extraWorkdays, above, true);
      var inheritedOff, inheritedExtra := LayerCalendarDays(above, off, extra);
      store.AddDaysOff(inheritedOff, own, to);
      store.AddExtraWorkdays(inheritedExtra, own, to);
      LaidIsCopiedDown(before, fromRoot, above, to, off, extra, inheritedOff, inheritedExtra, own);
    }

    // The calendar side of a move.
    method CarryCalendar(id: int, former: Option<int>, parent: Option<int>)
      requires id in store.projects && store.projects[id] == former
      modifies store`calendar
      ensures store.calendar == CalendarAfterMove(old(store.Now()), id, former, parent)
    {
      if former.None? && parent.Some? {
        store.calendar := store.calendar.(workweeks := store.calendar.workweeks - {id});
      } else if former.Some? && parent.None? {
        var tree := store.Tree();
        var oldRoot := tree.TopOf(id);
        var lineage := tree.ChainAbove(Some(id));
        assert lineage[1..] == Chain(store.projects, former, {id}) by { assert {} + {id} == {id}; }
        CopyTeamCalendar(oldRoot, lineage[1..], id);
      }
    }

    method MoveProject(id: int, parent: Option<int>, position: Option<int>) returns (refused: Option<Refusal>)
      requires store.Valid()
      modifies store
      ensures store.Valid()
      ensures Answers(old(store.Now()), WorkspaceModel.MoveProject(old(store.Now()), id, parent), refused, store.Now())
      ensures refused.Some? ==> store.sortOrder == old(store.sortOrder)
      ensures refused.None? ==>
                && id in old(store.projects) && store.projects == old(store.projects)[id := parent]
                && Reordered(old(store.projects), old(store.sortOrder), store.projects, store.sortOrder, id, position)
    {
      if id !in store.projects || (parent.Some? && parent.value !in store.projects) { return Some(NotFound); }
      var tree := store.Tree();
      var cycle := tree.MakesRing(id, parent);
      if cycle { return Some(ProjectCycle); }
      var former := store.projects[id];
      ghost var before := store.Now();
      CarryCalendar(id, former, parent);
      var siblings := tree.ChildrenOf(parent);
      var formerSiblings := tree.ChildrenOf(former);
      Place(id, parent, former, siblings, formerSiblings, position);
      if former != parent {
        var _ := store.DetachUnreachableMilestones();
      }
      refused := None;
    }

    method DeleteProject(id: int) returns (refused: Option<Refusal>)
      requires store.Valid()
      modifies store
      ensures store.Valid()
      ensures Answers(old(store.Now()), WorkspaceModel.DeleteProject(old(store.Now()), id), refused, store.Now())
      ensures store.sortOrder == if refused.Some? then old(store.sortOrder) else old(store.sortOrder) - {id}
    {
      if id !in store.projects { return Some(NotFound); }
      if HasContents(Workspace(store.projects, store.tasks, store.milestones, store.calendar), id) { return Some(NotEmpty); }
      var tasks, milestones, cal := store.tasks, store.milestones, store.calendar;
      store.tasks := map t | t in tasks :: if tasks[t].project == Some(id) then tasks[t].(project := None) else tasks[t];
      store.milestones := map m | m in milestones ::
                            if milestones[m].project == Some(id) then milestones[m].(project := None) else milestones[m];
      store.calendar := Calendar(cal.workweeks - {id}, RowsElsewhere(cal.daysOff, id), RowsElsewhere(cal.extraWorkdays, id));
      store.projects := store.projects - {id};
      store.sortOrder := store.sortOrder - {id};
      refused := None;
    }

    // The project under its new parent, and both groups of siblings numbered anew.
    method Place(id: int, parent: Option<int>, former: Option<int>, siblings: seq<int>, formerSiblings: seq<int>,
                 position: Option<int>)
      requires store.Valid() && id in store.projects && store.projects[id] == former
      requires IsChildrenOf(store.projects, store.sortOrder, parent, siblings)
      requires IsChildrenOf(store.projects, store.sortOrder, former, formerSiblings)
      modifies store`projects, store`sortOrder
      ensures store.Valid() && store.projects == old(store.projects)[id := parent]
      ensures Reordered(old(store.projects), old(store.sortOrder), store.projects, store.sortOrder, id, position)
    {
      hide Inserted, Without, IsChildrenOf, Numbered, Reordered, ChildSet, ToSet, Distinct;
      ghost var links, order := store.projects, store.sortOrder;
      var placed := Inserted(Without(siblings, id), position, id);
      MembersAfterMove(links, order, id, parent, siblings, formerSiblings, position);
      store.projects := store.projects[id := parent];
      var closedUp := if former != parent then Without(formerSiblings, id) else [];
      NothingTwice();
      GroupsApart(links, id, parent, placed, closedUp);
      NumberBoth(placed, closedUp);
      ReorderedBy(links, order, id, parent, store.sortOrder, siblings, formerSiblings, position);
    }

    // Both groups numbered from 0, the second after the first.
    method NumberBoth(placed: seq<int>, closedUp: seq<int>)
      requires store.Valid() && Distinct(placed) && Distinct(closedUp)
      requires forall x :: x in placed ==> x in store.projects && x !in closedUp
      requires forall x :: x in closedUp ==> x in store.projects
      modifies store`sortOrder
      ensures store.Valid() && Numbered(store.sortOrder, placed) && Numbered(store.sortOrder, closedUp)
      ensures forall x :: x in store.sortOrder && x !in placed && x !in closedUp ==> store.sortOrder[x] == old(store.sortOrder)[x]
    {
      hide Numbered, Distinct;
      store.SetSortOrders(placed);
      ghost var middle := store.sortOrder;
      store.SetSortOrders(closedUp);
      StillNumbered(middle, store.sortOrder, placed);
    }
  }

  lemma NothingTwice()
    ensures Distinct<int>([])
  {
  }

  lemma ReorderedBy(links: Links, order: map<int, int>, x: int, parent: Option<int>, newOrder: map<int, int>,
                    siblings: seq<int>, formerSiblings: seq<int>, position: Option<int>)
    requires x in links
    requires IsChildrenOf(links, order, parent, siblings) && IsChildrenOf(links, order, links[x], formerSiblings)
    requires var placed := Inserted(Without(siblings, x), position, x);
             var closedUp := if links[x] != parent then Without(formerSiblings, x) else [];
             && Numbered(newOrder, placed) && Numbered(newOrder, closedUp)
             && ToSet(placed) == ChildSet(links[x := parent], parent)
             && (links[x] != parent ==> ToSet(closedUp) == ChildSet(links[x := parent], links[x]))
             && order.Keys <= newOrder.Keys
             && (forall y :: y in newOrder && y !in placed && y !in closedUp && y in order ==> newOrder[y] == order[y])
             && (forall y :: y in links && links[y] != links[x] && links[y] != parent ==> y !in placed && y !in closedUp)
    ensures Reordered(links, order, links[x := parent], newOrder, x, position)
  {
    hide Inserted, Without, IsChildrenOf, Numbered, PutInPlace, ClosedUp, ChildSet, ToSet;
    PutInPlaceBy(links, order, x, parent, newOrder, siblings, position);
    if links[x] != parent { ClosedUpBy(links, order, x, parent, newOrder, formerSiblings); }
  }

  // The new siblings and the former ones are other projects, and all of them are there.
  lemma GroupsApart(links: Links, x: int, parent: Option<int>, placed: seq<int>, closedUp: seq<int>)
    requires x in links && ToSet(placed) == ChildSet(links[x := parent], parent)
    requires if links[x] != parent then ToSet(closedUp) == ChildSet(links[x := parent], links[x]) else closedUp == []
    ensures forall y :: y in placed ==> y in links && y !in closedUp
    ensures forall y :: y in closedUp ==> y in links
    ensures forall y :: y in links && links[y] != links[x] && links[y] != parent ==> y !in placed && y !in closedUp
  {
    forall y | y in placed ensures y in links && y !in closedUp { assert y in ToSet(placed); }
    forall y | y in closedUp ensures y in links { assert y in ToSet(closedUp); }
    forall y | y in links && links[y] != links[x] && links[y] != parent ensures y !in placed && y !in closedUp {
      assert y !in ToSet(placed) && (links[x] != parent ==> y !in ToSet(closedUp));
    }
  }

  lemma StillNumbered(a: map<int, int>, b: map<int, int>, s: seq<int>)
    requires Numbered(a, s) && forall x :: x in s ==> x in b && x in a && b[x] == a[x]
    ensures Numbered(b, s)
  {
    forall i | 0 <= i < |s|
      ensures s[i] in b && b[s[i]] == i
    {
      var x := s[i];
      assert x in s;
    }
  }
}
