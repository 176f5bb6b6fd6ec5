/** The calendar of a project: its own days off and extra workdays laid over those of the projects above it. */
module ProjectCalendar {
  import opened Basics
  import opened ParentLinks
  import opened ProjectTrees
  import opened WorkSeats

  // A row of either table: a day off, or a workday that the weekday alone would not be.
  datatype CalendarDay = CalendarDay(project: int, day: Day, name: string, working: bool)

  // The first row of a project for a day.
  function Given(items: seq<CalendarDay>, project: int, day: Day): Option<CalendarDay> {
    if items == [] then None
    else if items[0].project == project && items[0].day == day then Some(items[0])
    else Given(items[1..], project, day)
  }

  // The row that decides a day: the nearest project on the lineage that has one.
  function Nearest(lineage: seq<int>, items: seq<CalendarDay>, day: Day): Option<CalendarDay> {
    if lineage == [] then None
    else if Given(items, lineage[0], day).Some? then Given(items, lineage[0], day)
    else Nearest(lineage[1..], items, day)
  }

  lemma {:induction false} GivenOfBoth(a: seq<CalendarDay>, b: seq<CalendarDay>, project: int, day: Day)
    ensures Given(a + b, project, day) == if Given(a, project, day).Some? then Given(a, project, day) else Given(b, project, day)
  {
    if a == [] {
      assert a + b == b;
    } else {
      assert (a + b)[1..] == a[1..] + b;
      GivenOfBoth(a[1..], b, project, day);
    }
  }

  lemma {:induction false} GivenIsThere(items: seq<CalendarDay>, project: int, day: Day)
    ensures Given(items, project, day).Some? ==>
              var c := Given(items, project, day).value; c in items && c.project == project && c.day == day
    ensures Given(items, project, day).None? ==> forall c :: c in items ==> c.project != project || c.day != day
  {
    if items != [] {
      GivenIsThere(items[1..], project, day);
      assert items == [items[0]] + items[1..];
    }
  }

  /** Layering a lineage is layering its nearer part over its farther part. */
  lemma {:induction false} LayersCompose(near: seq<int>, far: seq<int>, items: seq<CalendarDay>, day: Day)
    ensures Nearest(near + far, items, day)
            == if Nearest(near, items, day).Some? then Nearest(near, items, day) else Nearest(far, items, day)
  {
    if near == [] {
      assert near + far == far;
    } else {
      assert (near + far)[1..] == near[1..] + far;
      LayersCompose(near[1..], far, items, day);
    }
  }

  // The place of a project on the lineage.
  ghost predicate Ranked(lineage: seq<int>, project: int, rank: int) {
    0 <= rank < |lineage| && lineage[rank] == project
  }

  /** What one more row changes: it decides its day if it is nearer than the row that did so far. */
  lemma {:induction false} OneMoreRow(lineage: seq<int>, items: seq<CalendarDay>, c: CalendarDay, day: Day)
    requires Distinct(lineage)
    ensures var was := Nearest(lineage, items, day);
            Nearest(lineage, items + [c], day)
            == if c.day == day && c.project in lineage && (was.None? || Nearer(lineage, c.project, was.value.project))
               then Some(c) else was
  {
    if lineage != [] {
      GivenOfBoth(items, [c], lineage[0], day);
      GivenIsThere(items, lineage[0], day);
      OneMoreRow(lineage[1..], items, c, day);
      NearestIsOnLineage(lineage[1..], items, day);
      assert lineage == [lineage[0]] + lineage[1..];
      assert c.project in lineage <==> c.project == lineage[0] || c.project in lineage[1..];
      assert lineage[0] !in lineage[1..];
      NearerSteps(lineage);
    }
  }

  // a comes before b.
  ghost predicate Nearer(lineage: seq<int>, a: int, b: int) {
    exists i, j :: Ranked(lineage, a, i) && Ranked(lineage, b, j) && i < j
  }

  lemma NearerSteps(lineage: seq<int>)
    requires lineage != [] && Distinct(lineage)
    ensures forall a, b :: a != lineage[0] && b != lineage[0] ==> (Nearer(lineage, a, b) <==> Nearer(lineage[1..], a, b))
    ensures forall b :: b in lineage[1..] ==> Nearer(lineage, lineage[0], b)
    ensures forall a :: !Nearer(lineage, a, lineage[0])
  {
    forall a, b | a != lineage[0] && b != lineage[0]
      ensures Nearer(lineage, a, b) <==> Nearer(lineage[1..], a, b)
    {
      if Nearer(lineage, a, b) {
        var i, j :| Ranked(lineage, a, i) && Ranked(lineage, b, j) && i < j;
        assert Ranked(lineage[1..], a, i - 1) && Ranked(lineage[1..], b, j - 1);
      }
      if Nearer(lineage[1..], a, b) {
        var i, j :| Ranked(lineage[1..], a, i) && Ranked(lineage[1..], b, j) && i < j;
        assert Ranked(lineage, a, i + 1) && Ranked(lineage, b, j + 1);
      }
    }
    forall b | b in lineage[1..]
      ensures Nearer(lineage, lineage[0], b)
    {
      var j :| 0 <= j < |lineage[1..]| && lineage[1..][j] == b;
      assert Ranked(lineage, lineage[0], 0) && Ranked(lineage, b, j + 1);
    }
  }

  lemma {:induction false} NearestIsOnLineage(lineage: seq<int>, items: seq<CalendarDay>, day: Day)
    ensures Nearest(lineage, items, day).Some? ==>
              var c := Nearest(lineage, items, day).value; c in items && c.project in lineage && c.day == day
  {
    if lineage != [] {
      GivenIsThere(items, lineage[0], day);
      NearestIsOnLineage(lineage[1..], items, day);
      assert lineage == [lineage[0]] + lineage[1..];
    }
  }

  ghost predicate AllWorking(items: seq<CalendarDay>, working: bool) {
    forall c :: c in items ==> c.working == working
  }

  ghost predicate DayOrdered(items: seq<CalendarDay>) {
    forall i, j :: 0 <= i < j < |items| ==> items[i].day < items[j].day
  }

  // The layered rows of one kind, one for each day they decide, in day order.
  ghost predicate IsLayered(lineage: seq<int>, items: seq<CalendarDay>, working: bool, out: seq<CalendarDay>) {
    && DayOrdered(out)
    && forall c :: c in out <==> c.working == working && Nearest(lineage, items, c.day) == Some(c)
  }

  // byDay holds, for each day some project on the lineage speaks of, the rank and the row of the nearest.
  ghost predicate HoldsNearest(lineage: seq<int>, items: seq<CalendarDay>, byDay: map<Day, (int, CalendarDay)>) {
    && (forall day :: Nearest(lineage, items, day) == if day in byDay then Some(byDay[day].1) else None)
    && (forall day :: day in byDay ==> Ranked(lineage, byDay[day].1.project, byDay[day].0))
  }

  method LayerCalendarDays(lineage: seq<int>, daysOff: seq<CalendarDay>, extraWorkdays: seq<CalendarDay>)
      returns (off: seq<CalendarDay>, extra: seq<CalendarDay>)
    requires Distinct(lineage) && AllWorking(daysOff, false) && AllWorking(extraWorkdays, true)
    ensures IsLayered(lineage, daysOff + extraWorkdays, false, off)
    ensures IsLayered(lineage, daysOff + extraWorkdays, true, extra)
  {
    var rank: map<int, int> := map[];
    for i := 0 to |lineage|
      invariant forall p :: p in rank <==> p in lineage[..i]
      invariant forall p :: p in rank ==> Ranked(lineage, p, rank[p])
    {
      rank := rank[lineage[i] := i];
    }
    assert lineage[..|lineage|] == lineage;
    var items := daysOff + extraWorkdays;
    var byDay: map<Day, (int, CalendarDay)> := map[];
    forall day ensures Nearest(lineage, items[..0], day).None? { NearestIsOnLineage(lineage, items[..0], day); }
    assert HoldsNearest(lineage, items[..0], byDay);
    hide HoldsNearest, Nearest, AllWorking;
    for k := 0 to |items|
      invariant HoldsNearest(lineage, items[..k], byDay)
    {
      var c := items[k];
      assert items[..k + 1] == items[..k] + [c];
      RowCounts(lineage, items[..k], c, byDay, rank);
      if c.project in rank && (c.day !in byDay || rank[c.project] < byDay[c.day].0) {
        byDay := byDay[c.day := (rank[c.project], c)];
      }
    }
    assert items[..|items|] == items;
    off, extra := SplitByKind(lineage, items, byDay);
  }

  lemma RowCounts(lineage: seq<int>, items: seq<CalendarDay>, c: CalendarDay, byDay: map<Day, (int, CalendarDay)>,
                  rank: map<int, int>)
    requires Distinct(lineage) && HoldsNearest(lineage, items, byDay)
    requires forall p :: p in rank <==> p in lineage
    requires forall p :: p in rank ==> Ranked(lineage, p, rank[p])
    ensures var counts := c.project in rank && (c.day !in byDay || rank[c.project] < byDay[c.day].0);
            HoldsNearest(lineage, items + [c], if counts then byDay[c.day := (rank[c.project], c)] else byDay)
  {
    var counts := c.project in rank && (c.day !in byDay || rank[c.project] < byDay[c.day].0);
    var after := if counts then byDay[c.day := (rank[c.project], c)] else byDay;
    forall day
      ensures Nearest(lineage, items + [c], day) == if day in after then Some(after[day].1) else None
    {
      OneMoreRow(lineage, items, c, day);
      if c.project in rank && day in byDay {
        RanksCompare(lineage, c.project, rank[c.project], byDay[day].1.project, byDay[day].0);
      }
    }
  }

  // The decided days in order, days off and extra workdays apart.
  method SplitByKind(lineage: seq<int>, items: seq<CalendarDay>, byDay: map<Day, (int, CalendarDay)>)
      returns (off: seq<CalendarDay>, extra: seq<CalendarDay>)
    requires HoldsNearest(lineage, items, byDay)
    ensures IsLayered(lineage, items, false, off) && IsLayered(lineage, items, true, extra)
  {
    var days := SortedDays(byDay.Keys);
    off, extra := [], [];
    forall day | day in byDay ensures byDay[day].1.day == day { NearestIsOnLineage(lineage, items, day); }
    hide Nearest, HoldsNearest, Chosen, DayOrdered;
    assert forall k :: 0 <= k < |days| ==> days[k] in ToSet(days);
    NothingChosen(byDay, days);
    for k := 0 to |days|
      invariant DayOrdered(off) && Chosen(byDay, days[..k], false, off)
      invariant DayOrdered(extra) && Chosen(byDay, days[..k], true, extra)
    {
      var c := byDay[days[k]].1;
      OneMoreChosen(byDay, days, k, false, off);
      OneMoreChosen(byDay, days, k, true, extra);
      if c.working { extra := extra + [c]; } else { off := off + [c]; }
    }
    assert days[..|days|] == days;
    AllChosen(lineage, items, byDay, days, false, off);
    AllChosen(lineage, items, byDay, days, true, extra);
  }

  // The rows of one kind that decide the given days.
  ghost predicate Chosen(byDay: map<Day, (int, CalendarDay)>, days: seq<Day>, working: bool, out: seq<CalendarDay>) {
    forall c :: c in out <==> c.day in days && c.day in byDay && byDay[c.day].1 == c && c.working == working
  }

  lemma NothingChosen(byDay: map<Day, (int, CalendarDay)>, days: seq<Day>)
    ensures DayOrdered([]) && Chosen(byDay, days[..0], true, []) && Chosen(byDay, days[..0], false, [])
  {
    assert days[..0] == [];
  }

  lemma OneMoreChosen(byDay: map<Day, (int, CalendarDay)>, days: seq<Day>, k: nat, working: bool, out: seq<CalendarDay>)
    requires k < |days| && days[k] in byDay && byDay[days[k]].1.day == days[k]
    requires forall i, j :: 0 <= i < j < |days| ==> days[i] < days[j]
    requires DayOrdered(out) && Chosen(byDay, days[..k], working, out)
    ensures var c := byDay[days[k]].1;
            var more := if c.working == working then out + [c] else out;
            DayOrdered(more) && Chosen(byDay, days[..k + 1], working, more)
  {
    assert days[..k + 1] == days[..k] + [days[k]];
    forall e | 0 <= e < |out| ensures out[e].day < days[k] {
      var c := out[e];
      assert c in out;
      var i :| 0 <= i < k && days[i] == c.day;
    }
  }

  lemma AllChosen(lineage: seq<int>, items: seq<CalendarDay>, byDay: map<Day, (int, CalendarDay)>, days: seq<Day>,
                  working: bool, out: seq<CalendarDay>)
    requires HoldsNearest(lineage, items, byDay) && ToSet(days) == byDay.Keys
    requires DayOrdered(out) && Chosen(byDay, days, working, out)
    ensures IsLayered(lineage, items, working, out)
  {
    hide Nearest;
    forall c
      ensures c in out <==> c.working == working && Nearest(lineage, items, c.day) == Some(c)
    {
      assert c.day in byDay <==> c.day in ToSet(days);
    }
  }

  lemma RanksCompare(lineage: seq<int>, a: int, i: int, b: int, j: int)
    requires Distinct(lineage) && Ranked(lineage, a, i) && Ranked(lineage, b, j)
    ensures Nearer(lineage, a, b) <==> i < j
  {
    if Nearer(lineage, a, b) {
      var k, l :| Ranked(lineage, a, k) && Ranked(lineage, b, l) && k < l;
    }
  }

  method SortedDays(days: set<Day>) returns (s: seq<Day>)
    ensures ToSet(s) == days && forall i, j :: 0 <= i < j < |s| ==> s[i] < s[j]
  {
    var todo := days;
    s := [];
    while todo != {}
      invariant todo <= days && ToSet(s) == days - todo
      invariant InOrder(map[], s)
      decreases todo
    {
      SomeMember(todo);
      var day: int :| day in todo;
      todo := todo - {day};
      assert day !in ToSet(s);
      s := Place(map[], s, day);
    }
    assert forall i, j :: 0 <= i < j < |s| ==> Earlier(map[], s[i], s[j]);
  }

  // ---- the stored calendars ------------------------------------------------------------------------

  type DayRows = map<(int, Day), string>

  // One workweek per project that has one, and at most one row of each kind per project and day.
  datatype Calendar = Calendar(workweeks: map<int, set<int>>, daysOff: DayRows, extraWorkdays: DayRows)

  datatype DayRule = DayOff(name: string) | ExtraWorkday(name: string)

  const MONDAY_TO_FRIDAY: set<int> := {0, 1, 2, 3, 4}

  // A project's own word on a day; a day off wins over an extra workday.
  function Own(cal: Calendar, project: int, day: Day): Option<DayRule> {
    if (project, day) in cal.daysOff then Some(DayOff(cal.daysOff[(project, day)]))
    else if (project, day) in cal.extraWorkdays then Some(ExtraWorkday(cal.extraWorkdays[(project, day)]))
    else None
  }

  // The word of the nearest project that has one.
  function Effective(cal: Calendar, lineage: seq<int>, day: Day): Option<DayRule> {
    if lineage == [] then None
    else if Own(cal, lineage[0], day).Some? then Own(cal, lineage[0], day)
    else Effective(cal, lineage[1..], day)
  }

  function RuleOf(c: CalendarDay): DayRule {
    if c.working then ExtraWorkday(c.name) else DayOff(c.name)
  }

  // items are the rows of one kind that belong to the projects, in whatever order.
  ghost predicate Lists(rows: DayRows, projects: seq<int>, working: bool, items: seq<CalendarDay>) {
    && AllWorking(items, working)
    && (forall c :: c in items ==> (c.project, c.day) in rows && rows[(c.project, c.day)] == c.name)
    && (forall k :: k in rows && k.0 in projects ==> CalendarDay(k.0, k.1, rows[k], working) in items)
  }

  lemma GivenOfRows(rows: DayRows, projects: seq<int>, working: bool, items: seq<CalendarDay>, project: int, day: Day)
    requires Lists(rows, projects, working, items) && project in projects
    ensures Given(items, project, day)
            == if (project, day) in rows then Some(CalendarDay(project, day, rows[(project, day)], working)) else None
  {
    GivenIsThere(items, project, day);
    if (project, day) in rows {
      var c := CalendarDay(project, day, rows[(project, day)], working);
      var k := (project, day);
      assert k in rows && k.0 in projects;
      assert c in items;
    }
  }

  /** The layered rows say, day by day, what the nearest project of the lineage says. */
  lemma {:induction false} LayeringIsEffective(cal: Calendar, lineage: seq<int>, listed: seq<int>, off: seq<CalendarDay>,
                                               extra: seq<CalendarDay>, day: Day)
    requires Lists(cal.daysOff, listed, false, off) && Lists(cal.extraWorkdays, listed, true, extra)
    requires forall p :: p in lineage ==> p in listed
    ensures var c := Nearest(lineage, off + extra, day);
            Effective(cal, lineage, day) == if c.Some? then Some(RuleOf(c.value)) else None
  {
    if lineage != [] {
      GivenOfRows(cal.daysOff, listed, false, off, lineage[0], day);
      GivenOfRows(cal.extraWorkdays, listed, true, extra, lineage[0], day);
      GivenOfBoth(off, extra, lineage[0], day);
      LayeringIsEffective(cal, lineage[1..], listed, off, extra, day);
    }
  }

  lemma {:induction false} EffectiveComposes(cal: Calendar, near: seq<int>, far: seq<int>, day: Day)
    ensures Effective(cal, near + far, day)
            == if Effective(cal, near, day).Some? then Effective(cal, near, day) else Effective(cal, far, day)
  {
    if near == [] {
      assert near + far == far;
    } else {
      assert (near + far)[1..] == near[1..] + far;
      EffectiveComposes(cal, near[1..], far, day);
    }
  }

  lemma {:induction false} EffectiveLooksAtLineage(a: Calendar, b: Calendar, lineage: seq<int>, day: Day)
    requires forall p :: p in lineage ==> Own(a, p, day) == Own(b, p, day)
    ensures Effective(a, lineage, day) == Effective(b, lineage, day)
  {
    if lineage != [] {
      var p := lineage[0];
      assert p in lineage;
      EffectiveLooksAtLineage(a, b, lineage[1..], day);
    }
  }

  // What is in force for a project: its rule for each day, and the workdays of the top of its tree.
  function RuleFor(cal: Calendar, links: Links, project: int, day: Day): Option<DayRule> {
    Effective(cal, AncestorsOrSelf(links, Some(project)), day)
  }

  function WorkdaysFor(cal: Calendar, links: Links, project: int): set<int> {
    var root := RootOf(links, project);
    if root in cal.workweeks then cal.workweeks[root] else MONDAY_TO_FRIDAY
  }

  // ---- a project becomes a top project ----------------------------------------------------------------

  function DaysOf(cal: Calendar): set<Day> {
    (set k | k in cal.daysOff :: k.1) + (set k | k in cal.extraWorkdays :: k.1)
  }

  // What the projects above say about a day that the project itself says nothing about.
  function Inherited(cal: Calendar, above: seq<int>, project: int, day: Day): Option<DayRule> {
    if Own(cal, project, day).Some? then None else Effective(cal, above, day)
  }

  // The calendar after the workdays of the old top and the days inherited from above have been copied to the project.
  function CopiedDown(cal: Calendar, oldRoot: int, above: seq<int>, project: int): Calendar {
    Calendar(
      if oldRoot in cal.workweeks then cal.workweeks[project := cal.workweeks[oldRoot]] else cal.workweeks,
      cal.daysOff + map d | d in DaysOf(cal) && Inherited(cal, above, project, d).Some?
                            && Inherited(cal, above, project, d).value.DayOff?
                        :: (project, d) := Inherited(cal, above, project, d).value.name,
      cal.extraWorkdays + map d | d in DaysOf(cal) && Inherited(cal, above, project, d).Some?
                                  && Inherited(cal, above, project, d).value.ExtraWorkday?
                              :: (project, d) := Inherited(cal, above, project, d).value.name)
  }

  lemma {:induction false} EffectiveDayIsStored(cal: Calendar, lineage: seq<int>, day: Day)
    ensures Effective(cal, lineage, day).Some? ==> day in DaysOf(cal)
  {
    if lineage != [] {
      var k := (lineage[0], day);
      assert k in cal.daysOff ==> k.1 in DaysOf(cal);
      assert k in cal.extraWorkdays ==> k.1 in DaysOf(cal);
      EffectiveDayIsStored(cal, lineage[1..], day);
    }
  }

  lemma OwnAfterCopy(cal: Calendar, oldRoot: int, above: seq<int>, project: int, p: int, day: Day)
    ensures Own(CopiedDown(cal, oldRoot, above, project), p, day)
            == if p == project then Effective(cal, [project] + above, day) else Own(cal, p, day)
  {
    EffectiveDayIsStored(cal, above, day);
    EffectiveComposes(cal, [project], above, day);
    assert Effective(cal, [project], day) == Own(cal, project, day);
  }

  // Only a top project has a workweek of its own.
  ghost predicate WorkweeksAtTop(cal: Calendar, links: Links) {
    forall p :: p in cal.workweeks ==> p in links && links[p].None?
  }

  // The project itself or one below it.
  lemma CopyServesSubtree(cal: Calendar, links: Links, x: int, y: int, day: Day)
    requires Forest(links) && x in links && links[x].Some? && y in links && x in AncestorsOrSelf(links, Some(y))
    ensures var copied := CopiedDown(cal, RootOf(links, x), AncestorsOrSelf(links, links[x]), x);
            RuleFor(copied, links[x := None], y, day) == RuleFor(cal, links, y, day)
    ensures RootOf(links, y) == RootOf(links, x) && RootOf(links[x := None], y) == x
  {
    var above := AncestorsOrSelf(links, links[x]);
    var root := RootOf(links, x);
    var copied := CopiedDown(cal, root, above, x);
    var before := Before(links, y, x);
    ChainSplits(links, y, x, None);
    ChainUnfolds(links, x);
    hide CopiedDown, Before, Own, Chain;
    assert AncestorsOrSelf(links, None) == [] by { NothingAboveTop(links); }
    var chain, cut := AncestorsOrSelf(links, Some(y)), AncestorsOrSelf(links[x := None], Some(y));
    assert cut == before + [x];
    assert chain == before + ([x] + above);
    EffectiveComposes(cal, before, [x] + above, day);
    EffectiveComposes(copied, before, [x], day);
    OwnAfterCopy(cal, root, above, x, x, day);
    forall p | p in before ensures Own(copied, p, day) == Own(cal, p, day) { OwnAfterCopy(cal, root, above, x, p, day); }
    EffectiveLooksAtLineage(copied, cal, before, day);
    assert Effective(copied, [x], day) == Own(copied, x, day);
    assert chain[|chain| - 1] == ([x] + above)[|above|];
  }

  lemma NothingAboveTop(links: Links)
    ensures AncestorsOrSelf(links, None) == []
  {
  }

  // A project elsewhere.
  lemma CopyLeavesOthers(cal: Calendar, links: Links, x: int, y: int, day: Day)
    requires x in links && y in links && x !in AncestorsOrSelf(links, Some(y))
    ensures var copied := CopiedDown(cal, RootOf(links, x), AncestorsOrSelf(links, links[x]), x);
            RuleFor(copied, links[x := None], y, day) == RuleFor(cal, links, y, day)
    ensures RootOf(links[x := None], y) == RootOf(links, y) && (RootOf(links, y) != x)
  {
    var above := AncestorsOrSelf(links, links[x]);
    var root := RootOf(links, x);
    var copied := CopiedDown(cal, root, above, x);
    var chain := AncestorsOrSelf(links, Some(y));
    ChainUnmoved(links, Some(y), x, None);
    assert y in chain;
    hide CopiedDown, Own, Chain;
    forall p | p in chain ensures Own(copied, p, day) == Own(cal, p, day) { OwnAfterCopy(cal, root, above, x, p, day); }
    EffectiveLooksAtLineage(copied, cal, chain, day);
  }

  /** Taking a project to the top, with its calendar copied, changes the calendar in force of no project at all: not of
      the project, not of those below it, and not of any other; neither kind nor name of any day, nor the workdays. */
  lemma MovingToTopKeepsCalendars(cal: Calendar, links: Links, x: int, y: int, day: Day)
    requires Forest(links) && WorkweeksAtTop(cal, links)
    requires x in links && links[x].Some? && y in links
    ensures var copied := CopiedDown(cal, RootOf(links, x), AncestorsOrSelf(links, links[x]), x);
            && RuleFor(copied, links[x := None], y, day) == RuleFor(cal, links, y, day)
            && WorkdaysFor(copied, links[x := None], y) == WorkdaysFor(cal, links, y)
  {
    hide RuleFor, RootOf;
    if x in AncestorsOrSelf(links, Some(y)) {
      CopyServesSubtree(cal, links, x, y, day);
    } else {
      CopyLeavesOthers(cal, links, x, y, day);
    }
  }

  // ---- a project goes under another ---------------------------------------------------------------------

  lemma {:induction false} OnlyDaysMatter(a: Calendar, b: Calendar, lineage: seq<int>, day: Day)
    requires a.daysOff == b.daysOff && a.extraWorkdays == b.extraWorkdays
    ensures Effective(a, lineage, day) == Effective(b, lineage, day)
  {
    EffectiveLooksAtLineage(a, b, lineage, day);
  }

  /** In the branch that moves, the workdays of the tree it comes into are in force, and for each day the word of the branch
      itself, or else that of the new parent. */
  lemma BranchTakesOver(cal: Calendar, links: Links, x: int, parent: int, y: int, day: Day)
    requires Forest(links) && x in links && parent in links && !WouldCycle(links, x, Some(parent))
    requires y in links && x in AncestorsOrSelf(links, Some(y))
    ensures var moved, after := links[x := Some(parent)], cal.(workweeks := cal.workweeks - {x});
            var own := Effective(cal, Before(links, y, x) + [x], day);
            && WorkdaysFor(after, moved, y) == WorkdaysFor(cal, links, parent)
            && RuleFor(after, moved, y, day) == (if own.Some? then own else RuleFor(cal, links, parent, day))
  {
    var moved, after := links[x := Some(parent)], cal.(workweeks := cal.workweeks - {x});
    ChainSplits(links, y, x, Some(parent));
    TopIsNot(links, x, parent);
    hide Chain, Before, Effective;
    var near := Before(links, y, x) + [x];
    EffectiveComposes(cal, near, AncestorsOrSelf(links, Some(parent)), day);
    OnlyDaysMatter(after, cal, AncestorsOrSelf(moved, Some(y)), day);
    RootAtEnd(links, moved, y, parent, near);
    hide RootOf;
  }

  lemma ElsewhereAsBefore(cal: Calendar, links: Links, x: int, parent: int, y: int, day: Day)
    requires x in links && y in links && x !in AncestorsOrSelf(links, Some(y))
    ensures var moved, after := links[x := Some(parent)], cal.(workweeks := cal.workweeks - {x});
            && WorkdaysFor(after, moved, y) == WorkdaysFor(cal, links, y)
            && RuleFor(after, moved, y, day) == RuleFor(cal, links, y, day)
  {
    hide Chain, Effective;
    ChainUnmoved(links, Some(y), x, Some(parent));
    TopIsNot(links, x, y);
    OnlyDaysMatter(cal.(workweeks := cal.workweeks - {x}), cal, AncestorsOrSelf(links, Some(y)), day);
  }

  lemma RootAtEnd(links: Links, moved: Links, y: int, parent: int, near: seq<int>)
    requires parent in links && AncestorsOrSelf(moved, Some(y)) == near + AncestorsOrSelf(links, Some(parent))
    ensures RootOf(moved, y) == RootOf(links, parent)
  {
    var far := AncestorsOrSelf(links, Some(parent));
    assert far != [];
    assert (near + far)[|near + far| - 1] == far[|far| - 1];
  }

  // The top above y is not x, where x is not above y.
  lemma TopIsNot(links: Links, x: int, y: int)
    requires y in links && x !in AncestorsOrSelf(links, Some(y))
    ensures RootOf(links, y) != x
  {
    var chain := AncestorsOrSelf(links, Some(y));
    assert y in chain;
    assert chain[|chain| - 1] in chain;
  }
}
