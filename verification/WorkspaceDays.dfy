/** Days off and extra workdays of one project on one day: which requests can put both side by side. */
module WorkspaceDays {
  import opened Basics
  import opened WorkSeats
  import opened ParentLinks
  import opened ProjectTrees
  import opened ProjectCalendar
  import opened WorkspaceModel

  // No project has a day off and an extra workday on the same day.
  ghost predicate NeverBoth(cal: Calendar) {
    forall k :: k in cal.daysOff ==> k !in cal.extraWorkdays
  }

  // An import that brings a day which the project has as an extra workday, and which neither the project nor one above
  // it has off already.
  ghost predicate Clashes(ws: Workspace, r: Request) {
    && r.AddHolidays? && r.at in ws.projects
    && exists d :: d in r.holidays && (r.at, d) in ws.calendar.extraWorkdays && !OffAbove(ws, r.at, d)
  }

  ghost predicate OffAbove(ws: Workspace, project: int, day: Day) {
    exists p :: p in AncestorsOrSelf(ws.projects, Some(project)) && (p, day) in ws.calendar.daysOff
  }

  lemma ImportKeepsApartExactly(ws: Workspace, r: Request)
    requires NeverBoth(ws.calendar) && r.AddHolidays? && r.at in ws.projects
    ensures NeverBoth(Step(ws, r).calendar) <==> !Clashes(ws, r)
  {
    hide AncestorsOrSelf;
    var after := Step(ws, r).calendar;
    if d :| d in r.holidays && (r.at, d) in ws.calendar.extraWorkdays && !OffAbove(ws, r.at, d) {
      assert (r.at, d) in after.daysOff && (r.at, d) in after.extraWorkdays;
    }
    if k :| k in after.daysOff && k in after.extraWorkdays {
      assert k !in ws.calendar.daysOff && k == (r.at, k.1);
      assert !OffAbove(ws, r.at, k.1);
    }
  }

  // A project taken to the top gets no day of one kind that it has of the other.
  lemma CopyKeepsApart(cal: Calendar, oldRoot: int, above: seq<int>, project: int)
    requires NeverBoth(cal)
    ensures NeverBoth(CopiedDown(cal, oldRoot, above, project))
  {
    hide Effective, DaysOf;
    var copied := CopiedDown(cal, oldRoot, above, project);
    forall k | k in copied.daysOff ensures k !in copied.extraWorkdays {
      if k !in cal.daysOff {
        assert k == (project, k.1) && Inherited(cal, above, project, k.1).Some?;
      }
    }
  }

  lemma OthersKeepApart(ws: Workspace, r: Request)
    requires NeverBoth(ws.calendar) && !r.AddHolidays?
    ensures NeverBoth(Step(ws, r).calendar)
  {
    hide Chain, AncestorsOrSelf, WouldCycle, CopiedDown, Unreachable, HasContents, Subtree, Branches, RootsToMove;
    if r.RelocateProject? && r.id in ws.projects {
      CopyKeepsApart(ws.calendar, RootOf(ws.projects, r.id), Chain(ws.projects, ws.projects[r.id], {r.id}), r.id);
    }
  }

  /** Every request keeps the two kinds of days apart, except an import, which does so exactly if it does not clash. */
  lemma StepKeepsApartExactly(ws: Workspace, r: Request)
    requires NeverBoth(ws.calendar)
    ensures NeverBoth(Step(ws, r).calendar) <==> !Clashes(ws, r)
  {
    hide NeverBoth, Clashes, Step;
    if r.AddHolidays? && r.at in ws.projects {
      ImportKeepsApartExactly(ws, r);
    } else if r.AddHolidays? {
      RefusedImport(ws, r);
    } else {
      OthersKeepApart(ws, r);
      NoImportNoClash(ws, r);
    }
  }

  lemma RefusedImport(ws: Workspace, r: Request)
    requires r.AddHolidays? && r.at !in ws.projects
    ensures Step(ws, r) == ws && !Clashes(ws, r)
  {
  }

  lemma NoImportNoClash(ws: Workspace, r: Request)
    requires !r.AddHolidays?
    ensures !Clashes(ws, r)
  {
  }

  ghost predicate ApartThroughout(ws: Workspace, requests: seq<Request>) {
    forall k :: 0 <= k <= |requests| ==> NeverBoth(Run(ws, requests[..k]).calendar)
  }

  ghost predicate NoImportClashes(ws: Workspace, requests: seq<Request>) {
    forall k :: 0 <= k < |requests| ==> !Clashes(Run(ws, requests[..k]), requests[k])
  }

  lemma OneMoreRequest(ws: Workspace, requests: seq<Request>)
    requires requests != []
    ensures var n := |requests| - 1;
            && (ApartThroughout(ws, requests) <==>
                ApartThroughout(ws, requests[..n]) && NeverBoth(Run(ws, requests).calendar))
            && (NoImportClashes(ws, requests) <==>
                NoImportClashes(ws, requests[..n]) && !Clashes(Run(ws, requests[..n]), requests[n]))
  {
    hide NeverBoth, Clashes, Run;
    var n := |requests| - 1;
    var fewer := requests[..n];
    forall k | 0 <= k <= n ensures fewer[..k] == requests[..k] { }
    assert requests[..n + 1] == requests && fewer[..n] == fewer;
    if ApartThroughout(ws, requests) {
      forall k | 0 <= k <= n ensures NeverBoth(Run(ws, fewer[..k]).calendar) {
        assert NeverBoth(Run(ws, requests[..k]).calendar);
      }
      assert NeverBoth(Run(ws, requests[..n + 1]).calendar);
    }
    if ApartThroughout(ws, fewer) && NeverBoth(Run(ws, requests).calendar) {
      forall k | 0 <= k <= n + 1 ensures NeverBoth(Run(ws, requests[..k]).calendar) {
        if k <= n { assert NeverBoth(Run(ws, fewer[..k]).calendar); }
      }
    }
  }

  /** The two kinds stay apart throughout a run exactly if no import in it clashes. */
  lemma {:induction false} RunKeepsApartExactly(ws: Workspace, requests: seq<Request>)
    requires NeverBoth(ws.calendar)
    ensures ApartThroughout(ws, requests) <==> NoImportClashes(ws, requests)
    decreases |requests|
  {
    hide NeverBoth, Clashes, Step, ApartThroughout, NoImportClashes;
    if requests == [] {
      NothingAsked(ws);
    } else {
      var n := |requests| - 1;
      RunKeepsApartExactly(ws, requests[..n]);
      OneMoreRequest(ws, requests);
      if ApartThroughout(ws, requests[..n]) {
        ApartAtTheEnd(ws, requests[..n]);
        StepKeepsApartExactly(Run(ws, requests[..n]), requests[n]);
      }
    }
  }

  lemma NothingAsked(ws: Workspace)
    requires NeverBoth(ws.calendar)
    ensures ApartThroughout(ws, []) && NoImportClashes(ws, [])
  {
    hide NeverBoth;
    var none: seq<Request> := [];
    assert none[..0] == none;
  }

  lemma ApartAtTheEnd(ws: Workspace, requests: seq<Request>)
    requires ApartThroughout(ws, requests)
    ensures NeverBoth(Run(ws, requests).calendar)
  {
    hide NeverBoth, Run;
    assert requests[..|requests|] == requests;
  }

  lemma RunOfThree(ws: Workspace, requests: seq<Request>)
    requires |requests| == 3
    ensures requests[..0] == [] && Run(ws, requests[..0]) == ws
    ensures Run(ws, requests[..1]) == Step(ws, requests[0])
    ensures Run(ws, requests[..2]) == Step(Run(ws, requests[..1]), requests[1])
    ensures Run(ws, requests) == Step(Run(ws, requests[..2]), requests[2])
  {
    hide Step;
    assert requests[..1][..0] == [] && requests[..2][..1] == requests[..1] && requests[..1] == [requests[0]];
  }

  // One project with one extra workday.
  lemma OneExtraWorkday(day: Day, name: string)
    ensures var created := Step(EMPTY, NewProject(1, None));
            var entered := Step(created, Enter(1, day, ExtraWorkday(name)));
            && created.projects == entered.projects == map[1 := None]
            && entered.calendar == Calendar(map[], map[], map[(1, day) := name])
  {
    var created := Step(EMPTY, NewProject(1, None));
    assert created.projects == map[1 := None] && created.calendar == EMPTY.calendar;
    assert EMPTY.calendar.daysOff - {(1, day)} == map[];
  }

  /** It does happen: somebody enters an extra workday, then imports holidays of which that day is one. The day is off from
      then on. */
  lemma ImportCanClash(day: Day, name: string, holiday: string) returns (requests: seq<Request>)
    ensures requests == [NewProject(1, None), Enter(1, day, ExtraWorkday(name)), AddHolidays(1, map[day := holiday])]
    ensures LegalRun(EMPTY, requests)
    ensures var cal := Run(EMPTY, requests).calendar;
            !NeverBoth(cal) && Own(cal, 1, day) == Some(DayOff(holiday))
  {
    hide Run, Step, AncestorsOrSelf;
    requests := [NewProject(1, None), Enter(1, day, ExtraWorkday(name)), AddHolidays(1, map[day := holiday])];
    RunOfThree(EMPTY, requests);
    OneExtraWorkday(day, name);
    ImportTakesOver(Run(EMPTY, requests[..2]), day, name, holiday);
  }

  lemma ImportTakesOver(ws: Workspace, day: Day, name: string, holiday: string)
    requires 1 in ws.projects && ws.calendar == Calendar(map[], map[], map[(1, day) := name])
    ensures var cal := Step(ws, AddHolidays(1, map[day := holiday])).calendar;
            !NeverBoth(cal) && Own(cal, 1, day) == Some(DayOff(holiday))
  {
    hide AncestorsOrSelf;
    var cal := Step(ws, AddHolidays(1, map[day := holiday])).calendar;
    assert !OffAbove(ws, 1, day);
    assert (1, day) in cal.daysOff && (1, day) in cal.extraWorkdays;
  }
}
