/** Creating, changing, moving and deleting tasks, and changing milestones, against the store. */
module TaskUseCases {
  import opened Basics
  import opened ParentLinks
  import opened ProjectTrees
  import opened WorkspaceModel
  import opened WorkspaceStore
  import opened ProjectUseCases
  import Selection = TaskBranchSelection

  // Those of the given branch roots that are not in the target yet.
  ghost function Outside(tasks: Tasks, roots: seq<int>, target: Option<int>): set<int> {
    set r | r in roots && r in tasks && tasks[r].project != target
  }

  lemma OneMoreBranch(tasks: Tasks, roots: set<int>, r: int)
    requires r in tasks
    ensures Branches(tasks, roots + {r}) == Branches(tasks, roots) + Subtree(ParentsOf(tasks), r)
  {
    forall t
      ensures t in Branches(tasks, roots + {r}) <==> t in Branches(tasks, roots) || t in Subtree(ParentsOf(tasks), r)
    {
      if t in Subtree(ParentsOf(tasks), r) {
        assert r in roots + {r} && r in AncestorsOrSelf(ParentsOf(tasks), Some(t));
      }
      if t in Branches(tasks, roots) {
        var a :| a in roots && a in AncestorsOrSelf(ParentsOf(tasks), Some(t));
        assert a in roots + {r};
      }
    }
  }

  lemma SetProjectTwice(tasks: Tasks, a: set<int>, b: set<int>, target: Option<int>)
    ensures SetProject(SetProject(tasks, a, target), b, target) == SetProject(tasks, a + b, target)
    ensures ParentsOf(SetProject(tasks, a, target)) == ParentsOf(tasks)
  {
  }

  class TaskUseCases {
    const store: Store

    constructor (store: Store)
      ensures this.store == store
    {
      this.store := store;
    }

    method CreateTask(id: int, parent: Option<int>, project: Option<int>, milestone: Option<int>)
        returns (refused: Option<Refusal>)
      modifies store
      ensures Answers(old(store.Now()), WorkspaceModel.CreateTask(old(store.Now()), id, parent, project, milestone),
                      refused, store.Now())
      ensures store.sortOrder == old(store.sortOrder)
    {
      var home := project;
      if parent.Some? {
        if parent.value !in store.tasks || store.tasks[parent.value].deleted { return Some(NotFound); }
        if project.Some? && project != store.tasks[parent.value].project { return Some(Invalid); }
        home := store.tasks[parent.value].project;
      } else if project.Some? && project.value !in store.projects {
        return Some(NotFound);
      }
      refused := store.CheckMilestone(milestone, home);
      if refused.Some? { return; }
      store.tasks := store.tasks[id := TaskRow(parent, home, milestone, false)];
    }

    // The project the task belongs to after the change.
    method HomeFor(parent: Option<int>, current: Option<int>, sent: Option<Option<int>>) returns (choice: Choice)
      ensures choice == ProjectForUpdate(store.Now(), parent, current, sent)
    {
      if parent.Some? && parent.value in store.tasks && !store.tasks[parent.value].deleted {
        var home := store.tasks[parent.value].project;
        if sent.Some? && sent.value != home { return Denied(Invalid); }
        return Home(home);
      }
      if sent.None? { return Home(current); }
      if sent.value.Some? && sent.value.value !in store.projects { return Denied(NotFound); }
      choice := Home(sent.value);
    }

    method UpdateTask(id: int, parent: Option<int>, project: Option<Option<int>>, milestone: Option<Option<int>>)
        returns (refused: Option<Refusal>)
      modifies store
      ensures Answers(old(store.Now()), WorkspaceModel.UpdateTask(old(store.Now()), id, parent, project, milestone),
                      refused, store.Now())
      ensures store.sortOrder == old(store.sortOrder)
    {
      hide Subtree, Detached, MilestoneRefusal;
      if id !in store.tasks || store.tasks[id].deleted { return Some(NotFound); }
      ghost var before := store.Now();
      var task := store.tasks[id];
      if parent.Some? && parent != task.parent {
        if parent.value !in store.tasks || store.tasks[parent.value].deleted { return Some(NotFound); }
        var below := store.TaskSubtree(id);
        if parent.value in below { return Some(Conflict); }
        task := task.(parent := parent);
      }
      var choice := HomeFor(task.parent, task.project, project);
      if choice.Denied? { return Some(choice.why); }
      var previous := task.project;
      task := task.(project := choice.project);
      var previousMilestone := task.milestone;
      if milestone.Some? { task := task.(milestone := milestone.value); }
      if task.milestone != previousMilestone {
        refused := store.CheckMilestone(task.milestone, task.project);
        if refused.Some? { return; }
      }
      store.tasks := store.tasks[id := task];
      if task.project != previous {
        var below := store.TaskSubtree(id);
        store.tasks := SetProject(store.tasks, below, task.project);
        var _ := store.DetachUnreachableMilestones();
      }
      refused := None;
    }

    method MoveBranches(roots: seq<int>, target: Option<int>) returns (moved: set<int>)
      requires forall r :: r in roots ==> LiveTask(store.tasks, r)
      modifies store`tasks
      ensures store.tasks == SetProject(old(store.tasks), Branches(old(store.tasks), Outside(old(store.tasks), roots, target)), target)
      ensures moved == set t | t in Branches(old(store.tasks), Outside(old(store.tasks), roots, target))
                               && LiveTask(old(store.tasks), t)
    {
      var live := store.tasks;
      moved := {};
      assert SetProject(live, {}, target) == live;
      assert Outside(live, roots[..0], target) == {} && Branches(live, {}) == {};
      for k := 0 to |roots|
        invariant store.tasks == SetProject(live, Branches(live, Outside(live, roots[..k], target)), target)
        invariant moved == set t | t in Branches(live, Outside(live, roots[..k], target)) && LiveTask(live, t)
      {
        var root := roots[k];
        assert root in roots;
        ghost var before := Outside(live, roots[..k], target);
        assert roots[..k + 1] == roots[..k] + [root];
        if live[root].project == target {
          assert Outside(live, roots[..k + 1], target) == before;
        } else {
          assert Outside(live, roots[..k + 1], target) == before + {root};
          SetProjectTwice(live, Branches(live, before), Subtree(ParentsOf(live), root), target);
          OneMoreBranch(live, before, root);
          var branch := store.TaskSubtree(root);
          store.tasks := SetProject(store.tasks, branch, target);
          moved := moved + set t | t in branch && t in live && !live[t].deleted;
        }
      }
      assert roots[..|roots|] == roots;
    }

    // The branch roots of a selection that may be moved as a whole.
    method SelectRoots(ids: seq<int>, target: Option<int>) returns (refused: Option<Refusal>, roots: seq<int>)
      ensures refused.Some? ==> WorkspaceModel.MoveToProject(store.Now(), ids, target) == Refused(refused.value)
      ensures refused.None? ==>
                && WorkspaceModel.MoveToProject(store.Now(), ids, target).Done?
                && (forall r :: r in roots ==> LiveTask(store.tasks, r))
                && Outside(store.tasks, roots, target) == RootsToMove(store.tasks, ToSet(ids), target)
    {
      roots := [];
      if target.Some? && target.value !in store.projects { return Some(NotFound), roots; }
      var live := LiveParents(store.tasks);
      for k := 0 to |ids|
        invariant forall i :: 0 <= i < k ==> LiveTask(store.tasks, ids[i])
      {
        var t := ids[k];
        assert t in ToSet(ids);
        if t !in live { return Some(NotFound), roots; }
      }
      var followers, stranded;
      roots, followers, stranded := Selection.Of(ids, live);
      StrandedTells(live, ids, stranded);
      RootsTell(store.tasks, ids, roots, target);
      hide Outside, RootsToMove, Stranded, LiveParents;
      if stranded != [] { return Some(Invalid), roots; }
      refused := None;
    }

    // Several tasks at once to one project, or to none. Only branch roots are written; what is below goes with them.
    method MoveToProject(ids: seq<int>, target: Option<int>)
        returns (refused: Option<Refusal>, moved: set<int>, detached: set<int>)
      modifies store
      ensures Answers(old(store.Now()), WorkspaceModel.MoveToProject(old(store.Now()), ids, target), refused, store.Now())
      ensures store.sortOrder == old(store.sortOrder)
      ensures refused.None? ==>
                moved == set t | t in Branches(old(store.tasks), RootsToMove(old(store.tasks), ToSet(ids), target))
                                 && LiveTask(old(store.tasks), t)
      ensures refused.None? ==>
                detached == set t | t in store.tasks && store.tasks[t].milestone != old(store.tasks)[t].milestone
    {
      hide Branches, RootsToMove, Outside, SetProject, Stranded;
      moved, detached := {}, {};
      var roots;
      refused, roots := SelectRoots(ids, target);
      if refused.Some? { return; }
      ghost var before := store.Now();
      RootsAreMoved(store.tasks, Outside(store.tasks, roots, target)) by { OutsideIsLive(store.tasks, roots, target); }
      moved := MoveBranches(roots, target);
      if moved != {} {
        detached := store.DetachUnreachableMilestones();
        DetachedAre(before.(tasks := SetProject(before.tasks, Branches(before.tasks, Outside(before.tasks, roots, target)), target)));
        SetProjectKeepsMilestones(before.tasks, Branches(before.tasks, Outside(before.tasks, roots, target)), target);
      } else {
        NoBranches(before.tasks);
        SetProjectKeepsMilestones(before.tasks, {}, target);
      }
    }
  }

  lemma OutsideIsLive(tasks: Tasks, roots: seq<int>, target: Option<int>)
    requires forall r :: r in roots ==> LiveTask(tasks, r)
    ensures forall r :: r in Outside(tasks, roots, target) ==> LiveTask(tasks, r)
  {
  }

  lemma DetachedAre(ws: Workspace)
    ensures (set t | t in ws.tasks && Unreachable(ws, t))
            == set t | t in ws.tasks && Detached(ws).tasks[t].milestone != ws.tasks[t].milestone
  {
  }

  lemma SetProjectKeepsMilestones(tasks: Tasks, ids: set<int>, target: Option<int>)
    ensures SetProject(tasks, ids, target).Keys == tasks.Keys
    ensures forall t :: t in tasks ==> SetProject(tasks, ids, target)[t].milestone == tasks[t].milestone
    ensures ids == {} ==> SetProject(tasks, ids, target) == tasks
  {
  }

  class MilestoneUseCases {
    const store: Store

    constructor (store: Store)
      ensures this.store == store
    {
      this.store := store;
    }

    method UpdateMilestone(id: int, project: Option<Option<int>>) returns (refused: Option<Refusal>)
      modifies store
      ensures Answers(old(store.Now()), WorkspaceModel.UpdateMilestone(old(store.Now()), id, project), refused, store.Now())
      ensures store.sortOrder == old(store.sortOrder)
    {
      if id !in store.milestones || store.milestones[id].deleted { return Some(NotFound); }
      if project.None? { return None; }
      var moved := project.value != store.milestones[id].project;
      if project.value.Some? && project.value.value !in store.projects { return Some(NotFound); }
      store.milestones := store.milestones[id := MilestoneRow(project.value, false)];
      if moved { var _ := store.DetachUnreachableMilestones(); }
      refused := None;
    }
  }

  // The lists of the selection answer the questions of the specification.
  lemma StrandedTells(live: Links, ids: seq<int>, stranded: seq<int>)
    requires forall t :: t in ids ==> t in live
    requires stranded == Selection.OfKind(live, ToSet(ids), Selection.FirstOnly(ids), Selection.Left)
    ensures stranded != [] <==> exists t :: t in ToSet(ids) && t in live && Stranded(live, ToSet(ids), t)
  {
    var chosen, once := ToSet(ids), Selection.FirstOnly(ids);
    hide IsBranchRoot, FollowsSelected;
    if stranded != [] {
      var t := stranded[0];
      assert t in stranded;
      assert t in ToSet(once) && t in live;
    }
    forall t | t in chosen && t in live && Stranded(live, chosen, t)
      ensures t in stranded
    {
      assert t in ToSet(once);
    }
  }

  lemma RootsTell(tasks: Tasks, ids: seq<int>, roots: seq<int>, target: Option<int>)
    requires forall t :: t in ids ==> LiveTask(tasks, t)
    requires roots == Selection.OfKind(LiveParents(tasks), ToSet(ids), Selection.FirstOnly(ids), Selection.Root)
    ensures forall r :: r in roots ==> LiveTask(tasks, r)
    ensures Outside(tasks, roots, target) == RootsToMove(tasks, ToSet(ids), target)
  {
    var live, chosen := LiveParents(tasks), ToSet(ids);
    assert forall t :: t in chosen ==> t in live;
    forall t
      ensures t in roots <==> t in chosen && t in live && IsBranchRoot(live, t)
    {
      Selection.RootsOfSelection(live, ids, roots, t);
    }
    hide IsBranchRoot, Selection.OfKind, Selection.FirstOnly;
    assert forall t :: t in Outside(tasks, roots, target) <==> t in RootsToMove(tasks, chosen, target);
  }

  lemma NoBranches(tasks: Tasks)
    ensures Branches(tasks, {}) == {}
  {
  }

  lemma RootsAreMoved(tasks: Tasks, roots: set<int>)
    requires forall r :: r in roots ==> LiveTask(tasks, r)
    ensures (set t | t in Branches(tasks, roots) && LiveTask(tasks, t)) == {} <==> roots == {}
  {
    if roots != {} {
      var r := Pick(roots);
      assert r in AncestorsOrSelf(ParentsOf(tasks), Some(r));
      assert r in Branches(tasks, roots);
      assert r in set t | t in Branches(tasks, roots) && LiveTask(tasks, t);
    }
  }
}
