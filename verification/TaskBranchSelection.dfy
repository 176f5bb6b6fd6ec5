/** How a selection of tasks falls apart into branches: what moves itself, what follows, and what cannot move alone. */
module TaskBranchSelection {
  import opened Basics
  import opened ParentLinks
  import opened WorkspaceModel

  datatype BranchKind = Root | Follower | Left

  ghost function KindOf(live: Links, chosen: set<int>, t: int): BranchKind {
    if t !in live || IsBranchRoot(live, t) then Root
    else if FollowsSelected(live, chosen, t) then Follower
    else Left
  }

  // Each number once, where it first stands.
  function FirstOnly(s: seq<int>): (r: seq<int>)
    ensures Distinct(r) && ToSet(r) == ToSet(s)
  {
    if s == [] then []
    else
      var rest := FirstOnly(s[..|s| - 1]);
      assert s == s[..|s| - 1] + [s[|s| - 1]];
      assert forall x :: x in rest <==> x in ToSet(rest);
      if s[|s| - 1] in rest then rest else rest + [s[|s| - 1]]
  }

  ghost function OfKind(live: Links, chosen: set<int>, s: seq<int>, kind: BranchKind): (r: seq<int>)
    ensures forall t :: t in r <==> t in s && KindOf(live, chosen, t) == kind
  {
    if s == [] then []
    else
      assert s == s[..|s| - 1] + [s[|s| - 1]];
      var rest := OfKind(live, chosen, s[..|s| - 1], kind);
      if KindOf(live, chosen, s[|s| - 1]) == kind then rest + [s[|s| - 1]] else rest
  }

  lemma RootsOfSelection(live: Links, ids: seq<int>, roots: seq<int>, t: int)
    requires forall t :: t in ids ==> t in live
    requires roots == OfKind(live, ToSet(ids), FirstOnly(ids), Root)
    ensures t in roots <==> t in ToSet(ids) && t in live && IsBranchRoot(live, t)
  {
    assert t in ToSet(ids) <==> t in ToSet(FirstOnly(ids));
  }

  method HasSelectedAncestor(t: int, chosen: set<int>, live: Links) returns (found: bool)
    requires t in live
    ensures found == FollowsSelected(live, chosen, t)
  {
    var seen := {t};
    var current := live[t];
    while current.Some? && current.value in live && current.value !in seen
      invariant FollowsSelected(live, chosen, t) <==> exists a :: a in Chain(live, current, seen) && a in chosen
      decreases live.Keys - seen
    {
      assert current.value in live.Keys - seen;
      var rest := Chain(live, live[current.value], seen + {current.value});
      assert Chain(live, current, seen) == [current.value] + rest;
      var a := current.value;
      assert a in Chain(live, current, seen);
      if current.value in chosen { return true; }
      assert forall b :: b in Chain(live, current, seen) <==> b == a || b in rest;
      seen := seen + {current.value};
      current := live[current.value];
    }
    found := false;
  }

  /** Every selected task is put in exactly one of the three, in the order of selection. */
  method Of(selected: seq<int>, live: Links) returns (roots: seq<int>, followers: seq<int>, stranded: seq<int>)
    ensures roots == OfKind(live, ToSet(selected), FirstOnly(selected), Root)
    ensures followers == OfKind(live, ToSet(selected), FirstOnly(selected), Follower)
    ensures stranded == OfKind(live, ToSet(selected), FirstOnly(selected), Left)
  {
    var chosen := FirstOnly(selected);
    var chosenSet := ToSet(selected);
    roots, followers, stranded := [], [], [];
    for k := 0 to |chosen|
      invariant roots == OfKind(live, chosenSet, chosen[..k], Root)
      invariant followers == OfKind(live, chosenSet, chosen[..k], Follower)
      invariant stranded == OfKind(live, chosenSet, chosen[..k], Left)
    {
      var t := chosen[k];
      assert chosen[..k + 1][..k] == chosen[..k];
      if t !in live || live[t].None? || live[t].value !in live {
        roots := roots + [t];
      } else {
        var follows := HasSelectedAncestor(t, chosenSet, live);
        if follows { followers := followers + [t]; } else { stranded := stranded + [t]; }
      }
    }
    assert chosen[..|chosen|] == chosen;
  }
}
