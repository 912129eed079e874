/** The restore tree of the GUI: an arena of nodes updated in place. */
module FileTree {
  import opened Wrappers
  import opened Sequences
  import opened TreeLinks
  import opened TreeChecks
  import opened TreeCover
  import opened TreeRows
  import opened FileTreeBuild

  // ---------- columns of the arena ----------

  function ChecksOf(arena: seq<Node>): (cs: seq<CheckState>)
    ensures |cs| == |arena|
  {
    Map(arena, (n: Node) => n.check)
  }

  /** The directories that show their children. */
  function OpenOf(arena: seq<Node>): (open: seq<bool>)
    ensures |open| == |arena|
  {
    Map(arena, (n: Node) => n.isDir && n.expanded)
  }

  function WithChecks(arena: seq<Node>, cs: seq<CheckState>): seq<Node>
    requires |cs| == |arena|
  {
    seq(|arena|, i requires 0 <= i < |arena| => arena[i].(check := cs[i]))
  }

  lemma WithChecksProps(arena: seq<Node>, cs: seq<CheckState>)
    requires |cs| == |arena|
    ensures LinksOf(WithChecks(arena, cs)) == LinksOf(arena)
    ensures ChecksOf(WithChecks(arena, cs)) == cs
    ensures OpenOf(WithChecks(arena, cs)) == OpenOf(arena)
    ensures forall i :: 0 <= i < |arena| ==> WithChecks(arena, cs)[i] == arena[i].(check := cs[i])
    ensures WithChecks(arena, ChecksOf(arena)) == arena
  {
  }

  lemma WithChecksTwice(arena: seq<Node>, cs: seq<CheckState>, cs': seq<CheckState>)
    requires |cs| == |cs'| == |arena|
    ensures WithChecks(WithChecks(arena, cs), cs') == WithChecks(arena, cs')
  {
  }

  lemma WithChecksUpdate(arena: seq<Node>, cs: seq<CheckState>, i: nat, state: CheckState)
    requires |cs| == |arena| && i < |arena|
    ensures var a := WithChecks(arena, cs);
      a[i := a[i].(check := state)] == WithChecks(arena, cs[i := state])
  {
  }

  function WithExpanded(arena: seq<Node>, expanded: seq<bool>): seq<Node>
    requires |expanded| == |arena|
  {
    seq(|arena|, i requires 0 <= i < |arena| => arena[i].(expanded := expanded[i]))
  }

  function ExpandedOf(arena: seq<Node>): (r: seq<bool>)
    ensures |r| == |arena|
  {
    Map(arena, (n: Node) => n.expanded)
  }

  lemma WithExpandedProps(arena: seq<Node>, expanded: seq<bool>)
    requires |expanded| == |arena|
    ensures LinksOf(WithExpanded(arena, expanded)) == LinksOf(arena)
    ensures ChecksOf(WithExpanded(arena, expanded)) == ChecksOf(arena)
    ensures forall i :: 0 <= i < |arena| ==> WithExpanded(arena, expanded)[i] == arena[i].(expanded := expanded[i])
  {
  }

  // ---------- marking a subtree one child at a time ----------

  /** Node `i` and everything below its first `k` children have `state`. */
  ghost function SetKids(g: Links, cs: seq<CheckState>, i: nat, k: nat, state: CheckState): (r: seq<CheckState>)
    requires Mirrored(g) && |cs| == |g.parent| && i < |cs| && k <= |g.kids[i]|
    ensures |r| == |cs|
  {
    if k == 0 then cs[i := state]
    else SetUnder(g, SetKids(g, cs, i, k - 1, state), g.kids[i][k - 1], state)
  }

  lemma {:induction false} SetKidsAt(g: Links, cs: seq<CheckState>, i: nat, k: nat, state: CheckState, d: nat)
    requires Mirrored(g) && |cs| == |g.parent| && i < |cs| && k <= |g.kids[i]| && d < |cs|
    ensures SetKids(g, cs, i, k, state)[d]
         == if d == i || exists j :: 0 <= j < k && Under(g, d, g.kids[i][j]) then state else cs[d]
  {
    if k > 0 {
      SetKidsAt(g, cs, i, k - 1, state, d);
    }
  }

  lemma SetKidsIsSetUnder(g: Links, cs: seq<CheckState>, i: nat, state: CheckState)
    requires Mirrored(g) && |cs| == |g.parent| && i < |cs|
    ensures SetKids(g, cs, i, |g.kids[i]|, state) == SetUnder(g, cs, i, state)
  {
    forall d: nat | d < |cs|
      ensures SetKids(g, cs, i, |g.kids[i]|, state)[d] == SetUnder(g, cs, i, state)[d]
    {
      SetKidsAt(g, cs, i, |g.kids[i]|, state, d);
      if Under(g, d, i) && d != i {
        var k := UnderViaKid(g, d, i);
      } else if j :| 0 <= j < |g.kids[i]| && Under(g, d, g.kids[i][j]) {
        KidIsUnder(g, i, j);
        UnderTransitive(g, d, g.kids[i][j], i);
      }
    }
  }

  class FileTree {
    var arena: seq<Node>
    var roots: seq<nat>
    var visibleRows: seq<nat>

    ghost function Shape(): Links
      reads this
    {
      LinksOf(arena)
    }

    /** A forest whose parents are directories and agree with their children, and whose row index is current. */
    ghost predicate Valid()
      reads this
    {
      && Forest(Shape(), roots)
      && ParentsAreDirs(arena)
      && Settled(Shape(), ChecksOf(arena))
      && visibleRows == Rows(Shape(), OpenOf(arena), roots)
    }

    constructor BuildFromItems(items: seq<Item>, rank: (bool, string) -> int)
      ensures Valid() && BuiltFrom(items, arena, roots) && InOrder(arena, roots, rank)
      ensures ChecksOf(arena) == Uniform(|arena|, Unchecked)
    {
      var arena', roots' := BuildArena(items, rank);
      arena, roots, visibleRows := arena', roots', [];
      new;
      LabelledParentsAreDirs(arena);
      assert ChecksOf(arena) == Uniform(|arena|, Unchecked);
      UniformSettles(Shape(), |arena|, Unchecked);
      RebuildVisible();
    }

    // ---------- visible rows ----------

    static method DfsVisible(arena: seq<Node>, visible0: seq<nat>, idx: nat) returns (visible: seq<nat>)
      requires Mirrored(LinksOf(arena)) && idx < |arena|
      ensures visible == visible0 + RowsOf(LinksOf(arena), OpenOf(arena), idx)
      decreases |arena| - idx, 1
    {
      visible := visible0 + [idx];
      if arena[idx].isDir && arena[idx].expanded {
        visible := DfsChildren(arena, visible, idx);
      }
    }

    static method DfsChildren(arena: seq<Node>, visible0: seq<nat>, idx: nat) returns (visible: seq<nat>)
      requires Mirrored(LinksOf(arena)) && idx < |arena|
      ensures visible == visible0 + RowsAll(LinksOf(arena), OpenOf(arena), LinksOf(arena).kids[idx], idx)
      decreases |arena| - idx, 0
    {
      ghost var g, open := LinksOf(arena), OpenOf(arena);
      visible := visible0;
      var children := arena[idx].children;
      assert children == g.kids[idx];
      for k := 0 to |children|
        invariant visible == visible0 + RowsAll(g, open, children[..k], idx)
      {
        RowsAllSnoc(g, open, children, k, idx, visible0);
        visible := DfsVisible(arena, visible, children[k]);
      }
      assert children[..|children|] == children;
    }

    method RebuildVisible()
      requires Forest(Shape(), roots)
      modifies this`visibleRows
      ensures visibleRows == Rows(Shape(), OpenOf(arena), roots)
    {
      visibleRows := [];
      ghost var g, open := Shape(), OpenOf(arena);
      for k := 0 to |roots|
        invariant visibleRows == [] + RowsAll(g, open, roots[..k], -1)
      {
        RowsAllSnoc(g, open, roots, k, -1, []);
        visibleRows := DfsVisible(arena, visibleRows, roots[k]);
      }
      assert roots[..|roots|] == roots;
    }

    method ToggleExpanded(nodeIdx: nat)
      requires Valid()
      modifies this
      ensures Valid() && roots == old(roots)
      ensures arena == if nodeIdx < |old(arena)| && old(arena)[nodeIdx].isDir
                       then old(arena)[nodeIdx := old(arena)[nodeIdx].(expanded := !old(arena)[nodeIdx].expanded)]
                       else old(arena)
    {
      if nodeIdx < |arena| && arena[nodeIdx].isDir {
        ghost var expanded := ExpandedOf(arena)[nodeIdx := !arena[nodeIdx].expanded];
        WithExpandedProps(arena, expanded);
        arena := arena[nodeIdx := arena[nodeIdx].(expanded := !arena[nodeIdx].expanded)];
        assert arena == WithExpanded(old(arena), expanded);
        RebuildVisible();
      }
    }

    method SetExpandedEverywhere(value: bool)
      requires Valid()
      modifies this
      ensures Valid() && roots == old(roots)
      ensures arena == WithExpanded(old(arena), Map(old(arena), (n: Node) => if n.isDir then value else n.expanded))
    {
      for i := 0 to |arena|
        invariant |arena| == |old(arena)| && roots == old(roots)
        invariant forall j :: 0 <= j < i ==>
          arena[j] == old(arena)[j].(expanded := if old(arena)[j].isDir then value else old(arena)[j].expanded)
        invariant forall j :: i <= j < |arena| ==> arena[j] == old(arena)[j]
      {
        if arena[i].isDir {
          arena := arena[i := arena[i].(expanded := value)];
        }
      }
      ghost var expanded := Map(old(arena), (n: Node) => if n.isDir then value else n.expanded);
      assert arena == WithExpanded(old(arena), expanded);
      WithExpandedProps(old(arena), expanded);
      RebuildVisible();
    }

    /** Afterwards every node of the arena has exactly one row. */
    method ExpandAll()
      requires Valid()
      modifies this
      ensures Valid() && roots == old(roots)
      ensures arena == WithExpanded(old(arena), Map(old(arena), (n: Node) => n.isDir || n.expanded))
      ensures multiset(visibleRows) == multiset(Range(|arena|))
    {
      SetExpandedEverywhere(true);
      assert arena == WithExpanded(old(arena), Map(old(arena), (n: Node) => n.isDir || n.expanded));
      AllOpenShowsAll(Shape(), OpenOf(arena), roots);
    }

    /** Afterwards only the roots have rows. */
    method CollapseAll()
      requires Valid()
      modifies this
      ensures Valid() && roots == old(roots)
      ensures arena == WithExpanded(old(arena), Map(old(arena), (n: Node) => !n.isDir && n.expanded))
      ensures visibleRows == roots
    {
      SetExpandedEverywhere(false);
      assert arena == WithExpanded(old(arena), Map(old(arena), (n: Node) => !n.isDir && n.expanded));
      ClosedRows(Shape(), OpenOf(arena), roots, -1);
    }

    // ---------- check boxes ----------

    method SetCheckRecursive(idx: nat, state: CheckState)
      requires Mirrored(Shape()) && idx < |arena|
      modifies this`arena
      ensures arena == WithChecks(old(arena), SetUnder(old(Shape()), ChecksOf(old(arena)), idx, state))
      decreases |arena| - idx
    {
      ghost var a0, g, cs0 := arena, Shape(), ChecksOf(arena);
      WithChecksProps(a0, cs0);
      WithChecksUpdate(a0, cs0, idx, state);
      arena := arena[idx := arena[idx].(check := state)];
      var children := arena[idx].children;
      assert children == g.kids[idx];
      for k := 0 to |children|
        invariant arena == WithChecks(a0, SetKids(g, cs0, idx, k, state))
      {
        ghost var cs := SetKids(g, cs0, idx, k, state);
        WithChecksProps(a0, cs);
        SetCheckRecursive(children[k], state);
        WithChecksTwice(a0, cs, SetUnder(g, cs, children[k], state));
      }
      SetKidsIsSetUnder(g, cs0, idx, state);
    }

    method AllHave(ids: seq<nat>, state: CheckState) returns (all: bool)
      requires forall k :: 0 <= k < |ids| ==> ids[k] < |arena|
      ensures all <==> forall k :: 0 <= k < |ids| ==> arena[ids[k]].check == state
    {
      for k := 0 to |ids|
        invariant forall j :: 0 <= j < k ==> arena[ids[j]].check == state
      {
        if arena[ids[k]].check != state {
          return false;
        }
      }
      return true;
    }

    method RecalcParentCheck(idx: nat)
      requires Mirrored(Shape()) && idx < |arena|
      modifies this`arena
      ensures arena == WithChecks(old(arena), Recalc(old(Shape()), ChecksOf(old(arena)), idx))
    {
      ghost var g, cs := Shape(), ChecksOf(arena);
      WithChecksProps(arena, cs);
      var children := arena[idx].children;
      assert children == g.kids[idx];
      if children == [] {
        return;
      }
      var allChecked := AllHave(children, Checked);
      var allUnchecked := AllHave(children, Unchecked);
      assert allChecked <==> AllKids(g, cs, idx, Checked);
      assert allUnchecked <==> AllKids(g, cs, idx, Unchecked);
      var state := if allChecked then Checked else if allUnchecked then Unchecked else Partial;
      WithChecksUpdate(arena, cs, idx, state);
      arena := arena[idx := arena[idx].(check := state)];
    }

    method ToggleCheck(nodeIdx: nat)
      requires Valid()
      modifies this`arena
      ensures Valid()
      ensures arena == WithChecks(old(arena), Toggled(old(Shape()), ChecksOf(old(arena)), nodeIdx))
    {
      ghost var a0, g, cs0 := arena, Shape(), ChecksOf(arena);
      WithChecksProps(a0, cs0);
      if nodeIdx >= |arena| {
        return;
      }
      var newState := if arena[nodeIdx].check == Unchecked then Checked else Unchecked;
      assert newState == Flip(cs0[nodeIdx]);
      SetCheckRecursive(nodeIdx, newState);
      ghost var cs := SetUnder(g, cs0, nodeIdx, newState);
      WithChecksProps(a0, cs);
      var current: Option<nat> := arena[nodeIdx].parent;
      while current.Some?
        invariant |cs| == |a0| && arena == WithChecks(a0, cs)
        invariant current.Some? ==> current.value < |a0|
        invariant RecalcUp(g, cs, current) == Toggled(g, cs0, nodeIdx)
        decreases if current.Some? then current.value + 1 else 0
      {
        var parentIdx := current.value;
        WithChecksProps(a0, cs);
        RecalcParentCheck(parentIdx);
        WithChecksTwice(a0, cs, Recalc(g, cs, parentIdx));
        cs := Recalc(g, cs, parentIdx);
        WithChecksProps(a0, cs);
        current := arena[parentIdx].parent;
        assert current == g.parent[parentIdx];
      }
      ToggleSettles(g, cs0, nodeIdx);
      WithChecksProps(a0, Toggled(g, cs0, nodeIdx));
    }

    method SetAllChecks(state: CheckState)
      requires Valid() && state != Partial
      modifies this`arena
      ensures Valid() && arena == WithChecks(old(arena), Uniform(|old(arena)|, state))
    {
      ghost var a0, g := arena, Shape();
      for i := 0 to |arena|
        invariant |arena| == |a0|
        invariant forall j :: 0 <= j < i ==> arena[j] == a0[j].(check := state)
        invariant forall j :: i <= j < |arena| ==> arena[j] == a0[j]
      {
        arena := arena[i := arena[i].(check := state)];
      }
      assert arena == WithChecks(a0, Uniform(|a0|, state));
      WithChecksProps(a0, Uniform(|a0|, state));
      UniformSettles(g, |a0|, state);
    }

    method SelectAll()
      requires Valid()
      modifies this`arena
      ensures Valid() && arena == WithChecks(old(arena), Uniform(|old(arena)|, Checked))
    {
      SetAllChecks(Checked);
    }

    method DeselectAll()
      requires Valid()
      modifies this`arena
      ensures Valid() && arena == WithChecks(old(arena), Uniform(|old(arena)|, Unchecked))
    {
      SetAllChecks(Unchecked);
    }

    // ---------- the selection ----------

    method CollectCheckedNode(idx: nat, paths0: seq<string>) returns (paths: seq<string>)
      requires Mirrored(Shape()) && idx < |arena|
      ensures paths == paths0 + PathsOf(arena, CoverOf(Shape(), ChecksOf(arena), idx))
      decreases |arena| - idx, 1
    {
      paths := paths0;
      match arena[idx].check
      case Checked => paths := paths + [arena[idx].fullPath];
      case Partial => paths := CollectCheckedChildren(idx, paths);
      case Unchecked =>
    }

    method CollectCheckedChildren(idx: nat, paths0: seq<string>) returns (paths: seq<string>)
      requires Mirrored(Shape()) && idx < |arena|
      ensures paths == paths0 + PathsOf(arena, CoverAll(Shape(), ChecksOf(arena), Shape().kids[idx], idx))
      decreases |arena| - idx, 0
    {
      ghost var g, cs := Shape(), ChecksOf(arena);
      paths := paths0;
      var children := arena[idx].children;
      assert children == g.kids[idx];
      for k := 0 to |children|
        invariant paths == paths0 + PathsOf(arena, CoverAll(g, cs, children[..k], idx))
      {
        CollectStep(arena, cs, children, k, idx, paths0);
        paths := CollectCheckedNode(children[k], paths);
      }
      assert children[..|children|] == children;
    }

    method CollectCheckedPaths() returns (paths: seq<string>)
      requires Valid()
      ensures paths == PathsOf(arena, Cover(Shape(), ChecksOf(arena), roots))
    {
      ghost var g, cs := Shape(), ChecksOf(arena);
      paths := [];
      for k := 0 to |roots|
        invariant paths == [] + PathsOf(arena, CoverAll(g, cs, roots[..k], -1))
      {
        CollectStep(arena, cs, roots, k, -1, []);
        paths := CollectCheckedNode(roots[k], paths);
      }
      assert roots[..|roots|] == roots;
    }
  }

  function PathsOf(arena: seq<Node>, ids: seq<nat>): seq<string> {
    Map(ids, (i: nat) => if i < |arena| then arena[i].fullPath else "")
  }

  lemma PathsOfConcat(arena: seq<Node>, a: seq<nat>, b: seq<nat>)
    ensures PathsOf(arena, a + b) == PathsOf(arena, a) + PathsOf(arena, b)
  {
  }

  lemma CollectStep(arena: seq<Node>, cs: seq<CheckState>, ids: seq<nat>, k: nat, lo: int, paths0: seq<string>)
    requires Mirrored(LinksOf(arena)) && |cs| == |arena| && k < |ids| && -1 <= lo < |cs|
    requires forall j :: 0 <= j < |ids| ==> lo < ids[j] < |cs|
    ensures paths0 + PathsOf(arena, CoverAll(LinksOf(arena), cs, ids[..k], lo))
            + PathsOf(arena, CoverOf(LinksOf(arena), cs, ids[k]))
         == paths0 + PathsOf(arena, CoverAll(LinksOf(arena), cs, ids[..k + 1], lo))
  {
    var sofar, next := CoverAll(LinksOf(arena), cs, ids[..k], lo), CoverOf(LinksOf(arena), cs, ids[k]);
    assert ids[..k + 1][..k] == ids[..k];
    assert CoverAll(LinksOf(arena), cs, ids[..k + 1], lo) == sofar + next;
    PathsOfConcat(arena, sofar, next);
  }
}
