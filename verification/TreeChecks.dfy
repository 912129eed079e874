/**
The tri-state check boxes of the restore tree, as a column of states beside the links of the tree.
*/
module TreeChecks {
  import opened Wrappers
  import opened TreeLinks

  datatype CheckState = Unchecked | Checked | Partial

  // ---------- operations ----------

  /** The node and everything below it get `state`. */
  function SetUnder(g: Links, cs: seq<CheckState>, i: nat, state: CheckState): (r: seq<CheckState>)
    ensures |r| == |cs|
  {
    seq(|cs|, d requires 0 <= d < |cs| => if d < |g.parent| && Under(g, d, i) then state else cs[d])
  }

  predicate AllKids(g: Links, cs: seq<CheckState>, i: nat, state: CheckState)
    requires i < |g.kids|
  {
    forall k :: 0 <= k < |g.kids[i]| ==> g.kids[i][k] < |cs| && cs[g.kids[i][k]] == state
  }

  /** The state a parent shows for its children. */
  function Aggregate(g: Links, cs: seq<CheckState>, i: nat): CheckState
    requires i < |g.kids|
  {
    if AllKids(g, cs, i, Checked) then Checked
    else if AllKids(g, cs, i, Unchecked) then Unchecked
    else Partial
  }

  function Recalc(g: Links, cs: seq<CheckState>, i: nat): (r: seq<CheckState>)
    requires i < |g.kids| && i < |cs|
    ensures |r| == |cs|
  {
    if g.kids[i] == [] then cs else cs[i := Aggregate(g, cs, i)]
  }

  /** Recalculate `current`, its parent, and so on up to a root. */
  ghost function RecalcUp(g: Links, cs: seq<CheckState>, current: Option<nat>): (r: seq<CheckState>)
    requires Mirrored(g) && |cs| == |g.parent|
    requires current.Some? ==> current.value < |cs|
    ensures |r| == |cs|
    decreases if current.Some? then current.value + 1 else 0
  {
    if current.None? then cs
    else RecalcUp(g, Recalc(g, cs, current.value), g.parent[current.value])
  }

  function Flip(state: CheckState): CheckState {
    if state == Unchecked then Checked else Unchecked
  }

  ghost function Toggled(g: Links, cs: seq<CheckState>, i: nat): (r: seq<CheckState>)
    requires Mirrored(g) && |cs| == |g.parent|
    ensures |r| == |cs|
  {
    if i >= |cs| then cs
    else RecalcUp(g, SetUnder(g, cs, i, Flip(cs[i])), g.parent[i])
  }

  function Uniform(n: nat, state: CheckState): (r: seq<CheckState>)
    ensures |r| == n && forall i :: 0 <= i < n ==> r[i] == state
  {
    seq(n, _ => state)
  }

  // ---------- the invariant ----------

  ghost predicate SettledAt(g: Links, cs: seq<CheckState>, i: nat)
    requires i < |g.kids| && i < |cs|
  {
    if g.kids[i] == [] then cs[i] != Partial else cs[i] == Aggregate(g, cs, i)
  }

  /** Each parent shows the aggregate of its children, and no childless node is Partial. */
  ghost predicate Settled(g: Links, cs: seq<CheckState>)
    requires |g.kids| == |cs|
  {
    forall i: nat :: i < |cs| ==> SettledAt(g, cs, i)
  }

  /** Only `current` and the nodes above it may be out of date. */
  ghost predicate SettledBut(g: Links, cs: seq<CheckState>, current: Option<nat>)
    requires Mirrored(g) && |g.parent| == |cs|
    requires current.Some? ==> current.value < |cs|
  {
    forall i: nat :: i < |cs| && !(current.Some? && Under(g, current.value, i)) ==> SettledAt(g, cs, i)
  }

  lemma RecalcSettles(g: Links, cs: seq<CheckState>, p: nat)
    requires Mirrored(g) && |g.parent| == |cs| && p < |cs| && g.kids[p] != []
    requires SettledBut(g, cs, Some(p))
    ensures SettledBut(g, Recalc(g, cs, p), g.parent[p])
  {
    var r := Recalc(g, cs, p);
    forall i: nat | i < |cs| && !(g.parent[p].Some? && Under(g, g.parent[p].value, i))
      ensures SettledAt(g, r, i)
    {
      forall k | 0 <= k < |g.kids[i]|
        ensures r[g.kids[i][k]] == cs[g.kids[i][k]]
      {
        assert g.parent[g.kids[i][k]] == Some(i);
        assert g.parent[p].Some? ==> Under(g, g.parent[p].value, g.parent[p].value);
      }
      assert Aggregate(g, r, i) == Aggregate(g, cs, i);
      if i != p {
        assert !Under(g, p, i);
        assert SettledAt(g, cs, i);
      }
    }
  }

  lemma {:induction false} RecalcUpSettles(g: Links, cs: seq<CheckState>, current: Option<nat>)
    requires Mirrored(g) && |g.parent| == |cs|
    requires current.Some? ==> current.value < |cs| && g.kids[current.value] != []
    requires SettledBut(g, cs, current)
    ensures Settled(g, RecalcUp(g, cs, current))
    decreases if current.Some? then current.value + 1 else 0
  {
    if current.Some? {
      RecalcSettles(g, cs, current.value);
      RecalcUpSettles(g, Recalc(g, cs, current.value), g.parent[current.value]);
    }
  }

  lemma SetInsideSettles(g: Links, cs: seq<CheckState>, i: nat, state: CheckState, j: nat)
    requires Mirrored(g) && |g.parent| == |cs| && i < |cs| && j < |cs| && state != Partial && Under(g, j, i)
    ensures SettledAt(g, SetUnder(g, cs, i, state), j)
  {
    var r := SetUnder(g, cs, i, state);
    forall k | 0 <= k < |g.kids[j]|
      ensures r[g.kids[j][k]] == state
    {
      KidIsUnder(g, j, k);
      UnderTransitive(g, g.kids[j][k], j, i);
    }
    assert r[j] == state;
    assert g.kids[j] != [] ==> r[g.kids[j][0]] == state;
  }

  lemma SetOutsideSettles(g: Links, cs: seq<CheckState>, i: nat, state: CheckState, j: nat)
    requires Mirrored(g) && |g.parent| == |cs| && i < |cs| && j < |cs| && SettledAt(g, cs, j)
    requires !Under(g, j, i) && g.parent[i] != Some(j)
    ensures SettledAt(g, SetUnder(g, cs, i, state), j)
  {
    var r := SetUnder(g, cs, i, state);
    forall k | 0 <= k < |g.kids[j]|
      ensures r[g.kids[j][k]] == cs[g.kids[j][k]]
    {
      assert g.parent[g.kids[j][k]] == Some(j);
    }
    assert Aggregate(g, r, j) == Aggregate(g, cs, j);
  }

  lemma SetUnderSettles(g: Links, cs: seq<CheckState>, i: nat, state: CheckState)
    requires Mirrored(g) && |g.parent| == |cs| && Settled(g, cs) && i < |cs| && state != Partial
    ensures SettledBut(g, SetUnder(g, cs, i, state), g.parent[i])
  {
    forall j: nat | j < |cs| && !(g.parent[i].Some? && Under(g, g.parent[i].value, j))
      ensures SettledAt(g, SetUnder(g, cs, i, state), j)
    {
      if Under(g, j, i) {
        SetInsideSettles(g, cs, i, state, j);
      } else {
        SetOutsideSettles(g, cs, i, state, j);
      }
    }
  }

  lemma ToggleSettles(g: Links, cs: seq<CheckState>, i: nat)
    requires Mirrored(g) && |g.parent| == |cs| && Settled(g, cs)
    ensures Settled(g, Toggled(g, cs, i))
  {
    if i < |cs| {
      SetUnderSettles(g, cs, i, Flip(cs[i]));
      RecalcUpSettles(g, SetUnder(g, cs, i, Flip(cs[i])), g.parent[i]);
    }
  }

  lemma UniformSettles(g: Links, n: nat, state: CheckState)
    requires Mirrored(g) && |g.parent| == n && state != Partial
    ensures Settled(g, Uniform(n, state))
  {
    var cs := Uniform(n, state);
    forall i: nat | i < n
      ensures SettledAt(g, cs, i)
    {
      assert g.kids[i] != [] ==> cs[g.kids[i][0]] == state;
    }
  }

  // ---------- whole runs ----------

  datatype Click = Toggle(i: nat) | SelectAll | DeselectAll

  ghost function Clicked(g: Links, cs: seq<CheckState>, click: Click): (r: seq<CheckState>)
    requires Mirrored(g) && |cs| == |g.parent|
    ensures |r| == |cs|
  {
    match click
    case Toggle(i) => Toggled(g, cs, i)
    case SelectAll => Uniform(|cs|, Checked)
    case DeselectAll => Uniform(|cs|, Unchecked)
  }

  /** The states after `clicks` on a freshly built tree. */
  ghost function After(g: Links, clicks: seq<Click>): (cs: seq<CheckState>)
    requires Mirrored(g)
    ensures |cs| == |g.parent|
  {
    if clicks == [] then Uniform(|g.parent|, Unchecked)
    else Clicked(g, After(g, clicks[..|clicks| - 1]), clicks[|clicks| - 1])
  }

  /** Every sequence of clicks leaves each parent agreeing with its children. */
  lemma {:induction false} AlwaysSettled(g: Links, clicks: seq<Click>)
    requires Mirrored(g)
    ensures Settled(g, After(g, clicks))
    decreases |clicks|
  {
    UniformSettles(g, |g.parent|, Unchecked);
    UniformSettles(g, |g.parent|, Checked);
    if clicks != [] {
      var init := clicks[..|clicks| - 1];
      AlwaysSettled(g, init);
      if clicks[|clicks| - 1].Toggle? {
        ToggleSettles(g, After(g, init), clicks[|clicks| - 1].i);
      }
    }
  }

  // ---------- what a settled tree looks like ----------

  /** A fully checked or unchecked node speaks for everything below it. */
  lemma {:induction false} SettledIsUniformBelow(g: Links, cs: seq<CheckState>, d: nat, i: nat)
    requires Mirrored(g) && |g.parent| == |cs| && Settled(g, cs) && d < |cs| && i < |cs|
    requires Under(g, d, i) && cs[i] != Partial
    ensures cs[d] == cs[i]
  {
    if d != i {
      var p := g.parent[d].value;
      SettledIsUniformBelow(g, cs, p, i);
      assert SettledAt(g, cs, p);
      var k :| 0 <= k < |g.kids[p]| && g.kids[p][k] == d;
    }
  }

  /** A parent all of whose childless descendants have one state has that state. */
  lemma {:induction false} LeavesDecide(g: Links, cs: seq<CheckState>, i: nat, state: CheckState)
    requires Mirrored(g) && |g.parent| == |cs| && Settled(g, cs) && i < |cs| && state != Partial
    requires forall d: nat :: d < |cs| && g.kids[d] == [] && Under(g, d, i) ==> cs[d] == state
    ensures cs[i] == state
    decreases |cs| - i
  {
    assert SettledAt(g, cs, i);
    if g.kids[i] != [] {
      forall k | 0 <= k < |g.kids[i]|
        ensures cs[g.kids[i][k]] == state
      {
        var c := g.kids[i][k];
        KidIsUnder(g, i, k);
        forall d: nat | d < |cs| && g.kids[d] == [] && Under(g, d, c)
          ensures cs[d] == state
        {
          UnderTransitive(g, d, c, i);
        }
        LeavesDecide(g, cs, c, state);
      }
      assert cs[g.kids[i][0]] == state;
    }
  }

  /** A settled tree is determined by its childless nodes. */
  lemma {:induction false} SettledIsUnique(g: Links, cs: seq<CheckState>, cs': seq<CheckState>, i: nat)
    requires Mirrored(g) && |g.parent| == |cs| == |cs'| && Settled(g, cs) && Settled(g, cs') && i < |cs|
    requires forall d: nat :: d < |cs| && g.kids[d] == [] ==> cs[d] == cs'[d]
    ensures cs[i] == cs'[i]
    decreases |cs| - i
  {
    assert SettledAt(g, cs, i) && SettledAt(g, cs', i);
    if g.kids[i] != [] {
      forall k | 0 <= k < |g.kids[i]|
        ensures cs[g.kids[i][k]] == cs'[g.kids[i][k]]
      {
        SettledIsUnique(g, cs, cs', g.kids[i][k]);
      }
    }
  }

  // ---------- toggling twice ----------

  /** The upward walk touches nodes with children only, and only at or above where it starts. */
  lemma {:induction false} RecalcUpFrame(g: Links, cs: seq<CheckState>, current: Option<nat>, d: nat)
    requires Mirrored(g) && |cs| == |g.parent| && d < |cs|
    requires current.Some? ==> current.value < |cs|
    requires g.kids[d] == [] || (current.Some? ==> !Under(g, current.value, d))
    ensures RecalcUp(g, cs, current)[d] == cs[d]
    decreases if current.Some? then current.value + 1 else 0
  {
    if current.Some? {
      RecalcUpFrame(g, Recalc(g, cs, current.value), g.parent[current.value], d);
    }
  }

  /** Exactly what one toggle does to the node itself and to childless nodes. */
  lemma ToggleEffect(g: Links, cs: seq<CheckState>, i: nat, d: nat)
    requires Mirrored(g) && |g.parent| == |cs| && i < |cs| && d < |cs|
    ensures g.kids[d] == [] || d == i ==>
      Toggled(g, cs, i)[d]
        == if !Under(g, d, i) then cs[d] else if cs[i] == Unchecked then Checked else Unchecked
  {
    if g.parent[i].Some? && Under(g, g.parent[i].value, i) {
      UnderIsLater(g, g.parent[i].value, i);
    }
    if g.kids[d] == [] || d == i {
      RecalcUpFrame(g, SetUnder(g, cs, i, Flip(cs[i])), g.parent[i], d);
    }
  }

  /** Some childless node at or below `i` is checked. */
  ghost predicate AnyChecked(g: Links, cs: seq<CheckState>, i: nat)
    requires Mirrored(g) && |g.parent| == |cs|
  {
    exists d: nat :: d < |cs| && g.kids[d] == [] && Under(g, d, i) && cs[d] == Checked
  }

  /** In a settled tree a node is unchecked exactly when nothing childless below it is checked. */
  lemma UncheckedIff(g: Links, cs: seq<CheckState>, i: nat)
    requires Mirrored(g) && |g.parent| == |cs| && Settled(g, cs) && i < |cs|
    ensures cs[i] == Unchecked <==> !AnyChecked(g, cs, i)
  {
    if cs[i] == Unchecked {
      forall d: nat | d < |cs| && g.kids[d] == [] && Under(g, d, i)
        ensures cs[d] == Unchecked
      {
        SettledIsUniformBelow(g, cs, d, i);
      }
    }
    if !AnyChecked(g, cs, i) {
      forall d: nat | d < |cs| && g.kids[d] == [] && Under(g, d, i)
        ensures cs[d] == Unchecked
      {
        assert SettledAt(g, cs, d);
      }
      LeavesDecide(g, cs, i, Unchecked);
    }
  }

  /** A click on a node, in terms of the childless nodes alone: it clears the subtree if anything in it was
      checked, checks all of it if nothing was, and touches nothing outside. */
  lemma ClickOnLeaves(g: Links, cs: seq<CheckState>, i: nat, d: nat)
    requires Mirrored(g) && |g.parent| == |cs| && Settled(g, cs) && i < |cs| && d < |cs| && g.kids[d] == []
    ensures Toggled(g, cs, i)[d]
         == if !Under(g, d, i) then cs[d] else if AnyChecked(g, cs, i) then Unchecked else Checked
  {
    ToggleEffect(g, cs, i, d);
    UncheckedIff(g, cs, i);
  }

  /** Toggling a node twice restores every state exactly when the node was not Partial. */
  lemma ToggleTwice(g: Links, cs: seq<CheckState>, i: nat)
    requires Mirrored(g) && |g.parent| == |cs| && Settled(g, cs) && i < |cs|
    ensures Toggled(g, Toggled(g, cs, i), i) == cs <==> cs[i] != Partial
  {
    var once := Toggled(g, cs, i);
    var twice := Toggled(g, once, i);
    ToggleSettles(g, cs, i);
    ToggleSettles(g, once, i);
    ToggleEffect(g, cs, i, i);
    ToggleEffect(g, once, i, i);
    if cs[i] != Partial {
      forall d: nat | d < |cs| && g.kids[d] == []
        ensures twice[d] == cs[d]
      {
        ToggleEffect(g, cs, i, d);
        ToggleEffect(g, once, i, d);
        if Under(g, d, i) {
          SettledIsUniformBelow(g, cs, d, i);
        }
      }
      forall j: nat | j < |cs|
        ensures twice[j] == cs[j]
      {
        SettledIsUnique(g, twice, cs, j);
      }
    }
  }

  lemma AfterOne(g: Links, e: nat)
    requires Mirrored(g)
    ensures After(g, [Toggle(e)]) == Toggled(g, Uniform(|g.parent|, Unchecked), e)
  {
    assert [Toggle(e)][..0] == [];
  }

  /** Checking one of two childless siblings makes their parent partial, and toggling the parent twice then
      loses which of them was checked. */
  lemma TogglingTwiceForgets(g: Links, p: nat, a: nat, b: nat)
    requires Mirrored(g) && p < |g.kids| && a in g.kids[p] && b in g.kids[p] && a != b
    requires a < |g.kids| && b < |g.kids| && g.kids[a] == [] && g.kids[b] == []
    ensures var cs := After(g, [Toggle(a)]);
      cs[p] == Partial && Toggled(g, Toggled(g, cs, p), p) != cs
  {
    var blank, cs := Uniform(|g.parent|, Unchecked), After(g, [Toggle(a)]);
    AfterOne(g, a);
    AlwaysSettled(g, [Toggle(a)]);
    ToggleEffect(g, blank, a, a);
    ToggleEffect(g, blank, a, b);
    assert cs[a] == Checked;
    assert !Under(g, b, a) by {
      if Under(g, b, a) {
        var _ := UnderViaKid(g, b, a);
      }
    }
    assert cs[b] == Unchecked;
    assert SettledAt(g, cs, p);
    ToggleTwice(g, cs, p);
  }
}
