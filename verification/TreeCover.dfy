/** The nodes that stand for a selection: fully checked subtrees by their top node only. */
module TreeCover {
  import opened Sequences
  import opened TreeLinks
  import opened TreeChecks

  /** `collect_checked_node`: emit a checked node, look inside a partial one, skip an unchecked one. */
  ghost function CoverOf(g: Links, cs: seq<CheckState>, i: nat): seq<nat>
    requires Mirrored(g) && |cs| == |g.parent| && i < |cs|
    decreases |cs| - i, 1, 0
  {
    match cs[i]
    case Checked => [i]
    case Partial => CoverAll(g, cs, g.kids[i], i)
    case Unchecked => []
  }

  /** The same for a list of nodes that all come after `lo` in the arena. */
  ghost function CoverAll(g: Links, cs: seq<CheckState>, ids: seq<nat>, lo: int): seq<nat>
    requires Mirrored(g) && |cs| == |g.parent| && -1 <= lo < |cs|
    requires forall k :: 0 <= k < |ids| ==> lo < ids[k] < |cs|
    decreases |cs| - lo, 0, |ids|
  {
    if ids == [] then []
    else
      var last := |ids| - 1;
      CoverAll(g, cs, ids[..last], lo) + CoverOf(g, cs, ids[last])
  }

  ghost function Cover(g: Links, cs: seq<CheckState>, roots: seq<nat>): seq<nat>
    requires Forest(g, roots) && |cs| == |g.parent|
  {
    CoverAll(g, cs, roots, -1)
  }

  /** The reference description: a checked node whose parent is not fully checked. */
  predicate TopChecked(g: Links, cs: seq<CheckState>, e: nat)
    requires |cs| == |g.parent| && e < |cs|
  {
    && cs[e] == Checked
    && (g.parent[e].None? || g.parent[e].value >= |cs| || cs[g.parent[e].value] != Checked)
  }

  /** `TopChecked` within the subtree of `i`. */
  ghost predicate TopBelow(g: Links, cs: seq<CheckState>, e: nat, i: nat)
    requires |cs| == |g.parent| && e < |cs|
  {
    Under(g, e, i) && cs[e] == Checked && (e == i || TopChecked(g, cs, e))
  }

  lemma TopBelowPartial(g: Links, cs: seq<CheckState>, i: nat, e: nat)
    requires Mirrored(g) && |cs| == |g.parent| && i < |cs| && e < |cs| && cs[i] == Partial
    ensures TopBelow(g, cs, e, i) <==>
      exists k :: 0 <= k < |g.kids[i]| && TopBelow(g, cs, e, g.kids[i][k])
  {
    if TopBelow(g, cs, e, i) {
      var k := UnderViaKid(g, e, i);
      assert TopBelow(g, cs, e, g.kids[i][k]);
    }
    forall k | 0 <= k < |g.kids[i]| && TopBelow(g, cs, e, g.kids[i][k])
      ensures TopBelow(g, cs, e, i)
    {
      KidIsUnder(g, i, k);
      UnderTransitive(g, e, g.kids[i][k], i);
    }
  }

  lemma {:induction false} CoverOfMembers(g: Links, cs: seq<CheckState>, i: nat)
    requires Mirrored(g) && |cs| == |g.parent| && Settled(g, cs) && i < |cs|
    ensures Distinct(CoverOf(g, cs, i))
    ensures forall k :: 0 <= k < |CoverOf(g, cs, i)| ==> CoverOf(g, cs, i)[k] < |cs|
    ensures forall e: nat :: e < |cs| ==> (e in CoverOf(g, cs, i) <==> TopBelow(g, cs, e, i))
    decreases |cs| - i, 1, 0
  {
    if cs[i] == Partial {
      KidsApart(g, i);
      CoverAllMembers(g, cs, g.kids[i], i);
      forall e: nat | e < |cs|
        ensures e in CoverOf(g, cs, i) <==> TopBelow(g, cs, e, i)
      {
        TopBelowPartial(g, cs, i, e);
      }
    } else {
      forall e: nat | e < |cs|
        ensures e in CoverOf(g, cs, i) <==> TopBelow(g, cs, e, i)
      {
        if Under(g, e, i) {
          SettledIsUniformBelow(g, cs, e, i);
          if e != i {
            SettledIsUniformBelow(g, cs, g.parent[e].value, i);
          }
        }
      }
    }
  }

  lemma {:induction false} CoverAllMembers(g: Links, cs: seq<CheckState>, ids: seq<nat>, lo: int)
    requires Mirrored(g) && |cs| == |g.parent| && Settled(g, cs) && -1 <= lo < |cs|
    requires forall k :: 0 <= k < |ids| ==> lo < ids[k] < |cs|
    requires SiblingsApart(g, ids)
    ensures Distinct(CoverAll(g, cs, ids, lo))
    ensures forall k :: 0 <= k < |CoverAll(g, cs, ids, lo)| ==> CoverAll(g, cs, ids, lo)[k] < |cs|
    ensures forall e: nat :: e < |cs| ==>
      (e in CoverAll(g, cs, ids, lo) <==> exists k :: 0 <= k < |ids| && TopBelow(g, cs, e, ids[k]))
    decreases |cs| - lo, 0, |ids|
  {
    if ids != [] {
      var last := |ids| - 1;
      var init := ids[..last];
      assert SiblingsApart(g, init);
      CoverAllMembers(g, cs, init, lo);
      CoverOfMembers(g, cs, ids[last]);
      var before, own := CoverAll(g, cs, init, lo), CoverOf(g, cs, ids[last]);
      forall j, k | 0 <= j < |before| && 0 <= k < |own|
        ensures before[j] != own[k]
      {
        assert before[j] in before && own[k] in own;
        var m :| 0 <= m < |init| && TopBelow(g, cs, before[j], init[m]);
        assert TopBelow(g, cs, own[k], ids[last]);
        assert ids[m] == init[m];
      }
      forall e: nat | e < |cs|
        ensures e in before + own <==> exists k :: 0 <= k < |ids| && TopBelow(g, cs, e, ids[k])
      {
        if e in before {
          var m :| 0 <= m < |init| && TopBelow(g, cs, e, init[m]);
          assert TopBelow(g, cs, e, ids[m]);
        }
        if k :| 0 <= k < |ids| && TopBelow(g, cs, e, ids[k]) {
          assert k < last ==> ids[k] == init[k];
        }
      }
    }
  }

  /** The emitted nodes are, each once, the topmost checked nodes. */
  lemma CoverIsTopChecked(g: Links, cs: seq<CheckState>, roots: seq<nat>)
    requires Forest(g, roots) && |cs| == |g.parent| && Settled(g, cs)
    ensures Distinct(Cover(g, cs, roots))
    ensures forall k :: 0 <= k < |Cover(g, cs, roots)| ==> Cover(g, cs, roots)[k] < |cs|
    ensures forall e: nat :: e < |cs| ==> (e in Cover(g, cs, roots) <==> TopChecked(g, cs, e))
  {
    RootsApart(g, roots);
    CoverAllMembers(g, cs, roots, -1);
    forall e: nat | e < |cs|
      ensures e in Cover(g, cs, roots) <==> TopChecked(g, cs, e)
    {
      var k := SomeRootAbove(g, roots, e);
      assert TopChecked(g, cs, e) ==> TopBelow(g, cs, e, roots[k]);
    }
  }

  /** No emitted node lies below another. */
  lemma CoverIsAntichain(g: Links, cs: seq<CheckState>, roots: seq<nat>, a: nat, b: nat)
    requires Forest(g, roots) && |cs| == |g.parent| && Settled(g, cs)
    requires a in Cover(g, cs, roots) && b in Cover(g, cs, roots) && a < |cs| && b < |cs| && a != b
    ensures !Under(g, a, b)
  {
    CoverIsTopChecked(g, cs, roots);
    if Under(g, a, b) {
      SettledIsUniformBelow(g, cs, g.parent[a].value, b);
    }
  }

  lemma {:induction false} TopCheckedAbove(g: Links, cs: seq<CheckState>, d: nat) returns (e: nat)
    requires Mirrored(g) && |cs| == |g.parent| && d < |cs| && cs[d] == Checked
    ensures e < |cs| && Under(g, d, e) && TopChecked(g, cs, e)
  {
    if TopChecked(g, cs, d) {
      e := d;
    } else {
      e := TopCheckedAbove(g, cs, g.parent[d].value);
    }
  }

  /** A childless node lies under exactly one emitted node if it is checked, and under none if not. */
  lemma CoverIsExact(g: Links, cs: seq<CheckState>, roots: seq<nat>, d: nat)
    requires Forest(g, roots) && |cs| == |g.parent| && Settled(g, cs)
    requires d < |cs| && g.kids[d] == []
    ensures var cover := Cover(g, cs, roots);
      if cs[d] == Checked then
        exists k :: 0 <= k < |cover| && Under(g, d, cover[k])
          && forall j :: 0 <= j < |cover| && Under(g, d, cover[j]) ==> j == k
      else
        forall k :: 0 <= k < |cover| ==> !Under(g, d, cover[k])
  {
    var cover := Cover(g, cs, roots);
    CoverIsTopChecked(g, cs, roots);
    if cs[d] == Checked {
      var e := TopCheckedAbove(g, cs, d);
      assert e in cover;
      var k :| 0 <= k < |cover| && cover[k] == e;
      forall j | 0 <= j < |cover| && Under(g, d, cover[j])
        ensures j == k
      {
        assert cover[j] in cover;
        UnderChain(g, d, cover[j], e);
        if j != k {
          CoverIsAntichain(g, cs, roots, cover[j], e);
          CoverIsAntichain(g, cs, roots, e, cover[j]);
        }
      }
    } else {
      forall k | 0 <= k < |cover|
        ensures !Under(g, d, cover[k])
      {
        assert cover[k] in cover;
        if Under(g, d, cover[k]) {
          SettledIsUniformBelow(g, cs, d, cover[k]);
        }
      }
    }
  }

  // ---------- no smaller selection says the same ----------

  /** `picked` covers exactly the checked childless nodes. */
  ghost predicate Represents(g: Links, cs: seq<CheckState>, picked: set<nat>)
    requires Mirrored(g) && |cs| == |g.parent|
  {
    && (forall s :: s in picked ==> s < |cs|)
    && (forall d: nat :: d < |cs| && g.kids[d] == [] ==>
          ((exists s :: s in picked && Under(g, d, s)) <==> cs[d] == Checked))
  }

  /** Inside each emitted subtree, any equivalent selection needs a node of its own. */
  lemma PickedInside(g: Links, cs: seq<CheckState>, picked: set<nat>, e: nat) returns (s: nat)
    requires Mirrored(g) && |cs| == |g.parent| && Settled(g, cs) && Represents(g, cs, picked)
    requires e < |cs| && TopChecked(g, cs, e)
    ensures s in picked && s < |cs| && Under(g, s, e)
  {
    var d := SomeLeafBelow(g, e);
    SettledIsUniformBelow(g, cs, d, e);
    s :| s in picked && Under(g, d, s);
    UnderChain(g, d, s, e);
    if Under(g, e, s) && s != e {
      forall f: nat | f < |cs| && g.kids[f] == [] && Under(g, f, s)
        ensures cs[f] == Checked
      {
      }
      LeavesDecide(g, cs, s, Checked);
      SettledIsUniformBelow(g, cs, g.parent[e].value, s);
    }
  }

  ghost predicate PicksInside(g: Links, picked: set<nat>, e: nat) {
    exists s :: s in picked && s < |g.parent| && Under(g, s, e)
  }

  lemma {:induction false} AntichainNeedsAsMany(g: Links, cover: seq<nat>, picked: set<nat>)
    requires forall k :: 0 <= k < |cover| ==> cover[k] < |g.parent|
    requires forall j, k :: 0 <= j < |cover| && 0 <= k < |cover| && j != k ==> !Under(g, cover[j], cover[k])
    requires forall k :: 0 <= k < |cover| ==> PicksInside(g, picked, cover[k])
    ensures |cover| <= |picked|
  {
    if cover != [] {
      assert PicksInside(g, picked, cover[0]);
      var s :| s in picked && s < |g.parent| && Under(g, s, cover[0]);
      forall k | 0 <= k < |cover[1..]|
        ensures PicksInside(g, picked - {s}, cover[1..][k])
      {
        assert PicksInside(g, picked, cover[k + 1]);
        var s' :| s' in picked && s' < |g.parent| && Under(g, s', cover[k + 1]);
        if s' == s {
          UnderChain(g, s, cover[0], cover[k + 1]);
        }
        assert s' in picked - {s};
      }
      AntichainNeedsAsMany(g, cover[1..], picked - {s});
    }
  }

  /** No selection of fewer nodes covers the same childless nodes. */
  lemma CoverIsMinimal(g: Links, cs: seq<CheckState>, roots: seq<nat>, picked: set<nat>)
    requires Forest(g, roots) && |cs| == |g.parent| && Settled(g, cs)
    requires Represents(g, cs, picked)
    ensures |Cover(g, cs, roots)| <= |picked|
  {
    var cover := Cover(g, cs, roots);
    CoverIsTopChecked(g, cs, roots);
    forall k | 0 <= k < |cover|
      ensures PicksInside(g, picked, cover[k])
    {
      assert cover[k] in cover;
      var s := PickedInside(g, cs, picked, cover[k]);
    }
    forall j, k | 0 <= j < |cover| && 0 <= k < |cover| && j != k
      ensures !Under(g, cover[j], cover[k])
    {
      CoverIsAntichain(g, cs, roots, cover[j], cover[k]);
    }
    AntichainNeedsAsMany(g, cover, picked);
  }
}
