/** The rows a tree view shows: a preorder walk that enters expanded directories only. */
module TreeRows {
  import opened Wrappers
  import opened Sequences
  import opened TreeLinks

  /** `open[i]`: node `i` is a directory and expanded. */
  ghost function RowsOf(g: Links, open: seq<bool>, i: nat): seq<nat>
    requires Mirrored(g) && |open| == |g.parent| && i < |open|
    decreases |open| - i, 1, 0
  {
    [i] + if open[i] then RowsAll(g, open, g.kids[i], i) else []
  }

  ghost function RowsAll(g: Links, open: seq<bool>, ids: seq<nat>, lo: int): seq<nat>
    requires Mirrored(g) && |open| == |g.parent| && -1 <= lo < |open|
    requires forall k :: 0 <= k < |ids| ==> lo < ids[k] < |open|
    decreases |open| - lo, 0, |ids|
  {
    if ids == [] then []
    else
      var last := |ids| - 1;
      RowsAll(g, open, ids[..last], lo) + RowsOf(g, open, ids[last])
  }

  ghost function Rows(g: Links, open: seq<bool>, roots: seq<nat>): seq<nat>
    requires Forest(g, roots) && |open| == |g.parent|
  {
    RowsAll(g, open, roots, -1)
  }

  lemma RowsAllSnoc(g: Links, open: seq<bool>, ids: seq<nat>, k: nat, lo: int, before: seq<nat>)
    requires Mirrored(g) && |open| == |g.parent| && -1 <= lo < |open| && k < |ids|
    requires forall j :: 0 <= j < |ids| ==> lo < ids[j] < |open|
    ensures before + RowsAll(g, open, ids[..k], lo) + RowsOf(g, open, ids[k])
         == before + RowsAll(g, open, ids[..k + 1], lo)
  {
    assert ids[..k + 1][..k] == ids[..k];
  }

  lemma RowsAllLast(g: Links, open: seq<bool>, init: seq<nat>, last: nat, lo: int)
    requires Mirrored(g) && |open| == |g.parent| && -1 <= lo < |open| && lo < last < |open|
    requires forall k :: 0 <= k < |init| ==> lo < init[k] < |open|
    ensures RowsAll(g, open, init + [last], lo) == RowsAll(g, open, init, lo) + RowsOf(g, open, last)
  {
    assert (init + [last])[..|init|] == init;
  }

  /** Closed nodes have one row each. */
  lemma {:induction false} ClosedRows(g: Links, open: seq<bool>, ids: seq<nat>, lo: int)
    requires Mirrored(g) && |open| == |g.parent| && -1 <= lo < |open|
    requires forall k :: 0 <= k < |ids| ==> lo < ids[k] < |open| && !open[ids[k]]
    ensures RowsAll(g, open, ids, lo) == ids
    decreases |ids|
  {
    if ids != [] {
      var init, last := ids[..|ids| - 1], ids[|ids| - 1];
      ClosedRows(g, open, init, lo);
      RowsAllLast(g, open, init, last, lo);
      assert RowsOf(g, open, last) == [last];
      assert ids == init + [last];
    }
  }

  /** Every node strictly above `d` is open. */
  predicate Exposed(g: Links, open: seq<bool>, d: nat)
    requires |open| == |g.parent| && d < |open|
  {
    g.parent[d].Some? && g.parent[d].value < d ==>
      open[g.parent[d].value] && Exposed(g, open, g.parent[d].value)
  }

  /** Every node from `d`'s parent up to and including `i` is open. */
  predicate ExposedFrom(g: Links, open: seq<bool>, d: nat, i: nat)
    requires |open| == |g.parent| && d < |open|
  {
    || d == i
    || (g.parent[d].Some? && g.parent[d].value < d
        && open[g.parent[d].value] && ExposedFrom(g, open, g.parent[d].value, i))
  }

  lemma {:induction false} ExposedFromIsUnder(g: Links, open: seq<bool>, d: nat, i: nat)
    requires |open| == |g.parent| && d < |open| && ExposedFrom(g, open, d, i)
    ensures Under(g, d, i)
  {
    if d != i {
      ExposedFromIsUnder(g, open, g.parent[d].value, i);
    }
  }

  lemma {:induction false} ExposedViaKid(g: Links, open: seq<bool>, d: nat, i: nat)
    requires Mirrored(g) && |open| == |g.parent| && d < |open| && i < |open| && d != i
    ensures ExposedFrom(g, open, d, i) <==>
      open[i] && exists k :: 0 <= k < |g.kids[i]| && ExposedFrom(g, open, d, g.kids[i][k])
  {
    if g.parent[d].Some? {
      var p := g.parent[d].value;
      if p == i {
        var k :| 0 <= k < |g.kids[i]| && g.kids[i][k] == d;
      } else {
        ExposedViaKid(g, open, p, i);
        if k :| 0 <= k < |g.kids[i]| && ExposedFrom(g, open, d, g.kids[i][k]) {
          assert g.parent[g.kids[i][k]] == Some(i);
        }
        if ExposedFrom(g, open, p, i) && open[p] {
          var k :| 0 <= k < |g.kids[i]| && ExposedFrom(g, open, p, g.kids[i][k]);
          assert ExposedFrom(g, open, d, g.kids[i][k]);
        }
      }
    } else if k :| 0 <= k < |g.kids[i]| && ExposedFrom(g, open, d, g.kids[i][k]) {
      assert g.parent[g.kids[i][k]] == Some(i);
    }
  }

  lemma {:induction false} RowsOfMembers(g: Links, open: seq<bool>, i: nat)
    requires Mirrored(g) && |open| == |g.parent| && i < |open|
    ensures Distinct(RowsOf(g, open, i))
    ensures forall k :: 0 <= k < |RowsOf(g, open, i)| ==> RowsOf(g, open, i)[k] < |open|
    ensures forall d: nat :: d < |open| ==> (d in RowsOf(g, open, i) <==> ExposedFrom(g, open, d, i))
    decreases |open| - i, 1, 0
  {
    forall d: nat | d < |open| && d != i {
      ExposedViaKid(g, open, d, i);
    }
    if open[i] {
      KidsApart(g, i);
      RowsAllMembers(g, open, g.kids[i], i);
      var below := RowsAll(g, open, g.kids[i], i);
      forall k | 0 <= k < |below|
        ensures below[k] != i
      {
        assert below[k] in below;
        var m :| 0 <= m < |g.kids[i]| && ExposedFrom(g, open, below[k], g.kids[i][m]);
        ExposedFromIsUnder(g, open, below[k], g.kids[i][m]);
        UnderIsLater(g, below[k], g.kids[i][m]);
      }
    }
  }

  lemma {:induction false} RowsAllMembers(g: Links, open: seq<bool>, ids: seq<nat>, lo: int)
    requires Mirrored(g) && |open| == |g.parent| && -1 <= lo < |open|
    requires forall k :: 0 <= k < |ids| ==> lo < ids[k] < |open|
    requires SiblingsApart(g, ids)
    ensures Distinct(RowsAll(g, open, ids, lo))
    ensures forall k :: 0 <= k < |RowsAll(g, open, ids, lo)| ==> RowsAll(g, open, ids, lo)[k] < |open|
    ensures forall d: nat :: d < |open| ==>
      (d in RowsAll(g, open, ids, lo) <==> exists k :: 0 <= k < |ids| && ExposedFrom(g, open, d, ids[k]))
    decreases |open| - lo, 0, |ids|
  {
    if ids != [] {
      var last := |ids| - 1;
      var init := ids[..last];
      assert SiblingsApart(g, init);
      RowsAllMembers(g, open, init, lo);
      RowsOfMembers(g, open, ids[last]);
      var before, own := RowsAll(g, open, init, lo), RowsOf(g, open, ids[last]);
      forall j, k | 0 <= j < |before| && 0 <= k < |own|
        ensures before[j] != own[k]
      {
        assert before[j] in before && own[k] in own;
        var m :| 0 <= m < |init| && ExposedFrom(g, open, before[j], init[m]);
        ExposedFromIsUnder(g, open, before[j], init[m]);
        ExposedFromIsUnder(g, open, own[k], ids[last]);
        assert ids[m] == init[m];
      }
      forall d: nat | d < |open|
        ensures d in before + own <==> exists k :: 0 <= k < |ids| && ExposedFrom(g, open, d, ids[k])
      {
        if d in before {
          var m :| 0 <= m < |init| && ExposedFrom(g, open, d, init[m]);
          assert ExposedFrom(g, open, d, ids[m]);
        }
        if k :| 0 <= k < |ids| && ExposedFrom(g, open, d, ids[k]) {
          assert k < last ==> ids[k] == init[k];
        }
      }
    }
  }

  lemma {:induction false} ExposedFromRoot(g: Links, open: seq<bool>, d: nat, root: nat)
    requires Mirrored(g) && |open| == |g.parent| && d < |open| && root < |open|
    requires g.parent[root].None? && Under(g, d, root)
    ensures ExposedFrom(g, open, d, root) <==> Exposed(g, open, d)
  {
    if d != root {
      ExposedFromRoot(g, open, g.parent[d].value, root);
    }
  }

  /** The visible rows are, each once, exactly the nodes all of whose ancestors are open. */
  lemma RowsAreExposed(g: Links, open: seq<bool>, roots: seq<nat>)
    requires Forest(g, roots) && |open| == |g.parent|
    ensures Distinct(Rows(g, open, roots))
    ensures forall k :: 0 <= k < |Rows(g, open, roots)| ==> Rows(g, open, roots)[k] < |open|
    ensures forall d: nat :: d < |open| ==> (d in Rows(g, open, roots) <==> Exposed(g, open, d))
  {
    RootsApart(g, roots);
    RowsAllMembers(g, open, roots, -1);
    forall d: nat | d < |open|
      ensures d in Rows(g, open, roots) <==> Exposed(g, open, d)
    {
      var k := SomeRootAbove(g, roots, d);
      ExposedFromRoot(g, open, d, roots[k]);
      forall m | 0 <= m < |roots| && ExposedFrom(g, open, d, roots[m])
        ensures m == k
      {
        ExposedFromIsUnder(g, open, d, roots[m]);
      }
    }
  }

  lemma {:induction false} ExposedWhenOpen(g: Links, open: seq<bool>, d: nat)
    requires Mirrored(g) && |open| == |g.parent| && d < |open|
    requires forall i: nat :: i < |open| && g.kids[i] != [] ==> open[i]
    ensures Exposed(g, open, d)
  {
    if g.parent[d].Some? {
      assert g.kids[g.parent[d].value] != [];
      ExposedWhenOpen(g, open, g.parent[d].value);
    }
  }

  lemma {:induction false} FullDistinct(s: seq<nat>, n: nat)
    requires Distinct(s) && forall i: nat :: i in s <==> i < n
    ensures |s| == n && multiset(s) == multiset(Range(n))
  {
    forall i: nat ensures multiset(s)[i] == multiset(Range(n))[i] {
      DistinctCount(s, i);
      DistinctCount(Range(n), i);
      assert i in s <==> i in multiset(s);
      assert i in Range(n) <==> i in multiset(Range(n));
      if i < n {
        assert Range(n)[i] == i;
      }
    }
    assert multiset(s) == multiset(Range(n));
    assert |s| == |multiset(s)| == |multiset(Range(n))| == |Range(n)|;
  }

  /** With every parent open, the rows are a permutation of the whole arena. */
  lemma AllOpenShowsAll(g: Links, open: seq<bool>, roots: seq<nat>)
    requires Forest(g, roots) && |open| == |g.parent|
    requires forall i: nat :: i < |open| && g.kids[i] != [] ==> open[i]
    ensures multiset(Rows(g, open, roots)) == multiset(Range(|open|))
  {
    RowsAreExposed(g, open, roots);
    var rows := Rows(g, open, roots);
    forall d: nat
      ensures d in rows <==> d < |open|
    {
      if d < |open| {
        ExposedWhenOpen(g, open, d);
      }
    }
    FullDistinct(rows, |open|);
  }
}
