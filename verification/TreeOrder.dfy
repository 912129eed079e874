/** The order of the visible rows: a parent before everything below it, siblings in the order of their list. */
module TreeOrder {
  import opened Sequences
  import opened TreeLinks
  import opened TreeRows

  /** `x` lies below an earlier member of `ids` than `y` does. */
  ghost predicate Parted(g: Links, ids: seq<nat>, x: nat, y: nat) {
    && x < |g.parent| && y < |g.parent|
    && exists j, k :: 0 <= j < k < |ids| && Under(g, x, ids[j]) && Under(g, y, ids[k])
  }

  /** `y` is below `x`, or the two are parted by the children of some node. */
  ghost predicate PrecedesBelow(g: Links, x: nat, y: nat) {
    && x < |g.parent| && y < |g.parent|
    && ((x != y && Under(g, y, x)) || exists i :: 0 <= i < |g.kids| && Parted(g, g.kids[i], x, y))
  }

  /** Preorder on a forest. */
  ghost predicate Precedes(g: Links, roots: seq<nat>, x: nat, y: nat) {
    PrecedesBelow(g, x, y) || Parted(g, roots, x, y)
  }

  ghost predicate Ordered(g: Links, ids: seq<nat>, rows: seq<nat>) {
    forall a, b :: 0 <= a < b < |rows| ==> Precedes(g, ids, rows[a], rows[b])
  }

  lemma RowIsBelow(g: Links, open: seq<bool>, ids: seq<nat>, lo: int, d: nat) returns (k: nat)
    requires Mirrored(g) && |open| == |g.parent| && -1 <= lo < |open|
    requires forall k :: 0 <= k < |ids| ==> lo < ids[k] < |open|
    requires SiblingsApart(g, ids) && d in RowsAll(g, open, ids, lo)
    ensures d < |open| && k < |ids| && Under(g, d, ids[k])
  {
    RowsAllMembers(g, open, ids, lo);
    k :| 0 <= k < |ids| && ExposedFrom(g, open, d, ids[k]);
    ExposedFromIsUnder(g, open, d, ids[k]);
  }

  lemma {:induction false} RowsOfOrdered(g: Links, open: seq<bool>, i: nat, a: nat, b: nat)
    requires Mirrored(g) && |open| == |g.parent| && i < |open|
    requires a < b < |RowsOf(g, open, i)|
    ensures PrecedesBelow(g, RowsOf(g, open, i)[a], RowsOf(g, open, i)[b])
    decreases |open| - i, 1, 0
  {
    KidsApart(g, i);
    var below := RowsAll(g, open, g.kids[i], i);
    if a == 0 {
      assert below[b - 1] in below;
      var k := RowIsBelow(g, open, g.kids[i], i, below[b - 1]);
      KidIsUnder(g, i, k);
      UnderTransitive(g, below[b - 1], g.kids[i][k], i);
      UnderIsLater(g, below[b - 1], g.kids[i][k]);
    } else {
      RowsAllOrdered(g, open, g.kids[i], i, a - 1, b - 1);
    }
  }

  lemma {:induction false} RowsAllOrdered(g: Links, open: seq<bool>, ids: seq<nat>, lo: int, a: nat, b: nat)
    requires Mirrored(g) && |open| == |g.parent| && -1 <= lo < |open|
    requires forall k :: 0 <= k < |ids| ==> lo < ids[k] < |open|
    requires SiblingsApart(g, ids) && a < b < |RowsAll(g, open, ids, lo)|
    ensures Precedes(g, ids, RowsAll(g, open, ids, lo)[a], RowsAll(g, open, ids, lo)[b])
    decreases |open| - lo, 0, |ids|
  {
    var last := |ids| - 1;
    var init := ids[..last];
    assert SiblingsApart(g, init);
    var before, own := RowsAll(g, open, init, lo), RowsOf(g, open, ids[last]);
    if b < |before| {
      RowsAllOrdered(g, open, init, lo, a, b);
      PartedInPrefix(g, ids, last, before[a], before[b]);
    } else if a >= |before| {
      RowsOfOrdered(g, open, ids[last], a - |before|, b - |before|);
    } else {
      var y := own[b - |before|];
      assert before[a] in before && y in own;
      var j := RowIsBelow(g, open, init, lo, before[a]);
      RowsOfMembers(g, open, ids[last]);
      ExposedFromIsUnder(g, open, y, ids[last]);
      assert ids[j] == init[j];
      assert Parted(g, ids, before[a], y);
    }
  }

  lemma PartedInPrefix(g: Links, ids: seq<nat>, n: nat, x: nat, y: nat)
    requires n <= |ids| && Precedes(g, ids[..n], x, y)
    ensures Precedes(g, ids, x, y)
  {
    if Parted(g, ids[..n], x, y) {
      var j, k :| 0 <= j < k < |ids[..n]| && Under(g, x, ids[..n][j]) && Under(g, y, ids[..n][k]);
      assert Under(g, x, ids[j]) && Under(g, y, ids[k]);
    }
  }

  // ---------- the order is strict ----------

  lemma PartedIsStrict(g: Links, ids: seq<nat>, x: nat, y: nat)
    requires Mirrored(g) && (forall k :: 0 <= k < |ids| ==> ids[k] < |g.parent|) && SiblingsApart(g, ids)
    requires Parted(g, ids, x, y)
    ensures !Parted(g, ids, y, x) && !Under(g, x, y) && !Under(g, y, x)
  {
    var j, k :| 0 <= j < k < |ids| && Under(g, x, ids[j]) && Under(g, y, ids[k]);
    if Under(g, x, y) {
      UnderTransitive(g, x, y, ids[k]);
    }
    if Under(g, y, x) {
      UnderTransitive(g, y, x, ids[j]);
    }
  }

  /** Two nodes below the same child of `i` are not parted by the children of `i`. */
  lemma PartedAbove(g: Links, ids: seq<nat>, top: nat, x: nat, y: nat)
    requires Mirrored(g) && (forall k :: 0 <= k < |ids| ==> ids[k] < |g.parent|) && SiblingsApart(g, ids)
    requires x < |g.parent| && y < |g.parent| && top < |g.parent|
    requires Under(g, x, top) && Under(g, y, top)
    requires exists m :: 0 <= m < |ids| && Under(g, top, ids[m])
    ensures !Parted(g, ids, x, y) && !Parted(g, ids, y, x)
  {
    var m :| 0 <= m < |ids| && Under(g, top, ids[m]);
    UnderTransitive(g, x, top, ids[m]);
    UnderTransitive(g, y, top, ids[m]);
  }

  lemma PartedByKids(g: Links, i: nat, x: nat, y: nat)
    requires Mirrored(g) && i < |g.kids| && Parted(g, g.kids[i], x, y)
    ensures Under(g, x, i) && Under(g, y, i)
  {
    var j, k :| 0 <= j < k < |g.kids[i]| && Under(g, x, g.kids[i][j]) && Under(g, y, g.kids[i][k]);
    KidIsUnder(g, i, j);
    KidIsUnder(g, i, k);
    UnderTransitive(g, x, g.kids[i][j], i);
    UnderTransitive(g, y, g.kids[i][k], i);
  }

  /** At most one child list parts two nodes. */
  lemma PartedOnce(g: Links, i: nat, i': nat, x: nat, y: nat)
    requires Mirrored(g) && i < |g.kids| && i' < |g.kids|
    requires Parted(g, g.kids[i], x, y)
    ensures !Parted(g, g.kids[i'], y, x)
  {
    PartedByKids(g, i, x, y);
    KidsApart(g, i);
    KidsApart(g, i');
    if i == i' {
      PartedIsStrict(g, g.kids[i], x, y);
    } else if Parted(g, g.kids[i'], y, x) {
      PartedByKids(g, i', y, x);
      UnderChain(g, x, i, i');
      if Under(g, i, i') {
        var m := UnderViaKid(g, i, i');
        PartedAbove(g, g.kids[i'], i, x, y);
      } else {
        var m := UnderViaKid(g, i', i);
        PartedAbove(g, g.kids[i], i', x, y);
      }
    }
  }

  lemma RootsPart(g: Links, roots: seq<nat>, x: nat, y: nat)
    requires Forest(g, roots) && Parted(g, roots, x, y)
    ensures !PrecedesBelow(g, y, x)
  {
    RootsApart(g, roots);
    PartedIsStrict(g, roots, x, y);
    forall i: nat | i < |g.kids|
      ensures !Parted(g, g.kids[i], y, x)
    {
      if Parted(g, g.kids[i], y, x) {
        PartedByKids(g, i, y, x);
        var m := SomeRootAbove(g, roots, i);
        PartedAbove(g, roots, i, x, y);
      }
    }
  }

  lemma BelowIsStrict(g: Links, x: nat, y: nat)
    requires Mirrored(g) && PrecedesBelow(g, x, y)
    ensures !PrecedesBelow(g, y, x)
  {
    if i :| 0 <= i < |g.kids| && Parted(g, g.kids[i], x, y) {
      KidsApart(g, i);
      PartedIsStrict(g, g.kids[i], x, y);
      forall i': nat | i' < |g.kids| {
        PartedOnce(g, i, i', x, y);
      }
    } else {
      UnderIsLater(g, y, x);
      if Under(g, x, y) {
        UnderIsLater(g, x, y);
      }
      forall i': nat | i' < |g.kids| && Parted(g, g.kids[i'], y, x)
        ensures false
      {
        KidsApart(g, i');
        PartedIsStrict(g, g.kids[i'], y, x);
      }
    }
  }

  lemma PreorderIsStrict(g: Links, roots: seq<nat>, x: nat, y: nat)
    requires Forest(g, roots) && Precedes(g, roots, x, y)
    ensures !Precedes(g, roots, y, x)
  {
    if Parted(g, roots, x, y) {
      RootsApart(g, roots);
      PartedIsStrict(g, roots, x, y);
      RootsPart(g, roots, x, y);
    } else {
      BelowIsStrict(g, x, y);
      if Parted(g, roots, y, x) {
        RootsPart(g, roots, y, x);
      }
    }
  }

  lemma TailMultiset(r: seq<nat>)
    requires r != []
    ensures multiset(r[1..]) == multiset(r) - multiset{r[0]}
  {
    assert r == [r[0]] + r[1..];
  }

  /** Two listings of the same nodes, both in preorder, are equal. */
  lemma {:induction false} OneOrder(g: Links, roots: seq<nat>, r: seq<nat>, s: seq<nat>)
    requires Forest(g, roots) && Ordered(g, roots, r) && Ordered(g, roots, s)
    requires multiset(r) == multiset(s)
    ensures r == s
    decreases |r|
  {
    assert |r| == |multiset(r)| == |multiset(s)| == |s|;
    if r != [] {
      SameFirst(g, roots, r, s);
      TailMultiset(r);
      TailMultiset(s);
      OneOrder(g, roots, r[1..], s[1..]);
      assert r == [r[0]] + r[1..] && s == [s[0]] + s[1..];
    }
  }

  lemma SameFirst(g: Links, roots: seq<nat>, r: seq<nat>, s: seq<nat>)
    requires Forest(g, roots) && Ordered(g, roots, r) && Ordered(g, roots, s)
    requires multiset(r) == multiset(s) && r != [] && s != []
    ensures r[0] == s[0]
  {
    assert r[0] in multiset(s) && s[0] in multiset(r);
    var a :| 0 <= a < |r| && r[a] == s[0];
    var b :| 0 <= b < |s| && s[b] == r[0];
    if r[0] != s[0] {
      assert Precedes(g, roots, r[0], r[a]);
      assert Precedes(g, roots, s[0], s[b]);
      PreorderIsStrict(g, roots, r[0], s[0]);
    }
  }

  /** The visible rows are in preorder, and are the only listing of the exposed nodes that is. */
  lemma RowsArePreorder(g: Links, open: seq<bool>, roots: seq<nat>, rows: seq<nat>)
    requires Forest(g, roots) && |open| == |g.parent|
    requires Distinct(rows) && forall d: nat :: d in rows <==> d < |open| && Exposed(g, open, d)
    ensures Ordered(g, roots, rows) <==> rows == Rows(g, open, roots)
  {
    var r := Rows(g, open, roots);
    RootsApart(g, roots);
    forall a, b | 0 <= a < b < |r|
      ensures Precedes(g, roots, r[a], r[b])
    {
      RowsAllOrdered(g, open, roots, -1, a, b);
    }
    RowsAreExposed(g, open, roots);
    SameMembers(r, rows);
    if Ordered(g, roots, rows) {
      OneOrder(g, roots, r, rows);
    }
  }

  lemma SameMembers(r: seq<nat>, s: seq<nat>)
    requires Distinct(r) && Distinct(s) && forall d: nat :: d in r <==> d in s
    ensures multiset(r) == multiset(s)
  {
    forall d: nat ensures multiset(r)[d] == multiset(s)[d] {
      DistinctCount(r, d);
      DistinctCount(s, d);
      assert d in r <==> d in multiset(r);
      assert d in s <==> d in multiset(s);
    }
  }
}
