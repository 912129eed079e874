/** The shape of an arena tree: who is whose parent, and who are whose children. */
module TreeLinks {
  import opened Wrappers
  import opened Sequences

  /** `parent[i]` and `kids[i]` for the node with arena index `i`. */
  datatype Links = Links(parent: seq<Option<nat>>, kids: seq<seq<nat>>)

  /** Parent and child links mirror each other, children come later in the arena than their parent, and no
      node is listed twice. */
  ghost predicate Mirrored(g: Links) {
    && |g.parent| == |g.kids|
    && (forall p: nat, k: nat :: p < |g.kids| && k < |g.kids[p]| ==>
          p < g.kids[p][k] < |g.parent| && g.parent[g.kids[p][k]] == Some(p))
    && (forall c: nat :: c < |g.parent| && g.parent[c].Some? ==>
          g.parent[c].value < c && c in g.kids[g.parent[c].value])
    && (forall p: nat :: p < |g.kids| ==> Distinct(g.kids[p]))
  }

  /** The roots are, each once, the nodes without a parent. */
  ghost predicate RootsOf(parent: seq<Option<nat>>, roots: seq<nat>) {
    && Distinct(roots)
    && (forall k :: 0 <= k < |roots| ==> roots[k] < |parent| && parent[roots[k]] == None)
    && (forall c: nat :: c < |parent| && parent[c] == None ==> c in roots)
  }

  /** Every node is in exactly one child list, or else is one of the roots. */
  ghost predicate Forest(g: Links, roots: seq<nat>) {
    Mirrored(g) && RootsOf(g.parent, roots)
  }

  /** `d` is `i` or one of its descendants. */
  predicate Under(g: Links, d: nat, i: nat)
    requires d < |g.parent|
  {
    || d == i
    || (g.parent[d].Some? && g.parent[d].value < d && Under(g, g.parent[d].value, i))
  }

  lemma {:induction false} UnderIsLater(g: Links, d: nat, i: nat)
    requires d < |g.parent| && Under(g, d, i)
    ensures i <= d
  {
    if d != i {
      UnderIsLater(g, g.parent[d].value, i);
    }
  }

  lemma {:induction false} UnderTransitive(g: Links, d: nat, m: nat, i: nat)
    requires d < |g.parent| && m < |g.parent| && Under(g, d, m) && Under(g, m, i)
    ensures Under(g, d, i)
  {
    if d != m {
      UnderTransitive(g, g.parent[d].value, m, i);
    }
  }

  /** The nodes above a given one form a chain. */
  lemma {:induction false} UnderChain(g: Links, d: nat, a: nat, b: nat)
    requires d < |g.parent| && a < |g.parent| && b < |g.parent|
    requires Under(g, d, a) && Under(g, d, b)
    ensures Under(g, a, b) || Under(g, b, a)
  {
    if d != a && d != b {
      UnderChain(g, g.parent[d].value, a, b);
    }
  }

  /** Below a node means being that node or below one of its children. */
  lemma {:induction false} UnderViaKid(g: Links, d: nat, i: nat) returns (k: nat)
    requires Mirrored(g) && d < |g.parent| && i < |g.parent|
    requires Under(g, d, i) && d != i
    ensures k < |g.kids[i]| && g.kids[i][k] <= d && Under(g, d, g.kids[i][k])
  {
    var p := g.parent[d].value;
    if p == i {
      k :| 0 <= k < |g.kids[i]| && g.kids[i][k] == d;
    } else {
      k := UnderViaKid(g, p, i);
    }
  }

  lemma KidIsUnder(g: Links, i: nat, k: nat)
    requires Mirrored(g) && i < |g.kids| && k < |g.kids[i]|
    ensures Under(g, g.kids[i][k], i)
  {
  }

  /** Different children have nothing below them in common. */
  lemma KidsAreDisjoint(g: Links, i: nat, j: nat, k: nat, d: nat)
    requires Mirrored(g) && i < |g.kids| && j < |g.kids[i]| && k < |g.kids[i]| && d < |g.parent|
    requires Under(g, d, g.kids[i][j]) && Under(g, d, g.kids[i][k])
    ensures j == k
  {
    var a, b := g.kids[i][j], g.kids[i][k];
    UnderChain(g, d, a, b);
    if Under(g, a, b) && a != b {
      UnderIsLater(g, i, b);
    } else if Under(g, b, a) && a != b {
      UnderIsLater(g, i, a);
    }
  }

  lemma RootsAreDisjoint(g: Links, roots: seq<nat>, j: nat, k: nat, d: nat)
    requires Forest(g, roots) && j < |roots| && k < |roots| && d < |g.parent|
    requires Under(g, d, roots[j]) && Under(g, d, roots[k])
    ensures j == k
  {
    UnderChain(g, d, roots[j], roots[k]);
  }

  /** No node lies below two of `ids`. */
  ghost predicate SiblingsApart(g: Links, ids: seq<nat>)
    requires forall k :: 0 <= k < |ids| ==> ids[k] < |g.parent|
  {
    forall j, k, d: nat ::
      0 <= j < |ids| && 0 <= k < |ids| && d < |g.parent| && Under(g, d, ids[j]) && Under(g, d, ids[k])
      ==> j == k
  }

  lemma KidsApart(g: Links, i: nat)
    requires Mirrored(g) && i < |g.kids|
    ensures SiblingsApart(g, g.kids[i])
  {
    forall j, k, d: nat | 0 <= j < |g.kids[i]| && 0 <= k < |g.kids[i]| && d < |g.parent|
      && Under(g, d, g.kids[i][j]) && Under(g, d, g.kids[i][k])
      ensures j == k
    {
      KidsAreDisjoint(g, i, j, k, d);
    }
  }

  lemma RootsApart(g: Links, roots: seq<nat>)
    requires Forest(g, roots)
    ensures SiblingsApart(g, roots)
  {
    forall j, k, d: nat | 0 <= j < |roots| && 0 <= k < |roots| && d < |g.parent|
      && Under(g, d, roots[j]) && Under(g, d, roots[k])
      ensures j == k
    {
      RootsAreDisjoint(g, roots, j, k, d);
    }
  }

  lemma {:induction false} SomeRootAbove(g: Links, roots: seq<nat>, d: nat) returns (k: nat)
    requires Forest(g, roots) && d < |g.parent|
    ensures k < |roots| && Under(g, d, roots[k])
  {
    if g.parent[d].None? {
      assert d in roots;
      k :| 0 <= k < |roots| && roots[k] == d;
    } else {
      k := SomeRootAbove(g, roots, g.parent[d].value);
    }
  }

  /** Every node has a childless node at or below it. */
  lemma {:induction false} SomeLeafBelow(g: Links, i: nat) returns (d: nat)
    requires Mirrored(g) && i < |g.parent|
    ensures d < |g.parent| && Under(g, d, i) && g.kids[d] == []
    decreases |g.parent| - i
  {
    if g.kids[i] == [] {
      d := i;
    } else {
      d := SomeLeafBelow(g, g.kids[i][0]);
      KidIsUnder(g, i, 0);
      UnderTransitive(g, d, g.kids[i][0], i);
    }
  }
}
