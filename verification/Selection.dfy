/**
What a selection restores.  The tree view hands on the paths of the minimal cover, and the restore keeps an
item when its own path or a path above it is among them.
*/
module Selection {
  import opened Wrappers
  import opened Sequences
  import opened Paths
  import opened TreeLinks
  import opened TreeChecks
  import opened TreeCover
  import opened FileTreeBuild
  import opened FileTree

  /** The path or one above it is selected. */
  ghost predicate Matches(path: string, selected: set<string>) {
    path in selected || exists p :: p in selected && AbovePath(p, path)
  }

  /** `path_matches_selection`: cut the path at its last slash, again and again. */
  method PathMatchesSelection(path: string, selected: set<string>) returns (matches: bool)
    ensures matches <==> Matches(path, selected)
  {
    if path in selected {
      return true;
    }
    var current := path;
    while RSplitOnce(current).Some?
      invariant |current| <= |path| && current == path[..|current|]
      invariant forall p :: p in selected && AbovePath(p, path) ==> |p| < |current|
      decreases |current|
    {
      RSplitOnceNone(current);
      var (before, after) := RSplitOnce(current).value;
      assert before == path[..|before|] && path[|before|] == '/';
      if before in selected {
        return true;
      }
      forall p | p in selected && AbovePath(p, path)
        ensures |p| < |before|
      {
        LastSlash(current, before, after, |p|);
        assert |p| == |before| ==> p == before;
      }
      current := before;
    }
    RSplitOnceNone(current);
    assert forall p :: p in selected && AbovePath(p, path) ==> current[|p|] == '/';
    return false;
  }

  lemma LastSlash(s: string, before: string, after: string, i: nat)
    requires s == before + "/" + after && SlashFree(after) && i < |s| && s[i] == '/'
    ensures i <= |before|
  {
  }

  // ---------- paths and positions ----------

  /** Whatever a node lies under has its path above the node's. */
  lemma {:induction false} UnderIsAbovePath(arena: seq<Node>, d: nat, e: nat)
    requires Labelled(arena) && d < |arena| && e < |arena| && Under(LinksOf(arena), d, e) && d != e
    ensures AbovePath(arena[e].fullPath, arena[d].fullPath)
  {
    assert LabelledAt(arena, d);
    var p := arena[d].parent.value;
    assert LinksOf(arena).parent[d] == Some(p);
    if p != e {
      UnderIsAbovePath(arena, p, e);
    }
  }

  /** Each path above a node's is the path of a node it lies under. */
  lemma {:induction false} NodeOfPathAbove(arena: seq<Node>, d: nat, i: nat) returns (a: nat)
    requires Labelled(arena) && Mirrored(LinksOf(arena)) && d < |arena|
    requires i < |arena[d].fullPath| && arena[d].fullPath[i] == '/'
    ensures a < |arena| && Under(LinksOf(arena), d, a) && arena[a].fullPath == arena[d].fullPath[..i]
    decreases d
  {
    var g := LinksOf(arena);
    assert LabelledAt(arena, d);
    assert g.parent[d] == arena[d].parent;
    var p := arena[d].parent.value;
    LastSlash(arena[d].fullPath, arena[p].fullPath, arena[d].name, i);
    if i == |arena[p].fullPath| {
      a := p;
    } else {
      a := NodeOfPathAbove(arena, p, i);
      assert arena[p].fullPath[..i] == arena[d].fullPath[..i];
    }
  }

  ghost predicate DistinctPaths(arena: seq<Node>) {
    forall d, e :: 0 <= d < e < |arena| ==> arena[d].fullPath != arena[e].fullPath
  }

  /** The paths handed on for a settled tree. */
  ghost function Selected(arena: seq<Node>, roots: seq<nat>, cs: seq<CheckState>): set<string>
    requires Forest(LinksOf(arena), roots) && |cs| == |arena|
  {
    var paths := PathsOf(arena, Cover(LinksOf(arena), cs, roots));
    set p | p in paths
  }

  lemma SelectedHas(arena: seq<Node>, roots: seq<nat>, cs: seq<CheckState>, path: string)
    requires Forest(LinksOf(arena), roots) && |cs| == |arena| && Settled(LinksOf(arena), cs)
    ensures path in Selected(arena, roots, cs) <==>
      exists e: nat :: e < |arena| && TopChecked(LinksOf(arena), cs, e) && arena[e].fullPath == path
  {
    var g := LinksOf(arena);
    var cover := Cover(g, cs, roots);
    var paths := PathsOf(arena, cover);
    CoverIsTopChecked(g, cs, roots);
    if path in paths {
      var k :| 0 <= k < |paths| && paths[k] == path;
      assert cover[k] in cover;
    }
    forall e: nat | e < |arena| && TopChecked(g, cs, e) && arena[e].fullPath == path
      ensures path in paths
    {
      var k :| 0 <= k < |cover| && cover[k] == e;
      assert paths[k] == path;
    }
  }

  /** A checked node is always restored. */
  lemma CheckedIsMatched(arena: seq<Node>, roots: seq<nat>, cs: seq<CheckState>, d: nat)
    requires Forest(LinksOf(arena), roots) && |cs| == |arena| && Settled(LinksOf(arena), cs) && Labelled(arena)
    requires d < |arena| && cs[d] == Checked
    ensures Matches(arena[d].fullPath, Selected(arena, roots, cs))
  {
    var e := TopCheckedAbove(LinksOf(arena), cs, d);
    SelectedHas(arena, roots, cs, arena[e].fullPath);
    if d != e {
      UnderIsAbovePath(arena, d, e);
    }
  }

  /** With one path for each node, paths tell positions. */
  lemma UnderItsPath(arena: seq<Node>, d: nat, e: nat)
    requires Labelled(arena) && Mirrored(LinksOf(arena)) && DistinctPaths(arena) && d < |arena| && e < |arena|
    requires arena[e].fullPath == arena[d].fullPath || AbovePath(arena[e].fullPath, arena[d].fullPath)
    ensures Under(LinksOf(arena), d, e)
  {
    var a := d;
    if arena[e].fullPath != arena[d].fullPath {
      a := NodeOfPathAbove(arena, d, |arena[e].fullPath|);
    }
    OneNodePerPath(arena, a, e);
  }

  lemma OneNodePerPath(arena: seq<Node>, a: nat, e: nat)
    requires DistinctPaths(arena) && a < |arena| && e < |arena| && arena[a].fullPath == arena[e].fullPath
    ensures a == e
  {
  }

  /** With one path for each node, nothing else is. */
  lemma MatchedIsChecked(arena: seq<Node>, roots: seq<nat>, cs: seq<CheckState>, d: nat)
    requires Forest(LinksOf(arena), roots) && |cs| == |arena| && Settled(LinksOf(arena), cs) && Labelled(arena)
    requires DistinctPaths(arena) && d < |arena| && Matches(arena[d].fullPath, Selected(arena, roots, cs))
    ensures cs[d] == Checked
  {
    var g, path, selected := LinksOf(arena), arena[d].fullPath, Selected(arena, roots, cs);
    var p :| p in selected && (p == path || AbovePath(p, path));
    SelectedHas(arena, roots, cs, p);
    var e: nat :| e < |arena| && TopChecked(g, cs, e) && arena[e].fullPath == p;
    UnderItsPath(arena, d, e);
    SettledIsUniformBelow(g, cs, d, e);
  }

  // ---------- when the selection is exact ----------

  /** After `clicks`, node `d` is restored exactly if it is checked. */
  ghost predicate SelectsExactly(arena: seq<Node>, roots: seq<nat>, clicks: seq<Click>, d: nat)
    requires Forest(LinksOf(arena), roots) && d < |arena|
  {
    var cs := After(LinksOf(arena), clicks);
    Matches(arena[d].fullPath, Selected(arena, roots, cs)) <==> cs[d] == Checked
  }

  /** Two nodes with one path hang under the same node. */
  lemma SamePathSameParent(arena: seq<Node>, d: nat, e: nat)
    requires Labelled(arena) && DistinctDirs(arena) && d < |arena| && e < |arena|
    requires arena[d].fullPath == arena[e].fullPath
    ensures arena[d].parent == arena[e].parent
  {
    assert LabelledAt(arena, d) && LabelledAt(arena, e);
    if arena[d].parent.Some? {
      RSplitOnceAt(arena[arena[d].parent.value].fullPath, arena[d].name);
    }
    if arena[e].parent.Some? {
      RSplitOnceAt(arena[arena[e].parent.value].fullPath, arena[e].name);
    }
    RSplitOnceNone(arena[d].fullPath);
  }

  /** Some childless node at or below `d` is not the sibling `e`. */
  lemma LeafBesides(g: Links, d: nat, e: nat) returns (l: nat)
    requires Mirrored(g) && d < |g.parent| && e < |g.parent| && d != e && g.parent[d] == g.parent[e] && g.kids[e] == []
    ensures l < |g.parent| && g.kids[l] == [] && Under(g, l, d) && !Under(g, l, e)
  {
    l := SomeLeafBelow(g, d);
    if Under(g, l, e) {
      if l != e {
        var k := UnderViaKid(g, l, e);
      }
      if g.parent[e].Some? {
        UnderIsLater(g, g.parent[e].value, d);
      }
    }
  }

  /** Checking a file restores whatever shares its path. */
  lemma SharedPathMisleads(arena: seq<Node>, roots: seq<nat>, d: nat, e: nat)
    requires Forest(LinksOf(arena), roots) && Labelled(arena) && DistinctDirs(arena)
    requires d < |arena| && e < |arena| && d != e && arena[d].fullPath == arena[e].fullPath && !arena[e].isDir
    ensures !SelectsExactly(arena, roots, [Toggle(e)], d)
  {
    var g := LinksOf(arena);
    LabelledParentsAreDirs(arena);
    SamePathSameParent(arena, d, e);
    assert g.kids[e] == [];
    var l := LeafBesides(g, d, e);
    var cs := After(g, [Toggle(e)]);
    AfterOne(g, e);
    AlwaysSettled(g, [Toggle(e)]);
    ToggleEffect(g, Uniform(|arena|, Unchecked), e, e);
    ToggleEffect(g, Uniform(|arena|, Unchecked), e, l);
    CheckedIsMatched(arena, roots, cs, e);
    if cs[d] == Checked {
      SettledIsUniformBelow(g, cs, l, d);
    }
  }

  /** Every listed path is either one file's or a directory's. */
  predicate OnePathEach(items: seq<Item>) {
    var files := FilesIn(items);
    && (forall i, j :: 0 <= i < j < |files| ==> files[i] != files[j])
    && (forall i :: 0 <= i < |files| ==> files[i] !in DirPaths(items))
  }

  lemma DistinctPathsIff(items: seq<Item>, arena: seq<Node>, roots: seq<nat>)
    requires BuiltFrom(items, arena, roots)
    ensures DistinctPaths(arena) <==> OnePathEach(items)
  {
    var files := FilesIn(items);
    var dirs: nat :| Listed(arena, dirs, files);
    if DistinctPaths(arena) {
      forall i, j | 0 <= i < j < |files|
        ensures files[i] != files[j]
      {
        assert arena[dirs + i].fullPath == files[i] && arena[dirs + j].fullPath == files[j];
      }
      forall i | 0 <= i < |files|
        ensures files[i] !in DirPaths(items)
      {
        assert arena[dirs + i].fullPath == files[i];
      }
    }
    if OnePathEach(items) {
      forall d, e | 0 <= d < e < |arena|
        ensures arena[d].fullPath != arena[e].fullPath
      {
        if e >= dirs {
          assert arena[e].fullPath == files[e - dirs];
          if d >= dirs {
            assert arena[d].fullPath == files[d - dirs];
          } else {
            assert arena[d].fullPath in DirPaths(items);
          }
        }
      }
    }
  }

  lemma FilesComeLast(items: seq<Item>, arena: seq<Node>, roots: seq<nat>, d: nat, e: nat)
    requires BuiltFrom(items, arena, roots) && d < e < |arena| && arena[d].fullPath == arena[e].fullPath
    ensures !arena[e].isDir
  {
    var dirs: nat :| Listed(arena, dirs, FilesIn(items));
  }

  lemma ExactWhenDistinct(arena: seq<Node>, roots: seq<nat>, clicks: seq<Click>, d: nat)
    requires Forest(LinksOf(arena), roots) && Labelled(arena) && DistinctPaths(arena) && d < |arena|
    ensures SelectsExactly(arena, roots, clicks, d)
  {
    var cs := After(LinksOf(arena), clicks);
    AlwaysSettled(LinksOf(arena), clicks);
    if cs[d] == Checked {
      CheckedIsMatched(arena, roots, cs, d);
    } else if Matches(arena[d].fullPath, Selected(arena, roots, cs)) {
      MatchedIsChecked(arena, roots, cs, d);
    }
  }

  /** A selection restores exactly what is checked, after any clicks, if and only if no listed file shares its
      path with another one or with a directory. */
  lemma SelectionIsExactIff(items: seq<Item>, arena: seq<Node>, roots: seq<nat>)
    requires BuiltFrom(items, arena, roots)
    ensures OnePathEach(items) <==>
      forall clicks: seq<Click>, d: nat :: d < |arena| ==> SelectsExactly(arena, roots, clicks, d)
  {
    DistinctPathsIff(items, arena, roots);
    if DistinctPaths(arena) {
      forall clicks: seq<Click>, d: nat | d < |arena|
        ensures SelectsExactly(arena, roots, clicks, d)
      {
        ExactWhenDistinct(arena, roots, clicks, d);
      }
    } else {
      var d, e :| 0 <= d < e < |arena| && arena[d].fullPath == arena[e].fullPath;
      FilesComeLast(items, arena, roots, d, e);
      SharedPathMisleads(arena, roots, d, e);
    }
  }

  // ---------- inputs ----------

  /** A file and a directory with one path: some click restores what is not checked. */
  lemma FileAndDirectoryClash(arena: seq<Node>, roots: seq<nat>)
    requires BuiltFrom([Item("x", RegularFile), Item("x", Directory)], arena, roots)
    ensures exists clicks: seq<Click>, d: nat :: d < |arena| && !SelectsExactly(arena, roots, clicks, d)
  {
    var items := [Item("x", RegularFile), Item("x", Directory)];
    assert items[..1] == [Item("x", RegularFile)];
    assert items[..1][..0] == [];
    assert FilesIn(items[..1]) == ["x"] by {
      assert FilesIn([]) == [];
    }
    assert FilesIn(items)[0] == "x";
    SplitOfFree("x");
    DirPathsHas(items, 1, 1);
    assert ["x"][..1] == ["x"];
    assert !OnePathEach(items);
    SelectionIsExactIff(items, arena, roots);
  }
}
