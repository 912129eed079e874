/** Building the restore tree from the flat list of snapshot items. */
module FileTreeBuild {
  import opened Wrappers
  import opened Sequences
  import opened Paths
  import opened TreeLinks
  import opened TreeChecks

  datatype ItemType = RegularFile | Directory | Symlink

  datatype Item = Item(path: string, entryType: ItemType)

  datatype Node = Node(
    name: string, fullPath: string, isDir: bool, depth: nat,
    parent: Option<nat>, children: seq<nat>, expanded: bool, check: CheckState)

  function LinksOf(arena: seq<Node>): Links {
    Links(Map(arena, (n: Node) => n.parent), Map(arena, (n: Node) => n.children))
  }

  // ---------- what a built tree satisfies ----------

  function Slashes(s: string): nat {
    if s == "" then 0 else Slashes(s[..|s| - 1]) + if s[|s| - 1] == '/' then 1 else 0
  }

  /** `node` is named and placed by its path, under a directory of `arena` or at the top. */
  ghost predicate Fits(arena: seq<Node>, node: Node) {
    && SlashFree(node.name) && node.depth == Slashes(node.fullPath)
    && match node.parent
       case None => node.fullPath == node.name
       case Some(p) =>
         && p < |arena| && arena[p].isDir && node.depth == arena[p].depth + 1
         && node.fullPath == arena[p].fullPath + "/" + node.name
  }

  ghost predicate LabelledAt(arena: seq<Node>, i: nat)
    requires i < |arena|
  {
    Fits(arena, arena[i])
  }

  ghost predicate Labelled(arena: seq<Node>) {
    forall i: nat :: i < |arena| ==> LabelledAt(arena, i)
  }

  ghost predicate FreshNodes(arena: seq<Node>) {
    forall i :: 0 <= i < |arena| ==> arena[i].check == Unchecked && !arena[i].expanded
  }

  /** `dirMap` finds every directory node by its path, so no two directories share one. */
  ghost predicate Indexed(arena: seq<Node>, dirMap: map<string, nat>) {
    && (forall p :: p in dirMap ==>
          dirMap[p] < |arena| && arena[dirMap[p]].isDir && arena[dirMap[p]].fullPath == p)
    && (forall i :: 0 <= i < |arena| && arena[i].isDir ==>
          arena[i].fullPath in dirMap && dirMap[arena[i].fullPath] == i)
  }

  /** The tree under construction. */
  datatype Draft = Draft(arena: seq<Node>, roots: seq<nat>, dirMap: map<string, nat>)

  ghost predicate Built(d: Draft) {
    Forest(LinksOf(d.arena), d.roots) && Labelled(d.arena) && FreshNodes(d.arena) && Indexed(d.arena, d.dirMap)
  }

  // ---------- adding one node ----------

  /** Append `node` and enter it in its parent's child list. */
  function Attach(arena: seq<Node>, node: Node): seq<Node>
    requires node.parent.Some? ==> node.parent.value < |arena|
  {
    (match node.parent
     case None => arena
     case Some(p) => arena[p := arena[p].(children := arena[p].children + [|arena|])])
    + [node]
  }

  function AttachRoot(arena: seq<Node>, roots: seq<nat>, node: Node): seq<nat> {
    if node.parent.None? then roots + [|arena|] else roots
  }

  /** `Attach` on the links alone. */
  function Graft(g: Links, parent: Option<nat>): Links
    requires parent.Some? ==> parent.value < |g.kids|
  {
    Links(g.parent + [parent],
          (match parent
           case None => g.kids
           case Some(p) => g.kids[p := g.kids[p] + [|g.parent|]])
          + [[]])
  }

  lemma GraftKid(g: Links, parent: Option<nat>, p: nat, k: nat)
    requires Mirrored(g) && (parent.Some? ==> parent.value < |g.kids|)
    requires p < |Graft(g, parent).kids| && k < |Graft(g, parent).kids[p]|
    ensures var g' := Graft(g, parent);
      p < g'.kids[p][k] < |g'.parent| && g'.parent[g'.kids[p][k]] == Some(p)
  {
    if p < |g.kids| && k < |g.kids[p]| {
      assert Graft(g, parent).kids[p][k] == g.kids[p][k];
    }
  }

  lemma GraftParent(g: Links, parent: Option<nat>, c: nat)
    requires Mirrored(g) && (parent.Some? ==> parent.value < |g.kids|)
    requires c < |Graft(g, parent).parent| && Graft(g, parent).parent[c].Some?
    ensures var g' := Graft(g, parent);
      g'.parent[c].value < c && c in g'.kids[g'.parent[c].value]
  {
    var g', n := Graft(g, parent), |g.parent|;
    var q := g'.parent[c].value;
    if c < n {
      assert c in g.kids[q];
      var k :| 0 <= k < |g.kids[q]| && g.kids[q][k] == c;
      assert g'.kids[q][k] == c;
    } else {
      assert g'.kids[q][|g.kids[q]|] == n;
    }
  }

  lemma GraftDistinct(g: Links, parent: Option<nat>, p: nat)
    requires Mirrored(g) && (parent.Some? ==> parent.value < |g.kids|)
    requires p < |Graft(g, parent).kids|
    ensures Distinct(Graft(g, parent).kids[p])
  {
  }

  lemma GraftMirrored(g: Links, parent: Option<nat>)
    requires Mirrored(g) && (parent.Some? ==> parent.value < |g.kids|)
    ensures Mirrored(Graft(g, parent))
  {
    var g' := Graft(g, parent);
    forall p: nat, k: nat | p < |g'.kids| && k < |g'.kids[p]|
      ensures p < g'.kids[p][k] < |g'.parent| && g'.parent[g'.kids[p][k]] == Some(p)
    {
      GraftKid(g, parent, p, k);
    }
    forall c: nat | c < |g'.parent| && g'.parent[c].Some?
      ensures g'.parent[c].value < c && c in g'.kids[g'.parent[c].value]
    {
      GraftParent(g, parent, c);
    }
    forall p: nat | p < |g'.kids|
      ensures Distinct(g'.kids[p])
    {
      GraftDistinct(g, parent, p);
    }
  }

  lemma GraftRoots(parents: seq<Option<nat>>, roots: seq<nat>, parent: Option<nat>)
    requires RootsOf(parents, roots)
    ensures RootsOf(parents + [parent], if parent.None? then roots + [|parents|] else roots)
  {
    var parents', roots' := parents + [parent], if parent.None? then roots + [|parents|] else roots;
    forall c: nat | c < |parents'| && parents'[c] == None
      ensures c in roots'
    {
      if c < |parents| {
        assert c in roots;
      }
    }
  }

  lemma GraftForest(g: Links, roots: seq<nat>, parent: Option<nat>)
    requires Forest(g, roots) && (parent.Some? ==> parent.value < |g.kids|)
    ensures Forest(Graft(g, parent), if parent.None? then roots + [|g.parent|] else roots)
  {
    GraftMirrored(g, parent);
    GraftRoots(g.parent, roots, parent);
  }

  lemma AttachForest(arena: seq<Node>, roots: seq<nat>, node: Node)
    requires Forest(LinksOf(arena), roots) && node.children == []
    requires node.parent.Some? ==> node.parent.value < |arena|
    ensures Forest(LinksOf(Attach(arena, node)), AttachRoot(arena, roots, node))
  {
    AttachIsGraft(arena, node);
    GraftForest(LinksOf(arena), roots, node.parent);
  }

  lemma AttachIsGraft(arena: seq<Node>, node: Node)
    requires node.children == [] && (node.parent.Some? ==> node.parent.value < |arena|)
    ensures LinksOf(Attach(arena, node)) == Graft(LinksOf(arena), node.parent)
  {
    var g, g' := LinksOf(arena), LinksOf(Attach(arena, node));
    assert g'.parent == g.parent + [node.parent];
    assert g'.kids == Graft(g, node.parent).kids;
  }

  lemma AttachFresh(arena: seq<Node>, node: Node)
    requires FreshNodes(arena) && node.check == Unchecked && !node.expanded
    requires node.parent.Some? ==> node.parent.value < |arena|
    ensures FreshNodes(Attach(arena, node))
  {
  }

  lemma FitsAfterAttach(arena: seq<Node>, node: Node, other: Node)
    requires (node.parent.Some? ==> node.parent.value < |arena|) && Fits(arena, other)
    ensures Fits(Attach(arena, node), other)
  {
    var arena' := Attach(arena, node);
    if other.parent.Some? {
      var p := other.parent.value;
      assert arena'[p] == arena[p].(children := arena'[p].children);
    }
  }

  lemma AttachLabels(arena: seq<Node>, node: Node)
    requires Labelled(arena) && Fits(arena, node)
    ensures Labelled(Attach(arena, node))
  {
    var arena' := Attach(arena, node);
    forall i: nat | i < |arena'|
      ensures LabelledAt(arena', i)
    {
      if i < |arena| {
        assert LabelledAt(arena, i);
        FitsAfterAttach(arena, node, arena[i]);
        assert arena'[i] == arena[i].(children := arena'[i].children);
      } else {
        FitsAfterAttach(arena, node, node);
      }
    }
  }

  lemma AttachIndexed(arena: seq<Node>, node: Node, dirMap: map<string, nat>)
    requires Indexed(arena, dirMap) && (node.parent.Some? ==> node.parent.value < |arena|)
    requires node.isDir ==> node.fullPath !in dirMap
    ensures Indexed(Attach(arena, node), if node.isDir then dirMap[node.fullPath := |arena|] else dirMap)
  {
  }

  /** Attach `node`, and enter a directory in the map. */
  function Add(d: Draft, node: Node): Draft
    requires node.parent.Some? ==> node.parent.value < |d.arena|
  {
    Draft(Attach(d.arena, node), AttachRoot(d.arena, d.roots, node),
          if node.isDir then d.dirMap[node.fullPath := |d.arena|] else d.dirMap)
  }

  lemma AddKeepsBuilt(d: Draft, node: Node)
    requires Built(d) && Fits(d.arena, node)
    requires node.children == [] && node.check == Unchecked && !node.expanded
    requires node.isDir ==> node.fullPath !in d.dirMap
    ensures Built(Add(d, node))
  {
    AttachForest(d.arena, d.roots, node);
    AttachLabels(d.arena, node);
    AttachFresh(d.arena, node);
    AttachIndexed(d.arena, node, d.dirMap);
  }

  // ---------- paths of prefixes ----------

  lemma {:induction false} SlashesConcat(a: string, b: string)
    ensures Slashes(a + b) == Slashes(a) + Slashes(b)
  {
    if b == "" {
      assert a + b == a;
    } else {
      SlashesConcat(a, b[..|b| - 1]);
      assert (a + b)[..|a + b| - 1] == a + b[..|b| - 1];
    }
  }

  lemma {:induction false} SlashesOfFree(s: string)
    requires SlashFree(s)
    ensures Slashes(s) == 0
  {
    if s != "" {
      SlashesOfFree(s[..|s| - 1]);
    }
  }

  lemma SlashesOfChild(dir: string, name: string)
    requires SlashFree(name)
    ensures Slashes(dir + "/" + name) == Slashes(dir) + 1
  {
    SlashesConcat(dir + "/", name);
    SlashesOfFree(name);
    assert (dir + "/")[..|dir|] == dir;
  }

  lemma JoinSnoc(parts: seq<string>, i: nat)
    requires i < |parts|
    ensures Join(parts[..i + 1]) == if i == 0 then parts[0] else Join(parts[..i]) + "/" + parts[i]
  {
    assert parts[..i + 1][..i] == parts[..i];
  }

  lemma {:induction false} PrefixDepth(parts: seq<string>, i: nat)
    requires i < |parts| && forall k :: 0 <= k < |parts| ==> SlashFree(parts[k])
    ensures Slashes(Join(parts[..i + 1])) == i
  {
    JoinSnoc(parts, i);
    if i > 0 {
      PrefixDepth(parts, i - 1);
      SlashesOfChild(Join(parts[..i]), parts[i]);
    } else {
      SlashesOfFree(parts[0]);
    }
  }

  /** One more component: the path, its parent part, and its depth. */
  lemma PrefixStep(parts: seq<string>, i: nat)
    requires i < |parts| && forall k :: 0 <= k < |parts| ==> SlashFree(parts[k])
    ensures Join(parts[..i + 1]) == if i == 0 then parts[0] else Join(parts[..i]) + "/" + parts[i]
    ensures i > 0 ==> RSplitOnce(Join(parts[..i + 1])) == Some((Join(parts[..i]), parts[i]))
    ensures Slashes(Join(parts[..i + 1])) == i
  {
    JoinSnoc(parts, i);
    PrefixDepth(parts, i);
    if i > 0 {
      RSplitOnceAt(Join(parts[..i]), parts[i]);
    }
  }

  /** A node fits under the directory whose path is the part before its last slash. */
  lemma ChildFits(arena: seq<Node>, p: nat, node: Node)
    requires Labelled(arena) && p < |arena| && arena[p].isDir && node.parent == Some(p) && SlashFree(node.name)
    requires node.fullPath == arena[p].fullPath + "/" + node.name && node.depth == Slashes(node.fullPath)
    ensures Fits(arena, node)
  {
    assert LabelledAt(arena, p);
    SlashesOfChild(arena[p].fullPath, node.name);
  }

  /** A node for the first `i + 1` components fits under the directory of the first `i`. */
  lemma ComponentFits(parts: seq<string>, i: nat, arena: seq<Node>, dirMap: map<string, nat>, node: Node)
    requires i < |parts| && forall k :: 0 <= k < |parts| ==> SlashFree(parts[k])
    requires Labelled(arena) && Indexed(arena, dirMap)
    requires node.name == parts[i] && node.fullPath == Join(parts[..i + 1]) && node.depth == i
    requires if i == 0 then node.parent == None
             else Join(parts[..i]) in dirMap && node.parent == Some(dirMap[Join(parts[..i])])
    ensures Fits(arena, node)
  {
    JoinSnoc(parts, i);
    PrefixDepth(parts, i);
    if i > 0 {
      ChildFits(arena, node.parent.value, node);
    }
  }

  function PrefixPaths(parts: seq<string>, n: nat): set<string>
    requires n <= |parts|
  {
    if n == 0 then {} else PrefixPaths(parts, n - 1) + {Join(parts[..n])}
  }

  /** How many leading components of an item name directories. */
  function DirDepth(item: Item): nat {
    var n := |Split(item.path)|;
    if item.entryType == Directory then n else n - 1
  }

  /** Every directory a list of items mentions: listed as one, or above something listed. */
  function DirPaths(items: seq<Item>): set<string> {
    if items == [] then {}
    else
      var last := items[|items| - 1];
      DirPaths(items[..|items| - 1]) + PrefixPaths(Split(last.path), DirDepth(last))
  }

  lemma {:induction false} PrefixPathsHas(parts: seq<string>, n: nat, j: nat)
    requires 0 < j <= n <= |parts|
    ensures Join(parts[..j]) in PrefixPaths(parts, n)
  {
    if j < n {
      PrefixPathsHas(parts, n - 1, j);
    }
  }

  lemma {:induction false} DirPathsHas(items: seq<Item>, m: nat, j: nat)
    requires m < |items| && 0 < j <= DirDepth(items[m])
    ensures Join(Split(items[m].path)[..j]) in DirPaths(items)
  {
    var last := |items| - 1;
    if m == last {
      PrefixPathsHas(Split(items[m].path), DirDepth(items[m]), j);
    } else {
      assert items[..last][m] == items[m];
      DirPathsHas(items[..last], m, j);
    }
  }

  // ---------- first pass: directories ----------

  lemma UnionStep<T>(a: set<T>, b: set<T>, x: T)
    ensures (a + b) + {x} == a + (b + {x})
  {
  }

  ghost predicate AllDirs(arena: seq<Node>) {
    forall i :: 0 <= i < |arena| ==> arena[i].isDir
  }

  /** The node of a directory path, if the arena has it. */
  function Find(d: Draft, path: string): Option<nat> {
    if path in d.dirMap && d.dirMap[path] < |d.arena| then Some(d.dirMap[path]) else None
  }

  /** The node of the path before the last slash; only a path of one component has none. */
  function ParentIndex(d: Draft, i: nat, currentPath: string): Option<nat> {
    if i == 0 then None
    else
      match RSplitOnce(currentPath)
      case None => None
      case Some((parentPath, _)) => Find(d, parentPath)
  }

  /** The node of the directory named by the first `i + 1` components. */
  function DirNode(d: Draft, name: string, i: nat, currentPath: string): Node {
    Node(name, currentPath, true, i, ParentIndex(d, i, currentPath), [], false, Unchecked)
  }

  /** Create the directory unless it exists. */
  function AddDir(d: Draft, name: string, i: nat, currentPath: string): Draft {
    if currentPath in d.dirMap then d else Add(d, DirNode(d, name, i, currentPath))
  }

  function AddDirs(d: Draft, parts: seq<string>, n: nat): Draft
    requires n <= |parts|
  {
    if n == 0 then d else AddDir(AddDirs(d, parts, n - 1), parts[n - 1], n - 1, Join(parts[..n]))
  }

  function AddAllDirs(items: seq<Item>): Draft {
    if items == [] then Draft([], [], map[])
    else
      var last := items[|items| - 1];
      AddDirs(AddAllDirs(items[..|items| - 1]), Split(last.path), DirDepth(last))
  }

  lemma DirNodeFits(d: Draft, parts: seq<string>, i: nat)
    requires i < |parts| && forall k :: 0 <= k < |parts| ==> SlashFree(parts[k])
    requires Labelled(d.arena) && Indexed(d.arena, d.dirMap)
    requires i > 0 ==> Join(parts[..i]) in d.dirMap
    ensures Fits(d.arena, DirNode(d, parts[i], i, Join(parts[..i + 1])))
  {
    PrefixStep(parts, i);
    ComponentFits(parts, i, d.arena, d.dirMap, DirNode(d, parts[i], i, Join(parts[..i + 1])));
  }

  lemma AddKeepsDirs(d: Draft, node: Node)
    requires AllDirs(d.arena) && node.isDir && (node.parent.Some? ==> node.parent.value < |d.arena|)
    ensures AllDirs(Add(d, node).arena) && Add(d, node).dirMap.Keys == d.dirMap.Keys + {node.fullPath}
  {
  }

  lemma AddDirBuilt(d: Draft, name: string, i: nat, currentPath: string)
    requires Built(d) && AllDirs(d.arena) && Fits(d.arena, DirNode(d, name, i, currentPath))
    ensures var d' := AddDir(d, name, i, currentPath);
      Built(d') && AllDirs(d'.arena) && d'.dirMap.Keys == d.dirMap.Keys + {currentPath}
  {
    if currentPath !in d.dirMap {
      AddKeepsBuilt(d, DirNode(d, name, i, currentPath));
      AddKeepsDirs(d, DirNode(d, name, i, currentPath));
    }
  }

  /** A tree of directories only, whose paths are `keys`. */
  ghost predicate DirTree(d: Draft, keys: set<string>) {
    Built(d) && AllDirs(d.arena) && d.dirMap.Keys == keys
  }

  lemma AddNextDir(prev: Draft, parts: seq<string>, i: nat, keys: set<string>)
    requires i < |parts| && forall k :: 0 <= k < |parts| ==> SlashFree(parts[k])
    requires DirTree(prev, keys + PrefixPaths(parts, i))
    ensures DirTree(AddDir(prev, parts[i], i, Join(parts[..i + 1])), keys + PrefixPaths(parts, i + 1))
  {
    if i > 0 {
      PrefixPathsHas(parts, i, i);
    }
    DirNodeFits(prev, parts, i);
    AddDirBuilt(prev, parts[i], i, Join(parts[..i + 1]));
    UnionStep(keys, PrefixPaths(parts, i), Join(parts[..i + 1]));
  }

  lemma AddNoDirs(d: Draft, parts: seq<string>, keys: set<string>)
    requires DirTree(d, keys)
    ensures DirTree(AddDirs(d, parts, 0), keys + PrefixPaths(parts, 0))
  {
    assert keys + {} == keys;
  }

  lemma AddDirsStep(d: Draft, parts: seq<string>, i: nat, n: nat, keys: set<string>)
    requires n == i + 1 <= |parts| && forall k :: 0 <= k < |parts| ==> SlashFree(parts[k])
    requires DirTree(AddDirs(d, parts, i), keys + PrefixPaths(parts, i))
    ensures DirTree(AddDirs(d, parts, n), keys + PrefixPaths(parts, n))
  {
    AddNextDir(AddDirs(d, parts, i), parts, i, keys);
  }

  lemma {:induction false} AddDirsBuilt(d: Draft, parts: seq<string>, n: nat, keys: set<string>)
    requires DirTree(d, keys) && n <= |parts| && forall k :: 0 <= k < |parts| ==> SlashFree(parts[k])
    ensures DirTree(AddDirs(d, parts, n), keys + PrefixPaths(parts, n))
  {
    if n == 0 {
      AddNoDirs(d, parts, keys);
    } else {
      var i := n - 1;
      AddDirsBuilt(d, parts, i, keys);
      AddDirsStep(d, parts, i, n, keys);
    }
  }

  lemma {:induction false} AddAllDirsBuilt(items: seq<Item>)
    ensures DirTree(AddAllDirs(items), DirPaths(items))
  {
    if items != [] {
      var init, last := items[..|items| - 1], items[|items| - 1];
      AddAllDirsBuilt(init);
      AddDirsBuilt(AddAllDirs(init), Split(last.path), DirDepth(last), DirPaths(init));
    }
  }

  /** The path of one more component. */
  method Extend(currentPath: string, parts: seq<string>, i: nat) returns (path: string)
    requires i < |parts| && currentPath == Join(parts[..i])
    requires forall k :: 0 <= k < |parts| ==> SlashFree(parts[k])
    ensures path == Join(parts[..i + 1])
  {
    PrefixStep(parts, i);
    path := currentPath;
    if i > 0 {
      path := path + "/";
    }
    path := path + parts[i];
  }

  /** The inner loop of the first pass: one item's leading components. */
  method AddDirectories(item: Item, draft0: Draft) returns (draft: Draft)
    ensures draft == AddDirs(draft0, Split(item.path), DirDepth(item))
  {
    draft := draft0;
    var parts := Split(item.path);
    var currentPath := "";
    for i := 0 to |parts|
      invariant currentPath == Join(parts[..i])
      invariant draft == AddDirs(draft0, parts, if i <= DirDepth(item) then i else DirDepth(item))
    {
      currentPath := Extend(currentPath, parts, i);
      var isLast := i == |parts| - 1;
      if isLast && item.entryType != Directory {
        continue;
      }
      if currentPath in draft.dirMap {
        continue;
      }
      draft := Add(draft, DirNode(draft, parts[i], i, currentPath));
    }
  }

  /** The first pass: every directory the items mention. */
  method AddAllDirectories(items: seq<Item>) returns (draft: Draft)
    ensures draft == AddAllDirs(items)
  {
    draft := Draft([], [], map[]);
    for m := 0 to |items|
      invariant draft == AddAllDirs(items[..m])
    {
      assert items[..m + 1][..m] == items[..m];
      draft := AddDirectories(items[m], draft);
    }
    assert items[..|items|] == items;
  }

  // ---------- second pass: files and links ----------

  function FilesIn(items: seq<Item>): seq<string> {
    if items == [] then []
    else
      var last := items[|items| - 1];
      FilesIn(items[..|items| - 1]) + if last.entryType == Directory then [] else [last.path]
  }

  /** After the first `dirs` nodes, all directories, come the files, one per listed path. */
  ghost predicate Listed(arena: seq<Node>, dirs: nat, files: seq<string>) {
    && |arena| == dirs + |files|
    && (forall i :: 0 <= i < dirs ==> arena[i].isDir)
    && (forall i :: dirs <= i < |arena| ==> !arena[i].isDir && arena[i].fullPath == files[i - dirs])
  }

  lemma AttachListed(arena: seq<Node>, dirs: nat, files: seq<string>, node: Node)
    requires Listed(arena, dirs, files) && !node.isDir
    requires node.parent.Some? ==> node.parent.value < |arena|
    ensures Listed(Attach(arena, node), dirs, files + [node.fullPath])
  {
  }

  function FileNode(d: Draft, item: Item): Node {
    var parts := Split(item.path);
    var n := |parts| - 1;
    Node(parts[n], item.path, false, n, if n > 0 then Find(d, Join(parts[..n])) else None, [], false, Unchecked)
  }

  function AddFiles(d: Draft, items: seq<Item>): Draft {
    if items == [] then d
    else
      var prev, last := AddFiles(d, items[..|items| - 1]), items[|items| - 1];
      if last.entryType == Directory then prev else Add(prev, FileNode(prev, last))
  }

  lemma FileNodeFits(d: Draft, item: Item)
    requires Labelled(d.arena) && Indexed(d.arena, d.dirMap) && item.entryType != Directory
    requires DirDepth(item) > 0 ==> Join(Split(item.path)[..DirDepth(item)]) in d.dirMap
    ensures Fits(d.arena, FileNode(d, item))
  {
    var parts := Split(item.path);
    var n := |parts| - 1;
    JoinSplit(item.path);
    assert parts[..n + 1] == parts;
    ComponentFits(parts, n, d.arena, d.dirMap, FileNode(d, item));
  }

  lemma {:induction false} AddFilesBuilt(d: Draft, items: seq<Item>)
    requires Built(d) && AllDirs(d.arena) && DirPaths(items) <= d.dirMap.Keys
    ensures var d' := AddFiles(d, items);
      Built(d') && d'.dirMap == d.dirMap && Listed(d'.arena, |d.arena|, FilesIn(items))
  {
    if items != [] {
      var last := |items| - 1;
      AddFilesBuilt(d, items[..last]);
      if items[last].entryType != Directory {
        var prev := AddFiles(d, items[..last]);
        var node := FileNode(prev, items[last]);
        if DirDepth(items[last]) > 0 {
          DirPathsHas(items, last, DirDepth(items[last]));
        }
        FileNodeFits(prev, items[last]);
        AddKeepsBuilt(prev, node);
        AttachListed(prev.arena, |d.arena|, FilesIn(items[..last]), node);
      }
    }
  }

  /** The second pass: one node per file or link. */
  method AddAllFiles(items: seq<Item>, draft0: Draft) returns (draft: Draft)
    ensures draft == AddFiles(draft0, items)
  {
    draft := draft0;
    for m := 0 to |items|
      invariant draft == AddFiles(draft0, items[..m])
    {
      assert items[..m + 1][..m] == items[..m];
      if items[m].entryType == Directory {
        continue;
      }
      draft := Add(draft, FileNode(draft, items[m]));
    }
    assert items[..|items|] == items;
  }

  // ---------- sorting ----------

  /** Each child list and the roots are reordered; nothing else changes. */
  ghost predicate Reordered(arena: seq<Node>, roots: seq<nat>, arena': seq<Node>, roots': seq<nat>) {
    && |arena'| == |arena|
    && (forall i :: 0 <= i < |arena| ==>
          && arena'[i] == arena[i].(children := arena'[i].children)
          && multiset(arena'[i].children) == multiset(arena[i].children))
    && multiset(roots') == multiset(roots)
  }

  lemma ReorderedForest(arena: seq<Node>, roots: seq<nat>, arena': seq<Node>, roots': seq<nat>)
    requires Forest(LinksOf(arena), roots) && Reordered(arena, roots, arena', roots')
    ensures Forest(LinksOf(arena'), roots')
  {
    var g, g' := LinksOf(arena), LinksOf(arena');
    assert g'.parent == g.parent;
    PermutedDistinct(roots, roots');
    forall p: nat | p < |arena|
      ensures Distinct(g'.kids[p]) && forall c :: c in g'.kids[p] <==> c in g.kids[p]
    {
      PermutedDistinct(g.kids[p], g'.kids[p]);
    }
    forall p: nat, k: nat | p < |g'.kids| && k < |g'.kids[p]|
      ensures p < g'.kids[p][k] < |g'.parent| && g'.parent[g'.kids[p][k]] == Some(p)
    {
      assert g'.kids[p][k] in g.kids[p];
    }
    forall k | 0 <= k < |roots'|
      ensures roots'[k] < |g'.parent| && g'.parent[roots'[k]] == None
    {
      assert roots'[k] in roots;
    }
  }

  lemma ReorderedLabels(arena: seq<Node>, roots: seq<nat>, arena': seq<Node>, roots': seq<nat>)
    requires Labelled(arena) && Reordered(arena, roots, arena', roots')
    ensures Labelled(arena')
  {
    forall i: nat | i < |arena'|
      ensures LabelledAt(arena', i)
    {
      assert LabelledAt(arena, i);
      assert arena'[i] == arena[i].(children := arena'[i].children);
    }
  }

  /** Sort the children of each node and the roots by `rank`, the position a kind and a name have in the
      display order. */
  method SortAll(arena0: seq<Node>, roots0: seq<nat>, rank: (bool, string) -> int)
    returns (arena: seq<Node>, roots: seq<nat>)
    ensures Reordered(arena0, roots0, arena, roots)
    ensures forall i :: 0 <= i < |arena| ==> arena[i].children == SortBy(arena0[i].children, Position(arena0, rank))
    ensures roots == SortBy(roots0, Position(arena0, rank))
  {
    arena := arena0;
    var position := Position(arena0, rank);
    for i := 0 to |arena|
      invariant |arena| == |arena0|
      invariant forall j :: 0 <= j < i ==>
        arena[j] == arena0[j].(children := SortBy(arena0[j].children, position))
      invariant forall j :: i <= j < |arena| ==> arena[j] == arena0[j]
    {
      arena := arena[i := arena[i].(children := SortBy(arena[i].children, position))];
    }
    roots := SortBy(roots0, position);
    SortPermutes(roots0, position);
    forall i | 0 <= i < |arena|
      ensures multiset(arena[i].children) == multiset(arena0[i].children)
    {
      SortPermutes(arena0[i].children, position);
    }
  }

  function Position(arena: seq<Node>, rank: (bool, string) -> int): nat -> int {
    (c: nat) => if c < |arena| then rank(arena[c].isDir, arena[c].name) else 0
  }

  // ---------- the whole build ----------

  ghost predicate DistinctDirs(arena: seq<Node>) {
    forall i, j :: 0 <= i < j < |arena| && arena[i].isDir && arena[j].isDir ==> arena[i].fullPath != arena[j].fullPath
  }

  /** What `build_from_items` promises about its result. */
  ghost predicate BuiltFrom(items: seq<Item>, arena: seq<Node>, roots: seq<nat>) {
    && Forest(LinksOf(arena), roots) && Labelled(arena) && FreshNodes(arena)
    && (exists dirs: nat :: Listed(arena, dirs, FilesIn(items)))
    && DistinctDirs(arena)
    && (forall i :: 0 <= i < |arena| && arena[i].isDir ==> arena[i].fullPath in DirPaths(items))
    && (forall p :: p in DirPaths(items) ==> exists i :: 0 <= i < |arena| && arena[i].isDir && arena[i].fullPath == p)
  }

  /** In `ids`, no node comes before one of smaller rank. */
  ghost predicate RankedIn(arena: seq<Node>, ids: seq<nat>, rank: (bool, string) -> int) {
    forall j, k :: 0 <= j < k < |ids| && ids[j] < |arena| && ids[k] < |arena| ==>
      rank(arena[ids[j]].isDir, arena[ids[j]].name) <= rank(arena[ids[k]].isDir, arena[ids[k]].name)
  }

  /** Every child list and the roots stand in display order. */
  ghost predicate InOrder(arena: seq<Node>, roots: seq<nat>, rank: (bool, string) -> int) {
    (forall i :: 0 <= i < |arena| ==> RankedIn(arena, arena[i].children, rank)) && RankedIn(arena, roots, rank)
  }

  lemma SortedIsRanked(
    arena0: seq<Node>, arena: seq<Node>, ids0: seq<nat>, rank: (bool, string) -> int)
    requires |arena| == |arena0|
    requires forall i :: 0 <= i < |arena| ==> arena[i] == arena0[i].(children := arena[i].children)
    ensures RankedIn(arena, SortBy(ids0, Position(arena0, rank)), rank)
  {
    var position := Position(arena0, rank);
    var ids := SortBy(ids0, position);
    SortSorted(ids0, position);
    forall j, k | 0 <= j < k < |ids| && ids[j] < |arena| && ids[k] < |arena|
      ensures rank(arena[ids[j]].isDir, arena[ids[j]].name) <= rank(arena[ids[k]].isDir, arena[ids[k]].name)
    {
      assert position(ids[j]) <= position(ids[k]);
    }
  }

  lemma SortedInOrder(
    arena0: seq<Node>, roots0: seq<nat>, arena: seq<Node>, roots: seq<nat>, rank: (bool, string) -> int)
    requires Reordered(arena0, roots0, arena, roots)
    requires forall i :: 0 <= i < |arena| ==> arena[i].children == SortBy(arena0[i].children, Position(arena0, rank))
    requires roots == SortBy(roots0, Position(arena0, rank))
    ensures InOrder(arena, roots, rank)
  {
    SortedIsRanked(arena0, arena, roots0, rank);
    forall i | 0 <= i < |arena|
      ensures RankedIn(arena, arena[i].children, rank)
    {
      SortedIsRanked(arena0, arena, arena0[i].children, rank);
    }
  }

  lemma SortedDraft(items: seq<Item>, d: Draft, dirs: nat, arena: seq<Node>, roots: seq<nat>)
    requires Built(d) && d.dirMap.Keys == DirPaths(items) && Listed(d.arena, dirs, FilesIn(items))
    requires Reordered(d.arena, d.roots, arena, roots)
    ensures BuiltFrom(items, arena, roots)
  {
    ReorderedForest(d.arena, d.roots, arena, roots);
    ReorderedLabels(d.arena, d.roots, arena, roots);
    assert Listed(arena, dirs, FilesIn(items));
    forall p | p in DirPaths(items)
      ensures exists i :: 0 <= i < |arena| && arena[i].isDir && arena[i].fullPath == p
    {
      assert arena[d.dirMap[p]].fullPath == p;
    }
  }

  method BuildArena(items: seq<Item>, rank: (bool, string) -> int) returns (arena: seq<Node>, roots: seq<nat>)
    ensures BuiltFrom(items, arena, roots) && InOrder(arena, roots, rank)
  {
    var dirs := AddAllDirectories(items);
    var all := AddAllFiles(items, dirs);
    arena, roots := SortAll(all.arena, all.roots, rank);
    AddAllDirsBuilt(items);
    AddFilesBuilt(dirs, items);
    SortedDraft(items, all, |dirs.arena|, arena, roots);
    SortedInOrder(all.arena, all.roots, arena, roots, rank);
  }

  /** Only directories have children. */
  ghost predicate ParentsAreDirs(arena: seq<Node>) {
    forall i :: 0 <= i < |arena| && arena[i].children != [] ==> arena[i].isDir
  }

  lemma LabelledParentsAreDirs(arena: seq<Node>)
    requires Labelled(arena) && Mirrored(LinksOf(arena))
    ensures ParentsAreDirs(arena)
  {
    var g := LinksOf(arena);
    forall i: nat | i < |arena| && arena[i].children != []
      ensures arena[i].isDir
    {
      var c := g.kids[i][0];
      assert g.parent[c] == Some(i);
      assert LabelledAt(arena, c);
    }
  }

  // ---------- an input ----------

  lemma FilesInTwo(a: Item, b: Item)
    requires a.entryType == b.entryType == RegularFile
    ensures FilesIn([a, b]) == [a.path, b.path]
  {
    assert [a, b][..1] == [a] && [a][..0] == [];
    assert FilesIn([]) == [];
    assert FilesIn([a]) == [a.path];
  }

  /** A node whose path has a part before its last slash hangs under the directory of that path. */
  lemma ParentByPath(arena: seq<Node>, i: nat, dir: string, name: string)
    requires Labelled(arena) && i < |arena| && SlashFree(name) && arena[i].fullPath == dir + "/" + name
    ensures arena[i].parent.Some?
    ensures var p := arena[i].parent.value; p < |arena| && arena[p].isDir && arena[p].fullPath == dir
  {
    assert LabelledAt(arena, i);
    RSplitOnceAt(dir, name);
    RSplitOnceNone(arena[i].fullPath);
    if arena[i].parent.Some? {
      RSplitOnceAt(arena[arena[i].parent.value].fullPath, arena[i].name);
    }
  }

  /** Of two files in one directory, checking one and toggling the directory twice does not restore the tree. */
  lemma SiblingFilesForget(arena: seq<Node>, roots: seq<nat>, a: nat, b: nat, dir: string, name: string, name': string)
    requires Forest(LinksOf(arena), roots) && Labelled(arena) && DistinctDirs(arena)
    requires a < |arena| && b < |arena| && a != b && !arena[a].isDir && !arena[b].isDir
    requires SlashFree(name) && arena[a].fullPath == dir + "/" + name
    requires SlashFree(name') && arena[b].fullPath == dir + "/" + name'
    ensures arena[a].parent.Some? && arena[a].parent.value < |arena|
    ensures var g, p := LinksOf(arena), arena[a].parent.value;
      var cs := After(g, [Toggle(a)]);
      cs[p] == Partial && Toggled(g, Toggled(g, cs, p), p) != cs
  {
    var g := LinksOf(arena);
    ParentByPath(arena, a, dir, name);
    ParentByPath(arena, b, dir, name');
    LabelledParentsAreDirs(arena);
    var p := arena[a].parent.value;
    assert g.parent[a] == Some(p) && g.parent[b] == Some(p);
    TogglingTwiceForgets(g, p, a, b);
  }

  /** One directory with two files, as built. */
  lemma TwoFilesForget(arena: seq<Node>, roots: seq<nat>) returns (dir: nat, file: nat)
    requires BuiltFrom([Item("d/a", RegularFile), Item("d/b", RegularFile)], arena, roots)
    ensures dir < |arena| && file < |arena|
    ensures var g := LinksOf(arena);
      var cs := After(g, [Toggle(file)]);
      cs[dir] == Partial && Toggled(g, Toggled(g, cs, dir), dir) != cs
  {
    var a, b := Item("d/a", RegularFile), Item("d/b", RegularFile);
    FilesInTwo(a, b);
    file :| Listed(arena, file, FilesIn([a, b]));
    assert "d/a" == "d" + "/" + "a" && "d/b" == "d" + "/" + "b";
    SiblingFilesForget(arena, roots, file, file + 1, "d", "a", "b");
    dir := arena[file].parent.value;
  }
}
