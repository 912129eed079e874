/**
The cache of directories an SFTP backend knows to exist.  It lets `put` skip creating the parent of the
file, so it must never name a directory that is not there, however operations interleave.
*/
module DirCache {
  import opened Wrappers
  import opened Paths

  // ---------- paths ----------

  function NormalizeRoot(root: string): string {
    var trimmed := TrimEnd(TrimStart(root));
    if trimmed == "" then "/" else "/" + trimmed
  }

  function PosixJoin(base: string, child: string): string {
    var trimmed := TrimEnd(base);
    var base' := if trimmed == "" then "/" else trimmed;
    var child' := TrimStart(child);
    if child' == "" then base'
    else if base' == "/" then "/" + child'
    else base' + "/" + child'
  }

  function FullPath(root: string, key: string): string {
    PosixJoin(NormalizeRoot(root), key)
  }

  /** Exactly one slash in front. */
  predicate Rooted(path: string) {
    path != "" && path[0] == '/' && (|path| > 1 ==> path[1] != '/')
  }

  /** The components of a key or root, without slashes around it. */
  function Components(s: string): seq<string> {
    if s == "" then [] else Split(s)
  }

  lemma FullPathIs(root: string, key: string)
    ensures var r, k := TrimEnd(TrimStart(root)), TrimStart(key);
      FullPath(root, key) ==
        if r == "" then "/" + k else if k == "" then "/" + r else "/" + r + "/" + k
  {
    var r := TrimEnd(TrimStart(root));
    assert TrimEnd("/") == "" by {
      assert "/"[..0] == "";
    }
    if r != "" {
      assert ("/" + r)[|"/" + r| - 1] == r[|r| - 1];
    }
  }

  lemma LeadingSlash(s: string)
    ensures Split("/" + s) == [""] + Split(s)
  {
    assert "/" + s == "" + "/" + s;
    SplitFront("", s);
  }

  lemma KeyParts(k: string)
    requires k != ""
    ensures Split("/" + k) == [""] + (Components("") + Components(k))
  {
    LeadingSlash(k);
    assert Components("") + Components(k) == Split(k);
  }

  lemma RootParts(r: string)
    requires r != ""
    ensures Split("/" + r) == [""] + (Components(r) + Components(""))
  {
    LeadingSlash(r);
    assert Components(r) + Components("") == Split(r);
  }

  lemma BothParts(r: string, k: string)
    requires r != "" && k != ""
    ensures Split("/" + r + "/" + k) == [""] + (Components(r) + Components(k))
  {
    var inner := r + "/" + k;
    assert "/" + r + "/" + k == "/" + inner;
    SplitConcat(r, k);
    LeadingSlash(inner);
  }

  /** `path` has the components of `r` followed by those of `k`. */
  ghost predicate HasParts(path: string, r: string, k: string) {
    if r == "" && k == "" then path == "/" else Split(path) == [""] + (Components(r) + Components(k))
  }

  lemma PathParts(r: string, k: string)
    ensures HasParts(if r == "" then "/" + k else if k == "" then "/" + r else "/" + r + "/" + k, r, k)
  {
    if r != "" && k != "" {
      BothParts(r, k);
    } else if r != "" {
      RootParts(r);
    } else if k != "" {
      KeyParts(k);
    }
  }

  /** A full path has the components of the root followed by those of the key. */
  lemma FullPathParts(root: string, key: string)
    ensures HasParts(FullPath(root, key), TrimEnd(TrimStart(root)), TrimStart(key))
  {
    FullPathIs(root, key);
    PathParts(TrimEnd(TrimStart(root)), TrimStart(key));
  }

  /** Different keys without a leading slash have different paths. */
  lemma FullPathInjective(root: string, a: string, b: string)
    requires (a == "" || a[0] != '/') && (b == "" || b[0] != '/') && FullPath(root, a) == FullPath(root, b)
    ensures a == b
  {
    var r := TrimEnd(TrimStart(root));
    FullPathIs(root, a);
    FullPathIs(root, b);
    assert TrimStart(a) == a && TrimStart(b) == b;
    var n := if r == "" then 1 else |r| + 2;
    if |FullPath(root, a)| >= n {
      assert FullPath(root, a)[n..] == a && FullPath(root, b)[n..] == b;
    }
  }

  lemma FullPathIsRooted(root: string, key: string)
    ensures Rooted(FullPath(root, key))
  {
    FullPathIs(root, key);
    var start := TrimStart(root);
    assert TrimEnd(start) != "" ==> TrimEnd(start)[0] == start[0];
  }

  // ---------- the walk shared by `mkdir_p` and `mark_dir_known` ----------

  function Extend(current: string, component: string): string {
    if component == "" then current + "/"
    else if current == "" || current == "/" then current + component
    else current + "/" + component
  }

  function WalkTo(parts: seq<string>, n: nat): string
    requires n <= |parts|
  {
    if n == 0 then "" else Extend(WalkTo(parts, n - 1), parts[n - 1])
  }

  /** The directories named on the way along the first `n` components. */
  function Stops(parts: seq<string>, n: nat): seq<string>
    requires n <= |parts|
  {
    if n == 0 then []
    else Stops(parts, n - 1) + if parts[n - 1] == "" then [] else [WalkTo(parts, n)]
  }

  /** The directory a path names and all those above it, outermost first. */
  function Above(path: string): seq<string> {
    Stops(Split(path), |Split(path)|)
  }

  function AsSet(s: seq<string>): set<string> {
    set x | x in s
  }

  lemma StopsNext(before: set<string>, parts: seq<string>, i: nat)
    requires i < |parts|
    ensures parts[i] == "" ==> Stops(parts, i + 1) == Stops(parts, i)
    ensures parts[i] != "" ==>
      before + AsSet(Stops(parts, i + 1)) == (before + AsSet(Stops(parts, i))) + {WalkTo(parts, i + 1)}
  {
  }

  class DirCache {
    var known: set<string>

    constructor ()
      ensures known == {}
    {
      known := {};
    }

    method MarkKnown(dir: string)
      modifies this
      ensures known == old(known) + AsSet(Above(dir))
    {
      var parts := Split(dir);
      var current := "";
      for i := 0 to |parts|
        invariant current == WalkTo(parts, i)
        invariant known == old(known) + AsSet(Stops(parts, i))
      {
        StopsNext(old(known), parts, i);
        var component := parts[i];
        if component == "" {
          current := current + "/";
          continue;
        }
        if current == "" || current == "/" {
          current := current + component;
        } else {
          current := current + "/" + component;
        }
        known := known + {current};
      }
    }
  }

  /** The answer to `mkdir` and, when that fails, to `stat`: the directory is there, or the attempt ends. */
  datatype Reply = Created | AlreadyThere | NotADirectory | Error

  predicate Passes(reply: Reply) {
    reply.Created? || reply.AlreadyThere?
  }

  /** Each of the first `n` components is empty, or created or there. */
  predicate AllPass(parts: seq<string>, replies: nat -> Reply, n: nat)
    requires n <= |parts|
  {
    n == 0 || (AllPass(parts, replies, n - 1) && (parts[n - 1] == "" || Passes(replies(n - 1))))
  }

  lemma {:induction false} OneFails(parts: seq<string>, replies: nat -> Reply, i: nat, n: nat)
    requires i < n <= |parts| && parts[i] != "" && !Passes(replies(i))
    ensures !AllPass(parts, replies, n)
  {
    if i < n - 1 {
      OneFails(parts, replies, i, n - 1);
    }
  }

  /** `mkdir_p` against a server that answers `replies` in turn: it succeeds exactly when every component is
      created or there, and then the directory and everything above it exist. */
  method MkdirP(path: string, replies: nat -> Reply, dirs0: set<string>)
    returns (ok: bool, ghost dirs: set<string>)
    ensures dirs0 <= dirs
    ensures ok <==> AllPass(Split(path), replies, |Split(path)|)
    ensures ok ==> dirs == dirs0 + AsSet(Above(path))
  {
    dirs := dirs0;
    var parts := Split(path);
    var current := "";
    for i := 0 to |parts|
      invariant current == WalkTo(parts, i)
      invariant dirs == dirs0 + AsSet(Stops(parts, i))
      invariant AllPass(parts, replies, i)
    {
      StopsNext(dirs0, parts, i);
      if parts[i] == "" {
        current := current + "/";
        continue;
      }
      current := Extend(current, parts[i]);
      match replies(i) {
        case Created => dirs := dirs + {current};
        case AlreadyThere => dirs := dirs + {current};
        case NotADirectory =>
          OneFails(parts, replies, i, |parts|);
          return false, dirs;
        case Error =>
          OneFails(parts, replies, i, |parts|);
          return false, dirs;
      }
    }
    return true, dirs;
  }

  // ---------- what the walk visits ----------

  /** On a rooted path the walk is just longer and longer prefixes. */
  lemma {:induction false} WalkIsJoin(parts: seq<string>, n: nat)
    requires 2 <= n <= |parts| && parts[0] == "" && parts[1] != ""
    requires forall k :: 0 <= k < |parts| ==> SlashFree(parts[k])
    ensures WalkTo(parts, n) == Join(parts[..n]) && |WalkTo(parts, n)| >= 2
  {
    assert WalkTo(parts, 1) == "/" by {
      assert WalkTo(parts, 0) == "";
    }
    assert parts[..n][..n - 1] == parts[..n - 1];
    if n == 2 {
      assert parts[..n - 1] == [""];
    } else {
      WalkIsJoin(parts, n - 1);
    }
  }

  lemma {:induction false} WalkPrefix(parts: seq<string>, n: nat, m: nat)
    requires m <= n <= |parts|
    ensures WalkTo(parts[..n], m) == WalkTo(parts, m)
    ensures Stops(parts[..n], m) == Stops(parts, m)
  {
    if m > 0 {
      WalkPrefix(parts, n, m - 1);
    }
  }

  lemma RootedParts(path: string)
    requires Rooted(path) && |path| > 1
    ensures |Split(path)| >= 2 && Split(path)[0] == "" && Split(path)[1] != ""
  {
    assert path == "" + "/" + path[1..];
    SplitFront("", path[1..]);
    assert path[1..][0] != '/';
  }

  /** Every stop on the way is itself a rooted path, and the stops above it are stops of the whole. */
  lemma {:induction false} StopsAreClosed(parts: seq<string>, n: nat, p: string)
    requires n <= |parts| && |parts| >= 2 && parts[0] == "" && parts[1] != ""
    requires forall k :: 0 <= k < |parts| ==> SlashFree(parts[k])
    requires p in Stops(parts, n)
    ensures AsSet(Above(p)) <= AsSet(Stops(parts, n)) && p in Above(p)
  {
    if p in Stops(parts, n - 1) {
      StopsAreClosed(parts, n - 1, p);
    } else {
      assert parts[n - 1] != "" && p == WalkTo(parts, n) && n >= 2;
      WalkIsJoin(parts, n);
      SplitJoin(parts[..n]);
      WalkPrefix(parts, n, n);
      assert Above(p) == Stops(parts, n);
    }
  }

  lemma AboveIsClosed(path: string, p: string)
    requires Rooted(path) && p in Above(path)
    ensures AsSet(Above(p)) <= AsSet(Above(path)) && p in Above(p)
  {
    if |path| > 1 {
      RootedParts(path);
      StopsAreClosed(Split(path), |Split(path)|, p);
    } else {
      RootHasNoStops(path);
    }
  }

  /** A path that does not end in a slash is the last of its own stops. */
  lemma AboveHasSelf(path: string)
    requires Rooted(path) && path[|path| - 1] != '/'
    ensures path in Above(path)
  {
    RootedParts(path);
    var parts := Split(path);
    var n := |parts|;
    JoinSplit(path);
    WalkIsJoin(parts, n);
    assert parts[..n] == parts;
    assert parts[n - 1] != "";
  }

  lemma {:induction false} StopIsJoin(parts: seq<string>, n: nat, p: string) returns (m: nat)
    requires n <= |parts| && |parts| >= 2 && parts[0] == "" && parts[1] != ""
    requires forall k :: 0 <= k < |parts| ==> SlashFree(parts[k])
    requires p in Stops(parts, n)
    ensures 2 <= m <= n && parts[m - 1] != "" && p == Join(parts[..m])
  {
    if p in Stops(parts, n - 1) {
      m := StopIsJoin(parts, n - 1, p);
    } else {
      m := n;
      WalkIsJoin(parts, n);
    }
  }

  lemma {:induction false} StopIsVisited(parts: seq<string>, m: nat, n: nat)
    requires 0 < m <= n <= |parts| && parts[m - 1] != ""
    ensures WalkTo(parts, m) in Stops(parts, n)
  {
    if m < n {
      StopIsVisited(parts, m, n - 1);
    }
  }

  /** The directories above a path, and the one it names, are exactly its leading parts that end in a
      component. */
  lemma AboveIff(path: string, p: string)
    requires Rooted(path) && |path| > 1
    ensures p in Above(path) <==> p != "" && p[|p| - 1] != '/' && (p == path || AbovePath(p, path))
  {
    var parts := Split(path);
    RootedParts(path);
    JoinSplit(path);
    if p in Above(path) {
      var m := StopIsJoin(parts, |parts|, p);
      assert parts[..m][..m - 1] == parts[..m - 1];
      if m < |parts| {
        JoinPrefix(parts, m);
      } else {
        assert parts[..m] == parts;
      }
    }
    if p != "" && p[|p| - 1] != '/' {
      if p == path {
        AboveHasSelf(path);
      } else if AbovePath(p, path) {
        LeadingPartIsVisited(path, p);
      }
    }
  }

  lemma LeadingPartIsVisited(path: string, p: string)
    requires Rooted(path) && AbovePath(p, path) && p != "" && p[|p| - 1] != '/'
    ensures p in Above(path)
  {
    var parts, rest := Split(path), path[|p| + 1..];
    assert path == p + "/" + rest;
    SplitConcat(p, rest);
    var n := |Split(p)|;
    assert parts[..n] == Split(p);
    JoinSplit(p);
    LastPart(p);
    assert p[0] == path[0] == '/';
    assert Rooted(p);
    RootedParts(p);
    WalkIsJoin(parts, n);
    StopIsVisited(parts, n, |parts|);
  }

  lemma RootHasNoStops(path: string)
    requires Rooted(path) && |path| == 1
    ensures Above(path) == []
  {
    assert path == "/";
    assert Split("") == [""];
    assert Split(path) == ["", ""] by {
      assert path[1..] == "";
    }
    assert Stops(["", ""], 1) == [] by {
      assert Stops(["", ""], 0) == [];
    }
  }

  // ---------- all threads together ----------

  datatype Job = PutFile(path: string) | MakeDir(path: string)

  /** The directory a job needs: the part before the last slash of a file, or the directory itself. */
  function Target(job: Job): string {
    match job
    case MakeDir(path) => path
    case PutFile(path) =>
      match RSplitOnce(path)
      case None => ""
      case Some((parent, _)) => parent
  }

  datatype Phase =
    | Idle
    | Attempting(job: Job, skip: bool)  // about to try; `skip` was read from the cache at the start
    | Making(job: Job, i: nat)          // `mkdir_p` has walked past `i` stops
    | Ready(job: Job, skip: bool)       // about to open the file
    | Marking(job: Job)                 // succeeded, about to enter the target in the cache

  datatype System = System(dirs: set<string>, known: set<string>, threads: seq<Phase>)

  datatype Action =
    | Spawn
    | Appear(dir: string)                   // anyone else creates a directory
    | Begin(t: nat, job: Job)
    | Attempt(t: nat)
    | MkdirOne(t: nat)
    | MkdirDone(t: nat)
    | OpenOk(t: nat)
    | Fail(t: nat, retry: bool)            // no connection, or an error of the server
    | Mark(t: nat)

  predicate At(s: System, t: nat) {
    t < |s.threads|
  }

  /** Jobs are on full paths: `RootedJob` holds of every path the backend builds. */
  predicate RootedJob(job: Job) {
    Rooted(job.path)
  }

  predicate Enabled(s: System, a: Action) {
    match a
    case Spawn => true
    case Appear(_) => true
    case Begin(t, job) => At(s, t) && s.threads[t].Idle? && RootedJob(job)
    case Attempt(t) => At(s, t) && s.threads[t].Attempting?
    case MkdirOne(t) => At(s, t) && s.threads[t].Making? && s.threads[t].i < |Above(Target(s.threads[t].job))|
    case MkdirDone(t) => At(s, t) && s.threads[t].Making? && s.threads[t].i == |Above(Target(s.threads[t].job))|
    case OpenOk(t) => At(s, t) && s.threads[t].Ready?
    case Fail(t, _) => At(s, t) && (s.threads[t].Attempting? || s.threads[t].Making? || s.threads[t].Ready?)
    case Mark(t) => At(s, t) && s.threads[t].Marking?
  }

  function Move(s: System, t: nat, p: Phase): System
    requires t < |s.threads|
  {
    s.(threads := s.threads[t := p])
  }

  function Do(s: System, a: Action): System
    requires Enabled(s, a)
  {
    match a
    case Spawn => s.(threads := s.threads + [Idle])
    case Appear(dir) => s.(dirs := s.dirs + {dir})
    case Begin(t, job) =>
      if job.MakeDir? && job.path in s.known then s
      else Move(s, t, Attempting(job, job.PutFile? && (Target(job) == "" || Target(job) in s.known)))
    case Attempt(t) =>
      var p := s.threads[t];
      Move(s, t, if p.skip then Ready(p.job, true) else Making(p.job, 0))
    case MkdirOne(t) =>
      var p := s.threads[t];
      Move(s.(dirs := s.dirs + {Above(Target(p.job))[p.i]}), t, Making(p.job, p.i + 1))
    case MkdirDone(t) =>
      var p := s.threads[t];
      Move(s, t, if p.job.PutFile? then Ready(p.job, false) else Marking(p.job))
    case OpenOk(t) =>
      var p := s.threads[t];
      Move(s, t, if p.skip then Idle else Marking(p.job))
    case Fail(t, retry) =>
      var p := s.threads[t];
      Move(s, t, if retry then Attempting(p.job, !p.Making? && p.skip) else Idle)
    case Mark(t) =>
      var target := Target(s.threads[t].job);
      Move(if target == "" then s else s.(known := s.known + AsSet(Above(target))), t, Idle)
  }

  const Start: System := System({}, {}, [])

  function Run(acts: seq<Action>): Option<System> {
    if acts == [] then Some(Start)
    else
      var last := |acts| - 1;
      match Run(acts[..last])
      case None => None
      case Some(s) => if Enabled(s, acts[last]) then Some(Do(s, acts[last])) else None
  }

  // ---------- soundness ----------

  /** The directory and everything above it exist. */
  ghost predicate Present(dirs: set<string>, dir: string) {
    AsSet(Above(dir)) <= dirs
  }

  ghost predicate PhaseOk(s: System, p: Phase) {
    match p
    case Idle => true
    case Attempting(job, skip) => RootedJob(job) && (skip ==> Present(s.dirs, Target(job)))
    case Making(job, i) => RootedJob(job) && i <= |Above(Target(job))| && AsSet(Above(Target(job))[..i]) <= s.dirs
    case Ready(job, _) => RootedJob(job) && Present(s.dirs, Target(job))
    case Marking(job) => RootedJob(job) && Present(s.dirs, Target(job))
  }

  /** Everything known exists, and whatever is above something known is known. */
  ghost predicate Sound(known: set<string>, dirs: set<string>) {
    known <= dirs && forall p :: p in known ==> AsSet(Above(p)) <= known && p in Above(p)
  }

  ghost predicate Inv(s: System) {
    Sound(s.known, s.dirs) && forall t :: 0 <= t < |s.threads| ==> PhaseOk(s, s.threads[t])
  }

  lemma PhaseOkGrows(s: System, s': System, p: Phase)
    requires s.dirs <= s'.dirs && PhaseOk(s, p)
    ensures PhaseOk(s', p)
  {
  }

  /** The target of a rooted job is the empty string or a rooted path. */
  lemma TargetIsRooted(job: Job)
    requires RootedJob(job)
    ensures Target(job) == "" || Rooted(Target(job))
  {
    if job.PutFile? {
      RSplitOnceNone(job.path);
    }
  }

  lemma EmptyHasNoStops()
    ensures Above("") == []
  {
    assert Split("") == [""];
    assert Stops([""], 0) == [];
  }

  lemma MarkKeepsSound(known: set<string>, dirs: set<string>, target: string)
    requires Sound(known, dirs) && Rooted(target) && Present(dirs, target)
    ensures Sound(known + AsSet(Above(target)), dirs)
  {
    forall p | p in Above(target)
      ensures AsSet(Above(p)) <= AsSet(Above(target)) && p in Above(p)
    {
      AboveIsClosed(target, p);
    }
  }

  /** The phase of the moving thread after its step is justified. */
  lemma OwnPhaseOk(s: System, a: Action)
    requires Inv(s) && Enabled(s, a) && !a.Spawn? && !a.Appear?
    ensures PhaseOk(Do(s, a), Do(s, a).threads[a.t])
  {
    EmptyHasNoStops();
    var p := s.threads[a.t];
    assert PhaseOk(s, p);
    if a.MkdirOne? {
      var stops := Above(Target(p.job));
      assert stops[..p.i + 1] == stops[..p.i] + [stops[p.i]];
    } else if a.MkdirDone? {
      var stops := Above(Target(p.job));
      assert stops[..|stops|] == stops;
    }
  }

  lemma StepKeepsInv(s: System, a: Action)
    requires Inv(s) && Enabled(s, a)
    ensures Inv(Do(s, a))
  {
    var s' := Do(s, a);
    assert Sound(s'.known, s'.dirs) by {
      if a.Mark? {
        var p := s.threads[a.t];
        assert PhaseOk(s, p);
        TargetIsRooted(p.job);
        if Target(p.job) != "" {
          MarkKeepsSound(s.known, s.dirs, Target(p.job));
        }
      }
    }
    forall t | 0 <= t < |s'.threads|
      ensures PhaseOk(s', s'.threads[t])
    {
      if t < |s.threads| && s'.threads[t] == s.threads[t] {
        PhaseOkGrows(s, s', s.threads[t]);
      } else if !a.Spawn? {
        OwnPhaseOk(s, a);
      }
    }
  }

  lemma {:induction false} ReachableInv(acts: seq<Action>, s: System)
    requires Run(acts) == Some(s)
    ensures Inv(s)
    decreases |acts|
  {
    if acts != [] {
      var last := |acts| - 1;
      ReachableInv(acts[..last], Run(acts[..last]).value);
      StepKeepsInv(Run(acts[..last]).value, acts[last]);
    }
  }

  /** Over any interleaving, every cached path is an existing directory, and so is everything above it. */
  lemma CacheIsSound(acts: seq<Action>, s: System, p: string)
    requires Run(acts) == Some(s) && p in s.known
    ensures p in s.dirs && AsSet(Above(p)) <= s.known
  {
    ReachableInv(acts, s);
  }

  /** No file is opened while a directory on its path is missing, whether or not `mkdir_p` was skipped. */
  lemma PutHasItsParent(acts: seq<Action>, s: System, t: nat, parent: string, name: string, p: string)
    requires Run(acts) == Some(s) && t < |s.threads| && s.threads[t].Ready?
    requires s.threads[t].job == PutFile(parent + "/" + name) && SlashFree(name)
    requires p != "" && p[|p| - 1] != '/' && (p == parent || AbovePath(p, parent))
    ensures p in s.dirs
  {
    ReachableInv(acts, s);
    assert PhaseOk(s, s.threads[t]);
    ParentIsTarget(parent, name);
    TargetIsRooted(s.threads[t].job);
    AboveIff(parent, p);
  }

  lemma ParentIsTarget(parent: string, name: string)
    requires SlashFree(name)
    ensures Target(PutFile(parent + "/" + name)) == parent
  {
    RSplitOnceAt(parent, name);
  }

  /** When a directory creation has succeeded, or is answered from the cache, the directory and everything above
      it are there. */
  lemma MadeDirIsThere(acts: seq<Action>, s: System, path: string, p: string)
    requires Run(acts) == Some(s) && Rooted(path) && |path| > 1
    requires path in s.known || exists t :: 0 <= t < |s.threads| && s.threads[t] == Marking(MakeDir(path))
    requires p != "" && p[|p| - 1] != '/' && (p == path || AbovePath(p, path))
    ensures p in s.dirs
  {
    ReachableInv(acts, s);
    AboveIff(path, p);
    if t :| 0 <= t < |s.threads| && s.threads[t] == Marking(MakeDir(path)) {
      assert PhaseOk(s, s.threads[t]);
    }
  }

  /** A put into a known directory opens its file without asking the server for directories. */
  lemma KnownParentIsSkipped(s: System, t: nat, parent: string, name: string)
    requires SlashFree(name) && parent in s.known && Enabled(s, Begin(t, PutFile(parent + "/" + name)))
    ensures var s1 := Do(s, Begin(t, PutFile(parent + "/" + name)));
      && Enabled(s1, Attempt(t))
      && Do(s1, Attempt(t)) == s.(threads := s.threads[t := Ready(PutFile(parent + "/" + name), true)])
  {
    ParentIsTarget(parent, name);
  }

  /** After a put that was not skipped its parent is known, so the next put there is. */
  lemma PutMakesParentKnown(s: System, t: nat, parent: string, name: string)
    requires SlashFree(name) && Rooted(parent + "/" + name) && parent != "" && parent[|parent| - 1] != '/'
    requires t < |s.threads| && s.threads[t] == Marking(PutFile(parent + "/" + name))
    ensures parent in Do(s, Mark(t)).known
  {
    ParentIsTarget(parent, name);
    TargetIsRooted(PutFile(parent + "/" + name));
    AboveHasSelf(parent);
  }
}
