/** Slash-separated path strings. */
module Paths {
  import opened Wrappers

  predicate SlashFree(s: string) {
    forall i :: 0 <= i < |s| ==> s[i] != '/'
  }

  /** `split('/')`: never empty, and no part contains a slash. */
  function Split(s: string): (parts: seq<string>)
    ensures |parts| > 0
    ensures forall k :: 0 <= k < |parts| ==> SlashFree(parts[k])
  {
    if s == "" then [""]
    else
      var rest := Split(s[1..]);
      if s[0] == '/' then [""] + rest else [[s[0]] + rest[0]] + rest[1..]
  }

  /** `join("/")`. */
  function Join(parts: seq<string>): string {
    if parts == [] then ""
    else if |parts| == 1 then parts[0]
    else Join(parts[..|parts| - 1]) + "/" + parts[|parts| - 1]
  }

  lemma {:induction false} JoinFront(first: string, parts: seq<string>)
    requires parts != []
    ensures Join([first] + parts) == first + "/" + Join(parts)
  {
    var n := |parts| - 1;
    var all := [first] + parts;
    assert all[..n + 1] == [first] + parts[..n];
    if n > 0 {
      JoinFront(first, parts[..n]);
      assert Join(all) == first + "/" + Join(parts[..n]) + "/" + parts[n];
      assert first + "/" + Join(parts[..n]) + "/" + parts[n] == first + "/" + (Join(parts[..n]) + "/" + parts[n]);
    } else {
      assert parts[..n] == [];
      assert Join([first]) == first;
    }
  }

  lemma {:induction false} JoinPrepend(c: char, parts: seq<string>)
    requires parts != []
    ensures Join([[c] + parts[0]] + parts[1..]) == [c] + Join(parts)
  {
    if |parts| == 1 {
      assert [[c] + parts[0]] + parts[1..] == [[c] + parts[0]];
    } else {
      JoinFront([c] + parts[0], parts[1..]);
      JoinFront(parts[0], parts[1..]);
      assert parts == [parts[0]] + parts[1..];
    }
  }

  /** Splitting loses nothing. */
  lemma {:induction false} JoinSplit(s: string)
    ensures Join(Split(s)) == s
  {
    if s != "" {
      var rest := Split(s[1..]);
      JoinSplit(s[1..]);
      if s[0] == '/' {
        JoinFront("", rest);
      } else {
        JoinPrepend(s[0], rest);
      }
      assert s == [s[0]] + s[1..];
    }
  }

  /** `rsplit_once('/')`: what is before and after the last slash. */
  function RSplitOnce(s: string): Option<(string, string)> {
    if s == "" then None
    else
      var n := |s| - 1;
      if s[n] == '/' then Some((s[..n], ""))
      else
        match RSplitOnce(s[..n])
        case None => None
        case Some((before, after)) => Some((before, after + [s[n]]))
  }

  lemma {:induction false} RSplitOnceAt(before: string, after: string)
    requires SlashFree(after)
    ensures RSplitOnce(before + "/" + after) == Some((before, after))
  {
    var s := before + "/" + after;
    var n := |s| - 1;
    if after == "" {
      assert s[..n] == before;
    } else {
      var init := after[..|after| - 1];
      RSplitOnceAt(before, init);
      assert s[..n] == before + "/" + init;
      assert after == init + [s[n]];
    }
  }

  lemma {:induction false} RSplitOnceNone(s: string)
    ensures RSplitOnce(s).None? <==> SlashFree(s)
    ensures RSplitOnce(s).Some? ==>
      s == RSplitOnce(s).value.0 + "/" + RSplitOnce(s).value.1 && SlashFree(RSplitOnce(s).value.1)
  {
    if s != "" {
      RSplitOnceNone(s[..|s| - 1]);
    }
  }

  lemma {:induction false} SplitOfFree(s: string)
    requires SlashFree(s)
    ensures Split(s) == [s]
  {
    if s != "" {
      SplitOfFree(s[1..]);
      assert s == [s[0]] + s[1..];
    }
  }

  lemma {:induction false} SplitFront(first: string, s: string)
    requires SlashFree(first)
    ensures Split(first + "/" + s) == [first] + Split(s)
  {
    var whole := first + "/" + s;
    if first == "" {
      assert whole[1..] == s;
    } else {
      SplitFront(first[1..], s);
      assert whole[1..] == first[1..] + "/" + s;
      assert first == [first[0]] + first[1..];
    }
  }

  /** Components without slashes survive joining and splitting. */
  lemma {:induction false} SplitJoin(parts: seq<string>)
    requires parts != [] && forall k :: 0 <= k < |parts| ==> SlashFree(parts[k])
    ensures Split(Join(parts)) == parts
  {
    if |parts| == 1 {
      SplitOfFree(parts[0]);
    } else {
      SplitJoin(parts[1..]);
      JoinFront(parts[0], parts[1..]);
      SplitFront(parts[0], Join(parts[1..]));
      assert parts == [parts[0]] + parts[1..];
    }
  }

  lemma {:induction false} JoinConcat(p: seq<string>, q: seq<string>)
    requires p != [] && q != []
    ensures Join(p + q) == Join(p) + "/" + Join(q)
  {
    var n, all := |q| - 1, p + q;
    assert all[..|all| - 1] == p + q[..n];
    if n == 0 {
      assert p + q[..n] == p;
    } else {
      JoinConcat(p, q[..n]);
      var a, b, c := Join(p) + "/", Join(q[..n]), "/" + q[n];
      assert a + b + "/" + q[n] == a + (b + "/" + q[n]);
    }
  }

  /** Splitting at a slash splits what is before and after it. */
  lemma SplitConcat(a: string, b: string)
    ensures Split(a + "/" + b) == Split(a) + Split(b)
  {
    JoinSplit(a);
    JoinSplit(b);
    JoinConcat(Split(a), Split(b));
    SplitJoin(Split(a) + Split(b));
  }

  lemma LastPart(p: string)
    requires p != "" && p[|p| - 1] != '/'
    ensures Split(p)[|Split(p)| - 1] != ""
  {
    JoinSplit(p);
  }

  /** `prefix` is the part of `path` before one of its slashes. */
  predicate AbovePath(prefix: string, path: string) {
    |prefix| < |path| && path[|prefix|] == '/' && path[..|prefix|] == prefix
  }

  /** Joining fewer components gives a path above. */
  lemma {:induction false} JoinPrefix(parts: seq<string>, m: nat)
    requires 0 < m < |parts|
    ensures AbovePath(Join(parts[..m]), Join(parts))
  {
    var n := |parts| - 1;
    if m < n {
      JoinPrefix(parts[..n], m);
      assert parts[..n][..m] == parts[..m];
    }
  }

  /** `trim_start_matches('/')`. */
  function TrimStart(s: string): (r: string)
    ensures r == "" || r[0] != '/'
  {
    if s != "" && s[0] == '/' then TrimStart(s[1..]) else s
  }

  /** `trim_end_matches('/')`. */
  function TrimEnd(s: string): (r: string)
    ensures r <= s && (r == "" || r[|r| - 1] != '/')
  {
    if s != "" && s[|s| - 1] == '/' then TrimEnd(s[..|s| - 1]) else s
  }

  /** Only slashes are trimmed. */
  lemma {:induction false} TrimStartDrops(s: string)
    ensures var r := TrimStart(s);
      |r| <= |s| && s[|s| - |r|..] == r && forall i :: 0 <= i < |s| - |r| ==> s[i] == '/'
  {
    if s != "" && s[0] == '/' {
      TrimStartDrops(s[1..]);
      assert forall i :: 0 < i < |s| ==> s[i] == s[1..][i - 1];
    }
  }

  lemma {:induction false} TrimEndDrops(s: string)
    ensures forall i :: |TrimEnd(s)| <= i < |s| ==> s[i] == '/'
  {
    if s != "" && s[|s| - 1] == '/' {
      TrimEndDrops(s[..|s| - 1]);
    }
  }
}
