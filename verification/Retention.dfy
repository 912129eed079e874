/**
Snapshot retention.  Seven rules run one after the other over a shared `kept` set and a shared
`reasons` map.  The methods below follow those loops; `Outcome` is the closed form they are proved
to compute, and the lemmas after it are about the closed form.

The calendar functions that turn a time into an hour, day, week, month or year stay abstract: `key`
is any function from a rule kind and a time to a bucket.
*/
module Retention {
  import opened Wrappers
  import opened Sequences

  datatype Snapshot = Snapshot(name: string, time: int, sourceLabel: string)

  datatype BucketKind = Hourly | Daily | Weekly | Monthly | Yearly

  /** A `keep_within` string, parsed: not a duration, or the instant `now - duration`. */
  datatype Timespan = Malformed | Since(cutoff: int)

  datatype Policy = Policy(
    keepWithin: Option<Timespan>,
    keepLast: Option<nat>,
    keepHourly: Option<nat>,
    keepDaily: Option<nat>,
    keepWeekly: Option<nat>,
    keepMonthly: Option<nat>,
    keepYearly: Option<nat>)
  {
    predicate HasAnyRule() {
      || keepWithin.Some? || keepLast.Some? || keepHourly.Some? || keepDaily.Some?
      || keepWeekly.Some? || keepMonthly.Some? || keepYearly.Some?
    }
  }

  datatype Reason = Within | Last(nth: nat) | Bucket(kind: BucketKind, nth: nat) | NoPolicy

  datatype Decision = Keep(reasons: seq<Reason>) | Prune

  datatype PruneEntry = PruneEntry(name: string, time: int, decision: Decision)

  datatype PruneError = BadTimespan | WouldPruneAll

  // ---------- closed form ----------

  datatype Rule = KeepWithin(cutoff: int) | KeepLast(n: nat) | KeepBuckets(kind: BucketKind, n: nat)

  /** The buckets of the `p` newest times; `ts` lists times newest first. */
  function BucketsBefore<K(==)>(ts: seq<int>, p: nat, kind: BucketKind, key: (BucketKind, int) -> K): set<K>
    requires p <= |ts|
  {
    if p == 0 then {} else BucketsBefore(ts, p - 1, kind, key) + {key(kind, ts[p - 1])}
  }

  /** How many distinct buckets there are among the `p` newest times. */
  function BucketCount<K(==)>(ts: seq<int>, p: nat, kind: BucketKind, key: (BucketKind, int) -> K): nat
    requires p <= |ts|
  {
    if p == 0 then 0
    else BucketCount(ts, p - 1, kind, key)
         + if key(kind, ts[p - 1]) in BucketsBefore(ts, p - 1, kind, key) then 0 else 1
  }

  lemma {:induction false} BucketCountIsSize<K>(ts: seq<int>, p: nat, kind: BucketKind, key: (BucketKind, int) -> K)
    requires p <= |ts|
    ensures BucketCount(ts, p, kind, key) == |BucketsBefore(ts, p, kind, key)|
  {
    if p > 0 {
      BucketCountIsSize(ts, p - 1, kind, key);
    }
  }

  lemma {:induction false} BucketsBeforeHas<K>(
    ts: seq<int>, p: nat, kind: BucketKind, key: (BucketKind, int) -> K, b: K)
    requires p <= |ts|
    ensures b in BucketsBefore(ts, p, kind, key) <==> exists q :: 0 <= q < p && key(kind, ts[q]) == b
  {
    if p > 0 {
      BucketsBeforeHas(ts, p - 1, kind, key, b);
    }
  }

  /** Whether one rule on its own keeps the snapshot of rank `p`. */
  predicate Keeps<K(==)>(rule: Rule, ts: seq<int>, p: nat, key: (BucketKind, int) -> K)
    requires p < |ts|
  {
    match rule
    case KeepWithin(cutoff) => ts[p] >= cutoff
    case KeepLast(n) => p < n
    case KeepBuckets(kind, n) =>
      key(kind, ts[p]) !in BucketsBefore(ts, p, kind, key) && BucketCount(ts, p, kind, key) < n
  }

  predicate KeptAt<K(==)>(rules: seq<Rule>, ts: seq<int>, p: nat, key: (BucketKind, int) -> K)
    requires p < |ts|
  {
    exists r :: r in rules && Keeps(r, ts, p, key)
  }

  /** The reason one rule records at rank `p`.  A bucket rule with limit 0 keeps nothing, yet it still
      tags the newest snapshot if an earlier rule kept it. */
  function Tag<K(==)>(rule: Rule, ts: seq<int>, p: nat, already: bool, key: (BucketKind, int) -> K): seq<Reason>
    requires p < |ts|
  {
    match rule
    case KeepWithin(_) => if Keeps(rule, ts, p, key) then [Within] else []
    case KeepLast(_) => if Keeps(rule, ts, p, key) then [Last(p + 1)] else []
    case KeepBuckets(kind, n) =>
      var newer := BucketCount(ts, p, kind, key);
      if key(kind, ts[p]) !in BucketsBefore(ts, p, kind, key) && (newer < n || (newer == n == 0 && already))
      then [Bucket(kind, newer + 1)] else []
  }

  /** All reasons recorded at rank `p` after running `rules` in order. */
  function Reasons<K(==)>(rules: seq<Rule>, ts: seq<int>, p: nat, key: (BucketKind, int) -> K): seq<Reason>
    requires p < |ts|
  {
    if rules == [] then []
    else
      var prior := Reasons(rules[..|rules| - 1], ts, p, key);
      prior + Tag(rules[|rules| - 1], ts, p, prior != [], key)
  }

  function BucketRule(kind: BucketKind, limit: Option<nat>): seq<Rule> {
    if limit.Some? then [KeepBuckets(kind, limit.value)] else []
  }

  function RulesOf(policy: Policy): seq<Rule>
    requires policy.keepWithin != Some(Malformed)
  {
    (if policy.keepWithin.Some? then [KeepWithin(policy.keepWithin.value.cutoff)] else [])
    + (if policy.keepLast.Some? then [KeepLast(policy.keepLast.value)] else [])
    + BucketRule(Hourly, policy.keepHourly)
    + BucketRule(Daily, policy.keepDaily)
    + BucketRule(Weekly, policy.keepWeekly)
    + BucketRule(Monthly, policy.keepMonthly)
    + BucketRule(Yearly, policy.keepYearly)
  }

  /** Snapshot indices, newest first, ties in input order. */
  function NewestFirst(snapshots: seq<Snapshot>): seq<nat> {
    SortBy(Range(|snapshots|), (i: nat) => if i < |snapshots| then -snapshots[i].time else 0)
  }

  function Times(snapshots: seq<Snapshot>): seq<int> {
    Map(snapshots, (s: Snapshot) => s.time)
  }

  predicate InRange(indices: seq<nat>, n: nat) {
    forall p :: 0 <= p < |indices| ==> indices[p] < n
  }

  function Ranked(indices: seq<nat>, times: seq<int>): (ts: seq<int>)
    requires InRange(indices, |times|)
    ensures |ts| == |indices| && forall p :: 0 <= p < |ts| ==> ts[p] == times[indices[p]]
  {
    seq(|indices|, p requires 0 <= p < |indices| => times[indices[p]])
  }

  function Entry(s: Snapshot, reasons: seq<Reason>): PruneEntry {
    PruneEntry(s.name, s.time, if reasons == [] then Prune else Keep(reasons))
  }

  lemma NewestFirstProps(snapshots: seq<Snapshot>)
    ensures var order := NewestFirst(snapshots);
      && |order| == |snapshots| && Distinct(order)
      && InRange(order, |snapshots|) && (forall i :: 0 <= i < |snapshots| ==> i in order)
      && (forall p, q :: 0 <= p < q < |order| ==> snapshots[order[p]].time >= snapshots[order[q]].time)
  {
    var key := (i: nat) => if i < |snapshots| then -snapshots[i].time else 0;
    var order := SortBy(Range(|snapshots|), key);
    assert order == NewestFirst(snapshots);
    SortPermutes(Range(|snapshots|), key);
    PermutedDistinct(Range(|snapshots|), order);
    forall i: nat | i < |snapshots|
      ensures i in order
    {
      assert Range(|snapshots|)[i] in Range(|snapshots|);
    }
    forall p | 0 <= p < |order|
      ensures order[p] < |snapshots|
    {
      assert order[p] in Range(|snapshots|);
    }
    SortSorted(Range(|snapshots|), key);
    forall p, q | 0 <= p < q < |order|
      ensures snapshots[order[p]].time >= snapshots[order[q]].time
    {
      assert key(order[p]) <= key(order[q]);
    }
  }

  /** The times of the snapshots, newest first. */
  ghost function RankedTimes(snapshots: seq<Snapshot>): (ts: seq<int>)
    ensures |ts| == |snapshots|
  {
    NewestFirstProps(snapshots);
    Ranked(NewestFirst(snapshots), Times(snapshots))
  }

  /** What `apply_policy` returns, without any loop state. */
  ghost function Outcome<K>(snapshots: seq<Snapshot>, policy: Policy, key: (BucketKind, int) -> K)
    : Result<seq<PruneEntry>, PruneError>
  {
    if snapshots == [] then Ok([])
    else if policy.keepWithin == Some(Malformed) then Err(BadTimespan)
    else
      var rules, ts := RulesOf(policy), RankedTimes(snapshots);
      if forall p :: 0 <= p < |ts| ==> !KeptAt(rules, ts, p, key) then Err(WouldPruneAll)
      else
        Ok(Entries(snapshots, rules, key))
  }

  /** One entry per snapshot, newest first, with the reasons `rules` give it. */
  ghost function Entries<K>(snapshots: seq<Snapshot>, rules: seq<Rule>, key: (BucketKind, int) -> K)
    : (entries: seq<PruneEntry>)
    ensures |entries| == |snapshots|
  {
    NewestFirstProps(snapshots);
    seq(|snapshots|, p requires 0 <= p < |snapshots| =>
      Entry(snapshots[NewestFirst(snapshots)[p]], Reasons(rules, RankedTimes(snapshots), p, key)))
  }

  /** A rule leaves a reason exactly where it keeps, except that a bucket rule with limit 0 also leaves one on
      the newest snapshot if an earlier rule kept it. */
  lemma TagIff<K>(rule: Rule, ts: seq<int>, p: nat, already: bool, key: (BucketKind, int) -> K)
    requires p < |ts|
    ensures Tag(rule, ts, p, already, key) != [] <==>
      Keeps(rule, ts, p, key) || (rule.KeepBuckets? && rule.n == 0 && p == 0 && already)
  {
    if rule.KeepBuckets? && p > 0 {
      BucketsGrow(ts, 1, p, rule.kind, key);
      NextBucket(ts, 0, rule.kind, key);
    }
  }

  lemma KeptAtSnoc<K>(rules: seq<Rule>, rule: Rule, ts: seq<int>, p: nat, key: (BucketKind, int) -> K)
    requires p < |ts|
    ensures KeptAt(rules + [rule], ts, p, key) <==> KeptAt(rules, ts, p, key) || Keeps(rule, ts, p, key)
  {
    if Keeps(rule, ts, p, key) {
      assert rule in rules + [rule];
    } else if KeptAt(rules, ts, p, key) {
      var r :| r in rules && Keeps(r, ts, p, key);
      assert r in rules + [rule];
    }
  }

  /** A rank has a reason exactly when some rule keeps it, whatever the order of the rules. */
  lemma {:induction false} ReasonsIffKept<K>(rules: seq<Rule>, ts: seq<int>, p: nat, key: (BucketKind, int) -> K)
    requires p < |ts|
    ensures Reasons(rules, ts, p, key) != [] <==> KeptAt(rules, ts, p, key)
    decreases |rules|
  {
    if rules != [] {
      var init, last := rules[..|rules| - 1], rules[|rules| - 1];
      ReasonsIffKept(init, ts, p, key);
      assert rules == init + [last];
      KeptAtSnoc(init, last, ts, p, key);
      TagIff(last, ts, p, Reasons(init, ts, p, key) != [], key);
    }
  }

  // ---------- the loops ----------

  function Get(reasons: map<nat, seq<Reason>>, i: nat): seq<Reason> {
    if i in reasons then reasons[i] else []
  }

  /** The reasons by rank. */
  function Column(indices: seq<nat>, reasons: map<nat, seq<Reason>>): seq<seq<Reason>> {
    seq(|indices|, p requires 0 <= p < |indices| => Get(reasons, indices[p]))
  }

  /** The kept indices are the keys of `reasons`, and each has a reason. */
  ghost predicate Consistent(indices: seq<nat>, kept: set<nat>, reasons: map<nat, seq<Reason>>) {
    && kept == reasons.Keys
    && (forall i :: i in reasons ==> i in indices && reasons[i] != [])
  }

  lemma AddReason(indices: seq<nat>, kept: set<nat>, reasons: map<nat, seq<Reason>>, p: nat, tag: Reason)
    requires Distinct(indices) && p < |indices| && Consistent(indices, kept, reasons)
    ensures var reasons' := reasons[indices[p] := Get(reasons, indices[p]) + [tag]];
      var c := Column(indices, reasons);
      && Consistent(indices, kept + {indices[p]}, reasons')
      && Column(indices, reasons') == c[p := c[p] + [tag]]
  {
    var reasons' := reasons[indices[p] := Get(reasons, indices[p]) + [tag]];
    forall q | 0 <= q < |indices| && q != p
      ensures Get(reasons', indices[q]) == Get(reasons, indices[q])
    {
      assert indices[q] != indices[p];
    }
  }

  /** The reason columns that `rules` produce. */
  ghost function Computed<K>(rules: seq<Rule>, ts: seq<int>, key: (BucketKind, int) -> K): seq<seq<Reason>> {
    seq(|ts|, p requires 0 <= p < |ts| => Reasons(rules, ts, p, key))
  }

  /** `kept` and `reasons` are exactly what `rules` produce. */
  ghost predicate Tracks<K>(
    rules: seq<Rule>, indices: seq<nat>, ts: seq<int>,
    kept: set<nat>, reasons: map<nat, seq<Reason>>, key: (BucketKind, int) -> K)
  {
    && Consistent(indices, kept, reasons)
    && Column(indices, reasons) == Computed(rules, ts, key)
  }

  /** `column` with the rule's tag added on the ranks below `p`. */
  ghost function Tagged<K>(
    rule: Rule, ts: seq<int>, p: nat, column: seq<seq<Reason>>, key: (BucketKind, int) -> K): seq<seq<Reason>>
    requires |column| == |ts|
  {
    seq(|ts|, q requires 0 <= q < |ts| =>
      if q < p then column[q] + Tag(rule, ts, q, column[q] != [], key) else column[q])
  }

  lemma TaggedNext<K>(rule: Rule, ts: seq<int>, p: nat, column: seq<seq<Reason>>, key: (BucketKind, int) -> K)
    requires |column| == |ts| && p < |ts|
    ensures var now := Tagged(rule, ts, p, column, key);
      var tags := Tag(rule, ts, p, column[p] != [], key);
      && now[p] == column[p]
      && Tagged(rule, ts, p + 1, column, key) == now[p := column[p] + tags]
      && (tags == [] ==> Tagged(rule, ts, p + 1, column, key) == now)
  {
    var tags := Tag(rule, ts, p, column[p] != [], key);
    assert tags == [] ==> column[p] + tags == column[p];
  }

  lemma TaggedRest<K>(rule: Rule, ts: seq<int>, p: nat, column: seq<seq<Reason>>, key: (BucketKind, int) -> K)
    requires |column| == |ts| && p <= |ts|
    requires forall q :: p <= q < |ts| ==> Tag(rule, ts, q, column[q] != [], key) == []
    ensures Tagged(rule, ts, p, column, key) == Tagged(rule, ts, |ts|, column, key)
  {
    forall q | 0 <= q < |ts|
      ensures Tagged(rule, ts, p, column, key)[q] == Tagged(rule, ts, |ts|, column, key)[q]
    {
      assert q >= p ==> Tag(rule, ts, q, column[q] != [], key) == [];
    }
  }

  lemma ComputedNext<K>(rules: seq<Rule>, rule: Rule, ts: seq<int>, key: (BucketKind, int) -> K)
    ensures Tagged(rule, ts, |ts|, Computed(rules, ts, key), key) == Computed(rules + [rule], ts, key)
  {
    assert (rules + [rule])[..|rules|] == rules;
  }

  /** Once as many buckets as allowed have been seen, a bucket rule tags nothing further. */
  lemma BucketRuleExhausted<K>(ts: seq<int>, p: nat, q: nat, kind: BucketKind, n: nat, already: bool,
                               key: (BucketKind, int) -> K)
    requires 0 < p <= q < |ts| && n <= BucketCount(ts, p, kind, key)
    ensures Tag(KeepBuckets(kind, n), ts, q, already, key) == []
  {
    BucketsGrow(ts, 1, q, kind, key);
    BucketsGrow(ts, p, q, kind, key);
  }

  lemma {:induction false} BucketsGrow<K>(ts: seq<int>, p: nat, q: nat, kind: BucketKind, key: (BucketKind, int) -> K)
    requires p <= q <= |ts|
    ensures BucketsBefore(ts, p, kind, key) <= BucketsBefore(ts, q, kind, key)
    ensures BucketCount(ts, p, kind, key) <= BucketCount(ts, q, kind, key)
  {
    if p < q {
      BucketsGrow(ts, p, q - 1, kind, key);
    }
  }

  lemma NextBucket<K>(ts: seq<int>, p: nat, kind: BucketKind, key: (BucketKind, int) -> K)
    requires p < |ts|
    ensures BucketsBefore(ts, p + 1, kind, key) == BucketsBefore(ts, p, kind, key) + {key(kind, ts[p])}
    ensures key(kind, ts[p]) in BucketsBefore(ts, p, kind, key)
            ==> BucketsBefore(ts, p + 1, kind, key) == BucketsBefore(ts, p, kind, key)
    ensures BucketCount(ts, p + 1, kind, key) == BucketCount(ts, p, kind, key)
              + if key(kind, ts[p]) in BucketsBefore(ts, p, kind, key) then 0 else 1
  {
  }

  lemma PassOver<K>(
    indices: seq<nat>, ts: seq<int>, p: nat, kind: BucketKind, n: nat, column: seq<seq<Reason>>,
    kept: set<nat>, reasons: map<nat, seq<Reason>>, key: (BucketKind, int) -> K)
    requires |column| == |ts| == |indices| && p < |ts|
    requires Column(indices, reasons) == Tagged(KeepBuckets(kind, n), ts, p, column, key)
    requires Consistent(indices, kept, reasons)
    requires key(kind, ts[p]) in BucketsBefore(ts, p, kind, key) || (n == 0 && indices[p] !in kept)
    ensures Column(indices, reasons) == Tagged(KeepBuckets(kind, n), ts, p + 1, column, key)
  {
    TaggedNext(KeepBuckets(kind, n), ts, p, column, key);
    assert Column(indices, reasons)[p] == column[p];
    assert Get(reasons, indices[p]) == column[p];
  }

  lemma Record<K>(
    indices: seq<nat>, ts: seq<int>, p: nat, kind: BucketKind, n: nat, column: seq<seq<Reason>>,
    kept: set<nat>, reasons: map<nat, seq<Reason>>, key: (BucketKind, int) -> K)
    requires |column| == |ts| == |indices| && p < |ts| && Distinct(indices)
    requires Column(indices, reasons) == Tagged(KeepBuckets(kind, n), ts, p, column, key)
    requires Consistent(indices, kept, reasons)
    requires key(kind, ts[p]) !in BucketsBefore(ts, p, kind, key)
    requires BucketCount(ts, p, kind, key) < n || (n == 0 && BucketCount(ts, p, kind, key) == 0 && indices[p] in kept)
    ensures var tag := Bucket(kind, BucketCount(ts, p, kind, key) + 1);
      var reasons' := reasons[indices[p] := Get(reasons, indices[p]) + [tag]];
      && Consistent(indices, kept + {indices[p]}, reasons')
      && Column(indices, reasons') == Tagged(KeepBuckets(kind, n), ts, p + 1, column, key)
  {
    TaggedNext(KeepBuckets(kind, n), ts, p, column, key);
    AddReason(indices, kept, reasons, p, Bucket(kind, BucketCount(ts, p, kind, key) + 1));
    assert Column(indices, reasons)[p] == column[p];
  }

  lemma Finish<K>(rules: seq<Rule>, ts: seq<int>, p: nat, kind: BucketKind, n: nat, key: (BucketKind, int) -> K)
    requires p <= |ts|
    requires p == |ts| || (p > 0 && n <= BucketCount(ts, p, kind, key))
    ensures Tagged(KeepBuckets(kind, n), ts, p, Computed(rules, ts, key), key)
         == Computed(rules + [KeepBuckets(kind, n)], ts, key)
  {
    var rule, column := KeepBuckets(kind, n), Computed(rules, ts, key);
    forall q | p <= q < |ts|
      ensures Tag(rule, ts, q, column[q] != [], key) == []
    {
      BucketRuleExhausted(ts, p, q, kind, n, column[q] != [], key);
    }
    TaggedRest(rule, ts, p, column, key);
    ComputedNext(rules, rule, ts, key);
  }

  /** The state of the bucket loop after looking at `p` ranks. */
  ghost predicate BucketLoop<K>(
    indices: seq<nat>, ts: seq<int>, p: nat, kind: BucketKind, n: nat, column: seq<seq<Reason>>,
    kept: set<nat>, reasons: map<nat, seq<Reason>>, key: (BucketKind, int) -> K)
  {
    && |column| == |ts| == |indices| && p <= |ts|
    && Consistent(indices, kept, reasons)
    && Column(indices, reasons) == Tagged(KeepBuckets(kind, n), ts, p, column, key)
  }

  lemma BucketLoopDone<K>(
    rules: seq<Rule>, indices: seq<nat>, ts: seq<int>, p: nat, kind: BucketKind, n: nat,
    kept: set<nat>, reasons: map<nat, seq<Reason>>, key: (BucketKind, int) -> K)
    requires |Computed(rules, ts, key)| == |ts|
    requires BucketLoop(indices, ts, p, kind, n, Computed(rules, ts, key), kept, reasons, key)
    requires p == |ts| || (p > 0 && n <= BucketCount(ts, p, kind, key))
    ensures Tracks(rules + [KeepBuckets(kind, n)], indices, ts, kept, reasons, key)
  {
    Finish(rules, ts, p, kind, n, key);
  }

  /** The newest snapshot of a bucket not seen before (prune.rs:106-120). */
  method VisitBucket<K>(
    idx: nat, kept0: set<nat>, reasons0: map<nat, seq<Reason>>, keptCount0: nat,
    maxBuckets: nat, kind: BucketKind, ghost key: (BucketKind, int) -> K,
    ghost indices: seq<nat>, ghost ts: seq<int>, ghost p: nat, ghost column: seq<seq<Reason>>)
    returns (kept: set<nat>, reasons: map<nat, seq<Reason>>, keptCount: nat)
    requires BucketLoop(indices, ts, p, kind, maxBuckets, column, kept0, reasons0, key)
    requires Distinct(indices) && p < |indices| && idx == indices[p]
    requires key(kind, ts[p]) !in BucketsBefore(ts, p, kind, key)
    requires keptCount0 == BucketCount(ts, p, kind, key)
    requires keptCount0 < maxBuckets || keptCount0 == maxBuckets == 0
    ensures BucketLoop(indices, ts, p + 1, kind, maxBuckets, column, kept, reasons, key)
    ensures keptCount == keptCount0 + if maxBuckets > 0 || idx in kept0 then 1 else 0
  {
    kept, reasons, keptCount := kept0, reasons0, keptCount0;
    if idx in kept {
      Record(indices, ts, p, kind, maxBuckets, column, kept, reasons, key);
      assert kept + {idx} == kept;
      reasons := reasons[idx := Get(reasons, idx) + [Bucket(kind, keptCount + 1)]];
      keptCount := keptCount + 1;
    } else if keptCount < maxBuckets {
      Record(indices, ts, p, kind, maxBuckets, column, kept, reasons, key);
      kept := kept + {idx};
      reasons := reasons[idx := Get(reasons, idx) + [Bucket(kind, keptCount + 1)]];
      keptCount := keptCount + 1;
    } else {
      PassOver(indices, ts, p, kind, maxBuckets, column, kept, reasons, key);
    }
  }

  /** `apply_bucket_rule`. */
  method ApplyBucketRule<K(==)>(
    indices: seq<nat>, times: seq<int>, kept0: set<nat>, reasons0: map<nat, seq<Reason>>,
    maxBuckets: nat, kind: BucketKind, key: (BucketKind, int) -> K, ghost rules: seq<Rule>)
    returns (kept: set<nat>, reasons: map<nat, seq<Reason>>)
    requires Distinct(indices) && InRange(indices, |times|)
    requires Tracks(rules, indices, Ranked(indices, times), kept0, reasons0, key)
    ensures Tracks(rules + [KeepBuckets(kind, maxBuckets)], indices, Ranked(indices, times), kept, reasons, key)
  {
    ghost var ts, rule := Ranked(indices, times), KeepBuckets(kind, maxBuckets);
    ghost var column0 := Computed(rules, ts, key);
    kept, reasons := kept0, reasons0;
    var seenBuckets: set<K> := {};
    var keptCount := 0;
    var p := 0;
    assert Tagged(rule, ts, 0, column0, key) == column0;
    while p < |indices|
      invariant BucketLoop(indices, ts, p, kind, maxBuckets, column0, kept, reasons, key)
      invariant seenBuckets == BucketsBefore(ts, p, kind, key)
      invariant keptCount == BucketCount(ts, p, kind, key)
      invariant keptCount < maxBuckets || keptCount == 0 == maxBuckets
    {
      var idx := indices[p];
      var bucket := key(kind, times[idx]);
      assert bucket == key(kind, ts[p]);
      NextBucket(ts, p, kind, key);
      if bucket in seenBuckets {
        PassOver(indices, ts, p, kind, maxBuckets, column0, kept, reasons, key);
        p := p + 1;
        continue;
      }
      seenBuckets := seenBuckets + {bucket};
      kept, reasons, keptCount :=
        VisitBucket(idx, kept, reasons, keptCount, maxBuckets, kind, key, indices, ts, p, column0);
      p := p + 1;
      if keptCount >= maxBuckets {
        break;
      }
    }
    BucketLoopDone(rules, indices, ts, p, kind, maxBuckets, kept, reasons, key);
  }

  lemma TrackNothing<K>(indices: seq<nat>, ts: seq<int>, key: (BucketKind, int) -> K)
    requires |ts| == |indices|
    ensures Tracks([], indices, ts, {}, map[], key)
  {
    assert Column(indices, map[]) == Computed([], ts, key);
  }

  /** One rank of a rule that tags by position or time: extend the tagged prefix by `p`. */
  lemma TagRank<K>(
    rule: Rule, indices: seq<nat>, ts: seq<int>, p: nat, column: seq<seq<Reason>>,
    kept: set<nat>, reasons: map<nat, seq<Reason>>, tag: Reason, key: (BucketKind, int) -> K)
    requires Distinct(indices) && |column| == |ts| == |indices| && p < |ts|
    requires Consistent(indices, kept, reasons)
    requires Column(indices, reasons) == Tagged(rule, ts, p, column, key)
    ensures var tags := Tag(rule, ts, p, column[p] != [], key);
      && (tags == [tag] ==>
            var reasons' := reasons[indices[p] := Get(reasons, indices[p]) + [tag]];
            && Consistent(indices, kept + {indices[p]}, reasons')
            && Column(indices, reasons') == Tagged(rule, ts, p + 1, column, key))
      && (tags == [] ==> Column(indices, reasons) == Tagged(rule, ts, p + 1, column, key))
  {
    TaggedNext(rule, ts, p, column, key);
    AddReason(indices, kept, reasons, p, tag);
    assert Column(indices, reasons)[p] == column[p];
  }

  /** The `keep_within` loop. */
  method ApplyWithin<K>(
    indices: seq<nat>, times: seq<int>, cutoff: int, ghost key: (BucketKind, int) -> K)
    returns (kept: set<nat>, reasons: map<nat, seq<Reason>>)
    requires Distinct(indices) && InRange(indices, |times|)
    ensures Tracks([KeepWithin(cutoff)], indices, Ranked(indices, times), kept, reasons, key)
  {
    ghost var ts, rule := Ranked(indices, times), KeepWithin(cutoff);
    ghost var column0 := Computed([], ts, key);
    kept, reasons := {}, map[];
    TrackNothing(indices, ts, key);
    assert Tagged(rule, ts, 0, column0, key) == column0;
    for p := 0 to |indices|
      invariant Consistent(indices, kept, reasons)
      invariant Column(indices, reasons) == Tagged(rule, ts, p, column0, key)
    {
      TagRank(rule, indices, ts, p, column0, kept, reasons, Within, key);
      var idx := indices[p];
      if times[idx] >= cutoff {
        kept := kept + {idx};
        reasons := reasons[idx := Get(reasons, idx) + [Within]];
      }
    }
    ComputedNext([], rule, ts, key);
    assert [] + [rule] == [rule];
  }

  /** The `keep_last` loop. */
  method ApplyLast<K>(
    indices: seq<nat>, ghost ts: seq<int>, kept0: set<nat>, reasons0: map<nat, seq<Reason>>, n: nat,
    ghost key: (BucketKind, int) -> K, ghost rules: seq<Rule>)
    returns (kept: set<nat>, reasons: map<nat, seq<Reason>>)
    requires Distinct(indices) && |ts| == |indices|
    requires Tracks(rules, indices, ts, kept0, reasons0, key)
    ensures Tracks(rules + [KeepLast(n)], indices, ts, kept, reasons, key)
  {
    ghost var rule, column0 := KeepLast(n), Computed(rules, ts, key);
    kept, reasons := kept0, reasons0;
    assert Tagged(rule, ts, 0, column0, key) == column0;
    var p := 0;
    while p < |indices|
      invariant 0 <= p <= |indices|
      invariant Consistent(indices, kept, reasons)
      invariant Column(indices, reasons) == Tagged(rule, ts, p, column0, key)
    {
      if p >= n {
        break;
      }
      TagRank(rule, indices, ts, p, column0, kept, reasons, Last(p + 1), key);
      var idx := indices[p];
      kept := kept + {idx};
      reasons := reasons[idx := Get(reasons, idx) + [Last(p + 1)]];
      p := p + 1;
    }
    TaggedRest(rule, ts, p, column0, key);
    ComputedNext(rules, rule, ts, key);
  }

  method ApplyBucketLimit<K(==)>(
    indices: seq<nat>, times: seq<int>, kept0: set<nat>, reasons0: map<nat, seq<Reason>>,
    limit: Option<nat>, kind: BucketKind, key: (BucketKind, int) -> K, ghost rules: seq<Rule>)
    returns (kept: set<nat>, reasons: map<nat, seq<Reason>>)
    requires Distinct(indices) && InRange(indices, |times|)
    requires Tracks(rules, indices, Ranked(indices, times), kept0, reasons0, key)
    ensures Tracks(rules + BucketRule(kind, limit), indices, Ranked(indices, times), kept, reasons, key)
  {
    kept, reasons := kept0, reasons0;
    if limit.Some? {
      kept, reasons := ApplyBucketRule(indices, times, kept, reasons, limit.value, kind, key, rules);
    } else {
      assert rules + [] == rules;
    }
  }

  /** Running all the rules of a policy: lines 148-229 of prune.rs. */
  method ApplyRules<K(==)>(indices: seq<nat>, times: seq<int>, policy: Policy, key: (BucketKind, int) -> K)
    returns (kept: set<nat>, reasons: map<nat, seq<Reason>>)
    requires Distinct(indices) && InRange(indices, |times|)
    requires policy.keepWithin != Some(Malformed)
    ensures Tracks(RulesOf(policy), indices, Ranked(indices, times), kept, reasons, key)
  {
    ghost var ts, rules := Ranked(indices, times), [];
    kept, reasons := {}, map[];
    TrackNothing(indices, ts, key);
    if policy.keepWithin.Some? {
      kept, reasons := ApplyWithin(indices, times, policy.keepWithin.value.cutoff, key);
      rules := [KeepWithin(policy.keepWithin.value.cutoff)];
    }
    if policy.keepLast.Some? {
      kept, reasons := ApplyLast(indices, ts, kept, reasons, policy.keepLast.value, key, rules);
      rules := rules + [KeepLast(policy.keepLast.value)];
    }
    kept, reasons := ApplyBucketLimit(indices, times, kept, reasons, policy.keepHourly, Hourly, key, rules);
    rules := rules + BucketRule(Hourly, policy.keepHourly);
    kept, reasons := ApplyBucketLimit(indices, times, kept, reasons, policy.keepDaily, Daily, key, rules);
    rules := rules + BucketRule(Daily, policy.keepDaily);
    kept, reasons := ApplyBucketLimit(indices, times, kept, reasons, policy.keepWeekly, Weekly, key, rules);
    rules := rules + BucketRule(Weekly, policy.keepWeekly);
    kept, reasons := ApplyBucketLimit(indices, times, kept, reasons, policy.keepMonthly, Monthly, key, rules);
    rules := rules + BucketRule(Monthly, policy.keepMonthly);
    kept, reasons := ApplyBucketLimit(indices, times, kept, reasons, policy.keepYearly, Yearly, key, rules);
    rules := rules + BucketRule(Yearly, policy.keepYearly);
    assert rules == RulesOf(policy);
  }

  lemma {:induction false} BoundedSize(s: set<nat>, n: nat)
    requires forall i :: i in s ==> i < n
    ensures |s| <= n
  {
    if n == 0 {
      assert s == {};
    } else {
      BoundedSize(s - {n - 1}, n - 1);
    }
  }

  /** Something is kept exactly when some rank is. */
  lemma KeptNonEmpty<K>(
    rules: seq<Rule>, indices: seq<nat>, ts: seq<int>, kept: set<nat>, reasons: map<nat, seq<Reason>>,
    key: (BucketKind, int) -> K)
    requires |ts| == |indices| && Tracks(rules, indices, ts, kept, reasons, key)
    ensures kept == {} <==> forall p :: 0 <= p < |ts| ==> !KeptAt(rules, ts, p, key)
  {
    forall p | 0 <= p < |ts|
      ensures indices[p] in kept <==> KeptAt(rules, ts, p, key)
    {
      ReasonsIffKept(rules, ts, p, key);
      assert Column(indices, reasons)[p] == Computed(rules, ts, key)[p];
    }
    if kept != {} {
      var i :| i in kept;
      var p :| 0 <= p < |indices| && indices[p] == i;
    }
  }

  /** Turning reasons into decisions: lines 240-254 of prune.rs. */
  method Decide(snapshots: seq<Snapshot>, indices: seq<nat>, reasons: map<nat, seq<Reason>>)
    returns (entries: seq<PruneEntry>)
    requires InRange(indices, |snapshots|) && forall i :: i in reasons ==> reasons[i] != []
    ensures |entries| == |indices|
    ensures forall p :: 0 <= p < |indices| ==> entries[p] == Entry(snapshots[indices[p]], Column(indices, reasons)[p])
  {
    entries := [];
    for p := 0 to |indices|
      invariant |entries| == p
      invariant forall q :: 0 <= q < p ==> entries[q] == Entry(snapshots[indices[q]], Column(indices, reasons)[q])
    {
      var idx := indices[p];
      var decision := if idx in reasons then Keep(reasons[idx]) else Prune;
      entries := entries + [PruneEntry(snapshots[idx].name, snapshots[idx].time, decision)];
    }
  }

  /** `apply_policy`. */
  method ApplyPolicy<K(==)>(snapshots: seq<Snapshot>, policy: Policy, key: (BucketKind, int) -> K)
    returns (r: Result<seq<PruneEntry>, PruneError>)
    ensures r == Outcome(snapshots, policy, key)
  {
    if snapshots == [] {
      return Ok([]);
    }
    var indices, times := NewestFirst(snapshots), Times(snapshots);
    NewestFirstProps(snapshots);
    if policy.keepWithin == Some(Malformed) {
      return Err(BadTimespan);
    }
    var kept, reasons := ApplyRules(indices, times, policy, key);
    ghost var rules, ts := RulesOf(policy), RankedTimes(snapshots);
    KeptNonEmpty(rules, indices, ts, kept, reasons, key);
    BoundedSize(kept, |snapshots|);
    var pruneCount: nat := |snapshots| - |kept|;
    if pruneCount == |snapshots| {
      return Err(WouldPruneAll);
    }
    var entries := Decide(snapshots, indices, reasons);
    assert entries == Entries(snapshots, rules, key);
    r := Ok(entries);
  }
}
