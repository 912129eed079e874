/** What the closed form of retention guarantees, for every policy and every bucket function. */
module RetentionLaws {
  import opened Wrappers
  import opened Sequences
  import opened Retention

  // ---------- which rules a policy has ----------

  function Limit(policy: Policy, kind: BucketKind): Option<nat> {
    match kind
    case Hourly => policy.keepHourly
    case Daily => policy.keepDaily
    case Weekly => policy.keepWeekly
    case Monthly => policy.keepMonthly
    case Yearly => policy.keepYearly
  }

  predicate HasRule(policy: Policy, r: Rule) {
    match r
    case KeepWithin(cutoff) => policy.keepWithin == Some(Since(cutoff))
    case KeepLast(n) => policy.keepLast == Some(n)
    case KeepBuckets(kind, n) => Limit(policy, kind) == Some(n)
  }

  lemma RulesOfHas(policy: Policy, r: Rule)
    requires policy.keepWithin != Some(Malformed)
    ensures r in RulesOf(policy) <==> HasRule(policy, r)
  {
    var within := if policy.keepWithin.Some? then [KeepWithin(policy.keepWithin.value.cutoff)] else [];
    var last := if policy.keepLast.Some? then [KeepLast(policy.keepLast.value)] else [];
    assert r in RulesOf(policy) <==>
      || r in within || r in last
      || r in BucketRule(Hourly, policy.keepHourly) || r in BucketRule(Daily, policy.keepDaily)
      || r in BucketRule(Weekly, policy.keepWeekly) || r in BucketRule(Monthly, policy.keepMonthly)
      || r in BucketRule(Yearly, policy.keepYearly);
  }

  /** The snapshot of rank `p` is kept exactly when some rule of the policy keeps it by itself. */
  lemma ClosedForm<K>(snapshots: seq<Snapshot>, policy: Policy, key: (BucketKind, int) -> K, p: nat)
    requires Outcome(snapshots, policy, key).Ok? && p < |snapshots|
    ensures var entries, ts := Outcome(snapshots, policy, key).value, RankedTimes(snapshots);
      && |entries| == |snapshots|
      && (entries[p].decision.Keep? <==> exists r :: HasRule(policy, r) && Keeps(r, ts, p, key))
  {
    var rules, ts := RulesOf(policy), RankedTimes(snapshots);
    ReasonsIffKept(rules, ts, p, key);
    if KeptAt(rules, ts, p, key) {
      var r :| r in rules && Keeps(r, ts, p, key);
      RulesOfHas(policy, r);
    }
    forall r | HasRule(policy, r) && Keeps(r, ts, p, key)
      ensures KeptAt(rules, ts, p, key)
    {
      RulesOfHas(policy, r);
    }
  }

  /** A policy has a rule in the sense of the configuration exactly when some rule is in force, or its window
      cannot be read. */
  lemma HasAnyRuleIff(policy: Policy)
    ensures policy.HasAnyRule() <==> policy.keepWithin == Some(Malformed) || exists r :: HasRule(policy, r)
  {
    if policy.keepWithin.Some? && policy.keepWithin.value.Since? {
      assert HasRule(policy, KeepWithin(policy.keepWithin.value.cutoff));
    }
    if policy.keepLast.Some? {
      assert HasRule(policy, KeepLast(policy.keepLast.value));
    }
    forall kind | Limit(policy, kind).Some?
      ensures exists r :: HasRule(policy, r)
    {
      assert HasRule(policy, KeepBuckets(kind, Limit(policy, kind).value));
    }
    assert policy.keepHourly == Limit(policy, Hourly) && policy.keepDaily == Limit(policy, Daily);
    assert policy.keepWeekly == Limit(policy, Weekly) && policy.keepMonthly == Limit(policy, Monthly);
    assert policy.keepYearly == Limit(policy, Yearly);
  }

  /** Some configured rule keeps rank `p` on its own. */
  ghost predicate KeptBySome<K>(policy: Policy, ts: seq<int>, p: nat, key: (BucketKind, int) -> K)
    requires p < |ts|
  {
    exists r :: HasRule(policy, r) && Keeps(r, ts, p, key)
  }

  /** Pruning fails exactly for a window that cannot be read, or when no configured rule keeps anything. */
  lemma FailsIff<K>(snapshots: seq<Snapshot>, policy: Policy, key: (BucketKind, int) -> K)
    ensures Outcome(snapshots, policy, key) == Err(BadTimespan)
       <==> snapshots != [] && policy.keepWithin == Some(Malformed)
    ensures Outcome(snapshots, policy, key) == Err(WouldPruneAll)
       <==> && snapshots != [] && policy.keepWithin != Some(Malformed)
            && forall p :: 0 <= p < |snapshots| ==> !KeptBySome(policy, RankedTimes(snapshots), p, key)
  {
    if snapshots != [] && policy.keepWithin != Some(Malformed) {
      var rules, ts := RulesOf(policy), RankedTimes(snapshots);
      forall p | 0 <= p < |ts|
        ensures KeptAt(rules, ts, p, key) <==> KeptBySome(policy, ts, p, key)
      {
        KeptAtIff(policy, ts, p, key);
      }
    }
  }

  lemma KeptAtIff<K>(policy: Policy, ts: seq<int>, p: nat, key: (BucketKind, int) -> K)
    requires policy.keepWithin != Some(Malformed) && p < |ts|
    ensures KeptAt(RulesOf(policy), ts, p, key) <==> KeptBySome(policy, ts, p, key)
  {
    if KeptAt(RulesOf(policy), ts, p, key) {
      var r :| r in RulesOf(policy) && Keeps(r, ts, p, key);
      RulesOfHas(policy, r);
    }
    forall r | HasRule(policy, r) && Keeps(r, ts, p, key)
      ensures KeptAt(RulesOf(policy), ts, p, key)
    {
      RulesOfHas(policy, r);
    }
  }

  lemma EntryTime<K>(snapshots: seq<Snapshot>, policy: Policy, key: (BucketKind, int) -> K, p: nat)
    requires Outcome(snapshots, policy, key).Ok? && p < |snapshots|
    ensures |Outcome(snapshots, policy, key).value| == |snapshots| && policy.keepWithin != Some(Malformed)
    ensures Outcome(snapshots, policy, key).value[p].time == RankedTimes(snapshots)[p]
  {
    NewestFirstProps(snapshots);
  }

  /** A window keeps every snapshot in it, and the newest-n rule the first n entries. */
  lemma WindowAndNewest<K>(snapshots: seq<Snapshot>, policy: Policy, key: (BucketKind, int) -> K, p: nat)
    requires Outcome(snapshots, policy, key).Ok? && p < |snapshots|
    ensures |Outcome(snapshots, policy, key).value| == |snapshots| && policy.keepWithin != Some(Malformed)
    ensures var e := Outcome(snapshots, policy, key).value[p];
      && (policy.keepWithin.Some? && e.time >= policy.keepWithin.value.cutoff ==> e.decision.Keep?)
      && (policy.keepLast.Some? && p < policy.keepLast.value ==> e.decision.Keep?)
  {
    EntryTime(snapshots, policy, key, p);
    ClosedForm(snapshots, policy, key, p);
    var ts := RankedTimes(snapshots);
    if policy.keepWithin.Some? && ts[p] >= policy.keepWithin.value.cutoff {
      var r := KeepWithin(policy.keepWithin.value.cutoff);
      assert HasRule(policy, r) && Keeps(r, ts, p, key);
    }
    if policy.keepLast.Some? && p < policy.keepLast.value {
      var r := KeepLast(policy.keepLast.value);
      assert HasRule(policy, r) && Keeps(r, ts, p, key);
    }
  }

  /** A window on its own keeps nothing else. */
  lemma WindowOnly<K>(snapshots: seq<Snapshot>, cutoff: int, key: (BucketKind, int) -> K, p: nat)
    requires var policy := Policy(Some(Since(cutoff)), None, None, None, None, None, None);
      Outcome(snapshots, policy, key).Ok? && p < |snapshots|
    ensures var policy := Policy(Some(Since(cutoff)), None, None, None, None, None, None);
      var entries := Outcome(snapshots, policy, key).value;
      |entries| == |snapshots| && (entries[p].decision.Keep? <==> entries[p].time >= cutoff)
  {
    var policy := Policy(Some(Since(cutoff)), None, None, None, None, None, None);
    EntryTime(snapshots, policy, key, p);
    ClosedForm(snapshots, policy, key, p);
    WindowAndNewest(snapshots, policy, key, p);
    forall r | HasRule(policy, r)
      ensures r == KeepWithin(cutoff)
    {
    }
  }

  /** Nor does the newest-n rule. */
  lemma NewestOnly<K>(snapshots: seq<Snapshot>, n: nat, key: (BucketKind, int) -> K, p: nat)
    requires var policy := Policy(None, Some(n), None, None, None, None, None);
      Outcome(snapshots, policy, key).Ok? && p < |snapshots|
    ensures var policy := Policy(None, Some(n), None, None, None, None, None);
      var entries := Outcome(snapshots, policy, key).value;
      |entries| == |snapshots| && (entries[p].decision.Keep? <==> p < n)
  {
    var policy := Policy(None, Some(n), None, None, None, None, None);
    ClosedForm(snapshots, policy, key, p);
    WindowAndNewest(snapshots, policy, key, p);
    forall r | HasRule(policy, r)
      ensures r == KeepLast(n)
    {
    }
  }

  /** The number in a reason is the rank, or the number of buckets up to and including this one. */
  lemma {:induction false} ReasonNumbers<K>(
    rules: seq<Rule>, ts: seq<int>, p: nat, key: (BucketKind, int) -> K, kind: BucketKind, nth: nat)
    requires p < |ts|
    ensures Last(nth) in Reasons(rules, ts, p, key) ==> nth == p + 1
    ensures Bucket(kind, nth) in Reasons(rules, ts, p, key) ==>
      nth == BucketCount(ts, p + 1, kind, key) == BucketCount(ts, p, kind, key) + 1
    decreases |rules|
  {
    if rules != [] {
      var init, last := rules[..|rules| - 1], rules[|rules| - 1];
      ReasonNumbers(init, ts, p, key, kind, nth);
      TagNumbers(last, ts, p, Reasons(init, ts, p, key) != [], key, kind, nth);
    }
  }

  lemma TagNumbers<K>(
    rule: Rule, ts: seq<int>, p: nat, already: bool, key: (BucketKind, int) -> K, kind: BucketKind, nth: nat)
    requires p < |ts|
    ensures Last(nth) in Tag(rule, ts, p, already, key) ==> nth == p + 1
    ensures Bucket(kind, nth) in Tag(rule, ts, p, already, key) ==>
      nth == BucketCount(ts, p + 1, kind, key) == BucketCount(ts, p, kind, key) + 1
  {
    NextBucket(ts, p, kind, key);
  }

  /** The rules could run in any order, or more than once. */
  lemma RuleOrderIrrelevant<K>(rules: seq<Rule>, rules': seq<Rule>, ts: seq<int>, p: nat, key: (BucketKind, int) -> K)
    requires p < |ts| && forall r :: r in rules <==> r in rules'
    ensures Reasons(rules, ts, p, key) != [] <==> Reasons(rules', ts, p, key) != []
  {
    ReasonsIffKept(rules, ts, p, key);
    ReasonsIffKept(rules', ts, p, key);
  }

  // ---------- one snapshot per bucket ----------

  ghost function KeptRanks<K>(rule: Rule, ts: seq<int>, m: nat, key: (BucketKind, int) -> K): set<nat>
    requires m <= |ts|
  {
    set p: nat | p < m && Keeps(rule, ts, p, key)
  }

  lemma KeptRanksNext<K>(rule: Rule, ts: seq<int>, m: nat, key: (BucketKind, int) -> K)
    requires m < |ts|
    ensures |KeptRanks(rule, ts, m + 1, key)|
         == |KeptRanks(rule, ts, m, key)| + if Keeps(rule, ts, m, key) then 1 else 0
  {
    var before := KeptRanks(rule, ts, m, key);
    assert KeptRanks(rule, ts, m + 1, key) == if Keeps(rule, ts, m, key) then before + {m} else before;
  }

  /** A bucket rule keeps exactly as many snapshots as there are buckets, up to its limit ... */
  lemma {:induction false} OnePerBucket<K>(ts: seq<int>, m: nat, kind: BucketKind, n: nat, key: (BucketKind, int) -> K)
    requires m <= |ts|
    ensures var buckets := BucketCount(ts, m, kind, key);
      |KeptRanks(KeepBuckets(kind, n), ts, m, key)| == if buckets < n then buckets else n
  {
    if m == 0 {
      assert KeptRanks(KeepBuckets(kind, n), ts, m, key) == {};
    } else {
      OnePerBucket(ts, m - 1, kind, n, key);
      KeptRanksNext(KeepBuckets(kind, n), ts, m - 1, key);
    }
  }

  /** ... and each of them is the newest of its bucket. */
  lemma KeptIsNewestOfBucket<K>(ts: seq<int>, p: nat, q: nat, kind: BucketKind, n: nat, key: (BucketKind, int) -> K)
    requires q < p < |ts| && Keeps(KeepBuckets(kind, n), ts, p, key)
    ensures key(kind, ts[q]) != key(kind, ts[p])
  {
    BucketsBeforeHas(ts, p, kind, key, key(kind, ts[q]));
  }

  // ---------- loosening a policy ----------

  predicate AtMost(a: Option<nat>, b: Option<nat>) {
    a.None? || (b.Some? && a.value <= b.value)
  }

  /** `looser` keeps at least as long and at least as many, rule by rule. */
  predicate Loosens(policy: Policy, looser: Policy) {
    && policy.keepWithin != Some(Malformed) && looser.keepWithin != Some(Malformed)
    && (policy.keepWithin.Some? ==>
          looser.keepWithin.Some? && looser.keepWithin.value.cutoff <= policy.keepWithin.value.cutoff)
    && AtMost(policy.keepLast, looser.keepLast)
    && AtMost(policy.keepHourly, looser.keepHourly)
    && AtMost(policy.keepDaily, looser.keepDaily)
    && AtMost(policy.keepWeekly, looser.keepWeekly)
    && AtMost(policy.keepMonthly, looser.keepMonthly)
    && AtMost(policy.keepYearly, looser.keepYearly)
  }

  /** The rule of `looser` that stands in for rule `r`. */
  function Counterpart(r: Rule, policy: Policy, looser: Policy): (r': Rule)
    requires Loosens(policy, looser) && HasRule(policy, r)
    ensures HasRule(looser, r')
    ensures match r
      case KeepWithin(cutoff) => r'.KeepWithin? && r'.cutoff <= cutoff
      case KeepLast(n) => r'.KeepLast? && n <= r'.n
      case KeepBuckets(kind, n) => r'.KeepBuckets? && r'.kind == kind && n <= r'.n
  {
    match r
    case KeepWithin(_) => KeepWithin(looser.keepWithin.value.cutoff)
    case KeepLast(_) => KeepLast(looser.keepLast.value)
    case KeepBuckets(kind, _) => KeepBuckets(kind, Limit(looser, kind).value)
  }

  lemma KeptStaysKept<K>(policy: Policy, looser: Policy, ts: seq<int>, p: nat, key: (BucketKind, int) -> K)
    requires Loosens(policy, looser) && p < |ts| && KeptAt(RulesOf(policy), ts, p, key)
    ensures KeptAt(RulesOf(looser), ts, p, key)
  {
    var rules, rules' := RulesOf(policy), RulesOf(looser);
    var r :| r in rules && Keeps(r, ts, p, key);
    RulesOfHas(policy, r);
    var r' := Counterpart(r, policy, looser);
    RulesOfHas(looser, r');
    assert r' in rules' && Keeps(r', ts, p, key);
  }

  lemma LoosenedIsOk<K>(snapshots: seq<Snapshot>, policy: Policy, looser: Policy, key: (BucketKind, int) -> K)
    requires Loosens(policy, looser) && Outcome(snapshots, policy, key).Ok?
    ensures Outcome(snapshots, looser, key).Ok?
    ensures |Outcome(snapshots, policy, key).value| == |Outcome(snapshots, looser, key).value| == |snapshots|
  {
    if snapshots != [] {
      var ts := RankedTimes(snapshots);
      var p :| 0 <= p < |ts| && KeptAt(RulesOf(policy), ts, p, key);
      KeptStaysKept(policy, looser, ts, p, key);
    }
  }

  /** The entry of rank `p` is a keep exactly when some rule keeps the rank. */
  lemma KeepIffKeptAt<K>(snapshots: seq<Snapshot>, policy: Policy, key: (BucketKind, int) -> K, p: nat)
    requires policy.keepWithin != Some(Malformed) && Outcome(snapshots, policy, key).Ok? && p < |snapshots|
    ensures |Outcome(snapshots, policy, key).value| == |snapshots|
    ensures Outcome(snapshots, policy, key).value[p].decision.Keep?
       <==> KeptAt(RulesOf(policy), RankedTimes(snapshots), p, key)
  {
    ReasonsIffKept(RulesOf(policy), RankedTimes(snapshots), p, key);
  }

  /** Raising a count or reaching further back never prunes more. */
  lemma Monotone<K>(snapshots: seq<Snapshot>, policy: Policy, looser: Policy, key: (BucketKind, int) -> K)
    requires Loosens(policy, looser)
    ensures var outcome, outcome' := Outcome(snapshots, policy, key), Outcome(snapshots, looser, key);
      outcome.Ok? ==>
        && outcome'.Ok? && |outcome.value| == |outcome'.value| == |snapshots|
        && forall p :: 0 <= p < |snapshots| && outcome.value[p].decision.Keep? ==> outcome'.value[p].decision.Keep?
  {
    if Outcome(snapshots, policy, key).Ok? {
      LoosenedIsOk(snapshots, policy, looser, key);
      var outcome, outcome' := Outcome(snapshots, policy, key), Outcome(snapshots, looser, key);
      forall p | 0 <= p < |snapshots| && outcome.value[p].decision.Keep?
        ensures outcome'.value[p].decision.Keep?
      {
        KeepIffKeptAt(snapshots, policy, key, p);
        KeptStaysKept(policy, looser, RankedTimes(snapshots), p, key);
        KeepIffKeptAt(snapshots, looser, key, p);
      }
    }
  }

  // ---------- the result is the sorted input ----------

  function SnapshotId(s: Snapshot): (string, int) {
    (s.name, s.time)
  }

  function EntryId(e: PruneEntry): (string, int) {
    (e.name, e.time)
  }

  function Age(id: (string, int)): int {
    -id.1
  }

  /** A successful run lists every snapshot once, newest first, equal times in input order. */
  lemma OutcomeIsSortedInput<K>(snapshots: seq<Snapshot>, policy: Policy, key: (BucketKind, int) -> K)
    requires Outcome(snapshots, policy, key).Ok?
    ensures Map(Outcome(snapshots, policy, key).value, EntryId) == SortBy(Map(snapshots, SnapshotId), Age)
  {
    if snapshots != [] {
      var order, n := NewestFirst(snapshots), |snapshots|;
      NewestFirstProps(snapshots);
      var byTime := (i: nat) => if i < |snapshots| then -snapshots[i].time else 0;
      var at := (i: nat) => if i < |snapshots| then SnapshotId(snapshots[i]) else ("", 0);
      SortMap(Range(n), at, Age, byTime);
      assert order == SortBy(Range(n), byTime);
      assert Map(Range(n), at) == Map(snapshots, SnapshotId);
      assert Map(Outcome(snapshots, policy, key).value, EntryId) == Map(order, at);
    } else {
      assert Map(snapshots, SnapshotId) == [];
    }
  }

  /** A successful run on any snapshots at all keeps one of them. */
  lemma KeepsSomething<K>(snapshots: seq<Snapshot>, policy: Policy, key: (BucketKind, int) -> K)
    requires snapshots != [] && Outcome(snapshots, policy, key).Ok?
    ensures exists e :: e in Outcome(snapshots, policy, key).value && e.decision.Keep?
  {
    var rules, ts := RulesOf(policy), RankedTimes(snapshots);
    var p :| 0 <= p < |ts| && KeptAt(rules, ts, p, key);
    ReasonsIffKept(rules, ts, p, key);
    assert Outcome(snapshots, policy, key).value[p].decision.Keep?;
  }

  // ---------- pruning twice ----------

  /** Snapshot `i` is kept, wherever it ranks. */
  ghost predicate Survives<K>(snapshots: seq<Snapshot>, rules: seq<Rule>, key: (BucketKind, int) -> K, i: nat) {
    exists p :: 0 <= p < |snapshots| && Rank(snapshots, p) == i && KeptAt(rules, RankedTimes(snapshots), p, key)
  }

  ghost function Rank(snapshots: seq<Snapshot>, p: nat): nat
    requires p < |snapshots|
  {
    NewestFirstProps(snapshots);
    NewestFirst(snapshots)[p]
  }

  ghost function SurvivorIds<K>(snapshots: seq<Snapshot>, rules: seq<Rule>, key: (BucketKind, int) -> K): (ids: seq<nat>)
    ensures forall i :: i in ids ==> i < |snapshots| && Survives(snapshots, rules, key, i)
  {
    Filter(Range(|snapshots|), (i: nat) => Survives(snapshots, rules, key, i))
  }

  /** The snapshots left after pruning, in their original order. */
  ghost function Survivors<K>(snapshots: seq<Snapshot>, rules: seq<Rule>, key: (BucketKind, int) -> K): seq<Snapshot> {
    var ids := SurvivorIds(snapshots, rules, key);
    seq(|ids|, j requires 0 <= j < |ids| => assert ids[j] in ids; snapshots[ids[j]])
  }

  /** A snapshot survives exactly when its entry is a keep. */
  lemma SurvivesIffKept<K>(snapshots: seq<Snapshot>, policy: Policy, key: (BucketKind, int) -> K, p: nat)
    requires policy.keepWithin != Some(Malformed) && Outcome(snapshots, policy, key).Ok? && p < |snapshots|
    ensures |Outcome(snapshots, policy, key).value| == |snapshots|
    ensures Survives(snapshots, RulesOf(policy), key, Rank(snapshots, p))
       <==> Outcome(snapshots, policy, key).value[p].decision.Keep?
  {
    KeepIffKeptAt(snapshots, policy, key, p);
    if Survives(snapshots, RulesOf(policy), key, Rank(snapshots, p)) {
      SurvivesAtRank(snapshots, RulesOf(policy), key, p);
    }
  }

  function IsKeep(e: PruneEntry): bool {
    e.decision.Keep?
  }

  /** Dropping from two lists in step, then reading off what the two have in common. */
  lemma {:induction false} FilterInStep<A, B, C>(
    a: seq<A>, keepA: A -> bool, readA: A -> C, b: seq<B>, keepB: B -> bool, readB: B -> C)
    requires |a| == |b|
    requires forall i :: 0 <= i < |a| ==> keepA(a[i]) == keepB(b[i]) && readA(a[i]) == readB(b[i])
    ensures Map(Filter(a, keepA), readA) == Map(Filter(b, keepB), readB)
  {
    if a != [] {
      FilterInStep(a[1..], keepA, readA, b[1..], keepB, readB);
      var ra, rb := Filter(a[1..], keepA), Filter(b[1..], keepB);
      assert Map([a[0]] + ra, readA) == [readA(a[0])] + Map(ra, readA);
      assert Map([b[0]] + rb, readB) == [readB(b[0])] + Map(rb, readB);
      assert [] + ra == ra && [] + rb == rb;
    }
  }

  /** The survivors, newest first, are the kept entries of the outcome. */
  lemma SurvivorsAreTheKept<K>(snapshots: seq<Snapshot>, policy: Policy, key: (BucketKind, int) -> K)
    requires policy.keepWithin != Some(Malformed) && Outcome(snapshots, policy, key).Ok?
    ensures Map(Filter(Outcome(snapshots, policy, key).value, IsKeep), EntryId)
         == SortBy(Map(Survivors(snapshots, RulesOf(policy), key), SnapshotId), Age)
  {
    var rules := RulesOf(policy);
    var entries, order := Outcome(snapshots, policy, key).value, NewestFirst(snapshots);
    var survives := (i: nat) => Survives(snapshots, rules, key, i);
    var at := (i: nat) => if i < |snapshots| then SnapshotId(snapshots[i]) else ("", 0);
    NewestFirstProps(snapshots);
    assert |entries| == |order|;
    forall p | 0 <= p < |order|
      ensures IsKeep(entries[p]) == survives(order[p]) && EntryId(entries[p]) == at(order[p])
    {
      SurvivesIffKept(snapshots, policy, key, p);
    }
    FilterInStep(entries, IsKeep, EntryId, order, survives, at);
    StruckInOrder(snapshots, rules, key, at);
  }

  lemma StruckInOrder<K>(
    snapshots: seq<Snapshot>, rules: seq<Rule>, key: (BucketKind, int) -> K, at: nat -> (string, int))
    requires forall i: nat :: i < |snapshots| ==> at(i) == SnapshotId(snapshots[i])
    ensures Map<nat, (string, int)>(Struck(snapshots, rules, key), at)
         == SortBy(Map(Survivors(snapshots, rules, key), SnapshotId), Age)
  {
    var ids, left := SurvivorIds(snapshots, rules, key), Survivors(snapshots, rules, key);
    var byTime := (i: nat) => if i < |snapshots| then -snapshots[i].time else 0;
    forall j | 0 <= j < |ids|
      ensures ids[j] < |snapshots| && left[j] == snapshots[ids[j]]
    {
      assert ids[j] in ids;
    }
    forall i: nat | i in ids
      ensures byTime(i) == Age(at(i))
    {
      assert i < |snapshots|;
    }
    StruckIsSorted(snapshots, rules, key);
    SortMap<nat, (string, int)>(ids, at, Age, byTime);
    assert Map<nat, (string, int)>(ids, at) == Map(left, SnapshotId);
  }

  /** The ranking with the pruned snapshots struck out. */
  ghost function Struck<K>(snapshots: seq<Snapshot>, rules: seq<Rule>, key: (BucketKind, int) -> K): seq<nat> {
    Filter(NewestFirst(snapshots), (i: nat) => Survives(snapshots, rules, key, i))
  }

  lemma StruckIsSorted<K>(snapshots: seq<Snapshot>, rules: seq<Rule>, key: (BucketKind, int) -> K)
    ensures Struck(snapshots, rules, key)
         == SortBy(SurvivorIds(snapshots, rules, key), (i: nat) => if i < |snapshots| then -snapshots[i].time else 0)
  {
    var byTime := (i: nat) => if i < |snapshots| then -snapshots[i].time else 0;
    SortFilter(Range(|snapshots|), byTime, (i: nat) => Survives(snapshots, rules, key, i));
  }

  /** Sorting a selection `left` of snapshots by position, then looking up what each position selects. */
  lemma SelectionIsSorted(snapshots: seq<Snapshot>, ids: seq<nat>, left: seq<Snapshot>)
    requires |left| == |ids|
    requires forall j :: 0 <= j < |ids| ==> ids[j] < |snapshots| && left[j] == snapshots[ids[j]]
    ensures SortBy(ids, (i: nat) => if i < |snapshots| then -snapshots[i].time else 0)
         == Map(NewestFirst(left), (j: nat) => if j < |ids| then ids[j] else 0)
  {
    var byTime := (i: nat) => if i < |snapshots| then -snapshots[i].time else 0;
    var byTime' := (j: nat) => if j < |left| then -left[j].time else 0;
    var at := (j: nat) => if j < |ids| then ids[j] else 0;
    SortMap(Range(|left|), at, byTime, byTime');
    assert NewestFirst(left) == SortBy(Range(|left|), byTime');
    assert Map(Range(|left|), at) == ids;
  }

  /** Ranking the survivors is the same as striking out the pruned from the ranking. */
  lemma RankingOfSurvivors<K>(snapshots: seq<Snapshot>, rules: seq<Rule>, key: (BucketKind, int) -> K)
    ensures var ts', struck := RankedTimes(Survivors(snapshots, rules, key)), Struck(snapshots, rules, key);
      && |ts'| == |struck|
      && forall p :: 0 <= p < |struck| ==> struck[p] < |snapshots| && ts'[p] == snapshots[struck[p]].time
  {
    var ids, left := SurvivorIds(snapshots, rules, key), Survivors(snapshots, rules, key);
    forall j | 0 <= j < |ids|
      ensures ids[j] < |snapshots| && left[j] == snapshots[ids[j]]
    {
      assert ids[j] in ids;
    }
    StruckIsSorted(snapshots, rules, key);
    SelectionIsSorted(snapshots, ids, left);
    NewestFirstProps(left);
  }

  /** A survivor's new rank, traced back to its old one: it moved up, and nothing new got ahead of it. */
  lemma SurvivorOrigin<K>(snapshots: seq<Snapshot>, rules: seq<Rule>, key: (BucketKind, int) -> K, p: nat)
    returns (e: nat)
    requires p < |Survivors(snapshots, rules, key)|
    ensures var ts, ts' := RankedTimes(snapshots), RankedTimes(Survivors(snapshots, rules, key));
      && p <= e < |ts| && ts'[p] == ts[e] && KeptAt(rules, ts, e, key)
      && forall q :: 0 <= q < p ==> ts'[q] in ts[..e]
  {
    var order, struck := NewestFirst(snapshots), Struck(snapshots, rules, key);
    NewestFirstProps(snapshots);
    RankingOfSurvivors(snapshots, rules, key);
    e := FilterOrigin(order, (i: nat) => Survives(snapshots, rules, key, i), p);
    SurvivesAtRank(snapshots, rules, key, e);
    var ts, ts' := RankedTimes(snapshots), RankedTimes(Survivors(snapshots, rules, key));
    forall q | 0 <= q < p
      ensures ts'[q] in ts[..e]
    {
      TimeAheadOf(snapshots, e, struck[q]);
    }
  }

  lemma TimeAheadOf(snapshots: seq<Snapshot>, e: nat, i: nat)
    requires e <= |NewestFirst(snapshots)| && i in NewestFirst(snapshots)[..e]
    ensures e <= |snapshots| && i < |snapshots| && snapshots[i].time in RankedTimes(snapshots)[..e]
  {
    NewestFirstProps(snapshots);
    var order, ts := NewestFirst(snapshots), RankedTimes(snapshots);
    var c :| 0 <= c < e && order[c] == i;
    assert ts[..e][c] == snapshots[i].time;
  }

  lemma SurvivesAtRank<K>(snapshots: seq<Snapshot>, rules: seq<Rule>, key: (BucketKind, int) -> K, e: nat)
    requires e < |snapshots| && Survives(snapshots, rules, key, Rank(snapshots, e))
    ensures KeptAt(rules, RankedTimes(snapshots), e, key)
  {
    NewestFirstProps(snapshots);
    var d :| 0 <= d < |snapshots| && Rank(snapshots, d) == Rank(snapshots, e)
             && KeptAt(rules, RankedTimes(snapshots), d, key);
    assert d == e;
  }

  /** A rule that keeps a rank still keeps it when only older-ranked or fewer snapshots are ahead. */
  lemma KeepsMovedUp<K>(rule: Rule, ts: seq<int>, e: nat, ts': seq<int>, p: nat, key: (BucketKind, int) -> K)
    requires e < |ts| && p < |ts'| && p <= e && ts'[p] == ts[e]
    requires forall q :: 0 <= q < p ==> ts'[q] in ts[..e]
    requires Keeps(rule, ts, e, key)
    ensures Keeps(rule, ts', p, key)
  {
    if rule.KeepBuckets? {
      var kind := rule.kind;
      BucketCountIsSize(ts, e, kind, key);
      BucketCountIsSize(ts', p, kind, key);
      var newer, newer' := BucketsBefore(ts, e, kind, key), BucketsBefore(ts', p, kind, key);
      forall b | b in newer'
        ensures b in newer
      {
        BucketsBeforeHas(ts, e, kind, key, b);
        BucketsBeforeHas(ts', p, kind, key, b);
        var q :| 0 <= q < p && b == key(kind, ts'[q]);
        var c :| 0 <= c < e && ts[..e][c] == ts'[q];
      }
      SubsetSize(newer', newer);
    }
  }

  lemma {:induction false} SubsetSize<T>(a: set<T>, b: set<T>)
    requires a <= b
    ensures |a| <= |b|
  {
    if a != {} {
      var x :| x in a;
      SubsetSize(a - {x}, b - {x});
    }
  }

  /** Applying the policy to `left` keeps every one of them. */
  ghost predicate KeepsAll<K>(left: seq<Snapshot>, policy: Policy, key: (BucketKind, int) -> K) {
    && Outcome(left, policy, key).Ok?
    && |Outcome(left, policy, key).value| == |left|
    && forall p :: 0 <= p < |left| ==> Outcome(left, policy, key).value[p].decision.Keep?
  }

  /** Pruning what a prune left, under the same policy, keeps all of it. */
  lemma Idempotent<K>(snapshots: seq<Snapshot>, policy: Policy, key: (BucketKind, int) -> K, left: seq<Snapshot>)
    requires policy.keepWithin != Some(Malformed) && left == Survivors(snapshots, RulesOf(policy), key)
    ensures KeepsAll(left, policy, key)
  {
    var rules := RulesOf(policy);
    if left != [] {
      var ts, ts' := RankedTimes(snapshots), RankedTimes(left);
      forall p | 0 <= p < |left|
        ensures KeptAt(rules, ts', p, key) && Reasons(rules, ts', p, key) != []
      {
        var e := SurvivorOrigin(snapshots, rules, key, p);
        var r :| r in rules && Keeps(r, ts, e, key);
        KeepsMovedUp(r, ts, e, ts', p, key);
        ReasonsIffKept(rules, ts', p, key);
      }
      assert KeptAt(rules, ts', 0, key);
    }
  }
}
