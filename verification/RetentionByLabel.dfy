/** Retention applied to each source label on its own, and merged newest first. */
module RetentionByLabel {
  import opened Wrappers
  import opened Sequences
  import opened Retention
  import opened RetentionLaws

  function PolicyFor(label': string, default: Policy, overrides: map<string, Policy>): Policy {
    if label' in overrides then overrides[label'] else default
  }

  function Group(snapshots: seq<Snapshot>, label': string): seq<Snapshot> {
    Filter(snapshots, (s: Snapshot) => s.sourceLabel == label')
  }

  function KeepAll(group: seq<Snapshot>): seq<PruneEntry> {
    Map(group, (s: Snapshot) => PruneEntry(s.name, s.time, Keep([NoPolicy])))
  }

  /** The verdict on one label's snapshots: without any rule they are all kept. */
  ghost function GroupOutcome<K>(group: seq<Snapshot>, policy: Policy, key: (BucketKind, int) -> K)
    : Result<seq<PruneEntry>, PruneError>
  {
    if !policy.HasAnyRule() then Ok(KeepAll(group)) else Outcome(group, policy, key)
  }

  /** The verdicts on `labels` one after the other, stopping at the first that fails. */
  ghost function Collect<K>(
    snapshots: seq<Snapshot>, labels: seq<string>, default: Policy, overrides: map<string, Policy>,
    key: (BucketKind, int) -> K): Result<seq<PruneEntry>, PruneError>
    decreases |labels|
  {
    if labels == [] then Ok([])
    else
      var last := labels[|labels| - 1];
      match Collect(snapshots, labels[..|labels| - 1], default, overrides, key)
      case Err(e) => Err(e)
      case Ok(sofar) =>
        match GroupOutcome(Group(snapshots, last), PolicyFor(last, default, overrides), key)
        case Err(e) => Err(e)
        case Ok(entries) => Ok(sofar + entries)
  }

  function EntryAge(e: PruneEntry): int {
    -e.time
  }

  ghost function ByLabel<K>(
    snapshots: seq<Snapshot>, labels: seq<string>, default: Policy, overrides: map<string, Policy>,
    key: (BucketKind, int) -> K): Result<seq<PruneEntry>, PruneError>
  {
    match Collect(snapshots, labels, default, overrides, key)
    case Err(e) => Err(e)
    case Ok(entries) => Ok(SortBy(entries, EntryAge))
  }

  /** `labels` lists the labels in use, each once: the order in which the groups are visited. */
  ghost predicate ListsLabels(snapshots: seq<Snapshot>, labels: seq<string>) {
    && Distinct(labels)
    && (forall s :: s in snapshots ==> s.sourceLabel in labels)
    && (forall l :: l in labels ==> exists s :: s in snapshots && s.sourceLabel == l)
  }

  // ---------- the loops ----------

  lemma GroupSnoc(snapshots: seq<Snapshot>, i: nat, label': string)
    requires i < |snapshots|
    ensures Group(snapshots[..i + 1], label')
         == Group(snapshots[..i], label') + if snapshots[i].sourceLabel == label' then [snapshots[i]] else []
  {
    assert snapshots[..i + 1] == snapshots[..i] + [snapshots[i]];
    FilterConcat(snapshots[..i], [snapshots[i]], (s: Snapshot) => s.sourceLabel == label');
  }

  lemma {:induction false} GroupEmpty(snapshots: seq<Snapshot>, label': string)
    requires forall s :: s in snapshots ==> s.sourceLabel != label'
    ensures Group(snapshots, label') == []
  {
    if snapshots != [] {
      assert snapshots[0] in snapshots;
      GroupEmpty(snapshots[1..], label');
    }
  }

  predicate Labels(snapshots: seq<Snapshot>, label': string) {
    exists s :: s in snapshots && s.sourceLabel == label'
  }

  /** `groups` has exactly the labels that occur, each with its snapshots in input order. */
  ghost predicate Filed(snapshots: seq<Snapshot>, groups: map<string, seq<Snapshot>>) {
    && (forall l :: l in groups <==> Labels(snapshots, l))
    && (forall l :: l in groups ==> groups[l] == Group(snapshots, l))
  }

  lemma LabelsSnoc(snapshots: seq<Snapshot>, s: Snapshot, label': string)
    ensures Labels(snapshots + [s], label') <==> Labels(snapshots, label') || label' == s.sourceLabel
  {
    if label' == s.sourceLabel {
      assert s in snapshots + [s];
    }
  }

  lemma FiledStep(snapshots: seq<Snapshot>, i: nat, groups: map<string, seq<Snapshot>>, filed: seq<Snapshot>)
    requires i < |snapshots| && Filed(snapshots[..i], groups)
    requires var l := snapshots[i].sourceLabel; filed == if l in groups then groups[l] else []
    ensures Filed(snapshots[..i + 1], groups[snapshots[i].sourceLabel := filed + [snapshots[i]]])
  {
    var s, before, after := snapshots[i], snapshots[..i], snapshots[..i + 1];
    var groups' := groups[s.sourceLabel := filed + [s]];
    assert after == before + [s];
    forall l
      ensures l in groups' <==> Labels(after, l)
      ensures l in groups' ==> groups'[l] == Group(after, l)
    {
      LabelsSnoc(before, s, l);
      GroupSnoc(snapshots, i, l);
      FiledUnder(before, groups, l);
    }
  }

  lemma FiledUnder(snapshots: seq<Snapshot>, groups: map<string, seq<Snapshot>>, label': string)
    requires Filed(snapshots, groups)
    ensures Group(snapshots, label') == if label' in groups then groups[label'] else []
  {
    if label' !in groups {
      assert !Labels(snapshots, label');
      GroupEmpty(snapshots, label');
    }
  }

  /** One pass over the snapshots that files each under its label. */
  method GroupByLabel(snapshots: seq<Snapshot>) returns (groups: map<string, seq<Snapshot>>)
    ensures Filed(snapshots, groups)
  {
    groups := map[];
    for i := 0 to |snapshots|
      invariant Filed(snapshots[..i], groups)
    {
      var s := snapshots[i];
      var filed := if s.sourceLabel in groups then groups[s.sourceLabel] else [];
      FiledStep(snapshots, i, groups, filed);
      groups := groups[s.sourceLabel := filed + [s]];
    }
    assert snapshots[..|snapshots|] == snapshots;
  }

  /** The verdict on one group. */
  method DecideGroup<K(==)>(group: seq<Snapshot>, policy: Policy, key: (BucketKind, int) -> K)
    returns (r: Result<seq<PruneEntry>, PruneError>)
    ensures r == GroupOutcome(group, policy, key)
  {
    if !policy.HasAnyRule() {
      r := Ok(KeepAll(group));
    } else {
      r := ApplyPolicy(group, policy, key);
    }
  }

  lemma CollectNext<K>(
    snapshots: seq<Snapshot>, labels: seq<string>, k: nat, default: Policy, overrides: map<string, Policy>,
    key: (BucketKind, int) -> K)
    requires k < |labels| && Collect(snapshots, labels[..k], default, overrides, key).Ok?
    ensures Collect(snapshots, labels[..k + 1], default, overrides, key) ==
      match GroupOutcome(Group(snapshots, labels[k]), PolicyFor(labels[k], default, overrides), key)
      case Err(e) => Err(e)
      case Ok(entries) => Ok(Collect(snapshots, labels[..k], default, overrides, key).value + entries)
  {
    assert labels[..k + 1][..k] == labels[..k];
  }

  /** `apply_policy_by_label`. */
  method ApplyPolicyByLabel<K(==)>(
    snapshots: seq<Snapshot>, labels: seq<string>, default: Policy, overrides: map<string, Policy>,
    key: (BucketKind, int) -> K)
    returns (r: Result<seq<PruneEntry>, PruneError>)
    requires ListsLabels(snapshots, labels)
    ensures r == ByLabel(snapshots, labels, default, overrides, key)
  {
    var groups := GroupByLabel(snapshots);
    var allEntries := [];
    for k := 0 to |labels|
      invariant Collect(snapshots, labels[..k], default, overrides, key) == Ok(allEntries)
    {
      var label' := labels[k];
      assert label' in labels && Labels(snapshots, label');
      CollectNext(snapshots, labels, k, default, overrides, key);
      var groupEntries := DecideGroup(groups[label'], PolicyFor(label', default, overrides), key);
      if groupEntries.Err? {
        CollectFails(snapshots, labels, k + 1, default, overrides, key);
        return groupEntries;
      }
      allEntries := allEntries + groupEntries.value;
    }
    assert labels[..|labels|] == labels;
    r := Ok(SortBy(allEntries, EntryAge));
  }

  /** A failure among the first labels is the failure of all of them. */
  lemma {:induction false} CollectFails<K>(
    snapshots: seq<Snapshot>, labels: seq<string>, k: nat, default: Policy, overrides: map<string, Policy>,
    key: (BucketKind, int) -> K)
    requires k <= |labels|
    ensures var init := Collect(snapshots, labels[..k], default, overrides, key);
      init.Err? ==> Collect(snapshots, labels, default, overrides, key) == init
    decreases |labels|
  {
    if k < |labels| {
      CollectFails(snapshots, labels[..|labels| - 1], k, default, overrides, key);
      assert labels[..|labels| - 1][..k] == labels[..k];
    } else {
      assert labels[..k] == labels;
    }
  }

  // ---------- laws ----------

  /** A run fails exactly when the verdict on some label fails. */
  lemma {:induction false} FailsIffSomeLabelFails<K>(
    snapshots: seq<Snapshot>, labels: seq<string>, default: Policy, overrides: map<string, Policy>,
    key: (BucketKind, int) -> K)
    ensures Collect(snapshots, labels, default, overrides, key).Err? <==>
      exists l :: l in labels && GroupOutcome(Group(snapshots, l), PolicyFor(l, default, overrides), key).Err?
    decreases |labels|
  {
    if labels != [] {
      var init, last := labels[..|labels| - 1], labels[|labels| - 1];
      FailsIffSomeLabelFails(snapshots, init, default, overrides, key);
      assert labels == init + [last];
    }
  }

  lemma GroupIds<K>(group: seq<Snapshot>, policy: Policy, key: (BucketKind, int) -> K)
    requires GroupOutcome(group, policy, key).Ok?
    ensures EntryIds(GroupOutcome(group, policy, key).value) == Ids(group)
  {
    if policy.HasAnyRule() {
      OutcomeIsSortedInput(group, policy, key);
      SortPermutes(Map(group, SnapshotId), Age);
    } else {
      assert Map(KeepAll(group), EntryId) == Map(group, SnapshotId);
    }
  }

  /** The snapshots without those of one label. */
  function Without(snapshots: seq<Snapshot>, label': string): seq<Snapshot> {
    Filter(snapshots, (s: Snapshot) => s.sourceLabel != label')
  }

  function Others(labels: seq<string>, label': string): seq<string> {
    Filter(labels, (l: string) => l != label')
  }

  lemma {:induction false} GroupWithout(snapshots: seq<Snapshot>, label': string, other: string)
    requires other != label'
    ensures Group(Without(snapshots, label'), other) == Group(snapshots, other)
  {
    if snapshots != [] {
      var s, rest := snapshots[0], snapshots[1..];
      GroupWithout(rest, label', other);
      if s.sourceLabel != label' {
        FilterCons(s, Without(rest, label'), (x: Snapshot) => x.sourceLabel == other);
      } else {
        assert Without(snapshots, label') == Without(rest, label');
      }
    }
  }

  lemma {:induction false} CollectWithout<K>(
    snapshots: seq<Snapshot>, labels: seq<string>, label': string, default: Policy, overrides: map<string, Policy>,
    key: (BucketKind, int) -> K)
    requires label' !in labels
    ensures Collect(Without(snapshots, label'), labels, default, overrides, key)
         == Collect(snapshots, labels, default, overrides, key)
    decreases |labels|
  {
    if labels != [] {
      var init, last := labels[..|labels| - 1], labels[|labels| - 1];
      CollectWithout(snapshots, init, label', default, overrides, key);
      GroupWithout(snapshots, label', last);
    }
  }

  lemma OthersSnoc(labels: seq<string>, label': string)
    requires labels != []
    ensures var init, last := labels[..|labels| - 1], labels[|labels| - 1];
      Others(labels, label') == Others(init, label') + if last != label' then [last] else []
  {
    var init, last := labels[..|labels| - 1], labels[|labels| - 1];
    assert labels == init + [last];
    FilterConcat(init, [last], (l: string) => l != label');
  }

  lemma OthersOfPrefix(labels: seq<string>, label': string)
    requires Distinct(labels) && labels != [] && labels[|labels| - 1] == label'
    ensures Others(labels, label') == labels[..|labels| - 1] && label' !in labels[..|labels| - 1]
  {
    var init := labels[..|labels| - 1];
    OthersSnoc(labels, label');
    assert label' !in init;
    FilterAll(init, (l: string) => l != label');
  }

  /** Taking away every snapshot of one label takes away exactly the verdict on that label's own snapshots. */
  lemma {:induction false} CollectIsolates<K>(
    snapshots: seq<Snapshot>, labels: seq<string>, label': string, default: Policy, overrides: map<string, Policy>,
    key: (BucketKind, int) -> K)
    requires Distinct(labels) && label' in labels
    requires Collect(snapshots, labels, default, overrides, key).Ok?
    ensures var own := GroupOutcome(Group(snapshots, label'), PolicyFor(label', default, overrides), key);
      var rest := Collect(Without(snapshots, label'), Others(labels, label'), default, overrides, key);
      && own.Ok? && rest.Ok?
      && multiset(Collect(snapshots, labels, default, overrides, key).value)
         == multiset(own.value) + multiset(rest.value)
    decreases |labels|
  {
    var init, last := labels[..|labels| - 1], labels[|labels| - 1];
    if last == label' {
      OthersOfPrefix(labels, label');
      CollectWithout(snapshots, init, label', default, overrides, key);
    } else {
      CollectIsolates(snapshots, init, label', default, overrides, key);
      OthersSnoc(labels, label');
      GroupWithout(snapshots, label', last);
      var others := Others(init, label');
      assert (others + [last])[..|others|] == others;
    }
  }

  /** Labels do not influence each other: taking away every snapshot of one label takes away exactly the
      verdict on that label's own snapshots, and leaves every other decision as it was. */
  lemma LabelIsolation<K>(
    snapshots: seq<Snapshot>, labels: seq<string>, label': string, default: Policy, overrides: map<string, Policy>,
    key: (BucketKind, int) -> K)
    requires ListsLabels(snapshots, labels) && label' in labels
    requires ByLabel(snapshots, labels, default, overrides, key).Ok?
    ensures var own := GroupOutcome(Group(snapshots, label'), PolicyFor(label', default, overrides), key);
      var rest := ByLabel(Without(snapshots, label'), Others(labels, label'), default, overrides, key);
      && own.Ok? && rest.Ok?
      && multiset(ByLabel(snapshots, labels, default, overrides, key).value)
         == multiset(own.value) + multiset(rest.value)
  {
    CollectIsolates(snapshots, labels, label', default, overrides, key);
    SortPermutes(Collect(snapshots, labels, default, overrides, key).value, EntryAge);
    SortPermutes(Collect(Without(snapshots, label'), Others(labels, label'), default, overrides, key).value, EntryAge);
  }

  ghost function Ids(snapshots: seq<Snapshot>): multiset<(string, int)> {
    multiset(Map(snapshots, SnapshotId))
  }

  lemma IdsCons(s: Snapshot, rest: seq<Snapshot>)
    ensures Ids([s] + rest) == multiset{SnapshotId(s)} + Ids(rest)
  {
    assert Map([s] + rest, SnapshotId) == [SnapshotId(s)] + Map(rest, SnapshotId);
  }

  lemma {:induction false} SplitByLabel(snapshots: seq<Snapshot>, label': string)
    ensures Ids(snapshots) == Ids(Group(snapshots, label')) + Ids(Without(snapshots, label'))
  {
    if snapshots != [] {
      var s, rest := snapshots[0], snapshots[1..];
      SplitByLabel(rest, label');
      assert snapshots == [s] + rest;
      IdsCons(s, rest);
      if s.sourceLabel == label' {
        IdsCons(s, Group(rest, label'));
        assert Without(snapshots, label') == Without(rest, label');
      } else {
        IdsCons(s, Without(rest, label'));
        assert Group(snapshots, label') == Group(rest, label');
      }
    }
  }

  ghost function EntryIds(entries: seq<PruneEntry>): multiset<(string, int)> {
    multiset(Map(entries, EntryId))
  }

  lemma EntryIdsConcat(a: seq<PruneEntry>, b: seq<PruneEntry>)
    ensures EntryIds(a + b) == EntryIds(a) + EntryIds(b)
  {
    assert Map(a + b, EntryId) == Map(a, EntryId) + Map(b, EntryId);
  }

  /** Every snapshot gets exactly one entry. */
  lemma {:induction false} CollectPermutes<K>(
    snapshots: seq<Snapshot>, labels: seq<string>, default: Policy, overrides: map<string, Policy>,
    key: (BucketKind, int) -> K)
    requires Distinct(labels) && forall s :: s in snapshots ==> s.sourceLabel in labels
    requires Collect(snapshots, labels, default, overrides, key).Ok?
    ensures EntryIds(Collect(snapshots, labels, default, overrides, key).value) == Ids(snapshots)
    decreases |labels|
  {
    if labels == [] {
      if snapshots != [] {
        assert false;
      }
    } else {
      var init, last := labels[..|labels| - 1], labels[|labels| - 1];
      OthersOfPrefix(labels, last);
      CollectWithout(snapshots, init, last, default, overrides, key);
      assert forall s :: s in Without(snapshots, last) ==> s.sourceLabel in init by {
        assert labels == init + [last];
      }
      CollectPermutes(Without(snapshots, last), init, default, overrides, key);
      PermutesWith(snapshots, last, PolicyFor(last, default, overrides), key,
                   Collect(snapshots, init, default, overrides, key).value);
    }
  }

  lemma PermutesWith<K>(
    snapshots: seq<Snapshot>, label': string, policy: Policy, key: (BucketKind, int) -> K, before: seq<PruneEntry>)
    requires EntryIds(before) == Ids(Without(snapshots, label'))
    requires GroupOutcome(Group(snapshots, label'), policy, key).Ok?
    ensures EntryIds(before + GroupOutcome(Group(snapshots, label'), policy, key).value) == Ids(snapshots)
  {
    GroupIds(Group(snapshots, label'), policy, key);
    SplitByLabel(snapshots, label');
    EntryIdsConcat(before, GroupOutcome(Group(snapshots, label'), policy, key).value);
  }

  /** A successful run lists the whole input, newest first. */
  lemma ResultIsSortedPermutation<K>(
    snapshots: seq<Snapshot>, labels: seq<string>, default: Policy, overrides: map<string, Policy>,
    key: (BucketKind, int) -> K)
    requires ListsLabels(snapshots, labels)
    requires ByLabel(snapshots, labels, default, overrides, key).Ok?
    ensures var entries := ByLabel(snapshots, labels, default, overrides, key).value;
      && EntryIds(entries) == Ids(snapshots)
      && forall p, q :: 0 <= p < q < |entries| ==> entries[p].time >= entries[q].time
  {
    var collected := Collect(snapshots, labels, default, overrides, key).value;
    CollectPermutes(snapshots, labels, default, overrides, key);
    SortMap(collected, EntryId, Age, EntryAge);
    SortPermutes(Map(collected, EntryId), Age);
    SortSorted(collected, EntryAge);
    var entries := SortBy(collected, EntryAge);
    forall p, q | 0 <= p < q < |entries|
      ensures entries[p].time >= entries[q].time
    {
      assert EntryAge(entries[p]) <= EntryAge(entries[q]);
    }
  }

  /** No label is ever pruned away: one of its own entries in the result is a keep. */
  lemma EveryLabelKeepsOne<K>(
    snapshots: seq<Snapshot>, labels: seq<string>, label': string, default: Policy, overrides: map<string, Policy>,
    key: (BucketKind, int) -> K) returns (kept: PruneEntry)
    requires ListsLabels(snapshots, labels) && label' in labels
    requires ByLabel(snapshots, labels, default, overrides, key).Ok?
    ensures kept.decision.Keep?
    ensures var own := GroupOutcome(Group(snapshots, label'), PolicyFor(label', default, overrides), key);
      && own.Ok? && kept in own.value
      && kept in ByLabel(snapshots, labels, default, overrides, key).value
  {
    LabelIsolation(snapshots, labels, label', default, overrides, key);
    var group, policy := Group(snapshots, label'), PolicyFor(label', default, overrides);
    var s :| s in snapshots && s.sourceLabel == label';
    assert s in group;
    if policy.HasAnyRule() {
      KeepsSomething(group, policy, key);
      kept :| kept in Outcome(group, policy, key).value && kept.decision.Keep?;
    } else {
      kept := KeepAll(group)[0];
    }
    assert kept in multiset(GroupOutcome(group, policy, key).value);
    assert kept in multiset(ByLabel(snapshots, labels, default, overrides, key).value);
  }

  // ---------- which policy decides ----------

  /** A label is decided by its own override if it has one and by the default otherwise; without any rule in
      that policy all its snapshots are kept. */
  lemma OwnPolicyDecides<K>(
    snapshots: seq<Snapshot>, labels: seq<string>, label': string, default: Policy, overrides: map<string, Policy>,
    key: (BucketKind, int) -> K)
    requires ListsLabels(snapshots, labels) && label' in labels
    requires ByLabel(snapshots, labels, default, overrides, key).Ok?
    ensures var policy := if label' in overrides then overrides[label'] else default;
      var group := Filter(snapshots, (s: Snapshot) => s.sourceLabel == label');
      var result := multiset(ByLabel(snapshots, labels, default, overrides, key).value);
      if policy.HasAnyRule() then
        Outcome(group, policy, key).Ok? && multiset(Outcome(group, policy, key).value) <= result
      else
        multiset(Map(group, (s: Snapshot) => PruneEntry(s.name, s.time, Keep([NoPolicy])))) <= result
  {
    LabelIsolation(snapshots, labels, label', default, overrides, key);
    var group := Filter(snapshots, (s: Snapshot) => s.sourceLabel == label');
    assert group == Group(snapshots, label');
    assert KeepAll(group) == Map(group, (s: Snapshot) => PruneEntry(s.name, s.time, Keep([NoPolicy])));
  }

  lemma {:induction false} CollectAgrees<K>(
    snapshots: seq<Snapshot>, labels: seq<string>, default: Policy, overrides: map<string, Policy>,
    overrides': map<string, Policy>, key: (BucketKind, int) -> K)
    requires forall l :: l in labels ==> PolicyFor(l, default, overrides) == PolicyFor(l, default, overrides')
    ensures Collect(snapshots, labels, default, overrides, key) == Collect(snapshots, labels, default, overrides', key)
    decreases |labels|
  {
    if labels != [] {
      var init, last := labels[..|labels| - 1], labels[|labels| - 1];
      assert last in labels && forall l :: l in init ==> l in labels;
      CollectAgrees(snapshots, init, default, overrides, overrides', key);
    }
  }

  /** Changing the override of one label changes the entries of that label only. */
  lemma OverrideIsLocal<K>(
    snapshots: seq<Snapshot>, labels: seq<string>, label': string, default: Policy, overrides: map<string, Policy>,
    policy: Policy, key: (BucketKind, int) -> K) returns (others: multiset<PruneEntry>)
    requires ListsLabels(snapshots, labels) && label' in labels
    requires ByLabel(snapshots, labels, default, overrides, key).Ok?
    requires ByLabel(snapshots, labels, default, overrides[label' := policy], key).Ok?
    ensures var group := Group(snapshots, label');
      var before := GroupOutcome(group, if label' in overrides then overrides[label'] else default, key);
      var after := GroupOutcome(group, policy, key);
      && before.Ok? && after.Ok?
      && multiset(ByLabel(snapshots, labels, default, overrides, key).value) == multiset(before.value) + others
      && multiset(ByLabel(snapshots, labels, default, overrides[label' := policy], key).value)
         == multiset(after.value) + others
  {
    var rest, kept := Others(labels, label'), Without(snapshots, label');
    LabelIsolation(snapshots, labels, label', default, overrides, key);
    LabelIsolation(snapshots, labels, label', default, overrides[label' := policy], key);
    forall l | l in rest
      ensures PolicyFor(l, default, overrides) == PolicyFor(l, default, overrides[label' := policy])
    {
      assert l != label';
    }
    CollectAgrees(kept, rest, default, overrides, overrides[label' := policy], key);
    others := multiset(ByLabel(kept, rest, default, overrides, key).value);
  }

  // ---------- pruning twice ----------

  /** What pruning leaves of one label. */
  ghost function GroupSurvivors<K>(group: seq<Snapshot>, policy: Policy, key: (BucketKind, int) -> K): seq<Snapshot>
    requires policy.keepWithin != Some(Malformed)
  {
    if !policy.HasAnyRule() then group else Survivors(group, RulesOf(policy), key)
  }

  /** `left` holds, label by label and in their old order, the snapshots that pruning left. */
  ghost predicate IsLeft<K>(
    snapshots: seq<Snapshot>, left: seq<Snapshot>, labels: seq<string>, default: Policy,
    overrides: map<string, Policy>, key: (BucketKind, int) -> K)
  {
    forall l :: l in labels ==>
      var policy := PolicyFor(l, default, overrides);
      policy.keepWithin != Some(Malformed) && Group(left, l) == GroupSurvivors(Group(snapshots, l), policy, key)
  }

  lemma GroupAgain<K>(group: seq<Snapshot>, policy: Policy, key: (BucketKind, int) -> K, e: PruneEntry)
    requires policy.keepWithin != Some(Malformed)
    ensures var again := GroupOutcome(GroupSurvivors(group, policy, key), policy, key);
      again.Ok? && (e in again.value ==> e.decision.Keep?)
  {
    if policy.HasAnyRule() {
      Idempotent(group, policy, key, Survivors(group, RulesOf(policy), key));
    }
  }

  lemma {:induction false} CollectAgain<K>(
    snapshots: seq<Snapshot>, left: seq<Snapshot>, labels: seq<string>, default: Policy,
    overrides: map<string, Policy>, key: (BucketKind, int) -> K, e: PruneEntry)
    requires IsLeft(snapshots, left, labels, default, overrides, key)
    ensures var again := Collect(left, labels, default, overrides, key);
      again.Ok? && (e in again.value ==> e.decision.Keep?)
    decreases |labels|
  {
    if labels != [] {
      var init, last := labels[..|labels| - 1], labels[|labels| - 1];
      assert last in labels && forall l :: l in init ==> l in labels;
      CollectAgain(snapshots, left, init, default, overrides, key, e);
      GroupAgain(Group(snapshots, last), PolicyFor(last, default, overrides), key, e);
    }
  }

  /** Pruning by label what pruning by label left keeps all of it. */
  lemma IdempotentByLabel<K>(
    snapshots: seq<Snapshot>, left: seq<Snapshot>, labels: seq<string>, default: Policy,
    overrides: map<string, Policy>, key: (BucketKind, int) -> K, e: PruneEntry)
    requires IsLeft(snapshots, left, labels, default, overrides, key)
    ensures var again := ByLabel(left, labels, default, overrides, key);
      again.Ok? && (e in again.value ==> e.decision.Keep?)
  {
    CollectAgain(snapshots, left, labels, default, overrides, key, e);
    var collected := Collect(left, labels, default, overrides, key).value;
    SortPermutes(collected, EntryAge);
    assert e in SortBy(collected, EntryAge) <==> e in multiset(SortBy(collected, EntryAge));
  }
}
