/**
Two readings of a bucket rule.  The comment above `apply_bucket_rule` says that a snapshot another rule
already kept registers its bucket but takes no keeper slot; the code counts its bucket like any other.
Ranks are positions in the newest-first order, and `already` holds the ranks earlier rules kept.
*/
module KeeperSlots {
  import opened Wrappers
  import opened Sequences
  import opened Retention
  import opened RetentionLaws

  /** Rank `p` is the newest of its bucket. */
  predicate Opens<K(==)>(ts: seq<int>, p: nat, kind: BucketKind, key: (BucketKind, int) -> K)
    requires p < |ts|
  {
    key(kind, ts[p]) !in BucketsBefore(ts, p, kind, key)
  }

  /** How many of the `p` newest open a bucket and are not already kept. */
  function SlotsTaken<K(==)>(
    ts: seq<int>, p: nat, kind: BucketKind, key: (BucketKind, int) -> K, already: set<nat>): nat
    requires p <= |ts|
  {
    if p == 0 then 0
    else SlotsTaken(ts, p - 1, kind, key, already)
         + if Opens(ts, p - 1, kind, key) && p - 1 !in already then 1 else 0
  }

  /** What the rule keeps by the comment. */
  predicate KeptByComment<K(==)>(
    ts: seq<int>, p: nat, kind: BucketKind, n: nat, key: (BucketKind, int) -> K, already: set<nat>)
    requires p < |ts|
  {
    p in already || (Opens(ts, p, kind, key) && SlotsTaken(ts, p, kind, key, already) < n)
  }

  /** What the rule keeps by the code. */
  predicate KeptByCode<K(==)>(
    ts: seq<int>, p: nat, kind: BucketKind, n: nat, key: (BucketKind, int) -> K, already: set<nat>)
    requires p < |ts|
  {
    p in already || Keeps(KeepBuckets(kind, n), ts, p, key)
  }

  /** Rank `p` opens one of the first `n` buckets and was kept before. */
  predicate TakesASlot<K(==)>(
    ts: seq<int>, p: nat, kind: BucketKind, n: nat, key: (BucketKind, int) -> K, already: set<nat>)
    requires p < |ts|
  {
    Opens(ts, p, kind, key) && BucketCount(ts, p, kind, key) < n && p in already
  }

  /** Rank `p` opens a later bucket and was not kept before. */
  predicate MissesOut<K(==)>(
    ts: seq<int>, p: nat, kind: BucketKind, n: nat, key: (BucketKind, int) -> K, already: set<nat>)
    requires p < |ts|
  {
    Opens(ts, p, kind, key) && BucketCount(ts, p, kind, key) >= n && p !in already
  }

  function AtMostLimit(a: nat, n: nat): nat {
    if a < n then a else n
  }

  lemma {:induction false} SlotsAtMostBuckets<K>(
    ts: seq<int>, p: nat, kind: BucketKind, key: (BucketKind, int) -> K, already: set<nat>)
    requires p <= |ts|
    ensures SlotsTaken(ts, p, kind, key, already) <= BucketCount(ts, p, kind, key)
  {
    if p > 0 {
      SlotsAtMostBuckets(ts, p - 1, kind, key, already);
    }
  }

  /** The comment's rule never keeps less. */
  lemma CommentKeepsMore<K>(
    ts: seq<int>, p: nat, kind: BucketKind, n: nat, key: (BucketKind, int) -> K, already: set<nat>)
    requires p < |ts| && KeptByCode(ts, p, kind, n, key, already)
    ensures KeptByComment(ts, p, kind, n, key, already)
  {
    SlotsAtMostBuckets(ts, p, kind, key, already);
  }

  /** If no kept snapshot opens one of the first `n` buckets, those take all the slots. */
  lemma {:induction false} FreshOpenersFillUp<K>(
    ts: seq<int>, p: nat, kind: BucketKind, n: nat, key: (BucketKind, int) -> K, already: set<nat>)
    requires p <= |ts|
    requires forall q: nat :: q < |ts| ==> !TakesASlot(ts, q, kind, n, key, already)
    ensures SlotsTaken(ts, p, kind, key, already) >= AtMostLimit(BucketCount(ts, p, kind, key), n)
  {
    if p > 0 {
      FreshOpenersFillUp(ts, p - 1, kind, n, key, already);
      assert !TakesASlot(ts, p - 1, kind, n, key, already);
    }
  }

  /** Before the first rank that misses out, a kept opener of the first `n` buckets leaves a slot free. */
  lemma {:induction false} KeptOpenerLeavesASlot<K>(
    ts: seq<int>, p: nat, kind: BucketKind, n: nat, key: (BucketKind, int) -> K, already: set<nat>, a: nat)
    requires p <= |ts| && a < |ts| && TakesASlot(ts, a, kind, n, key, already)
    requires forall q: nat :: q < p ==> !MissesOut(ts, q, kind, n, key, already)
    ensures SlotsTaken(ts, p, kind, key, already) + (if a < p then 1 else 0)
         <= AtMostLimit(BucketCount(ts, p, kind, key), n)
  {
    if p > 0 {
      KeptOpenerLeavesASlot(ts, p - 1, kind, n, key, already, a);
      assert !MissesOut(ts, p - 1, kind, n, key, already);
    }
  }

  lemma {:induction false} FirstToMissOut<K>(
    ts: seq<int>, p: nat, kind: BucketKind, n: nat, key: (BucketKind, int) -> K, already: set<nat>) returns (b: nat)
    requires p < |ts| && MissesOut(ts, p, kind, n, key, already)
    ensures b < |ts| && MissesOut(ts, b, kind, n, key, already)
    ensures forall q: nat :: q < b ==> !MissesOut(ts, q, kind, n, key, already)
  {
    if q: nat :| q < p && MissesOut(ts, q, kind, n, key, already) {
      b := FirstToMissOut(ts, q, kind, n, key, already);
    } else {
      b := p;
    }
  }

  lemma KeptDiffer<K>(
    ts: seq<int>, a: nat, p: nat, kind: BucketKind, n: nat, key: (BucketKind, int) -> K, already: set<nat>)
    returns (b: nat)
    requires a < |ts| && TakesASlot(ts, a, kind, n, key, already)
    requires p < |ts| && MissesOut(ts, p, kind, n, key, already)
    ensures b < |ts| && KeptByComment(ts, b, kind, n, key, already) && !KeptByCode(ts, b, kind, n, key, already)
  {
    b := FirstToMissOut(ts, p, kind, n, key, already);
    KeptOpenerLeavesASlot(ts, b, kind, n, key, already, a);
    if b <= a {
      BucketsGrow(ts, b, a, kind, key);
    }
  }

  lemma KeptAgree<K>(
    ts: seq<int>, p: nat, kind: BucketKind, n: nat, key: (BucketKind, int) -> K, already: set<nat>)
    requires p < |ts|
    requires (forall a: nat :: a < |ts| ==> !TakesASlot(ts, a, kind, n, key, already))
          || (forall b: nat :: b < |ts| ==> !MissesOut(ts, b, kind, n, key, already))
    ensures KeptByCode(ts, p, kind, n, key, already) <==> KeptByComment(ts, p, kind, n, key, already)
  {
    SlotsAtMostBuckets(ts, p, kind, key, already);
    if forall a: nat :: a < |ts| ==> !TakesASlot(ts, a, kind, n, key, already) {
      FreshOpenersFillUp(ts, p, kind, n, key, already);
    } else {
      assert !MissesOut(ts, p, kind, n, key, already);
    }
  }

  /** Code and comment keep the same snapshots exactly when no kept snapshot opens one of the first `n`
      buckets, or every snapshot that opens a later one is kept anyway. */
  lemma CommentHoldsIff<K>(ts: seq<int>, kind: BucketKind, n: nat, key: (BucketKind, int) -> K, already: set<nat>)
    ensures (forall p: nat :: p < |ts| ==>
              (KeptByCode(ts, p, kind, n, key, already) <==> KeptByComment(ts, p, kind, n, key, already)))
       <==> ((forall a: nat :: a < |ts| ==> !TakesASlot(ts, a, kind, n, key, already))
          || (forall b: nat :: b < |ts| ==> !MissesOut(ts, b, kind, n, key, already)))
  {
    if a: nat :| a < |ts| && TakesASlot(ts, a, kind, n, key, already) {
      if p: nat :| p < |ts| && MissesOut(ts, p, kind, n, key, already) {
        var b := KeptDiffer(ts, a, p, kind, n, key, already);
      }
    }
    if (forall a: nat :: a < |ts| ==> !TakesASlot(ts, a, kind, n, key, already))
       || (forall b: nat :: b < |ts| ==> !MissesOut(ts, b, kind, n, key, already)) {
      forall p: nat | p < |ts|
        ensures KeptByCode(ts, p, kind, n, key, already) <==> KeptByComment(ts, p, kind, n, key, already)
      {
        KeptAgree(ts, p, kind, n, key, already);
      }
    }
  }

  // ---------- inputs ----------

  function Days(): (BucketKind, int) -> int {
    (_: BucketKind, time: int) => time
  }

  function LastAndDaily(last: nat, daily: nat): Policy {
    Policy(None, Some(last), None, Some(daily), None, None, None)
  }

  lemma TwoDays(ts: seq<int>)
    requires |ts| == 2 && ts[0] > ts[1]
    ensures BucketsBefore(ts, 0, Daily, Days()) == {} && BucketsBefore(ts, 1, Daily, Days()) == {ts[0]}
    ensures BucketCount(ts, 0, Daily, Days()) == 0 && BucketCount(ts, 1, Daily, Days()) == 1
  {
    assert BucketsBefore(ts, 1, Daily, Days()) == {} + {ts[0]};
  }

  /** Two snapshots on two days, the newest kept by "last 1", then "daily 1": the comment keeps the older one
      too, the code does not. */
  lemma CommentFails(ts: seq<int>)
    requires |ts| == 2 && ts[0] > ts[1]
    ensures Keeps(KeepLast(1), ts, 0, Days()) && !Keeps(KeepLast(1), ts, 1, Days())
    ensures KeptByComment(ts, 1, Daily, 1, Days(), {0}) && !KeptByCode(ts, 1, Daily, 1, Days(), {0})
    ensures !KeptAt(RulesOf(LastAndDaily(1, 1)), ts, 1, Days())
  {
    TwoDays(ts);
    assert SlotsTaken(ts, 0, Daily, Days(), {0}) == 0;
    forall r | r in RulesOf(LastAndDaily(1, 1))
      ensures !Keeps(r, ts, 1, Days())
    {
      RulesOfHas(LastAndDaily(1, 1), r);
    }
  }

  /** "Last 1" with "daily 0": the newest snapshot gets a second reason from a rule that keeps nothing. */
  lemma LimitZeroTags(ts: seq<int>)
    requires |ts| == 2 && ts[0] > ts[1]
    ensures Reasons([KeepLast(1), KeepBuckets(Daily, 0)], ts, 0, Days()) == [Last(1), Bucket(Daily, 1)]
    ensures !Keeps(KeepBuckets(Daily, 0), ts, 0, Days())
  {
    TwoDays(ts);
    var rules := [KeepLast(1), KeepBuckets(Daily, 0)];
    assert rules[..1] == [KeepLast(1)];
    assert [KeepLast(1)][..0] == [];
    assert Reasons([], ts, 0, Days()) == [];
    assert Reasons([KeepLast(1)], ts, 0, Days()) == [Last(1)];
  }
}
