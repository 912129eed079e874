/**
The SFTP connection pool: `idle` connections and a `total` behind one mutex, a condition
variable `pool_ready`, and RAII guards that give a connection or its slot back.

Each critical section of the mutex is one method of class `Pool`.  Every thread that uses the pool
is a small state machine around those sections, and `Apply` interleaves any number of them.
*/
module ConnPool {
  import opened Wrappers

  /** The identity of one established connection. */
  type Conn = nat

  datatype PoolState = PoolState(idle: seq<Conn>, total: nat)

  /** What the first locked section of `acquire_conn` decides. */
  datatype Claim = Reuse(conn: Conn) | OpenNew | Full

  /** Pop an idle connection, else reserve a slot for a new one, else report a full pool. */
  function TryClaim(p: PoolState, maxConnections: nat): (PoolState, Claim) {
    if p.idle != [] then
      (PoolState(p.idle[..|p.idle| - 1], p.total), Reuse(p.idle[|p.idle| - 1]))
    else if p.total < maxConnections then
      (PoolState(p.idle, p.total + 1), OpenNew)
    else
      (p, Full)
  }

  function PushIdle(p: PoolState, conn: Conn): PoolState {
    PoolState(p.idle + [conn], p.total)
  }

  /** `release_slot` guards its decrement with `total > 0`. */
  function FreeSlot(p: PoolState): PoolState {
    PoolState(p.idle, if p.total > 0 then p.total - 1 else p.total)
  }

  class Pool {
    var idle: seq<Conn>
    var total: nat
    const maxConnections: nat

    constructor (maxConnections: nat)
      ensures State() == PoolState([], 0) && this.maxConnections == maxConnections
    {
      idle, total := [], 0;
      this.maxConnections := maxConnections;
    }

    function State(): PoolState
      reads this
    {
      PoolState(idle, total)
    }

    method Claim() returns (claim: Claim)
      modifies this
      ensures (State(), claim) == TryClaim(old(State()), maxConnections)
    {
      if |idle| > 0 {
        claim := Reuse(idle[|idle| - 1]);
        idle := idle[..|idle| - 1];
      } else if total < maxConnections {
        total := total + 1;
        claim := OpenNew;
      } else {
        claim := Full;
      }
    }

    method ReleaseConn(conn: Conn)
      modifies this
      ensures State() == PushIdle(old(State()), conn)
    {
      idle := idle + [conn];
    }

    method ReleaseSlot()
      modifies this
      ensures State() == FreeSlot(old(State()))
    {
      if total > 0 {
        total := total - 1;
      }
    }
  }

  /** Where a thread stands with respect to the pool. */
  datatype Phase =
    | Outside              // not using the pool
    | Checking             // at the top of the acquire loop: fresh, timed out, or woken spuriously
    | Opening              // a slot is reserved and `connect` is running
    | Holding(conn: Conn)  // owns a guard
    | Waiting              // inside `wait_timeout`
    | Notified             // chosen by a `notify_one`, has not locked the mutex again yet
    | Notifying            // pool changed and mutex dropped, `notify_one` still to come

  datatype System = System(pool: PoolState, threads: seq<Phase>, nextConn: Conn)

  /** One atomic step of one thread (or the arrival of a new one). */
  datatype Action =
    | Spawn
    | Begin(t: nat)
    | Check(t: nat, expired: bool)
    | ConnectOk(t: nat)
    | ConnectErr(t: nat)
    | Release(t: nat)
    | Discard(t: nat)              // explicit `discard`, or drop of a guard that was never released
    | Notify(t: nat, wakes: nat)   // `wakes` is ignored when no thread is waiting
    | WakeUp(t: nat)               // timeout or spurious return of `wait_timeout`

  predicate At(s: System, t: nat, p: Phase) {
    t < |s.threads| && s.threads[t] == p
  }

  predicate SomeoneWaits(s: System) {
    exists t :: 0 <= t < |s.threads| && s.threads[t] == Waiting
  }

  predicate Enabled(s: System, a: Action) {
    match a
    case Spawn => true
    case Begin(t) => At(s, t, Outside)
    case Check(t, _) => At(s, t, Checking) || At(s, t, Notified)
    case ConnectOk(t) => At(s, t, Opening)
    case ConnectErr(t) => At(s, t, Opening)
    case Release(t) => t < |s.threads| && s.threads[t].Holding?
    case Discard(t) => t < |s.threads| && s.threads[t].Holding?
    case Notify(t, w) => At(s, t, Notifying) && (SomeoneWaits(s) ==> At(s, w, Waiting))
    case WakeUp(t) => At(s, t, Waiting)
  }

  function Move(s: System, t: nat, p: Phase): System
    requires t < |s.threads|
  {
    s.(threads := s.threads[t := p])
  }

  /** The effect of one enabled step, for a pool bounded by `maxConnections`. */
  function Apply(s: System, a: Action, maxConnections: nat): System
    requires Enabled(s, a)
  {
    match a
    case Spawn => s.(threads := s.threads + [Outside])
    case Begin(t) => Move(s, t, Checking)
    case Check(t, expired) =>
      var (pool, claim) := TryClaim(s.pool, maxConnections);
      (match claim
       case Reuse(conn) => Move(s.(pool := pool), t, Holding(conn))
       case OpenNew => Move(s.(pool := pool), t, Opening)
       case Full => Move(s, t, if expired then Outside else Waiting))
    case ConnectOk(t) => Move(s.(nextConn := s.nextConn + 1), t, Holding(s.nextConn))
    case ConnectErr(t) => Move(s.(pool := FreeSlot(s.pool)), t, Notifying)
    case Release(t) => Move(s.(pool := PushIdle(s.pool, s.threads[t].conn)), t, Notifying)
    case Discard(t) => Move(s.(pool := FreeSlot(s.pool)), t, Notifying)
    case Notify(t, w) =>
      if SomeoneWaits(s) then Move(Move(s, t, Outside), w, Notified) else Move(s, t, Outside)
    case WakeUp(t) => Move(s, t, Checking)
  }

  const Start: System := System(PoolState([], 0), [], 0)

  /** The state after performing `acts` in order from an empty pool, if each was enabled in turn. */
  function Run(acts: seq<Action>, maxConnections: nat): Option<System> {
    if acts == [] then
      Some(Start)
    else
      var last := |acts| - 1;
      match Run(acts[..last], maxConnections)
      case None => None
      case Some(s) => if Enabled(s, acts[last]) then Some(Apply(s, acts[last], maxConnections)) else None
  }

  // ---------- counting threads ----------

  datatype Kind = Opens | Holds | Waits | IsNotified | Notifies | Other

  function KindOf(p: Phase): Kind {
    match p
    case Opening => Opens
    case Holding(_) => Holds
    case Waiting => Waits
    case Notified => IsNotified
    case Notifying => Notifies
    case _ => Other
  }

  function Count(threads: seq<Phase>, k: Kind): nat {
    if threads == [] then 0
    else Count(threads[..|threads| - 1], k) + if KindOf(threads[|threads| - 1]) == k then 1 else 0
  }

  lemma {:induction false} CountUpdate(threads: seq<Phase>, t: nat, p: Phase, k: Kind)
    requires t < |threads|
    ensures Count(threads[t := p], k) + (if KindOf(threads[t]) == k then 1 else 0)
         == Count(threads, k) + (if KindOf(p) == k then 1 else 0)
  {
    var n := |threads| - 1;
    if t == n {
      assert threads[t := p][..n] == threads[..n];
    } else {
      assert threads[t := p][..n] == threads[..n][t := p];
      CountUpdate(threads[..n], t, p, k);
    }
  }

  lemma {:induction false} CountPositive(threads: seq<Phase>, t: nat)
    requires t < |threads|
    ensures Count(threads, KindOf(threads[t])) > 0
  {
    if t < |threads| - 1 {
      CountPositive(threads[..|threads| - 1], t);
    }
  }

  lemma {:induction false} CountWitness(threads: seq<Phase>, k: Kind) returns (t: nat)
    requires Count(threads, k) > 0
    ensures t < |threads| && KindOf(threads[t]) == k
  {
    var n := |threads| - 1;
    if KindOf(threads[n]) == k {
      t := n;
    } else {
      t := CountWitness(threads[..n], k);
    }
  }

  // ---------- the invariant ----------

  /** Idle connections plus slots that may still be opened. */
  function Available(p: PoolState, maxConnections: nat): int {
    |p.idle| + maxConnections - p.total
  }

  /** Every counted connection is idle, owned by a guard, or being opened. */
  predicate Conserved(s: System, maxConnections: nat) {
    && s.pool.total == |s.pool.idle| + Count(s.threads, Holds) + Count(s.threads, Opens)
    && s.pool.total <= maxConnections
  }

  /** No connection is in two places, and every one is older than the next to be made. */
  ghost predicate Exclusive(s: System) {
    && (forall i, j :: 0 <= i < j < |s.pool.idle| ==> s.pool.idle[i] != s.pool.idle[j])
    && (forall i, t :: 0 <= i < |s.pool.idle| && Owns(s, t) ==> s.pool.idle[i] != s.threads[t].conn)
    && (forall t, u :: Owns(s, t) && Owns(s, u) && t != u ==> s.threads[t].conn != s.threads[u].conn)
    && (forall i :: 0 <= i < |s.pool.idle| ==> s.pool.idle[i] < s.nextConn)
    && (forall t :: Owns(s, t) ==> s.threads[t].conn < s.nextConn)
  }

  ghost predicate Owns(s: System, t: int) {
    0 <= t < |s.threads| && s.threads[t].Holding?
  }

  /** While someone waits, free capacity is matched by wake-ups under way. */
  predicate NoStrandedCapacity(s: System, maxConnections: nat) {
    Count(s.threads, Waits) > 0 ==>
      Available(s.pool, maxConnections)
      <= Count(s.threads, IsNotified) + Count(s.threads, Notifies)
  }

  ghost predicate Inv(s: System, maxConnections: nat) {
    Conserved(s, maxConnections) && Exclusive(s) && NoStrandedCapacity(s, maxConnections)
  }

  lemma WaitersExist(s: System)
    ensures SomeoneWaits(s) <==> Count(s.threads, Waits) > 0
  {
    if SomeoneWaits(s) {
      var t :| 0 <= t < |s.threads| && s.threads[t] == Waiting;
      CountPositive(s.threads, t);
    }
    if Count(s.threads, Waits) > 0 {
      var t := CountWitness(s.threads, Waits);
    }
  }

  function Is(p: Phase, k: Kind): nat {
    if KindOf(p) == k then 1 else 0
  }

  /** The thread counts after one thread changes phase. */
  lemma MoveCounts(threads: seq<Phase>, t: nat, p: Phase, threads': seq<Phase>)
    requires t < |threads| && threads' == threads[t := p]
    ensures Count(threads', Opens) == Count(threads, Opens) - Is(threads[t], Opens) + Is(p, Opens)
    ensures Count(threads', Holds) == Count(threads, Holds) - Is(threads[t], Holds) + Is(p, Holds)
    ensures Count(threads', Waits) == Count(threads, Waits) - Is(threads[t], Waits) + Is(p, Waits)
    ensures Count(threads', IsNotified)
         == Count(threads, IsNotified) - Is(threads[t], IsNotified) + Is(p, IsNotified)
    ensures Count(threads', Notifies)
         == Count(threads, Notifies) - Is(threads[t], Notifies) + Is(p, Notifies)
  {
    CountUpdate(threads, t, p, Opens);
    CountUpdate(threads, t, p, Holds);
    CountUpdate(threads, t, p, Waits);
    CountUpdate(threads, t, p, IsNotified);
    CountUpdate(threads, t, p, Notifies);
  }

  lemma NotifyKeepsCounts(s: System, a: Action, maxConnections: nat)
    requires Enabled(s, a) && a.Notify?
    requires Conserved(s, maxConnections) && NoStrandedCapacity(s, maxConnections)
    ensures var s' := Apply(s, a, maxConnections);
      Conserved(s', maxConnections) && NoStrandedCapacity(s', maxConnections)
  {
    WaitersExist(s);
    var mid := s.threads[a.t := Outside];
    MoveCounts(s.threads, a.t, Outside, mid);
    if SomeoneWaits(s) {
      MoveCounts(mid, a.wakes, Notified, mid[a.wakes := Notified]);
    }
  }

  lemma CheckKeepsCounts(s: System, a: Action, maxConnections: nat)
    requires Enabled(s, a) && a.Check?
    requires Conserved(s, maxConnections) && NoStrandedCapacity(s, maxConnections)
    ensures var s' := Apply(s, a, maxConnections);
      Conserved(s', maxConnections) && NoStrandedCapacity(s', maxConnections)
  {
    var s' := Apply(s, a, maxConnections);
    MoveCounts(s.threads, a.t, s'.threads[a.t], s'.threads);
  }

  /** Steps that do not touch the pool. */
  lemma MoveKeepsCounts(s: System, a: Action, maxConnections: nat)
    requires Enabled(s, a) && (a.Begin? || a.WakeUp? || a.ConnectOk?)
    requires Conserved(s, maxConnections) && NoStrandedCapacity(s, maxConnections)
    ensures var s' := Apply(s, a, maxConnections);
      Conserved(s', maxConnections) && NoStrandedCapacity(s', maxConnections)
  {
    var s' := Apply(s, a, maxConnections);
    MoveCounts(s.threads, a.t, s'.threads[a.t], s'.threads);
  }

  lemma ReleaseKeepsCounts(s: System, a: Action, maxConnections: nat)
    requires Enabled(s, a) && (a.ConnectErr? || a.Release? || a.Discard?)
    requires Conserved(s, maxConnections) && NoStrandedCapacity(s, maxConnections)
    ensures var s' := Apply(s, a, maxConnections);
      Conserved(s', maxConnections) && NoStrandedCapacity(s', maxConnections)
  {
    CountPositive(s.threads, a.t);
    var s' := Apply(s, a, maxConnections);
    MoveCounts(s.threads, a.t, s'.threads[a.t], s'.threads);
  }

  lemma StepKeepsCounts(s: System, a: Action, maxConnections: nat)
    requires Enabled(s, a) && Conserved(s, maxConnections) && NoStrandedCapacity(s, maxConnections)
    ensures var s' := Apply(s, a, maxConnections);
      Conserved(s', maxConnections) && NoStrandedCapacity(s', maxConnections)
  {
    if a.Spawn? {
      assert (s.threads + [Outside])[..|s.threads|] == s.threads;
    } else if a.Notify? {
      NotifyKeepsCounts(s, a, maxConnections);
    } else if a.Check? {
      CheckKeepsCounts(s, a, maxConnections);
    } else if a.Begin? || a.WakeUp? || a.ConnectOk? {
      MoveKeepsCounts(s, a, maxConnections);
    } else {
      ReleaseKeepsCounts(s, a, maxConnections);
    }
  }

  /** Apart from thread `changed`, every owner owned the same connection before. */
  ghost predicate OwnersKept(s: System, s': System, changed: nat) {
    forall t :: Owns(s', t) && t != changed ==> Owns(s, t) && s'.threads[t] == s.threads[t]
  }

  /** A step after which `changed` owns nothing, and which puts nothing into the pool. */
  lemma DroppingKeepsExclusive(s: System, s': System, changed: nat)
    requires Exclusive(s) && OwnersKept(s, s', changed) && !Owns(s', changed)
    requires s'.pool.idle == s.pool.idle && s'.nextConn == s.nextConn
    ensures Exclusive(s')
  {
  }

  /** The connection moves from the guard to the end of the idle list. */
  lemma ReleaseKeepsExclusive(s: System, s': System, t: nat)
    requires Exclusive(s) && Owns(s, t) && OwnersKept(s, s', t) && !Owns(s', t)
    requires s'.pool.idle == s.pool.idle + [s.threads[t].conn] && s'.nextConn == s.nextConn
    ensures Exclusive(s')
  {
  }

  /** The connection moves from the end of the idle list to a guard. */
  lemma ReuseKeepsExclusive(s: System, s': System, t: nat)
    requires Exclusive(s) && OwnersKept(s, s', t) && Owns(s', t) && s.pool.idle != []
    requires s'.pool.idle == s.pool.idle[..|s.pool.idle| - 1] && s'.nextConn == s.nextConn
    requires s'.threads[t].conn == s.pool.idle[|s.pool.idle| - 1]
    ensures Exclusive(s')
  {
  }

  /** A new connection goes to the guard that opened it. */
  lemma ConnectKeepsExclusive(s: System, s': System, t: nat)
    requires Exclusive(s) && OwnersKept(s, s', t) && Owns(s', t)
    requires s'.pool.idle == s.pool.idle && s'.nextConn == s.nextConn + 1 && s'.threads[t].conn == s.nextConn
    ensures Exclusive(s')
  {
  }

  lemma StepKeepsExclusive(s: System, a: Action, maxConnections: nat)
    requires Exclusive(s) && Enabled(s, a)
    ensures Exclusive(Apply(s, a, maxConnections))
  {
    var s' := Apply(s, a, maxConnections);
    var changed := if a.Spawn? then |s.threads| else a.t;
    assert OwnersKept(s, s', changed);
    if a.Release? {
      ReleaseKeepsExclusive(s, s', a.t);
    } else if a.ConnectOk? {
      ConnectKeepsExclusive(s, s', a.t);
    } else if a.Check? && s.pool.idle != [] {
      ReuseKeepsExclusive(s, s', a.t);
    } else {
      DroppingKeepsExclusive(s, s', changed);
    }
  }

  lemma StepKeepsInv(s: System, a: Action, maxConnections: nat)
    requires Inv(s, maxConnections) && Enabled(s, a)
    ensures Inv(Apply(s, a, maxConnections), maxConnections)
  {
    StepKeepsCounts(s, a, maxConnections);
    StepKeepsExclusive(s, a, maxConnections);
  }

  /** Every interleaving of any number of threads keeps the pool invariant. */
  lemma {:induction false} ReachableInv(acts: seq<Action>, maxConnections: nat, s: System)
    requires Run(acts, maxConnections) == Some(s)
    ensures Inv(s, maxConnections)
    decreases |acts|
  {
    if acts != [] {
      var last := |acts| - 1;
      var prev := Run(acts[..last], maxConnections).value;
      ReachableInv(acts[..last], maxConnections, prev);
      StepKeepsInv(prev, acts[last], maxConnections);
    }
  }

  // ---------- what the invariant means ----------

  /** A slot is only ever given back by a thread that is counted, so the decrement never saturates
      and every release makes exactly one unit of capacity available. */
  lemma ReleasesNeverUnderflow(acts: seq<Action>, maxConnections: nat, s: System, a: Action)
    requires Run(acts, maxConnections) == Some(s)
    requires (a.ConnectErr? || a.Discard? || a.Release?) && Enabled(s, a)
    ensures s.pool.total > 0
    ensures Available(Apply(s, a, maxConnections).pool, maxConnections)
         == Available(s.pool, maxConnections) + 1
  {
    ReachableInv(acts, maxConnections, s);
    CountPositive(s.threads, a.t);
  }

  /** Two guards never share a connection, and an owned connection is never idle. */
  lemma GuardsAreExclusive(acts: seq<Action>, maxConnections: nat, s: System, t: nat, u: nat)
    requires Run(acts, maxConnections) == Some(s)
    requires t < |s.threads| && s.threads[t].Holding?
    ensures s.threads[t].conn !in s.pool.idle
    ensures u < |s.threads| && u != t && s.threads[u].Holding? ==> s.threads[u].conn != s.threads[t].conn
  {
    ReachableInv(acts, maxConnections, s);
    assert Owns(s, t);
    assert u < |s.threads| && s.threads[u].Holding? ==> Owns(s, u);
  }

  /** A thread that waits while capacity is free has a wake-up on its way: some thread is about to
      notify, or was notified and will lock the mutex again before it may give up. */
  lemma FreeCapacityIsBeingHandedOut(acts: seq<Action>, maxConnections: nat, s: System)
    returns (a: Action)
    requires Run(acts, maxConnections) == Some(s)
    requires SomeoneWaits(s) && Available(s.pool, maxConnections) > 0
    ensures Enabled(s, a)
    ensures a.Notify? || (a.Check? && At(s, a.t, Notified)
              && !At(Apply(s, a, maxConnections), a.t, Waiting)
              && !At(Apply(s, a, maxConnections), a.t, Outside))
  {
    ReachableInv(acts, maxConnections, s);
    WaitersExist(s);
    if Count(s.threads, Notifies) > 0 {
      var t := CountWitness(s.threads, Notifies);
      var w :| 0 <= w < |s.threads| && s.threads[w] == Waiting;
      a := Notify(t, w);
    } else {
      var t := CountWitness(s.threads, IsNotified);
      a := Check(t, true);
    }
  }

  /** With no wake-up in flight, waiting means the pool is used up by other threads. */
  lemma QuietWaitersFaceAFullPool(acts: seq<Action>, maxConnections: nat, s: System)
    requires Run(acts, maxConnections) == Some(s)
    requires SomeoneWaits(s)
    requires Count(s.threads, IsNotified) == 0 && Count(s.threads, Notifies) == 0
    ensures s.pool.idle == []
    ensures Count(s.threads, Holds) + Count(s.threads, Opens) == s.pool.total == maxConnections
  {
    ReachableInv(acts, maxConnections, s);
    WaitersExist(s);
  }

  // ---------- hand-off completes ----------

  /** The steps that carry a wake-up through: a pending notify, or the recheck of a notified thread. */
  predicate IsHandOff(s: System, a: Action) {
    Enabled(s, a) && (a.Notify? || (a.Check? && At(s, a.t, Notified)))
  }

  function HandOffsLeft(s: System): nat {
    2 * Count(s.threads, Notifies) + Count(s.threads, IsNotified)
  }

  /** Perform hand-off steps only. */
  function Drain(s: System, acts: seq<Action>, maxConnections: nat): Option<System>
    decreases |acts|
  {
    if acts == [] then Some(s)
    else if !IsHandOff(s, acts[0]) then None
    else Drain(Apply(s, acts[0], maxConnections), acts[1..], maxConnections)
  }

  lemma HandOffProgresses(s: System, a: Action, maxConnections: nat)
    requires IsHandOff(s, a)
    ensures HandOffsLeft(Apply(s, a, maxConnections)) < HandOffsLeft(s)
  {
    var s' := Apply(s, a, maxConnections);
    if a.Notify? {
      var mid := s.threads[a.t := Outside];
      MoveCounts(s.threads, a.t, Outside, mid);
      if SomeoneWaits(s) {
        MoveCounts(mid, a.wakes, Notified, mid[a.wakes := Notified]);
      }
    } else {
      MoveCounts(s.threads, a.t, s'.threads[a.t], s'.threads);
    }
  }

  /** However they are scheduled, hand-off steps run out after at most `HandOffsLeft` of them; once no
      further one is possible, a thread that still waits faces a pool with every slot in use. */
  lemma {:induction false} HandOffCompletes(
      s: System, acts: seq<Action>, maxConnections: nat, s': System)
    requires Inv(s, maxConnections) && Drain(s, acts, maxConnections) == Some(s')
    ensures Inv(s', maxConnections)
    ensures |acts| + HandOffsLeft(s') <= HandOffsLeft(s)
    ensures (forall a :: !IsHandOff(s', a)) && SomeoneWaits(s')
            ==> s'.pool.idle == [] && s'.pool.total == maxConnections
    decreases |acts|
  {
    if acts == [] {
      if (forall a :: !IsHandOff(s', a)) && SomeoneWaits(s') {
        var w :| 0 <= w < |s'.threads| && s'.threads[w] == Waiting;
        WaitersExist(s');
        if Count(s'.threads, Notifies) > 0 {
          var t := CountWitness(s'.threads, Notifies);
          assert IsHandOff(s', Notify(t, w));
        }
        if Count(s'.threads, IsNotified) > 0 {
          var t := CountWitness(s'.threads, IsNotified);
          assert IsHandOff(s', Check(t, true));
        }
      }
    } else {
      StepKeepsInv(s, acts[0], maxConnections);
      HandOffProgresses(s, acts[0], maxConnections);
      HandOffCompletes(Apply(s, acts[0], maxConnections), acts[1..], maxConnections, s');
    }
  }

  // ---------- connections are reused ----------

  /** A thread that finds idle connections takes the one released last and opens none. */
  lemma IdleIsReused(s: System, t: nat, expired: bool, maxConnections: nat)
    requires Enabled(s, Check(t, expired)) && s.pool.idle != []
    ensures var s' := Apply(s, Check(t, expired), maxConnections);
      && s'.threads[t] == Holding(s.pool.idle[|s.pool.idle| - 1])
      && s'.pool.idle + [s'.threads[t].conn] == s.pool.idle
      && s'.pool.total == s.pool.total && s'.nextConn == s.nextConn
  {
  }

  /** A released connection is the next to be handed out. */
  lemma ReleasedIsNext(s: System, t: nat, u: nat, expired: bool, maxConnections: nat)
    requires Enabled(s, Release(t)) && u != t && Enabled(s, Check(u, expired))
    ensures var s1 := Apply(s, Release(t), maxConnections);
      Enabled(s1, Check(u, expired)) && Apply(s1, Check(u, expired), maxConnections).threads[u] == s.threads[t]
  {
  }

  /** A thread opens a connection only if none is idle and the pool is not full; it waits or gives up only if
      the pool is used up, and gives up only if its time is up. */
  lemma ClaimsWhatItCan(s: System, t: nat, expired: bool, maxConnections: nat)
    requires Enabled(s, Check(t, expired))
    ensures var p := Apply(s, Check(t, expired), maxConnections).threads[t];
      && (p == Opening <==> s.pool.idle == [] && s.pool.total < maxConnections)
      && (p == Waiting || p == Outside <==> s.pool.idle == [] && s.pool.total >= maxConnections)
      && (p == Outside ==> expired) && (p == Waiting ==> !expired)
  {
  }

  /** At least one thread is neither opening nor holding a connection. */
  lemma {:induction false} BusyThreads(threads: seq<Phase>, t: nat)
    requires t < |threads| && !threads[t].Holding? && threads[t] != Opening
    ensures Count(threads, Holds) + Count(threads, Opens) < |threads|
  {
    var n := |threads| - 1;
    if t < n {
      BusyThreads(threads[..n], t);
    } else {
      BusyAtMost(threads[..n]);
    }
  }

  lemma {:induction false} BusyAtMost(threads: seq<Phase>)
    ensures Count(threads, Holds) + Count(threads, Opens) <= |threads|
  {
    if threads != [] {
      BusyAtMost(threads[..|threads| - 1]);
    }
  }

  lemma StepKeepsFew(s: System, a: Action, maxConnections: nat)
    requires Enabled(s, a) && Conserved(s, maxConnections) && s.pool.total <= |s.threads|
    ensures Apply(s, a, maxConnections).pool.total <= |Apply(s, a, maxConnections).threads|
  {
    if a.Check? && s.pool.idle == [] {
      BusyThreads(s.threads, a.t);
    }
  }

  lemma StepKeepsMade(s: System, a: Action, maxConnections: nat)
    requires Enabled(s, a) && !a.Discard? && Conserved(s, maxConnections)
    requires s.nextConn + Count(s.threads, Opens) == s.pool.total
    ensures var s' := Apply(s, a, maxConnections);
      s'.nextConn + Count(s'.threads, Opens) == s'.pool.total
  {
    var s' := Apply(s, a, maxConnections);
    if a.Spawn? {
      assert s'.threads[..|s.threads|] == s.threads;
    } else if a.Notify? {
      NotifyKeepsMade(s, a, maxConnections);
    } else {
      MoveKeepsMade(s, a, maxConnections);
    }
  }

  lemma NotifyKeepsMade(s: System, a: Action, maxConnections: nat)
    requires Enabled(s, a) && a.Notify?
    ensures var s' := Apply(s, a, maxConnections);
      Count(s'.threads, Opens) == Count(s.threads, Opens) && s'.nextConn == s.nextConn && s'.pool == s.pool
  {
    var mid := s.threads[a.t := Outside];
    CountUpdate(s.threads, a.t, Outside, Opens);
    if SomeoneWaits(s) {
      CountUpdate(mid, a.wakes, Notified, Opens);
    }
  }

  lemma MoveKeepsMade(s: System, a: Action, maxConnections: nat)
    requires Enabled(s, a) && !a.Discard? && !a.Spawn? && !a.Notify? && Conserved(s, maxConnections)
    requires s.nextConn + Count(s.threads, Opens) == s.pool.total
    ensures var s' := Apply(s, a, maxConnections);
      s'.nextConn + Count(s'.threads, Opens) == s'.pool.total
  {
    var s' := Apply(s, a, maxConnections);
    CountPositive(s.threads, a.t);
    CountUpdate(s.threads, a.t, s'.threads[a.t], Opens);
  }

  /** In every run there are at most as many connections as threads, however large the pool may grow; and
      while none is discarded, no more were ever made. */
  lemma {:induction false} NoMoreConnectionsThanThreads(acts: seq<Action>, maxConnections: nat, s: System)
    requires Run(acts, maxConnections) == Some(s)
    ensures s.pool.total <= |s.threads|
    ensures (forall i :: 0 <= i < |acts| ==> !acts[i].Discard?) ==>
      s.nextConn + Count(s.threads, Opens) == s.pool.total && s.nextConn <= |s.threads|
    decreases |acts|
  {
    if acts != [] {
      var last := |acts| - 1;
      var prev := Run(acts[..last], maxConnections).value;
      NoMoreConnectionsThanThreads(acts[..last], maxConnections, prev);
      ReachableInv(acts[..last], maxConnections, prev);
      StepKeepsFew(prev, acts[last], maxConnections);
      if forall i :: 0 <= i < |acts| ==> !acts[i].Discard? {
        assert forall i :: 0 <= i < last ==> acts[..last][i] == acts[i];
        StepKeepsMade(prev, acts[last], maxConnections);
      }
    }
  }

  /** One thread that acquires and releases any number of times makes one connection. */
  lemma OneThreadMakesOne(acts: seq<Action>, maxConnections: nat, s: System)
    requires Run(acts, maxConnections) == Some(s) && |s.threads| == 1
    requires forall i :: 0 <= i < |acts| ==> !acts[i].Discard?
    ensures s.nextConn <= 1
    ensures s.threads[0].Holding? || s.pool.idle != [] ==> s.nextConn == 1
  {
    NoMoreConnectionsThanThreads(acts, maxConnections, s);
    ReachableInv(acts, maxConnections, s);
  }
}
