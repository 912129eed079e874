/**
The GUI scheduler: a thread that decides under a mutex what to wait for, then waits outside of it, and
is woken through a channel with one slot.  Writers change the shared state or the `backup_running` flag
first and send afterwards; a send on a full channel is dropped.
*/
module Scheduler {
  import opened Wrappers

  datatype State = State(enabled: bool, paused: bool, nextRun: Option<int>)

  /** What `compute_scheduler_delay` returns: a delay, or an error in the schedule. */
  datatype Delay = After(length: nat) | Invalid

  datatype Reason = Inactive | BackupRunning | NothingPlanned

  /** What the first locked section decides to do. */
  datatype Plan = Block(reason: Reason) | Sleep(until: int) | Due | Again

  /** Lines 54-111 of scheduler.rs, the locked section at the top of the loop. */
  function PlanNext(s: State, now: int, backupRunning: bool, delay: Delay): (State, Plan) {
    if !s.enabled || s.paused then (s, Block(Inactive))
    else if s.nextRun.None? && delay.Invalid? then (s.(paused := true, nextRun := None), Again)
    else
      var s' := if s.nextRun.None? then s.(nextRun := Some(now + delay.length)) else s;
      var next := s'.nextRun.value;
      (s', if now < next then Sleep(next) else if backupRunning then Block(BackupRunning) else Due)
  }

  /** Lines 129-156, the locked section after the wait: whether to run, and when to run next. */
  function CheckDue(s: State, now: int, backupRunning: bool, delay: Delay): (State, bool) {
    if !s.enabled || s.paused || s.nextRun.None? || now < s.nextRun.value || backupRunning then (s, false)
    else if delay.Invalid? then (s.(paused := true, nextRun := None), true)
    else (s.(nextRun := Some(now + delay.length)), true)
  }

  /** The state behind the mutex; each method is one locked section. */
  class SchedulerState {
    var enabled: bool
    var paused: bool
    var nextRun: Option<int>

    constructor ()
      ensures Value() == State(false, false, None)
    {
      enabled, paused, nextRun := false, false, None;
    }

    function Value(): State
      reads this
    {
      State(enabled, paused, nextRun)
    }

    method PlanWait(now: int, backupRunning: bool, delay: Delay) returns (plan: Plan)
      modifies this
      ensures (Value(), plan) == PlanNext(old(Value()), now, backupRunning, delay)
    {
      if !enabled || paused {
        return Block(Inactive);
      }
      if nextRun.None? {
        match delay
        case After(length) => nextRun := Some(now + length);
        case Invalid =>
          paused := true;
          nextRun := None;
          return Again;
      }
      match nextRun
      case Some(next) =>
        if now >= next {
          if backupRunning {
            return Block(BackupRunning);
          }
          return Due;
        }
        return Sleep(next);
      case None =>
        return Block(NothingPlanned);
    }

    method Recheck(now: int, backupRunning: bool, delay: Delay) returns (shouldRun: bool)
      modifies this
      ensures (Value(), shouldRun) == CheckDue(old(Value()), now, backupRunning, delay)
    {
      shouldRun := false;
      if !enabled || paused {
        return;
      }
      if nextRun.Some? && now >= nextRun.value && !backupRunning {
        shouldRun := true;
        match delay
        case After(length) => nextRun := Some(now + length);
        case Invalid =>
          paused := true;
          nextRun := None;
      }
    }

    /** Applying a configuration: lines 66-78 of config_helpers.rs. */
    method Configure(enabled: bool, paused: bool, nextRun: int)
      modifies this
      ensures Value() == State(enabled, paused, Some(nextRun))
    {
      this.enabled, this.paused, this.nextRun := enabled, paused, Some(nextRun);
    }
  }

  // ---------- all threads together ----------

  /** Where the scheduler thread stands.  `seen` is the number of configuration writes it had seen, and
      `view` the state, when it last held the mutex. */
  datatype Phase =
    | Planning                                        // about to lock at the top of the loop
    | Blocked(reason: Reason, seen: nat, view: State) // mutex dropped, in or about to enter `recv`
    | Asleep(until: int, seen: nat, view: State)      // mutex dropped, in or about to enter `select!`
    | Rechecking                                      // about to lock after the wait
    | Firing                                          // about to send the backup command

  /** A thread that writes first and notifies afterwards. */
  datatype Writer = Quiet | Busy | Notifying

  datatype System = System(
    state: State, backupRunning: bool, token: bool, now: int,
    scheduler: Phase, writers: seq<Writer>, writes: nat)

  datatype Action =
    | Tick(elapsed: nat)
    | Spawn
    | Apply(w: nat, enabled: bool, paused: bool, wait: nat)  // `apply_config`, or the set-up in `run_worker`
    | StartBackup(w: nat)
    | FinishBackup(w: nat)                                    // `backup_running.store(false)`
    | Notify(w: nat)                                          // `try_send`: dropped when the slot is full
    | PlanStep(delay: Delay)
    | Receive                                                 // take the token
    | TimeOut
    | RecheckStep(delay: Delay)
    | Send

  predicate WriterAt(s: System, w: nat, p: Writer) {
    w < |s.writers| && s.writers[w] == p
  }

  predicate Enabled(s: System, a: Action) {
    match a
    case Tick(_) => true
    case Spawn => true
    case Apply(w, _, _, _) => WriterAt(s, w, Quiet)
    case StartBackup(w) => WriterAt(s, w, Quiet)
    case FinishBackup(w) => WriterAt(s, w, Busy)
    case Notify(w) => WriterAt(s, w, Notifying)
    case PlanStep(_) => s.scheduler.Planning?
    case Receive => s.token && (s.scheduler.Blocked? || s.scheduler.Asleep?)
    case TimeOut => s.scheduler.Asleep? && s.now >= s.scheduler.until
    case RecheckStep(_) => s.scheduler.Rechecking?
    case Send => s.scheduler.Firing?
  }

  function Do(s: System, a: Action): System
    requires Enabled(s, a)
  {
    match a
    case Tick(elapsed) => s.(now := s.now + elapsed)
    case Spawn => s.(writers := s.writers + [Quiet])
    case Apply(w, enabled, paused, wait) =>
      s.(state := State(enabled, paused, Some(s.now + wait)), writes := s.writes + 1,
         writers := s.writers[w := Notifying])
    case StartBackup(w) => s.(backupRunning := true, writers := s.writers[w := Busy])
    case FinishBackup(w) => s.(backupRunning := false, writers := s.writers[w := Notifying])
    case Notify(w) => s.(token := true, writers := s.writers[w := Quiet])
    case PlanStep(delay) =>
      var (state, plan) := PlanNext(s.state, s.now, s.backupRunning, delay);
      s.(state := state, scheduler :=
        match plan
        case Block(reason) => Blocked(reason, s.writes, state)
        case Sleep(until) => Asleep(until, s.writes, state)
        case Due => Rechecking
        case Again => Planning)
    case Receive => s.(token := false, scheduler := Planning)
    case TimeOut => s.(scheduler := Rechecking)
    case RecheckStep(delay) =>
      var (state, run) := CheckDue(s.state, s.now, s.backupRunning, delay);
      s.(state := state, scheduler := if run then Firing else Planning)
    case Send => s.(scheduler := Planning)
  }

  const Start: System := System(State(false, false, None), false, false, 0, Planning, [], 0)

  function Run(acts: seq<Action>): Option<System> {
    if acts == [] then Some(Start)
    else
      var last := |acts| - 1;
      match Run(acts[..last])
      case None => None
      case Some(s) => if Enabled(s, acts[last]) then Some(Do(s, acts[last])) else None
  }

  // ---------- no wake-up is lost ----------

  /** A token is in the slot, or some writer has yet to send. */
  predicate WakeUpComing(s: System) {
    s.token || exists w :: 0 <= w < |s.writers| && s.writers[w] == Notifying
  }

  /** The scheduler waits on something that a writer has changed since. */
  predicate Stale(s: System) {
    match s.scheduler
    case Blocked(reason, seen, _) => seen != s.writes || (reason == BackupRunning && !s.backupRunning)
    case Asleep(_, seen, _) => seen != s.writes
    case _ => false
  }

  /** A view no writer has outdated is the state itself, and justifies the wait. */
  predicate Justified(s: System) {
    match s.scheduler
    case Blocked(reason, seen, view) =>
      && seen <= s.writes
      && (seen == s.writes ==> view == s.state)
      && (match reason
          case Inactive => !view.enabled || view.paused
          case BackupRunning => view.enabled && !view.paused && view.nextRun.Some? && view.nextRun.value <= s.now
          case NothingPlanned => false)
    case Asleep(until, seen, view) =>
      && seen <= s.writes
      && (seen == s.writes ==> view == s.state)
      && view.enabled && !view.paused && view.nextRun == Some(until)
    case _ => true
  }

  predicate Inv(s: System) {
    (Stale(s) ==> WakeUpComing(s)) && Justified(s)
  }

  lemma WriterStepKeepsInv(s: System, a: Action)
    requires Inv(s) && Enabled(s, a)
    requires a.Spawn? || a.Apply? || a.StartBackup? || a.FinishBackup? || a.Notify?
    ensures Inv(Do(s, a))
  {
    var s' := Do(s, a);
    if a.Apply? || a.FinishBackup? {
      assert s'.writers[a.w] == Notifying;
    } else if WakeUpComing(s) && !a.Notify? && !s.token {
      var w :| 0 <= w < |s.writers| && s.writers[w] == Notifying;
      assert s'.writers[w] == Notifying;
    }
  }

  lemma StepKeepsInv(s: System, a: Action)
    requires Inv(s) && Enabled(s, a)
    ensures Inv(Do(s, a))
  {
    if a.Spawn? || a.Apply? || a.StartBackup? || a.FinishBackup? || a.Notify? {
      WriterStepKeepsInv(s, a);
    }
  }

  lemma {:induction false} ReachableInv(acts: seq<Action>, s: System)
    requires Run(acts) == Some(s)
    ensures Inv(s)
    decreases |acts|
  {
    if acts != [] {
      var last := |acts| - 1;
      ReachableInv(acts[..last], Run(acts[..last]).value);
      StepKeepsInv(Run(acts[..last]).value, acts[last]);
    }
  }

  /** In every interleaving, waiting on an outdated view means a wake-up is in the slot or still to be sent. */
  lemma NoLostWakeUp(acts: seq<Action>, s: System)
    requires Run(acts) == Some(s)
    ensures Stale(s) ==> WakeUpComing(s)
  {
    ReachableInv(acts, s);
  }

  /** With nothing in flight, the scheduler waits exactly for what is true now. */
  lemma QuietWaitIsRight(acts: seq<Action>, s: System)
    requires Run(acts) == Some(s) && !WakeUpComing(s)
    ensures s.scheduler.Blocked? ==>
      || !s.state.enabled || s.state.paused
      || (s.backupRunning && s.state.nextRun.Some? && s.state.nextRun.value <= s.now)
    ensures s.scheduler.Asleep? ==>
      s.state.enabled && !s.state.paused && s.state.nextRun == Some(s.scheduler.until)
  {
    ReachableInv(acts, s);
  }

  /** The branch that blocks for want of a planned run is never taken. */
  lemma AlwaysSomethingPlanned(acts: seq<Action>, s: System)
    requires Run(acts) == Some(s) && s.scheduler.Blocked?
    ensures s.scheduler.reason != NothingPlanned
  {
    ReachableInv(acts, s);
  }

  // ---------- a due backup fires ----------

  /** The scheduler's own next step, when it has one that needs no one else. */
  function OwnStep(s: System, delay: Delay): Option<Action> {
    match s.scheduler
    case Planning => Some(PlanStep(delay))
    case Rechecking => Some(RecheckStep(delay))
    case Firing => Some(Send)
    case Blocked(_, _, _) => if s.token then Some(Receive) else None
    case Asleep(until, _, _) =>
      if s.token then Some(Receive) else if s.now >= until then Some(TimeOut) else None
  }

  /** The scheduler runs `n` of its own steps; everyone else and the clock stand still. */
  function Alone(s: System, n: nat, delay: Delay): System
    decreases n
  {
    if n == 0 then s
    else
      match OwnStep(s, delay)
      case None => s
      case Some(a) => Alone(Do(s, a), n - 1, delay)
  }

  /** An active schedule whose time has come, and no backup in the way. */
  predicate ReadyToFire(s: System) {
    && s.state.enabled && !s.state.paused
    && s.state.nextRun.Some? && s.state.nextRun.value <= s.now && !s.backupRunning
  }

  /** The step decides to send the backup command. */
  predicate Fires(s: System, a: Action) {
    Enabled(s, a) && !s.scheduler.Firing? && Do(s, a).scheduler.Firing?
  }

  /** Of the scheduler's own steps, the one after the first `n` fires. */
  predicate FiresAfter(s: System, n: nat, delay: Delay) {
    var s' := Alone(s, n, delay);
    OwnStep(s', delay).Some? && Fires(s', OwnStep(s', delay).value)
  }

  lemma {:induction false} AloneStep(s: System, n: nat, delay: Delay)
    requires OwnStep(s, delay).Some?
    ensures Alone(s, n + 1, delay) == Alone(Do(s, OwnStep(s, delay).value), n, delay)
  {
  }

  /** Once every writer has sent its notification, one of the next three steps of the scheduler fires a due
      backup, wherever it was waiting. */
  lemma DueBackupFires(acts: seq<Action>, s: System, delay: Delay)
    requires Run(acts) == Some(s) && ReadyToFire(s)
    requires forall w :: 0 <= w < |s.writers| ==> s.writers[w] != Notifying
    ensures exists n: nat :: n < 3 && FiresAfter(s, n, delay)
  {
    ReachableInv(acts, s);
    DueFires(s, delay);
  }

  lemma DueFires(s: System, delay: Delay)
    requires Inv(s) && ReadyToFire(s)
    requires forall w :: 0 <= w < |s.writers| ==> s.writers[w] != Notifying
    ensures exists n: nat :: n < 3 && FiresAfter(s, n, delay)
  {
    if s.scheduler.Rechecking? {
      FiresFromRechecking(s, delay);
    } else if s.scheduler.Planning? {
      FiresFromPlanning(s, delay);
    } else {
      var s1 := Do(s, OwnStep(s, delay).value);
      AloneStep(s, 0, delay);
      AloneStep(s, 1, delay);
      if s1.scheduler.Planning? {
        FiresFromPlanning(s1, delay);
        assert FiresAfter(s, 2, delay);
      } else {
        FiresFromRechecking(s1, delay);
        assert FiresAfter(s, 1, delay);
      }
    }
  }

  lemma FiresFromRechecking(s: System, delay: Delay)
    requires s.scheduler.Rechecking? && ReadyToFire(s)
    ensures FiresAfter(s, 0, delay)
  {
    assert Alone(s, 0, delay) == s;
  }

  lemma FiresFromPlanning(s: System, delay: Delay)
    requires s.scheduler.Planning? && ReadyToFire(s)
    ensures FiresAfter(s, 1, delay)
  {
    FiresFromRechecking(Do(s, PlanStep(delay)), delay);
    AloneStep(s, 0, delay);
  }

  // ---------- no backup fires early ----------

  function RunFrom(s: System, acts: seq<Action>): Option<System>
    decreases |acts|
  {
    if acts == [] then Some(s)
    else if Enabled(s, acts[0]) then RunFrom(Do(s, acts[0]), acts[1..])
    else None
  }

  /** The schedule is paused, or planned for `bound` or later. */
  predicate PlannedFrom(s: System, bound: int) {
    s.state.paused || (s.state.nextRun.Some? && s.state.nextRun.value >= bound)
  }

  lemma FiringIsDue(s: System, a: Action)
    requires Fires(s, a)
    ensures ReadyToFire(s) && a.RecheckStep?
  {
  }

  lemma StepKeepsPlan(s: System, a: Action, bound: int)
    requires Enabled(s, a) && !a.Apply? && PlannedFrom(s, bound)
    ensures PlannedFrom(Do(s, a), bound)
  {
  }

  lemma {:induction false} RunKeepsPlan(s: System, acts: seq<Action>, bound: int, s': System)
    requires RunFrom(s, acts) == Some(s') && PlannedFrom(s, bound)
    requires forall i :: 0 <= i < |acts| ==> !acts[i].Apply?
    ensures PlannedFrom(s', bound)
    decreases |acts|
  {
    if acts != [] {
      StepKeepsPlan(s, acts[0], bound);
      RunKeepsPlan(Do(s, acts[0]), acts[1..], bound, s');
    }
  }

  /** Over every run in which the configuration is not applied anew, two firings are at least the computed
      delay apart; and a schedule whose delay could not be computed does not fire again. */
  lemma FiringsAreApart(s: System, fire: Action, between: seq<Action>, s': System, again: Action)
    requires Fires(s, fire) && RunFrom(Do(s, fire), between) == Some(s') && Fires(s', again)
    requires forall i :: 0 <= i < |between| ==> !between[i].Apply?
    ensures fire.RecheckStep? && fire.delay.After? && s'.now >= s.now + fire.delay.length
  {
    FiringIsDue(s, fire);
    FiringIsDue(s', again);
    var bound := if fire.delay.After? then s.now + fire.delay.length else s'.now + 1;
    RunKeepsPlan(Do(s, fire), between, bound, s');
  }

  // ---------- no backup fires late ----------

  /** None of the steps fires. */
  predicate NoFiring(s: System, acts: seq<Action>)
    decreases |acts|
  {
    acts == [] || (Enabled(s, acts[0]) && !Fires(s, acts[0]) && NoFiring(Do(s, acts[0]), acts[1..]))
  }

  /** An active schedule, planned for exactly `time`. */
  predicate PlannedFor(s: System, time: int) {
    s.state == State(true, false, Some(time))
  }

  lemma {:induction false} PlanStays(s: System, acts: seq<Action>, time: int, s': System)
    requires RunFrom(s, acts) == Some(s') && PlannedFor(s, time)
    requires NoFiring(s, acts) && forall i :: 0 <= i < |acts| ==> !acts[i].Apply?
    ensures PlannedFor(s', time)
    decreases |acts|
  {
    if acts != [] {
      assert PlannedFor(Do(s, acts[0]), time);
      PlanStays(Do(s, acts[0]), acts[1..], time, s');
    }
  }

  lemma {:induction false} RunFromKeepsInv(s: System, acts: seq<Action>, s': System)
    requires RunFrom(s, acts) == Some(s') && Inv(s)
    ensures Inv(s')
    decreases |acts|
  {
    if acts != [] {
      StepKeepsInv(s, acts[0]);
      RunFromKeepsInv(Do(s, acts[0]), acts[1..], s');
    }
  }

  /** After a firing the schedule stays active and planned for exactly the computed delay later, until it fires
      again or is configured anew. */
  lemma PlansTheNextRun(s: System, fire: Action, between: seq<Action>, s': System)
    requires Fires(s, fire) && fire.RecheckStep? && fire.delay.After?
    requires RunFrom(Do(s, fire), between) == Some(s') && NoFiring(Do(s, fire), between)
    requires forall i :: 0 <= i < |between| ==> !between[i].Apply?
    ensures PlannedFor(s', s.now + fire.delay.length)
  {
    FiringIsDue(s, fire);
    PlanStays(Do(s, fire), between, s.now + fire.delay.length, s');
  }

  /** The other half of `FiringsAreApart`: as soon as the computed delay has passed, no backup runs and the
      writers have sent, one of the next three steps of the scheduler fires. */
  lemma FiringsAreOnTime(acts: seq<Action>, s: System, fire: Action, between: seq<Action>, s': System, delay: Delay)
    requires Run(acts) == Some(s) && Fires(s, fire) && fire.RecheckStep? && fire.delay.After?
    requires RunFrom(Do(s, fire), between) == Some(s') && NoFiring(Do(s, fire), between)
    requires forall i :: 0 <= i < |between| ==> !between[i].Apply?
    requires s'.now >= s.now + fire.delay.length && !s'.backupRunning
    requires forall w :: 0 <= w < |s'.writers| ==> s'.writers[w] != Notifying
    ensures exists n: nat :: n < 3 && FiresAfter(s', n, delay)
  {
    PlansTheNextRun(s, fire, between, s');
    ReachableInv(acts, s);
    StepKeepsInv(s, fire);
    RunFromKeepsInv(Do(s, fire), between, s');
    DueFires(s', delay);
  }

  /** A new configuration is planned for exactly the wait it came with, until it fires or is replaced. */
  lemma AppliedPlan(s: System, w: nat, wait: nat, between: seq<Action>, s': System)
    requires Enabled(s, Apply(w, true, false, wait))
    requires RunFrom(Do(s, Apply(w, true, false, wait)), between) == Some(s')
    requires NoFiring(Do(s, Apply(w, true, false, wait)), between)
    requires forall i :: 0 <= i < |between| ==> !between[i].Apply?
    ensures PlannedFor(s', s.now + wait)
  {
    PlanStays(Do(s, Apply(w, true, false, wait)), between, s.now + wait, s');
  }

  /** An active schedule without a plan gets one for exactly the computed delay later, or is paused. */
  lemma UnplannedIsPlanned(s: System, delay: Delay)
    requires s.scheduler.Planning? && s.state == State(true, false, None)
    ensures var s' := Do(s, PlanStep(delay));
      if delay.After? then PlannedFor(s', s.now + delay.length) else s'.state.paused && !s'.scheduler.Firing?
  {
  }

  // ---------- no spinning ----------

  /** The scheduler waits for someone else or for the clock. */
  predicate Resting(s: System, delay: Delay) {
    OwnStep(s, delay).None?
  }

  lemma SettlesFromPlanning(s: System, delay: Delay)
    requires s.scheduler.Planning? && !s.token
    ensures exists n: nat :: n <= 2 && (Alone(s, n, delay).scheduler.Firing? || Resting(Alone(s, n, delay), delay))
  {
    var s1 := Do(s, PlanStep(delay));
    AloneStep(s, 0, delay);
    AloneStep(s, 1, delay);
    if OwnStep(s1, delay).Some? {
      AloneStep(s1, 0, delay);
    }
    assert Alone(s, 1, delay) == s1;
    if !Resting(s1, delay) {
      var s2 := Do(s1, OwnStep(s1, delay).value);
      assert Alone(s, 2, delay) == s2;
    }
  }

  /** Left alone, with no token to take, the scheduler fires or comes to rest within four steps, also while a
      backup is running past its planned time: it never spins. */
  lemma NeverSpins(s: System, delay: Delay)
    requires !s.token && !s.scheduler.Firing?
    ensures exists n: nat :: n <= 4 && (Alone(s, n, delay).scheduler.Firing? || Resting(Alone(s, n, delay), delay))
  {
    if s.scheduler.Planning? {
      SettlesFromPlanning(s, delay);
    } else if s.scheduler.Rechecking? {
      SettlesFromRechecking(s, delay);
    } else if Resting(s, delay) {
      assert Alone(s, 0, delay) == s;
    } else {
      var s1 := Do(s, TimeOut);
      SettlesFromRechecking(s1, delay);
      var n: nat :| n <= 3 && (Alone(s1, n, delay).scheduler.Firing? || Resting(Alone(s1, n, delay), delay));
      AloneStep(s, n, delay);
    }
  }

  lemma SettlesFromRechecking(s: System, delay: Delay)
    requires s.scheduler.Rechecking? && !s.token
    ensures exists n: nat :: n <= 3 && (Alone(s, n, delay).scheduler.Firing? || Resting(Alone(s, n, delay), delay))
  {
    var s1 := Do(s, RecheckStep(delay));
    if s1.scheduler.Firing? {
      AloneStep(s, 0, delay);
      assert Alone(s, 1, delay) == s1;
    } else {
      SettlesFromPlanning(s1, delay);
      var n: nat :| n <= 2 && (Alone(s1, n, delay).scheduler.Firing? || Resting(Alone(s1, n, delay), delay));
      AloneStep(s, n, delay);
    }
  }
}
