/** The whole cycle: backup, prune, compact and check, with skips and cancellation. */
module FullCycle {
  import opened Wrappers
  import opened Hooks
  import opened HookLaws
  import opened Cycle

  datatype CheckResult = CheckResult(skipped: bool, errors: nat)

  /** The commands of a cycle, and what they report while they run. */
  datatype Commands = Commands(
    backup: Action<Report>,
    prune: Action<nat>,
    compact: Action<nat>,
    check: Action<CheckResult>,
    notes: (CycleStep, seq<Event>) -> seq<string>,
    checkMessage: nat -> string)

  datatype CycleResult = CycleResult(
    report: Option<Report>, pruned: Option<nat>, compacted: Option<nat>, checked: Option<CheckResult>)

  const ORDER: seq<CycleStep> := [Backup, Prune, Compact, Check]

  function JudgeBackup(report: Report): StepOutcome {
    if exists i :: 0 <= i < |report| && report[i].errors > 0 then Partial else Fine
  }

  function JudgeCheck(checkMessage: nat -> string): CheckResult -> StepOutcome {
    (c: CheckResult) =>
      if c.skipped then Skipped("check not due")
      else if c.errors == 0 then Fine
      else Failed(checkMessage(c.errors))
  }

  function Noting(commands: Commands, step: CycleStep): seq<Event> -> seq<string> {
    (t: seq<Event>) => commands.notes(step, t)
  }

  function BackupDef(c: Commands): StepDef<Report> {
    StepDef(Backup, c.backup, JudgeBackup, Noting(c, Backup))
  }

  function PruneDef(c: Commands): StepDef<nat> {
    StepDef(Prune, c.prune, (_: nat) => Fine, Noting(c, Prune))
  }

  function CompactDef(c: Commands): StepDef<nat> {
    StepDef(Compact, c.compact, (_: nat) => Fine, Noting(c, Compact))
  }

  function CheckDef(c: Commands): StepDef<CheckResult> {
    StepDef(Check, c.check, JudgeCheck(c.checkMessage), Noting(c, Check))
  }

  // ---------- the cycle as a function of the history ----------

  type Steps = seq<(CycleStep, StepOutcome)>

  /** What happened so far, and what was recorded and reported of it. */
  datatype Log = Log(trace: seq<Event>, steps: Steps, events: seq<CycleEvent>)

  /** Hooks and commands of one repository. */
  datatype Repo = Repo(exec: Exec, global: HooksConfig, repo: HooksConfig, hasRetention: bool, commands: Commands)

  function Done<T>(log: Log, step: CycleStep, run: StepRun<T>): Log {
    Log(run.trace, log.steps + [(step, run.outcome)], log.events + run.emitted)
  }

  function Step<T>(r: Repo, def: StepDef<T>, log: Log): (Log, Option<T>) {
    var run := StepOf(r.exec, r.global, r.repo, def, log.trace);
    (Done(log, def.step, run), run.value)
  }

  function Skip(log: Log, step: CycleStep, reason: string): Log {
    Log(log.trace, log.steps + [(step, Skipped(reason))],
        log.events + [StepStarted(step), StepFinished(step, Skipped(reason))])
  }

  /** Some recorded backup succeeded. */
  predicate BackupOk(steps: Steps) {
    exists i :: 0 <= i < |steps| && steps[i].0 == Backup && steps[i].1.IsSuccess()
  }

  function BackupTurn(r: Repo, stop: bool, log: Log): (Log, Option<Report>) {
    if stop then (log, None) else Step(r, BackupDef(r.commands), log)
  }

  function PruneTurn(r: Repo, stop: bool, backupOk: bool, log: Log): (Log, Option<nat>) {
    if stop then (log, None)
    else if !r.hasRetention then (Skip(log, Prune, "no retention rules"), None)
    else if !backupOk then (Skip(log, Prune, "backup failed"), None)
    else Step(r, PruneDef(r.commands), log)
  }

  function CompactTurn(r: Repo, stop: bool, backupOk: bool, log: Log): (Log, Option<nat>) {
    if stop then (log, None)
    else if !backupOk then (Skip(log, Compact, "backup failed"), None)
    else Step(r, CompactDef(r.commands), log)
  }

  function CheckTurn(r: Repo, stop: bool, log: Log): (Log, Option<CheckResult>) {
    if stop then (log, None) else Step(r, CheckDef(r.commands), log)
  }

  /** `shutdown[i]` is the flag as read before turn `i`. */
  function CycleOf(r: Repo, shutdown: seq<bool>, log: Log): (Log, CycleResult)
    requires |shutdown| == 4
  {
    var (log1, report) := BackupTurn(r, shutdown[0], log);
    var backupOk := BackupOk(log1.steps);
    var (log2, pruned) := PruneTurn(r, shutdown[1], backupOk, log1);
    var (log3, compacted) := CompactTurn(r, shutdown[2], backupOk, log2);
    var (log4, checked) := CheckTurn(r, shutdown[3], log3);
    (log4, CycleResult(report, pruned, compacted, checked))
  }

  // ---------- the cycle as it runs ----------

  ghost function LogOf(run: CycleRun, w: World): Log
    reads run, w
  {
    Log(w.trace, run.steps, run.events)
  }

  method RunStep<T>(r: Repo, def: StepDef<T>, run: CycleRun, w: World) returns (value: Option<T>)
    requires w.exec == r.exec
    modifies run, w
    ensures (LogOf(run, w), value) == Step(r, def, old(LogOf(run, w)))
  {
    value := RunHookedStep(def, r.global, r.repo, run, w);
  }

  method RunSkip(step: CycleStep, reason: string, run: CycleRun, w: World)
    modifies run
    ensures LogOf(run, w) == Skip(old(LogOf(run, w)), step, reason)
  {
    EmitSkipped(step, reason, run);
  }

  /** `run_full_cycle_for_repo`. */
  method RunFullCycle(r: Repo, shutdown: seq<bool>, run: CycleRun, w: World) returns (result: CycleResult)
    requires |shutdown| == 4 && w.exec == r.exec
    modifies run, w
    ensures (LogOf(run, w), result) == CycleOf(r, shutdown, old(LogOf(run, w)))
  {
    var report, pruned, compacted, checked := None, None, None, None;
    if !shutdown[0] {
      report := RunStep(r, BackupDef(r.commands), run, w);
    }
    var backupOk := BackupOk(run.steps);
    if !shutdown[1] {
      if !r.hasRetention {
        RunSkip(Prune, "no retention rules", run, w);
      } else if !backupOk {
        RunSkip(Prune, "backup failed", run, w);
      } else {
        pruned := RunStep(r, PruneDef(r.commands), run, w);
      }
    }
    if !shutdown[2] {
      if !backupOk {
        RunSkip(Compact, "backup failed", run, w);
      } else {
        compacted := RunStep(r, CompactDef(r.commands), run, w);
      }
    }
    if !shutdown[3] {
      checked := RunStep(r, CheckDef(r.commands), run, w);
    }
    result := CycleResult(report, pruned, compacted, checked);
  }

  // ---------- what the records of a cycle look like ----------

  predicate Inner(e: CycleEvent, step: CycleStep) {
    (e.Progress? || e.HookWarning?) && e.step == step
  }

  /** One start, one finish with the recorded outcome, and in between only this step's own reports. */
  predicate Block(events: seq<CycleEvent>, step: CycleStep, outcome: StepOutcome) {
    && |events| >= 2
    && events[0] == StepStarted(step)
    && events[|events| - 1] == StepFinished(step, outcome)
    && forall i :: 0 < i < |events| - 1 ==> Inner(events[i], step)
  }

  /** The events are one block per recorded step, in the same order. */
  ghost predicate Blocks(events: seq<CycleEvent>, steps: Steps)
    decreases |steps|
  {
    if steps == [] then events == []
    else
      var last := |steps| - 1;
      exists k :: 0 <= k <= |events|
        && Block(events[k..], steps[last].0, steps[last].1) && Blocks(events[..k], steps[..last])
  }

  lemma AppendBlock(events: seq<CycleEvent>, steps: Steps, more: seq<CycleEvent>, step: CycleStep, outcome: StepOutcome)
    requires Blocks(events, steps) && Block(more, step, outcome)
    ensures Blocks(events + more, steps + [(step, outcome)])
  {
    var k := |events|;
    assert (events + more)[k..] == more && (events + more)[..k] == events;
    assert (steps + [(step, outcome)])[..|steps|] == steps;
  }

  lemma EnclosedIsBlock(step: CycleStep, notes: seq<string>, warnings: seq<string>, outcome: StepOutcome)
    ensures Block([StepStarted(step)] + Notes(step, notes) + Warnings(step, warnings) + [StepFinished(step, outcome)],
                  step, outcome)
  {
  }

  /** A step's events form one block; a successful outcome comes with the value it was judged by. */
  lemma StepIsBlock<T>(exec: Exec, global: HooksConfig, repo: HooksConfig, def: StepDef<T>, trace: seq<Event>)
    ensures var s := StepOf(exec, global, repo, def, trace);
      && Block(s.emitted, def.step, s.outcome)
      && (s.outcome.IsSuccess() ==> s.value.Some? && def.classify(s.value.value) == s.outcome)
  {
    ValueIff(exec, global, repo, def, trace);
    var plan, v := RepoPlan(global, repo, CommandName(def.step)), View(None, [], trace);
    var (v', _) := Lifecycle(exec, plan, v, Judged(def.action, def.classify));
    var (v1, failure) := RunUntilFailure(exec, plan.before, v);
    EnclosedIsBlock(def.step, if failure.Some? then [] else def.notes(v1.trace), v'.warnings,
                    StepOf(exec, global, repo, def, trace).outcome);
  }

  function Names(steps: Steps): (r: seq<CycleStep>)
    ensures |r| == |steps|
  {
    seq(|steps|, i requires 0 <= i < |steps| => steps[i].0)
  }

  /** The steps whose turn came while no shutdown was requested. */
  function Admitted(shutdown: seq<bool>, n: nat): seq<CycleStep>
    requires n <= |shutdown| == 4
  {
    if n == 0 then [] else Admitted(shutdown, n - 1) + if shutdown[n - 1] then [] else [ORDER[n - 1]]
  }

  /** Records consistent with the first `n` turns. */
  ghost predicate Recorded(log: Log, shutdown: seq<bool>, n: nat)
    requires n <= |shutdown| == 4
  {
    Names(log.steps) == Admitted(shutdown, n) && Blocks(log.events, log.steps)
  }

  lemma NamesSnoc(steps: Steps, step: CycleStep, outcome: StepOutcome)
    ensures Names(steps + [(step, outcome)]) == Names(steps) + [step]
  {
  }

  lemma AdmittedNext(shutdown: seq<bool>, n: nat)
    requires n < |shutdown| == 4 && !shutdown[n]
    ensures Admitted(shutdown, n + 1) == Admitted(shutdown, n) + [ORDER[n]]
  {
  }

  lemma MoreRecorded(
    log: Log, log': Log, outcome: StepOutcome, emitted: seq<CycleEvent>, shutdown: seq<bool>, n: nat)
    requires n < |shutdown| == 4 && !shutdown[n] && Recorded(log, shutdown, n) && Block(emitted, ORDER[n], outcome)
    requires log'.steps == log.steps + [(ORDER[n], outcome)] && log'.events == log.events + emitted
    ensures Recorded(log', shutdown, n + 1)
  {
    var step := ORDER[n];
    AppendBlock(log.events, log.steps, emitted, step, outcome);
    NamesSnoc(log.steps, step, outcome);
    AdmittedNext(shutdown, n);
  }

  lemma StepRecorded<T>(r: Repo, def: StepDef<T>, log: Log, shutdown: seq<bool>, n: nat)
    requires n < |shutdown| == 4 && !shutdown[n] && def.step == ORDER[n] && Recorded(log, shutdown, n)
    ensures Recorded(Step(r, def, log).0, shutdown, n + 1)
  {
    var s := StepOf(r.exec, r.global, r.repo, def, log.trace);
    StepIsBlock(r.exec, r.global, r.repo, def, log.trace);
    MoreRecorded(log, Done(log, def.step, s), s.outcome, s.emitted, shutdown, n);
  }

  lemma SkipRecorded(log: Log, reason: string, shutdown: seq<bool>, n: nat)
    requires n < |shutdown| == 4 && !shutdown[n] && Recorded(log, shutdown, n)
    ensures Recorded(Skip(log, ORDER[n], reason), shutdown, n + 1)
  {
    var step, outcome := ORDER[n], Skipped(reason);
    MoreRecorded(log, Skip(log, step, reason), outcome, [StepStarted(step), StepFinished(step, outcome)], shutdown, n);
  }

  lemma StopRecorded(log: Log, shutdown: seq<bool>, n: nat)
    requires n < |shutdown| == 4 && shutdown[n] && Recorded(log, shutdown, n)
    ensures Recorded(log, shutdown, n + 1)
  {
    assert Admitted(shutdown, n) + [] == Admitted(shutdown, n);
  }

  lemma PruneRecorded(r: Repo, shutdown: seq<bool>, backupOk: bool, log: Log)
    requires |shutdown| == 4 && Recorded(log, shutdown, 1)
    ensures Recorded(PruneTurn(r, shutdown[1], backupOk, log).0, shutdown, 2)
  {
    if shutdown[1] {
      StopRecorded(log, shutdown, 1);
    } else if !r.hasRetention {
      SkipRecorded(log, "no retention rules", shutdown, 1);
    } else if !backupOk {
      SkipRecorded(log, "backup failed", shutdown, 1);
    } else {
      StepRecorded(r, PruneDef(r.commands), log, shutdown, 1);
    }
  }

  lemma CompactRecorded(r: Repo, shutdown: seq<bool>, backupOk: bool, log: Log)
    requires |shutdown| == 4 && Recorded(log, shutdown, 2)
    ensures Recorded(CompactTurn(r, shutdown[2], backupOk, log).0, shutdown, 3)
  {
    if shutdown[2] {
      StopRecorded(log, shutdown, 2);
    } else if !backupOk {
      SkipRecorded(log, "backup failed", shutdown, 2);
    } else {
      StepRecorded(r, CompactDef(r.commands), log, shutdown, 2);
    }
  }

  lemma BackupRecorded(r: Repo, shutdown: seq<bool>, log: Log)
    requires |shutdown| == 4 && Recorded(log, shutdown, 0)
    ensures Recorded(BackupTurn(r, shutdown[0], log).0, shutdown, 1)
  {
    if shutdown[0] {
      StopRecorded(log, shutdown, 0);
    } else {
      StepRecorded(r, BackupDef(r.commands), log, shutdown, 0);
    }
  }

  lemma CheckRecorded(r: Repo, shutdown: seq<bool>, log: Log)
    requires |shutdown| == 4 && Recorded(log, shutdown, 3)
    ensures Recorded(CheckTurn(r, shutdown[3], log).0, shutdown, 4)
  {
    if shutdown[3] {
      StopRecorded(log, shutdown, 3);
    } else {
      StepRecorded(r, CheckDef(r.commands), log, shutdown, 3);
    }
  }

  /** Exactly the admitted steps are recorded, in order, and the events are one block for each. */
  lemma CycleIsRecorded(r: Repo, shutdown: seq<bool>, trace: seq<Event>)
    requires |shutdown| == 4
    ensures Recorded(CycleOf(r, shutdown, Log(trace, [], [])).0, shutdown, 4)
  {
    var log := Log(trace, [], []);
    var log1 := BackupTurn(r, shutdown[0], log).0;
    var backupOk := BackupOk(log1.steps);
    var log2 := PruneTurn(r, shutdown[1], backupOk, log1).0;
    var log3 := CompactTurn(r, shutdown[2], backupOk, log2).0;
    BackupRecorded(r, shutdown, log);
    PruneRecorded(r, shutdown, backupOk, log1);
    CompactRecorded(r, shutdown, backupOk, log2);
    CheckRecorded(r, shutdown, log3);
  }

  lemma BackupOkIsJudged(r: Repo, stop: bool, trace: seq<Event>)
    ensures var (log, report) := BackupTurn(r, stop, Log(trace, [], []));
      BackupOk(log.steps) ==> !stop && report.Some? && log.steps == [(Backup, JudgeBackup(report.value))]
  {
    if !stop {
      StepIsBlock(r.exec, r.global, r.repo, BackupDef(r.commands), trace);
      var s := StepOf(r.exec, r.global, r.repo, BackupDef(r.commands), trace);
      assert BackupTurn(r, stop, Log(trace, [], [])).0.steps == [(Backup, s.outcome)];
    }
  }

  lemma StepAppends<T>(r: Repo, def: StepDef<T>, log: Log)
    ensures log.steps <= Step(r, def, log).0.steps
  {
  }

  lemma LaterTurnsAppend(r: Repo, shutdown: seq<bool>, backupOk: bool, log: Log)
    requires |shutdown| == 4
    ensures var log2 := PruneTurn(r, shutdown[1], backupOk, log).0;
      var log3 := CompactTurn(r, shutdown[2], backupOk, log2).0;
      log.steps <= CheckTurn(r, shutdown[3], log3).0.steps
  {
    var log2 := PruneTurn(r, shutdown[1], backupOk, log).0;
    var log3 := CompactTurn(r, shutdown[2], backupOk, log2).0;
    StepAppends(r, PruneDef(r.commands), log);
    StepAppends(r, CompactDef(r.commands), log2);
    StepAppends(r, CheckDef(r.commands), log3);
  }

  /** Nothing is pruned or compacted unless this cycle's backup succeeded, which it did only with a report
      that it was judged by; and nothing is pruned without a retention rule. */
  lemma MaintenanceNeedsABackup(r: Repo, shutdown: seq<bool>, trace: seq<Event>)
    requires |shutdown| == 4
    ensures var (log, result) := CycleOf(r, shutdown, Log(trace, [], []));
      && (result.pruned.Some? ==> r.hasRetention)
      && (result.pruned.Some? || result.compacted.Some? ==>
            && result.report.Some? && !shutdown[0]
            && |log.steps| > 0 && log.steps[0] == (Backup, JudgeBackup(result.report.value)))
  {
    var log1 := BackupTurn(r, shutdown[0], Log(trace, [], [])).0;
    BackupOkIsJudged(r, shutdown[0], trace);
    LaterTurnsAppend(r, shutdown, BackupOk(log1.steps), log1);
  }

  lemma {:induction false} AdmittedIsPrefix(shutdown: seq<bool>, n: nat)
    requires n <= |shutdown| == 4
    requires forall i, j :: 0 <= i <= j < 4 && shutdown[i] ==> shutdown[j]
    ensures Admitted(shutdown, n) <= ORDER
    ensures n > 0 && !shutdown[n - 1] ==> Admitted(shutdown, n) == ORDER[..n]
  {
    if n > 0 {
      AdmittedIsPrefix(shutdown, n - 1);
      if !shutdown[n - 1] && n > 1 {
        assert !shutdown[n - 2];
        assert ORDER[..n] == ORDER[..n - 1] + [ORDER[n - 1]];
      }
    }
  }

  /** With a flag that stays set once set, the recorded steps are a leading part of the cycle. */
  lemma StickyShutdownGivesPrefix(r: Repo, shutdown: seq<bool>, trace: seq<Event>)
    requires |shutdown| == 4
    requires forall i, j :: 0 <= i <= j < 4 && shutdown[i] ==> shutdown[j]
    ensures Names(CycleOf(r, shutdown, Log(trace, [], [])).0.steps) <= [Backup, Prune, Compact, Check]
  {
    CycleIsRecorded(r, shutdown, trace);
    AdmittedIsPrefix(shutdown, 4);
  }

  // ---------- values that outlive a failed or skipped step ----------

  /** The history when the action of `command` runs. */
  function Prepared(global: HooksConfig, repo: HooksConfig, command: string, trace: seq<Event>): seq<Event> {
    trace + HookEvents(Concat(RepoPlan(global, repo, command).before), None)
  }

  /** Every before command of `command` succeeds, and the action returns a value. */
  ghost predicate Returns<T>(
    exec: Exec, global: HooksConfig, repo: HooksConfig, command: string, action: Action<T>, trace: seq<Event>)
  {
    && BeforePasses(exec, RepoPlan(global, repo, command), trace)
    && action(Prepared(global, repo, command, trace)).result.Ok?
  }

  function ReturnedBy<T>(
    global: HooksConfig, repo: HooksConfig, command: string, action: Action<T>, trace: seq<Event>): Result<T, string>
  {
    action(Prepared(global, repo, command, trace)).result
  }

  /** A step hands on a value exactly when every before command succeeds and the action returns one; the
      outcome is then how that value is judged. */
  lemma ValueIff<T>(exec: Exec, global: HooksConfig, repo: HooksConfig, def: StepDef<T>, trace: seq<Event>)
    ensures var s, command := StepOf(exec, global, repo, def, trace), CommandName(def.step);
      && (s.value.Some? <==> Returns(exec, global, repo, command, def.action, trace))
      && (s.value.Some? ==>
            && s.value.value == ReturnedBy(global, repo, command, def.action, trace).value
            && s.outcome == def.classify(s.value.value))
      && (s.value.None? ==> s.outcome.Failed?)
  {
    PassesIff(exec, RepoPlan(global, repo, CommandName(def.step)), View(None, [], trace));
  }

  /** A value comes with an outcome that is no success exactly when it is judged failed or skipped. */
  lemma ValueWithoutSuccessIff<T>(
    exec: Exec, global: HooksConfig, repo: HooksConfig, def: StepDef<T>, trace: seq<Event>)
    ensures var s, command := StepOf(exec, global, repo, def, trace), CommandName(def.step);
      s.value.Some? && !s.outcome.IsSuccess() <==>
        && Returns(exec, global, repo, command, def.action, trace)
        && (var o := def.classify(ReturnedBy(global, repo, command, def.action, trace).value); o.Failed? || o.Skipped?)
  {
    ValueIff(exec, global, repo, def, trace);
  }

  // ---------- what each turn does ----------

  /** The outcome recorded for a step, if any. */
  function OutcomeOf(steps: Steps, step: CycleStep): Option<StepOutcome> {
    if steps == [] then None
    else
      var last := steps[|steps| - 1];
      if last.0 == step then Some(last.1) else OutcomeOf(steps[..|steps| - 1], step)
  }

  lemma OutcomeOfSnoc(steps: Steps, step: CycleStep, outcome: StepOutcome, other: CycleStep)
    ensures OutcomeOf(steps + [(step, outcome)], other)
         == if other == step then Some(outcome) else OutcomeOf(steps, other)
  {
    assert (steps + [(step, outcome)])[..|steps|] == steps;
  }

  /** What a turn that ran `command` leaves: a value judged by `judge`, or a failure. */
  ghost predicate RanTurn<T>(
    r: Repo, command: string, action: Action<T>, judge: T -> StepOutcome, trace: seq<Event>,
    value: Option<T>, outcome: Option<StepOutcome>)
  {
    if Returns(r.exec, r.global, r.repo, command, action, trace) then
      var returned := ReturnedBy(r.global, r.repo, command, action, trace).value;
      value == Some(returned) && outcome == Some(judge(returned))
    else
      value == None && outcome.Some? && outcome.value.Failed?
  }

  /** A turn records at most its own step and only adds to the history. */
  ghost predicate AddsOnly(log: Log, log': Log, step: CycleStep) {
    && log.trace <= log'.trace
    && forall other :: other != step ==> OutcomeOf(log'.steps, other) == OutcomeOf(log.steps, other)
  }

  lemma StepTurn<T>(r: Repo, def: StepDef<T>, log: Log)
    ensures var (log', value) := Step(r, def, log);
      && RanTurn(r, CommandName(def.step), def.action, def.classify, log.trace, value, OutcomeOf(log'.steps, def.step))
      && AddsOnly(log, log', def.step)
  {
    var s := StepOf(r.exec, r.global, r.repo, def, log.trace);
    ValueIff(r.exec, r.global, r.repo, def, log.trace);
    forall other {
      OutcomeOfSnoc(log.steps, def.step, s.outcome, other);
    }
    StepAddsToHistory(r, def, log.trace);
  }

  lemma StepAddsToHistory<T>(r: Repo, def: StepDef<T>, trace: seq<Event>)
    ensures trace <= StepOf(r.exec, r.global, r.repo, def, trace).trace
  {
    var plan := RepoPlan(r.global, r.repo, CommandName(def.step));
    var _, _, _, _, _ := LifecycleShape(r.exec, plan, View(None, [], trace), Judged(def.action, def.classify));
  }

  lemma SkipTurn(log: Log, step: CycleStep, reason: string)
    ensures OutcomeOf(Skip(log, step, reason).steps, step) == Some(Skipped(reason))
    ensures AddsOnly(log, Skip(log, step, reason), step)
  {
    forall other {
      OutcomeOfSnoc(log.steps, step, Skipped(reason), other);
    }
  }

  /** The backup command runs unless stopped; a report with errors makes it partial. */
  ghost predicate BackupRecord(
    r: Repo, stop: bool, trace: seq<Event>, report: Option<Report>, outcome: Option<StepOutcome>)
  {
    var judge := (made: Report) => if exists i :: 0 <= i < |made| && made[i].errors > 0 then Partial else Fine;
    if stop then report == None && outcome == None
    else RanTurn(r, "backup", r.commands.backup, judge, trace, report, outcome)
  }

  /** Prune runs with a retention rule after a successful backup, and records why not otherwise. */
  ghost predicate PruneRecord(
    r: Repo, stop: bool, backedUp: bool, trace: seq<Event>, pruned: Option<nat>, outcome: Option<StepOutcome>)
  {
    if stop then pruned == None && outcome == None
    else if !r.hasRetention then pruned == None && outcome == Some(Skipped("no retention rules"))
    else if !backedUp then pruned == None && outcome == Some(Skipped("backup failed"))
    else RanTurn(r, "prune", r.commands.prune, (_: nat) => Fine, trace, pruned, outcome)
  }

  /** Compact runs after a successful backup, and records why not otherwise. */
  ghost predicate CompactRecord(
    r: Repo, stop: bool, backedUp: bool, trace: seq<Event>, compacted: Option<nat>, outcome: Option<StepOutcome>)
  {
    if stop then compacted == None && outcome == None
    else if !backedUp then compacted == None && outcome == Some(Skipped("backup failed"))
    else RanTurn(r, "compact", r.commands.compact, (_: nat) => Fine, trace, compacted, outcome)
  }

  /** The check runs unless stopped, and its result is handed on whatever it found. */
  ghost predicate CheckRecord(
    r: Repo, stop: bool, trace: seq<Event>, checked: Option<CheckResult>, outcome: Option<StepOutcome>)
  {
    var judge := (c: CheckResult) =>
      if c.skipped then Skipped("check not due")
      else if c.errors == 0 then Fine else Failed(r.commands.checkMessage(c.errors));
    if stop then checked == None && outcome == None
    else RanTurn(r, "check", r.commands.check, judge, trace, checked, outcome)
  }

  lemma BackupHappens(r: Repo, stop: bool, trace: seq<Event>)
    ensures var log := Log(trace, [], []);
      var (log', report) := BackupTurn(r, stop, log);
      BackupRecord(r, stop, trace, report, OutcomeOf(log'.steps, Backup))
  {
    if !stop {
      StepTurn(r, BackupDef(r.commands), Log(trace, [], []));
    }
  }

  lemma PruneHappens(r: Repo, stop: bool, backupOk: bool, log: Log)
    requires OutcomeOf(log.steps, Prune) == None
    ensures var (log', pruned) := PruneTurn(r, stop, backupOk, log);
      PruneRecord(r, stop, backupOk, log.trace, pruned, OutcomeOf(log'.steps, Prune))
  {
    SkipTurn(log, Prune, "no retention rules");
    SkipTurn(log, Prune, "backup failed");
    StepTurn(r, PruneDef(r.commands), log);
  }

  lemma CompactHappens(r: Repo, stop: bool, backupOk: bool, log: Log)
    requires OutcomeOf(log.steps, Compact) == None
    ensures var (log', compacted) := CompactTurn(r, stop, backupOk, log);
      CompactRecord(r, stop, backupOk, log.trace, compacted, OutcomeOf(log'.steps, Compact))
  {
    SkipTurn(log, Compact, "backup failed");
    StepTurn(r, CompactDef(r.commands), log);
  }

  lemma CheckHappens(r: Repo, stop: bool, log: Log)
    requires OutcomeOf(log.steps, Check) == None
    ensures var (log', checked) := CheckTurn(r, stop, log);
      CheckRecord(r, stop, log.trace, checked, OutcomeOf(log'.steps, Check))
  {
    StepTurn(r, CheckDef(r.commands), log);
  }

  /** The backup of a cycle ran and returned a report. */
  ghost predicate BackedUp(r: Repo, stop: bool, trace: seq<Event>) {
    !stop && Returns(r.exec, r.global, r.repo, "backup", r.commands.backup, trace)
  }

  lemma BackupOkIff(r: Repo, stop: bool, trace: seq<Event>)
    ensures BackupOk(BackupTurn(r, stop, Log(trace, [], [])).0.steps) <==> BackedUp(r, stop, trace)
  {
    if !stop {
      var s := StepOf(r.exec, r.global, r.repo, BackupDef(r.commands), trace);
      assert BackupTurn(r, stop, Log(trace, [], [])).0.steps == [(Backup, s.outcome)];
      OneStepOk(s.outcome);
      ValueIff(r.exec, r.global, r.repo, BackupDef(r.commands), trace);
    }
  }

  lemma OneStepOk(outcome: StepOutcome)
    ensures BackupOk([(Backup, outcome)]) <==> outcome.IsSuccess()
  {
    assert [(Backup, outcome)][0] == (Backup, outcome);
  }

  /** What a turn records stays on record. */
  lemma RecordsStay(log: Log, log1: Log, log2: Log, log3: Log, log4: Log)
    requires log.steps == []
    requires AddsOnly(log, log1, Backup) && AddsOnly(log1, log2, Prune)
    requires AddsOnly(log2, log3, Compact) && AddsOnly(log3, log4, Check)
    ensures OutcomeOf(log1.steps, Prune) == None && OutcomeOf(log2.steps, Compact) == None
    ensures OutcomeOf(log3.steps, Check) == None
    ensures OutcomeOf(log4.steps, Backup) == OutcomeOf(log1.steps, Backup)
    ensures OutcomeOf(log4.steps, Prune) == OutcomeOf(log2.steps, Prune)
    ensures OutcomeOf(log4.steps, Compact) == OutcomeOf(log3.steps, Compact)
    ensures log.trace <= log1.trace <= log2.trace <= log3.trace <= log4.trace
  {
  }

  lemma PruneAdds(r: Repo, stop: bool, backupOk: bool, log: Log)
    ensures AddsOnly(log, PruneTurn(r, stop, backupOk, log).0, Prune)
  {
    SkipTurn(log, Prune, "no retention rules");
    SkipTurn(log, Prune, "backup failed");
    StepTurn(r, PruneDef(r.commands), log);
  }

  lemma CompactAdds(r: Repo, stop: bool, backupOk: bool, log: Log)
    ensures AddsOnly(log, CompactTurn(r, stop, backupOk, log).0, Compact)
  {
    SkipTurn(log, Compact, "backup failed");
    StepTurn(r, CompactDef(r.commands), log);
  }

  lemma CheckAdds(r: Repo, stop: bool, log: Log)
    ensures AddsOnly(log, CheckTurn(r, stop, log).0, Check)
  {
    StepTurn(r, CheckDef(r.commands), log);
  }

  lemma BackupAdds(r: Repo, stop: bool, log: Log)
    ensures AddsOnly(log, BackupTurn(r, stop, log).0, Backup)
  {
    StepTurn(r, BackupDef(r.commands), log);
  }

  lemma TurnsChain(r: Repo, shutdown: seq<bool>, trace: seq<Event>, log1: Log, log2: Log, log3: Log, log4: Log)
    requires |shutdown| == 4
    requires log1 == BackupTurn(r, shutdown[0], Log(trace, [], [])).0
    requires log2 == PruneTurn(r, shutdown[1], BackupOk(log1.steps), log1).0
    requires log3 == CompactTurn(r, shutdown[2], BackupOk(log1.steps), log2).0
    requires log4 == CheckTurn(r, shutdown[3], log3).0
    ensures OutcomeOf(log1.steps, Prune) == None && OutcomeOf(log2.steps, Compact) == None
    ensures OutcomeOf(log3.steps, Check) == None
    ensures OutcomeOf(log4.steps, Backup) == OutcomeOf(log1.steps, Backup)
    ensures OutcomeOf(log4.steps, Prune) == OutcomeOf(log2.steps, Prune)
    ensures OutcomeOf(log4.steps, Compact) == OutcomeOf(log3.steps, Compact)
    ensures trace <= log1.trace <= log2.trace <= log3.trace <= log4.trace
  {
    BackupAdds(r, shutdown[0], Log(trace, [], []));
    PruneAdds(r, shutdown[1], BackupOk(log1.steps), log1);
    CompactAdds(r, shutdown[2], BackupOk(log1.steps), log2);
    CheckAdds(r, shutdown[3], log3);
    RecordsStay(Log(trace, [], []), log1, log2, log3, log4);
  }

  /** Every turn of a cycle, each at its own point of the history: what runs, what is handed on, and what is
      recorded. */
  lemma EveryTurnHappens(r: Repo, shutdown: seq<bool>, trace: seq<Event>)
    returns (t1: seq<Event>, t2: seq<Event>, t3: seq<Event>)
    requires |shutdown| == 4
    ensures var (log, result) := CycleOf(r, shutdown, Log(trace, [], []));
      var backedUp := BackedUp(r, shutdown[0], trace);
      && trace <= t1 <= t2 <= t3 <= log.trace
      && BackupRecord(r, shutdown[0], trace, result.report, OutcomeOf(log.steps, Backup))
      && PruneRecord(r, shutdown[1], backedUp, t1, result.pruned, OutcomeOf(log.steps, Prune))
      && CompactRecord(r, shutdown[2], backedUp, t2, result.compacted, OutcomeOf(log.steps, Compact))
      && CheckRecord(r, shutdown[3], t3, result.checked, OutcomeOf(log.steps, Check))
  {
    var log := Log(trace, [], []);
    var log1 := BackupTurn(r, shutdown[0], log).0;
    var backupOk := BackupOk(log1.steps);
    var log2 := PruneTurn(r, shutdown[1], backupOk, log1).0;
    var log3 := CompactTurn(r, shutdown[2], backupOk, log2).0;
    t1, t2, t3 := log1.trace, log2.trace, log3.trace;
    TurnsChain(r, shutdown, trace, log1, log2, log3, CheckTurn(r, shutdown[3], log3).0);
    BackupOkIff(r, shutdown[0], trace);
    BackupHappens(r, shutdown[0], trace);
    PruneHappens(r, shutdown[1], backupOk, log1);
    CompactHappens(r, shutdown[2], backupOk, log2);
    CheckHappens(r, shutdown[3], log3);
  }

  lemma NoBefore(exec: Exec, command: string, trace: seq<Event>)
    ensures Concat(RepoPlan(map[], map[], command).before) == []
    ensures BeforePasses(exec, RepoPlan(map[], map[], command), trace)
  {
    ConcatNothing(RepoPlan(map[], map[], command).before);
  }

  lemma {:induction false} ConcatNothing(lists: seq<seq<string>>)
    requires forall i :: 0 <= i < |lists| ==> lists[i] == []
    ensures Concat(lists) == []
  {
    if lists != [] {
      ConcatNothing(lists[1..]);
    }
  }

  /** A check that always finds the same, in a repository without hooks: a result with errors is handed on
      with a failed step, and a skipped one with a skipped step. */
  lemma FailedCheckHandsOn(r: Repo, shutdown: seq<bool>, trace: seq<Event>, found: CheckResult)
    requires |shutdown| == 4 && !shutdown[3] && r.global == map[] && r.repo == map[]
    requires forall t :: r.commands.check(t) == Effect([], Ok(found))
    ensures var (log, result) := CycleOf(r, shutdown, Log(trace, [], []));
      && result.checked == Some(found)
      && (found == CheckResult(false, 1) ==> OutcomeOf(log.steps, Check) == Some(Failed(r.commands.checkMessage(1))))
      && (found.skipped ==> OutcomeOf(log.steps, Check) == Some(Skipped("check not due")))
  {
    var _, _, t := EveryTurnHappens(r, shutdown, trace);
    NoBefore(r.exec, "check", t);
  }
}
