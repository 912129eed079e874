/** Backup runs and the backup, prune, compact, check cycle, with hooks around each step. */
module Cycle {
  import opened Wrappers
  import opened Hooks
  import opened HookLaws

  // ---------- backing up the sources ----------

  datatype Source = Source(name: string, hooks: SourceHooks)

  /** One line per source backed up: its name and the number of soft errors. */
  datatype Created = Created(name: string, errors: nat)

  type Report = seq<Created>

  /** The snapshot of source `i`, run after a given history: its soft errors, or why it failed. */
  type Backup = (seq<Event>, nat) -> Effect<nat>

  /** One source, inside its own hooks: the history, the source-level warnings, the result. */
  function SourceRun(exec: Exec, backup: Backup, sources: seq<Source>, i: nat, trace: seq<Event>)
    : (View, Result<nat, string>)
    requires i < |sources|
  {
    Lifecycle(exec, SourcePlan(sources[i].hooks), View(None, [], trace), (t: seq<Event>) => backup(t, i))
  }

  /** Warnings with the name of the source they belong to. */
  function Named(name: string, warnings: seq<string>): seq<(string, string)> {
    seq(|warnings|, k requires 0 <= k < |warnings| => (name, warnings[k]))
  }

  /** The history, the result and all source-level warnings after a run. */
  datatype SourcesRun = SourcesRun(trace: seq<Event>, result: Result<Report, string>, warnings: seq<(string, string)>)

  /** The outcome of the sources from `i` on, given what was created and warned of before them. */
  function SourcesFrom(
    exec: Exec, backup: Backup, sources: seq<Source>, i: nat, trace: seq<Event>, done: Report,
    warned: seq<(string, string)>): SourcesRun
    requires i <= |sources|
    decreases |sources| - i
  {
    if i == |sources| then SourcesRun(trace, Ok(done), warned)
    else
      var (v, result) := SourceRun(exec, backup, sources, i, trace);
      var warned' := warned + Named(sources[i].name, v.warnings);
      match result
      case Err(e) => SourcesRun(v.trace, Err(e), warned')
      case Ok(errors) =>
        SourcesFrom(exec, backup, sources, i + 1, v.trace, done + [Created(sources[i].name, errors)], warned')
  }

  const NO_SOURCES: string := "no sources configured for this repository"

  /** One source inside its own hooks, if it has any. */
  method RunSource(sources: seq<Source>, i: nat, backup: Backup, w: World)
    returns (outcome: Result<nat, string>, warnings: seq<string>)
    requires i < |sources|
    modifies w
    ensures var (v, result) := SourceRun(w.exec, backup, sources, i, old(w.trace));
      w.trace == v.trace && outcome == result && warnings == v.warnings
  {
    var action := (t: seq<Event>) => backup(t, i);
    if sources[i].hooks.HasAny() {
      var ctx := new HookContext("backup");
      outcome := RunSourceHooks(sources[i].hooks, ctx, action, w);
      warnings := ctx.warnings;
    } else {
      NoSourceHooksIsBareAction(w.exec, sources[i].hooks, View(None, [], w.trace), action);
      outcome := Perform(action, w);
      warnings := [];
    }
  }

  /** `run_backup_sources`: stops at the first source that fails; `warnings` are those handed to the listener. */
  method RunBackupSources(sources: seq<Source>, backup: Backup, listening: bool, w: World)
    returns (r: Result<Report, string>, warnings: seq<(string, string)>)
    modifies w
    ensures sources == [] ==> r == Err(NO_SOURCES) && w.trace == old(w.trace) && warnings == []
    ensures sources != [] ==>
      var run := SourcesFrom(w.exec, backup, sources, 0, old(w.trace), [], []);
      w.trace == run.trace && r == run.result && warnings == if listening then run.warnings else []
  {
    warnings := [];
    if sources == [] {
      return Err(NO_SOURCES), warnings;
    }
    var report := [];
    ghost var warned := [];
    for i := 0 to |sources|
      invariant SourcesFrom(w.exec, backup, sources, i, w.trace, report, warned)
             == SourcesFrom(w.exec, backup, sources, 0, old(w.trace), [], [])
      invariant warnings == if listening then warned else []
    {
      var outcome, more := RunSource(sources, i, backup, w);
      if listening {
        warnings := warnings + Named(sources[i].name, more);
      }
      warned := warned + Named(sources[i].name, more);
      if outcome.Err? {
        return Err(outcome.error), warnings;
      }
      report := report + [Created(sources[i].name, outcome.value)];
    }
    return Ok(report), warnings;
  }

  /** The history when source `k` starts, if all before it succeeded. */
  function HistoryAt(exec: Exec, backup: Backup, sources: seq<Source>, k: nat, trace: seq<Event>): seq<Event>
    requires k <= |sources|
  {
    if k == 0 then trace
    else SourceRun(exec, backup, sources, k - 1, HistoryAt(exec, backup, sources, k - 1, trace)).0.trace
  }

  /** What source `k` returned, if all before it succeeded. */
  function ResultAt(exec: Exec, backup: Backup, sources: seq<Source>, k: nat, trace: seq<Event>): Result<nat, string>
    requires k < |sources|
  {
    SourceRun(exec, backup, sources, k, HistoryAt(exec, backup, sources, k, trace)).1
  }

  /** The report on the first `n` sources. */
  ghost predicate Reports(
    exec: Exec, backup: Backup, sources: seq<Source>, n: nat, trace: seq<Event>, report: Report)
    requires n <= |sources|
  {
    && |report| == n
    && forall k :: 0 <= k < n ==>
         && ResultAt(exec, backup, sources, k, trace).Ok?
         && report[k] == Created(sources[k].name, ResultAt(exec, backup, sources, k, trace).value)
  }

  /** The sources run in order up to the first that fails: its error is the result and no later source runs.
      If none fails, the report has one line per source, in order, with its own error count. */
  lemma {:induction false} SourcesStopAtFailure(
    exec: Exec, backup: Backup, sources: seq<Source>, i: nat, trace: seq<Event>, done: Report,
    warned: seq<(string, string)>) returns (n: nat)
    requires i <= |sources| && Reports(exec, backup, sources, i, trace, done)
    ensures var run := SourcesFrom(exec, backup, sources, i, HistoryAt(exec, backup, sources, i, trace), done, warned);
      && i <= n <= |sources|
      && (run.result.Ok? ==>
            && n == |sources| && run.trace == HistoryAt(exec, backup, sources, n, trace)
            && Reports(exec, backup, sources, n, trace, run.result.value))
      && (run.result.Err? ==>
            && n < |sources| && run.trace == HistoryAt(exec, backup, sources, n + 1, trace)
            && ResultAt(exec, backup, sources, n, trace) == Err(run.result.error)
            && forall k :: i <= k < n ==> ResultAt(exec, backup, sources, k, trace).Ok?)
    decreases |sources| - i
  {
    if i == |sources| {
      n := i;
    } else {
      var result := ResultAt(exec, backup, sources, i, trace);
      if result.Err? {
        n := i;
      } else {
        var v := SourceRun(exec, backup, sources, i, HistoryAt(exec, backup, sources, i, trace)).0;
        n := SourcesStopAtFailure(exec, backup, sources, i + 1, trace, done + [Created(sources[i].name, result.value)],
                                  warned + Named(sources[i].name, v.warnings));
      }
    }
  }

  predicate HasHooks(global: HooksConfig, repo: HooksConfig) {
    global != map[] || repo != map[]
  }

  /** Second driver: `run_backup_selection`.  `warnings` are the repository-level ones the listener got. */
  method RunBackupSelection<T>(
    global: HooksConfig, repo: HooksConfig, action: Action<T>, listening: bool, w: World)
    returns (result: Result<T, string>, warnings: seq<string>)
    modifies w
    ensures var (v, r) := Lifecycle(w.exec, RepoPlan(global, repo, "backup"), View(None, [], old(w.trace)), action);
      w.trace == v.trace && result == r && warnings == if listening then v.warnings else []
  {
    warnings := [];
    if !HasHooks(global, repo) {
      NoHooksIsBareAction(w.exec, "backup", View(None, [], w.trace), action);
      result := Perform(action, w);
      return;
    }
    var ctx := new HookContext("backup");
    var failure := RunBefore(global, repo, ctx, w);
    BeforeKeepsView(w.exec, Inward(global, repo, "before", "backup"), View(None, [], old(w.trace)));
    if failure.Some? {
      AbortHooks(global, repo, failure.value, ctx, w);
      if listening {
        warnings := ctx.warnings;
      }
      return Err(failure.value), warnings;
    }
    if listening {
      warnings := warnings + ctx.warnings;
      ctx.warnings := [];
    }
    result := Perform(action, w);
    ConcludeHooks(global, repo, FailureOf(result), ctx, w);
    if listening {
      warnings := warnings + ctx.warnings;
    }
  }

  /** Before hooks leave no warnings and no error behind. */
  lemma BeforeKeepsView(exec: Exec, lists: seq<seq<string>>, v: View)
    ensures RunUntilFailure(exec, lists, v).0.warnings == v.warnings
    ensures RunUntilFailure(exec, lists, v).0.error == v.error
  {
    var _ := BeforeTrace(exec, lists, v);
  }

  // ---------- one step of the cycle ----------

  datatype CycleStep = Backup | Prune | Compact | Check

  datatype StepOutcome = Fine | Partial | Skipped(reason: string) | Failed(message: string)
  {
    predicate IsSuccess() {
      Fine? || Partial?
    }
  }

  datatype CycleEvent =
    | StepStarted(step: CycleStep)
    | StepFinished(step: CycleStep, outcome: StepOutcome)
    | Progress(step: CycleStep, note: string)
    | HookWarning(step: CycleStep, warning: string)

  function CommandName(step: CycleStep): string {
    match step
    case Backup => "backup"
    case Prune => "prune"
    case Compact => "compact"
    case Check => "check"
  }

  /** The records of a cycle. */
  class CycleRun {
    var steps: seq<(CycleStep, StepOutcome)>
    var events: seq<CycleEvent>

    constructor ()
      ensures steps == [] && events == []
    {
      steps, events := [], [];
    }
  }

  /** The action as the hooks see it: failed when it failed, or when its value is judged a failure. */
  function Judged<T>(action: Action<T>, classify: T -> StepOutcome): Action<StepOutcome> {
    (t: seq<Event>) =>
      var effect := action(t);
      Effect(effect.log,
        match effect.result
        case Err(e) => Result<StepOutcome, string>.Err(e)
        case Ok(val) => if classify(val).Failed? then Err(classify(val).message) else Ok(classify(val)))
  }

  function Warnings(step: CycleStep, warnings: seq<string>): seq<CycleEvent> {
    seq(|warnings|, i requires 0 <= i < |warnings| => HookWarning(step, warnings[i]))
  }

  function Notes(step: CycleStep, notes: seq<string>): seq<CycleEvent> {
    seq(|notes|, i requires 0 <= i < |notes| => Progress(step, notes[i]))
  }

  /** A step of the cycle: what it runs, how its value is judged, and what it reports while it runs. */
  datatype StepDef<!T> = StepDef(
    step: CycleStep, action: Action<T>, classify: T -> StepOutcome, notes: seq<Event> -> seq<string>)

  datatype StepRun<T> = StepRun(trace: seq<Event>, value: Option<T>, outcome: StepOutcome, emitted: seq<CycleEvent>)

  /** What a hooked step does: the lifecycle around the judged action, the value it hands on, the outcome it
      records, and the events it emits, with every repository-level warning once between start and finish. */
  function StepOf<T>(
    exec: Exec, global: HooksConfig, repo: HooksConfig, def: StepDef<T>, trace: seq<Event>): StepRun<T>
  {
    var plan, v := RepoPlan(global, repo, CommandName(def.step)), View(None, [], trace);
    var (v', result) := Lifecycle(exec, plan, v, Judged(def.action, def.classify));
    var (v1, failure) := RunUntilFailure(exec, plan.before, v);
    var outcome := match result case Ok(o) => o case Err(e) => Failed(e);
    StepRun(
      v'.trace,
      if failure.None? && def.action(v1.trace).result.Ok? then Some(def.action(v1.trace).result.value) else None,
      outcome,
      [StepStarted(def.step)] + Notes(def.step, if failure.Some? then [] else def.notes(v1.trace))
      + Warnings(def.step, v'.warnings) + [StepFinished(def.step, outcome)])
  }

  /** The warnings among some events, in order. */
  function WarningsIn(events: seq<CycleEvent>): seq<string> {
    if events == [] then []
    else
      var last := events[|events| - 1];
      WarningsIn(events[..|events| - 1]) + if last.HookWarning? then [last.warning] else []
  }

  lemma {:induction false} WarningsInConcat(a: seq<CycleEvent>, b: seq<CycleEvent>)
    ensures WarningsIn(a + b) == WarningsIn(a) + WarningsIn(b)
  {
    if b == [] {
      assert a + b == a;
    } else {
      var n := |b| - 1;
      WarningsInConcat(a, b[..n]);
      assert (a + b)[..|a + b| - 1] == a + b[..n];
    }
  }

  lemma {:induction false} WarningsInWarnings(step: CycleStep, warnings: seq<string>)
    ensures WarningsIn(Warnings(step, warnings)) == warnings
  {
    if warnings != [] {
      var n := |warnings| - 1;
      WarningsInWarnings(step, warnings[..n]);
      assert Warnings(step, warnings)[..n] == Warnings(step, warnings[..n]);
    }
  }

  lemma {:induction false} WarningsInNotes(step: CycleStep, notes: seq<string>)
    ensures WarningsIn(Notes(step, notes)) == []
  {
    if notes != [] {
      var n := |notes| - 1;
      WarningsInNotes(step, notes[..n]);
      assert Notes(step, notes)[..n] == Notes(step, notes[..n]);
    }
  }

  lemma WarningsInStep(step: CycleStep, notes: seq<string>, warnings: seq<string>, outcome: StepOutcome)
    ensures WarningsIn([StepStarted(step)] + Notes(step, notes) + Warnings(step, warnings) + [StepFinished(step, outcome)])
         == warnings
  {
    var first, last := [StepStarted(step)], [StepFinished(step, outcome)];
    assert WarningsIn([]) == [];
    assert first[..0] == [] && last[..0] == [];
    WarningsInConcat(first, Notes(step, notes));
    WarningsInConcat(first + Notes(step, notes), Warnings(step, warnings));
    WarningsInConcat(first + Notes(step, notes) + Warnings(step, warnings), last);
    WarningsInNotes(step, notes);
    WarningsInWarnings(step, warnings);
  }

  /** A step reports every repository-level warning of its hooks once, in order, and no other. */
  lemma WarningsOnce<T>(exec: Exec, global: HooksConfig, repo: HooksConfig, def: StepDef<T>, trace: seq<Event>)
    ensures var plan := RepoPlan(global, repo, CommandName(def.step));
      WarningsIn(StepOf(exec, global, repo, def, trace).emitted)
        == Lifecycle(exec, plan, View(None, [], trace), Judged(def.action, def.classify)).0.warnings
  {
    var plan, v := RepoPlan(global, repo, CommandName(def.step)), View(None, [], trace);
    var (v1, failure) := RunUntilFailure(exec, plan.before, v);
    WarningsInStep(def.step, if failure.Some? then [] else def.notes(v1.trace),
                   Lifecycle(exec, plan, v, Judged(def.action, def.classify)).0.warnings,
                   StepOf(exec, global, repo, def, trace).outcome);
  }

  /** The step when a before hook fails. */
  lemma StepAborted<T>(exec: Exec, global: HooksConfig, repo: HooksConfig, def: StepDef<T>, trace: seq<Event>)
    requires RunUntilFailure(exec, RepoPlan(global, repo, CommandName(def.step)).before, View(None, [], trace)).1.Some?
    ensures var plan := RepoPlan(global, repo, CommandName(def.step));
      var (v1, failure) := RunUntilFailure(exec, plan.before, View(None, [], trace));
      var v, outcome := Conclude(exec, plan, v1.(error := failure), failure), Failed(failure.value);
      StepOf(exec, global, repo, def, trace) == StepRun(v.trace, None, outcome,
        [StepStarted(def.step)] + Warnings(def.step, v.warnings) + [StepFinished(def.step, outcome)])
  {
    assert [StepStarted(def.step)] + Notes(def.step, []) == [StepStarted(def.step)];
  }

  /** The step when every before hook succeeds. */
  lemma StepActed<T>(exec: Exec, global: HooksConfig, repo: HooksConfig, def: StepDef<T>, trace: seq<Event>)
    requires RunUntilFailure(exec, RepoPlan(global, repo, CommandName(def.step)).before, View(None, [], trace)).1.None?
    ensures var plan := RepoPlan(global, repo, CommandName(def.step));
      var v1 := RunUntilFailure(exec, plan.before, View(None, [], trace)).0;
      var (v2, result) := Act(Judged(def.action, def.classify), v1);
      var v, outcome := Conclude(exec, plan, v2, FailureOf(result)), match result case Ok(o) => o case Err(e) => Failed(e);
      var returned := def.action(v1.trace).result;
      StepOf(exec, global, repo, def, trace)
        == StepRun(v.trace, if returned.Ok? then Some(returned.value) else None, outcome,
             [StepStarted(def.step)] + Notes(def.step, def.notes(v1.trace)) + Warnings(def.step, v.warnings)
             + [StepFinished(def.step, outcome)])
  {
  }

  method Emit(more: seq<CycleEvent>, run: CycleRun, ghost base: seq<CycleEvent>, ghost emitted: seq<CycleEvent>)
    returns (ghost emitted': seq<CycleEvent>)
    requires run.events == base + emitted
    modifies run`events
    ensures emitted' == emitted + more && run.events == base + emitted'
  {
    run.events := run.events + more;
    emitted' := emitted + more;
  }

  method DrainCycleWarnings(
    ctx: HookContext, step: CycleStep, run: CycleRun, ghost base: seq<CycleEvent>, ghost emitted: seq<CycleEvent>)
    returns (ghost emitted': seq<CycleEvent>)
    requires run.events == base + emitted
    modifies ctx`warnings, run`events
    ensures ctx.warnings == []
    ensures emitted' == emitted + Warnings(step, old(ctx.warnings)) && run.events == base + emitted'
  {
    emitted' := emitted;
    for k := 0 to |ctx.warnings|
      invariant ctx.warnings == old(ctx.warnings)
      invariant emitted' == emitted + Warnings(step, ctx.warnings[..k])
      invariant run.events == base + emitted'
    {
      assert Warnings(step, ctx.warnings[..k + 1]) == Warnings(step, ctx.warnings[..k]) + [HookWarning(step, ctx.warnings[k])];
      emitted' := Emit([HookWarning(step, ctx.warnings[k])], run, base, emitted');
    }
    assert ctx.warnings[..|ctx.warnings|] == ctx.warnings;
    ctx.warnings := [];
  }

  /** The last lines of a step: report the outcome and record it. */
  method Finish(
    step: CycleStep, outcome: StepOutcome, run: CycleRun, ghost base: seq<CycleEvent>, ghost emitted: seq<CycleEvent>)
    returns (ghost emitted': seq<CycleEvent>)
    requires run.events == base + emitted
    modifies run
    ensures emitted' == emitted + [StepFinished(step, outcome)] && run.events == base + emitted'
    ensures run.steps == old(run.steps) + [(step, outcome)]
  {
    emitted' := Emit([StepFinished(step, outcome)], run, base, emitted);
    run.steps := run.steps + [(step, outcome)];
  }

  /** What the hooks are told: only a failed outcome is a failure, so a skipped step counts as a success. */
  function Verdict(outcome: StepOutcome): Option<string> {
    if outcome.Failed? then Some(outcome.message) else None
  }

  /** The step once its before hooks have succeeded. */
  method ActAndConclude<T>(
    def: StepDef<T>, global: HooksConfig, repo: HooksConfig, hasHooks: bool, ctx: HookContext, run: CycleRun, w: World,
    ghost base: seq<CycleEvent>, ghost emitted0: seq<CycleEvent>)
    returns (value: Option<T>, outcome: StepOutcome, ghost emitted: seq<CycleEvent>)
    requires hasHooks <==> HasHooks(global, repo)
    requires ctx.command == CommandName(def.step) && ctx.error == None && ctx.warnings == []
    requires run.events == base + emitted0
    modifies ctx, run, w
    ensures run.steps == old(run.steps) + [(def.step, outcome)] && run.events == base + emitted
    ensures var (v2, result) := Act(Judged(def.action, def.classify), View(None, [], old(w.trace)));
      var v3 := Conclude(w.exec, RepoPlan(global, repo, CommandName(def.step)), v2, FailureOf(result));
      && w.trace == v3.trace
      && outcome == (match result case Ok(o) => o case Err(e) => Failed(e))
      && emitted == emitted0 + Notes(def.step, def.notes(old(w.trace))) + Warnings(def.step, v3.warnings)
                    + [StepFinished(def.step, outcome)]
    ensures value == var r := def.action(old(w.trace)).result; if r.Ok? then Some(r.value) else None
  {
    emitted := Emit(Notes(def.step, def.notes(w.trace)), run, base, emitted0);
    var result := Perform(def.action, w);
    match result {
      case Ok(val) => outcome, value := def.classify(val), Some(val);
      case Err(e) => outcome, value := Failed(e), None;
    }
    if hasHooks {
      ConcludeHooks(global, repo, Verdict(outcome), ctx, w);
      emitted := DrainCycleWarnings(ctx, def.step, run, base, emitted);
    } else {
      ConcludeNothing(w.exec, CommandName(def.step), View(None, [], w.trace), Verdict(outcome));
      assert emitted + Warnings(def.step, []) == emitted;
    }
    emitted := Finish(def.step, outcome, run, base, emitted);
  }

  /** The step when a before hook has failed. */
  method AbortStep(
    step: CycleStep, failure: string, global: HooksConfig, repo: HooksConfig, ctx: HookContext, run: CycleRun, w: World,
    ghost base: seq<CycleEvent>, ghost emitted0: seq<CycleEvent>)
    returns (ghost emitted: seq<CycleEvent>)
    requires ctx.command == CommandName(step) && run.events == base + emitted0
    modifies ctx, run, w
    ensures run.steps == old(run.steps) + [(step, Failed(failure))] && run.events == base + emitted
    ensures var v := Conclude(w.exec, RepoPlan(global, repo, CommandName(step)),
                              old(ViewOf(ctx, w)).(error := Some(failure)), Some(failure));
      && w.trace == v.trace
      && emitted == emitted0 + Warnings(step, v.warnings) + [StepFinished(step, Failed(failure))]
  {
    AbortHooks(global, repo, failure, ctx, w);
    emitted := DrainCycleWarnings(ctx, step, run, base, emitted0);
    emitted := Finish(step, Failed(failure), run, base, emitted);
  }

  /** The before hooks of a step, if there are any hooks at all; they leave no warnings to report. */
  method RunStepBefore(
    step: CycleStep, global: HooksConfig, repo: HooksConfig, hasHooks: bool, ctx: HookContext, run: CycleRun, w: World,
    ghost base: seq<CycleEvent>, ghost emitted: seq<CycleEvent>)
    returns (failure: Option<string>)
    requires hasHooks <==> HasHooks(global, repo)
    requires ctx.command == CommandName(step) && ctx.error == None && ctx.warnings == []
    requires run.events == base + emitted
    modifies ctx`warnings, run`events, w
    ensures run.events == base + emitted
    ensures (ViewOf(ctx, w), failure)
         == RunUntilFailure(w.exec, RepoPlan(global, repo, CommandName(step)).before, View(None, [], old(w.trace)))
    ensures ctx.error == None && ctx.warnings == []
  {
    ghost var before := RepoPlan(global, repo, CommandName(step)).before;
    BeforeKeepsView(w.exec, before, View(None, [], w.trace));
    if hasHooks {
      failure := RunBefore(global, repo, ctx, w);
      if failure.None? {
        ghost var emitted' := DrainCycleWarnings(ctx, step, run, base, emitted);
        assert emitted' == emitted;
      }
    } else {
      BeforeNothing(w.exec, before, View(None, [], w.trace));
      failure := None;
    }
  }

  /** Third driver: `run_hooked_step`. */
  method RunHookedStep<T>(def: StepDef<T>, global: HooksConfig, repo: HooksConfig, run: CycleRun, w: World)
    returns (value: Option<T>)
    modifies run, w
    ensures var s := StepOf(w.exec, global, repo, def, old(w.trace));
      && value == s.value && w.trace == s.trace
      && run.steps == old(run.steps) + [(def.step, s.outcome)] && run.events == old(run.events) + s.emitted
  {
    ghost var base := run.events;
    var hasHooks := HasHooks(global, repo);
    var ctx := new HookContext(CommandName(def.step));
    ghost var emitted := Emit([StepStarted(def.step)], run, base, []);
    assert emitted == [StepStarted(def.step)];
    var failure := RunStepBefore(def.step, global, repo, hasHooks, ctx, run, w, base, emitted);
    if failure.Some? {
      StepAborted(w.exec, global, repo, def, old(w.trace));
      emitted := AbortStep(def.step, failure.value, global, repo, ctx, run, w, base, emitted);
      return None;
    }
    StepActed(w.exec, global, repo, def, old(w.trace));
    var outcome;
    value, outcome, emitted := ActAndConclude(def, global, repo, hasHooks, ctx, run, w, base, emitted);
  }

  method EmitSkipped(step: CycleStep, reason: string, run: CycleRun)
    modifies run
    ensures run.steps == old(run.steps) + [(step, Skipped(reason))]
    ensures run.events == old(run.events) + [StepStarted(step), StepFinished(step, Skipped(reason))]
  {
    var outcome := Skipped(reason);
    run.events := run.events + [StepStarted(step)];
    run.events := run.events + [StepFinished(step, outcome)];
    run.steps := run.steps + [(step, outcome)];
  }
}
