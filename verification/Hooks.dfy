/**
Hook commands around an action.  The shell is an oracle: whether a command fails, and with which message,
may depend on everything that ran before it.
*/
module Hooks {
  import opened Wrappers

  /** What happened, in order.  A hook command sees the `VYKAR_ERROR` of its context. */
  datatype Event = Hook(cmd: string, error: Option<string>) | Acted

  /** The failure message of a command run after `trace`, if it fails. */
  type Exec = (seq<Event>, string) -> Option<string>

  /** What the wrapped action does after `trace`: hooks of its own that it runs, and its result. */
  datatype Effect<T> = Effect(log: seq<Event>, result: Result<T, string>)

  type Action<!T> = seq<Event> -> Effect<T>

  /** The mutable part of a hook context together with the history. */
  datatype View = View(error: Option<string>, warnings: seq<string>, trace: seq<Event>)

  // ---------- the lifecycle, once ----------

  /** Run commands in order up to and including the first that fails. */
  function RunList(exec: Exec, cmds: seq<string>, v: View): (View, Option<string>)
    decreases |cmds|
  {
    if cmds == [] then (v, None)
    else
      var failure := exec(v.trace, cmds[0]);
      var v' := v.(trace := v.trace + [Hook(cmds[0], v.error)]);
      if failure.Some? then (v', failure) else RunList(exec, cmds[1..], v')
  }

  /** Run lists in order; the first failure ends it all. */
  function RunUntilFailure(exec: Exec, lists: seq<seq<string>>, v: View): (View, Option<string>)
    decreases |lists|
  {
    if lists == [] then (v, None)
    else
      var (v', failure) := RunList(exec, lists[0], v);
      if failure.Some? then (v', failure) else RunUntilFailure(exec, lists[1..], v')
  }

  /** Run lists in order; a failure ends its own list and leaves a warning. */
  function RunLogged(exec: Exec, lists: seq<seq<string>>, v: View): View
    decreases |lists|
  {
    if lists == [] then v
    else
      var (v', failure) := RunList(exec, lists[0], v);
      RunLogged(exec, lists[1..], if failure.Some? then v'.(warnings := v'.warnings + [failure.value]) else v')
  }

  datatype Plan = Plan(
    before: seq<seq<string>>, after: seq<seq<string>>, failed: seq<seq<string>>, finally: seq<seq<string>>)

  function Act<T>(action: Action<T>, v: View): (View, Result<T, string>) {
    var effect := action(v.trace);
    (v.(trace := v.trace + [Acted] + effect.log), effect.result)
  }

  function FailureOf<T>(result: Result<T, string>): Option<string> {
    if result.Ok? then None else Some(result.error)
  }

  /** After-or-failed and finally hooks, once it is known whether there was a failure. */
  function Conclude(exec: Exec, plan: Plan, v: View, failure: Option<string>): View {
    var v1 := if v.error.None? then v.(error := failure) else v;
    var v2 := RunLogged(exec, if failure.None? then plan.after else plan.failed, v1);
    RunLogged(exec, plan.finally, v2)
  }

  /** Before hooks, the action unless one of them failed, then after or failed, then finally. */
  function Lifecycle<T>(exec: Exec, plan: Plan, v: View, action: Action<T>): (View, Result<T, string>) {
    var (v1, failure) := RunUntilFailure(exec, plan.before, v);
    if failure.Some? then
      (Conclude(exec, plan, v1.(error := failure), failure), Err(failure.value))
    else
      var (v2, result) := Act(action, v1);
      (Conclude(exec, plan, v2, FailureOf(result)), result)
  }

  // ---------- configuration ----------

  type HooksConfig = map<string, seq<string>>

  datatype SourceHooks = SourceHooks(
    before: seq<string>, after: seq<string>, failed: seq<string>, finally: seq<string>)
  {
    predicate HasAny() {
      before != [] || after != [] || failed != [] || finally != []
    }
  }

  const HOOK_COMMANDS: set<string> := {"backup", "prune", "compact", "check"}

  function GetHooks(hooks: HooksConfig, key: string): (cmds: seq<string>)
    ensures key in hooks ==> cmds == hooks[key]
    ensures key !in hooks ==> cmds == []
  {
    if key in hooks then hooks[key] else []
  }

  /** From the outside in: global before repository, general before command-specific. */
  function Inward(global: HooksConfig, repo: HooksConfig, phase: string, command: string): seq<seq<string>> {
    [GetHooks(global, phase), GetHooks(repo, phase),
     GetHooks(global, phase + "_" + command), GetHooks(repo, phase + "_" + command)]
  }

  function Reversed<T>(s: seq<T>): seq<T> {
    seq(|s|, i requires 0 <= i < |s| => s[|s| - 1 - i])
  }

  /** Before hooks run inwards, all later ones outwards. */
  function RepoPlan(global: HooksConfig, repo: HooksConfig, command: string): Plan {
    Plan(Inward(global, repo, "before", command),
         Reversed(Inward(global, repo, "after", command)),
         Reversed(Inward(global, repo, "failed", command)),
         Reversed(Inward(global, repo, "finally", command)))
  }

  function SourcePlan(hooks: SourceHooks): Plan {
    Plan([hooks.before], [hooks.after], [hooks.failed], [hooks.finally])
  }

  // ---------- the drivers ----------

  class World {
    const exec: Exec
    var trace: seq<Event>

    constructor (exec: Exec)
      ensures this.exec == exec && trace == []
    {
      this.exec, trace := exec, [];
    }
  }

  class HookContext {
    const command: string
    var error: Option<string>
    var warnings: seq<string>

    constructor (command: string)
      ensures this.command == command && error == None && warnings == []
    {
      this.command, error, warnings := command, None, [];
    }
  }

  function ViewOf(ctx: HookContext, w: World): View
    reads ctx, w
  {
    View(ctx.error, ctx.warnings, w.trace)
  }

  method RunHookList(cmds: seq<string>, ctx: HookContext, w: World) returns (failure: Option<string>)
    modifies w
    ensures (ViewOf(ctx, w), failure) == RunList(w.exec, cmds, old(ViewOf(ctx, w)))
  {
    for k := 0 to |cmds|
      invariant ctx.error == old(ctx.error) && ctx.warnings == old(ctx.warnings)
      invariant RunList(w.exec, cmds[k..], ViewOf(ctx, w)) == RunList(w.exec, cmds, old(ViewOf(ctx, w)))
    {
      assert cmds[k..][1..] == cmds[k + 1..];
      var outcome := w.exec(w.trace, cmds[k]);
      w.trace := w.trace + [Hook(cmds[k], ctx.error)];
      if outcome.Some? {
        return outcome;
      }
    }
    return None;
  }

  lemma UntilFailureCons(exec: Exec, head: seq<string>, tail: seq<seq<string>>, v: View)
    ensures RunUntilFailure(exec, [head] + tail, v) ==
      var (v', failure) := RunList(exec, head, v);
      if failure.Some? then (v', failure) else RunUntilFailure(exec, tail, v')
  {
    assert ([head] + tail)[1..] == tail;
  }

  method RunBefore(global: HooksConfig, repo: HooksConfig, ctx: HookContext, w: World)
    returns (failure: Option<string>)
    modifies w
    ensures (ViewOf(ctx, w), failure)
         == RunUntilFailure(w.exec, Inward(global, repo, "before", ctx.command), old(ViewOf(ctx, w)))
  {
    var beforeKey := "before" + "_" + ctx.command;
    ghost var last := [GetHooks(repo, beforeKey)];
    ghost var third := [GetHooks(global, beforeKey)] + last;
    ghost var second := [GetHooks(repo, "before")] + third;
    assert Inward(global, repo, "before", ctx.command) == [GetHooks(global, "before")] + second;
    UntilFailureCons(w.exec, GetHooks(global, "before"), second, ViewOf(ctx, w));
    failure := RunHookList(GetHooks(global, "before"), ctx, w);
    if failure.Some? { return; }
    UntilFailureCons(w.exec, GetHooks(repo, "before"), third, ViewOf(ctx, w));
    failure := RunHookList(GetHooks(repo, "before"), ctx, w);
    if failure.Some? { return; }
    UntilFailureCons(w.exec, GetHooks(global, beforeKey), last, ViewOf(ctx, w));
    failure := RunHookList(GetHooks(global, beforeKey), ctx, w);
    if failure.Some? { return; }
    UntilFailureCons(w.exec, GetHooks(repo, beforeKey), [], ViewOf(ctx, w));
    assert last == [GetHooks(repo, beforeKey)] + [];
    failure := RunHookList(GetHooks(repo, beforeKey), ctx, w);
  }

  /** One list whose failure is only logged. */
  method RunAndLog(cmds: seq<string>, ctx: HookContext, w: World)
    modifies w, ctx`warnings
    ensures ViewOf(ctx, w) == RunLogged(w.exec, [cmds], old(ViewOf(ctx, w)))
  {
    var failure := RunHookList(cmds, ctx, w);
    if failure.Some? {
      ctx.warnings := ctx.warnings + [failure.value];
    }
    assert [cmds][1..] == [];
  }

  lemma {:induction false} RunLoggedConcat(exec: Exec, a: seq<seq<string>>, b: seq<seq<string>>, v: View)
    ensures RunLogged(exec, a + b, v) == RunLogged(exec, b, RunLogged(exec, a, v))
    decreases |a|
  {
    if a == [] {
      assert a + b == b;
    } else {
      assert (a + b)[1..] == a[1..] + b;
      var (v', failure) := RunList(exec, a[0], v);
      RunLoggedConcat(exec, a[1..], b, if failure.Some? then v'.(warnings := v'.warnings + [failure.value]) else v');
    }
  }

  lemma RunLoggedFour(exec: Exec, a: seq<string>, b: seq<string>, c: seq<string>, d: seq<string>, v: View)
    ensures RunLogged(exec, [d], RunLogged(exec, [c], RunLogged(exec, [b], RunLogged(exec, [a], v))))
         == RunLogged(exec, [a, b, c, d], v)
  {
    RunLoggedConcat(exec, [a], [b], v);
    RunLoggedConcat(exec, [a] + [b], [c], v);
    RunLoggedConcat(exec, [a] + [b] + [c], [d], v);
    assert [a] + [b] + [c] + [d] == [a, b, c, d];
  }

  /** The four lists of one phase, outwards. */
  method RunOutward(global: HooksConfig, repo: HooksConfig, phase: string, ctx: HookContext, w: World)
    modifies w, ctx`warnings
    ensures ViewOf(ctx, w)
         == RunLogged(w.exec, Reversed(Inward(global, repo, phase, ctx.command)), old(ViewOf(ctx, w)))
  {
    var key := phase + "_" + ctx.command;
    RunLoggedFour(w.exec, GetHooks(repo, key), GetHooks(global, key), GetHooks(repo, phase), GetHooks(global, phase),
                  ViewOf(ctx, w));
    assert Reversed(Inward(global, repo, phase, ctx.command))
        == [GetHooks(repo, key), GetHooks(global, key), GetHooks(repo, phase), GetHooks(global, phase)];
    RunAndLog(GetHooks(repo, key), ctx, w);
    RunAndLog(GetHooks(global, key), ctx, w);
    RunAndLog(GetHooks(repo, phase), ctx, w);
    RunAndLog(GetHooks(global, phase), ctx, w);
  }

  method RunAfterOrFailed(global: HooksConfig, repo: HooksConfig, ctx: HookContext, w: World, success: bool)
    modifies w, ctx`warnings
    ensures var plan := RepoPlan(global, repo, ctx.command);
      ViewOf(ctx, w) == RunLogged(w.exec, if success then plan.after else plan.failed, old(ViewOf(ctx, w)))
  {
    if success {
      RunOutward(global, repo, "after", ctx, w);
    } else {
      RunOutward(global, repo, "failed", ctx, w);
    }
  }

  method RunFinally(global: HooksConfig, repo: HooksConfig, ctx: HookContext, w: World)
    modifies w, ctx`warnings
    ensures ViewOf(ctx, w)
         == RunLogged(w.exec, RepoPlan(global, repo, ctx.command).finally, old(ViewOf(ctx, w)))
  {
    RunOutward(global, repo, "finally", ctx, w);
  }

  /** The hooks after an action that ran: its error is recorded if none is yet. */
  method ConcludeHooks(global: HooksConfig, repo: HooksConfig, failure: Option<string>, ctx: HookContext, w: World)
    modifies ctx, w
    ensures ViewOf(ctx, w) == Conclude(w.exec, RepoPlan(global, repo, ctx.command), old(ViewOf(ctx, w)), failure)
  {
    if failure.Some? {
      if ctx.error.None? {
        ctx.error := failure;
      }
    }
    RunAfterOrFailed(global, repo, ctx, w, failure.None?);
    RunFinally(global, repo, ctx, w);
  }

  /** The hooks after a before hook failed and the action was skipped. */
  method AbortHooks(global: HooksConfig, repo: HooksConfig, failure: string, ctx: HookContext, w: World)
    modifies ctx, w
    ensures ViewOf(ctx, w) == Conclude(w.exec, RepoPlan(global, repo, ctx.command),
                                       old(ViewOf(ctx, w)).(error := Some(failure)), Some(failure))
  {
    ctx.error := Some(failure);
    RunAfterOrFailed(global, repo, ctx, w, false);
    RunFinally(global, repo, ctx, w);
  }

  method Perform<T>(action: Action<T>, w: World) returns (result: Result<T, string>)
    modifies w
    ensures Effect(w.trace, result) == Effect(old(w.trace) + [Acted] + action(old(w.trace)).log, action(old(w.trace)).result)
  {
    var effect := action(w.trace);
    w.trace := w.trace + [Acted] + effect.log;
    return effect.result;
  }

  /** First driver: stand-alone commands. */
  method RunWithHooks<T>(global: HooksConfig, repo: HooksConfig, ctx: HookContext, action: Action<T>, w: World)
    returns (result: Result<T, string>)
    modifies w, ctx
    ensures (ViewOf(ctx, w), result) ==
      if ctx.command in {"backup", "prune", "compact", "check"}
      then Lifecycle(w.exec, RepoPlan(global, repo, ctx.command), old(ViewOf(ctx, w)), action)
      else Act(action, old(ViewOf(ctx, w)))
  {
    if ctx.command !in HOOK_COMMANDS {
      result := Perform(action, w);
      return;
    }
    var failure := RunBefore(global, repo, ctx, w);
    if failure.Some? {
      ctx.error := failure;
      result := Err(failure.value);
    } else {
      result := Perform(action, w);
    }
    var success := result.Ok?;
    if !success {
      if ctx.error.None? {
        ctx.error := Some(result.error);
      }
    }
    RunAfterOrFailed(global, repo, ctx, w, success);
    RunFinally(global, repo, ctx, w);
  }

  /** The driver for a single source. */
  method RunSourceHooks<T>(hooks: SourceHooks, ctx: HookContext, action: Action<T>, w: World)
    returns (result: Result<T, string>)
    modifies w, ctx
    ensures (ViewOf(ctx, w), result) == Lifecycle(w.exec, SourcePlan(hooks), old(ViewOf(ctx, w)), action)
  {
    assert [hooks.before][1..] == [];
    ghost var v0 := ViewOf(ctx, w);
    var failure := RunHookList(hooks.before, ctx, w);
    assert RunUntilFailure(w.exec, [hooks.before], v0) == (ViewOf(ctx, w), failure);
    if failure.Some? {
      ctx.error := failure;
      result := Err(failure.value);
    } else {
      result := Perform(action, w);
    }
    match result {
      case Ok(_) =>
        RunAndLog(hooks.after, ctx, w);
      case Err(e) =>
        if ctx.error.None? {
          ctx.error := Some(e);
        }
        RunAndLog(hooks.failed, ctx, w);
    }
    RunAndLog(hooks.finally, ctx, w);
  }
}
