/** What one run of the hook lifecycle looks like from outside. */
module HookLaws {
  import opened Wrappers
  import opened Hooks

  /** The events of running `cmds` with a given error in the context. */
  function HookEvents(cmds: seq<string>, error: Option<string>): (r: seq<Event>)
    ensures |r| == |cmds|
  {
    seq(|cmds|, i requires 0 <= i < |cmds| => Hook(cmds[i], error))
  }

  function Concat(lists: seq<seq<string>>): seq<string> {
    if lists == [] then [] else lists[0] + Concat(lists[1..])
  }

  /** The first `n` commands all succeed when run one after the other from `trace`. */
  ghost predicate Succeed(exec: Exec, cmds: seq<string>, n: nat, error: Option<string>, trace: seq<Event>)
    requires n <= |cmds|
  {
    forall i :: 0 <= i < n ==> exec(trace + HookEvents(cmds[..i], error), cmds[i]) == None
  }

  /** Of `cmds`, run one after the other from `trace`, exactly the first `n` ran: all of them, each with success,
      or up to the first that failed, and `failure` is its message. */
  ghost predicate RanTo(
    exec: Exec, cmds: seq<string>, n: nat, error: Option<string>, trace: seq<Event>, failure: Option<string>)
  {
    && n <= |cmds|
    && if failure.None? then n == |cmds| && Succeed(exec, cmds, n, error, trace)
       else
         && n > 0 && Succeed(exec, cmds, n - 1, error, trace)
         && exec(trace + HookEvents(cmds[..n - 1], error), cmds[n - 1]) == failure
  }

  /** `seg` runs the lists in order; each runs to its end, or up to its first failing command, which leaves
      its message as the next of `warnings`. */
  ghost predicate Covers(
    exec: Exec, lists: seq<seq<string>>, error: Option<string>, trace: seq<Event>, seg: seq<Event>,
    warnings: seq<string>)
    decreases |lists|
  {
    if lists == [] then seg == [] && warnings == []
    else exists n :: 0 <= n <= |lists[0]| && CoversFrom(exec, lists, error, trace, seg, warnings, n)
  }

  ghost predicate CoversFrom(
    exec: Exec, lists: seq<seq<string>>, error: Option<string>, trace: seq<Event>, seg: seq<Event>,
    warnings: seq<string>, n: nat)
    requires lists != [] && n <= |lists[0]|
    decreases |lists|, 0
  {
    && n <= |seg|
    && seg[..n] == HookEvents(lists[0][..n], error)
    && (|| (n == |lists[0]| && Succeed(exec, lists[0], n, error, trace)
            && Covers(exec, lists[1..], error, trace + seg[..n], seg[n..], warnings))
        || (n > 0 && warnings != [] && Succeed(exec, lists[0], n - 1, error, trace)
            && exec(trace + HookEvents(lists[0][..n - 1], error), lists[0][n - 1]) == Some(warnings[0])
            && Covers(exec, lists[1..], error, trace + seg[..n], seg[n..], warnings[1..])))
  }

  lemma {:induction false} ListTrace(exec: Exec, cmds: seq<string>, v: View) returns (n: nat)
    ensures n <= |cmds|
    ensures var (v', failure) := RunList(exec, cmds, v);
      && RanTo(exec, cmds, n, v.error, v.trace, failure)
      && v' == v.(trace := v.trace + HookEvents(cmds[..n], v.error))
    decreases |cmds|
  {
    if cmds == [] {
      n := 0;
    } else {
      var v1 := v.(trace := v.trace + [Hook(cmds[0], v.error)]);
      if exec(v.trace, cmds[0]).Some? {
        n := 1;
        assert v.trace + HookEvents(cmds[..0], v.error) == v.trace;
      } else {
        var m := ListTrace(exec, cmds[1..], v1);
        n := m + 1;
        forall i | 0 <= i <= m
          ensures v1.trace + HookEvents(cmds[1..][..i], v.error) == v.trace + HookEvents(cmds[..i + 1], v.error)
        {
          PrependEvents(cmds, i, v.error);
        }
        assert v.trace + HookEvents(cmds[..0], v.error) == v.trace;
        SucceedPrepend(exec, cmds, if RunList(exec, cmds, v).1.None? then m else m - 1, v.error, v.trace);
      }
    }
  }

  lemma SucceedPrepend(exec: Exec, cmds: seq<string>, m: nat, error: Option<string>, trace: seq<Event>)
    requires cmds != [] && m < |cmds| && exec(trace, cmds[0]) == None
    requires Succeed(exec, cmds[1..], m, error, trace + [Hook(cmds[0], error)])
    ensures Succeed(exec, cmds, m + 1, error, trace)
  {
    forall i | 0 <= i < m + 1
      ensures exec(trace + HookEvents(cmds[..i], error), cmds[i]) == None
    {
      if i == 0 {
        assert trace + HookEvents(cmds[..0], error) == trace;
      } else {
        PrependEvents(cmds, i - 1, error);
        assert trace + [Hook(cmds[0], error)] + HookEvents(cmds[1..][..i - 1], error)
            == trace + HookEvents(cmds[..i], error);
        assert exec(trace + [Hook(cmds[0], error)] + HookEvents(cmds[1..][..i - 1], error), cmds[1..][i - 1]) == None;
      }
    }
  }

  lemma PrependEvents(cmds: seq<string>, m: nat, error: Option<string>)
    requires cmds != [] && m < |cmds|
    ensures [Hook(cmds[0], error)] + HookEvents(cmds[1..][..m], error) == HookEvents(cmds[..m + 1], error)
  {
  }

  lemma ConcatEvents(cmds: seq<string>, more: seq<string>, m: nat, error: Option<string>)
    requires m <= |more|
    ensures HookEvents(cmds, error) + HookEvents(more[..m], error) == HookEvents((cmds + more)[..|cmds| + m], error)
  {
  }

  lemma SucceedConcat(
    exec: Exec, cmds: seq<string>, more: seq<string>, m: nat, error: Option<string>, trace: seq<Event>)
    requires Succeed(exec, cmds, |cmds|, error, trace)
    requires m <= |more| && Succeed(exec, more, m, error, trace + HookEvents(cmds, error))
    ensures Succeed(exec, cmds + more, |cmds| + m, error, trace)
  {
    var all := cmds + more;
    forall i | 0 <= i < |cmds| + m
      ensures exec(trace + HookEvents(all[..i], error), all[i]) == None
    {
      if i < |cmds| {
        assert all[..i] == cmds[..i];
      } else {
        MoveOn(cmds, more, i - |cmds|, error, trace);
      }
    }
  }

  /** The history after `cmds` and some of `more`, either way. */
  lemma MoveOn(cmds: seq<string>, more: seq<string>, m: nat, error: Option<string>, trace: seq<Event>)
    requires m <= |more|
    ensures trace + HookEvents(cmds, error) + HookEvents(more[..m], error)
         == trace + HookEvents((cmds + more)[..|cmds| + m], error)
  {
    ConcatEvents(cmds, more, m, error);
    var first, second := HookEvents(cmds, error), HookEvents(more[..m], error);
    assert trace + first + second == trace + (first + second);
  }

  lemma RanOn(
    exec: Exec, cmds: seq<string>, more: seq<string>, m: nat, error: Option<string>, trace: seq<Event>,
    failure: Option<string>)
    requires Succeed(exec, cmds, |cmds|, error, trace)
    requires RanTo(exec, more, m, error, trace + HookEvents(cmds, error), failure)
    ensures RanTo(exec, cmds + more, |cmds| + m, error, trace, failure)
  {
    if failure.None? {
      SucceedConcat(exec, cmds, more, m, error, trace);
    } else {
      SucceedConcat(exec, cmds, more, m - 1, error, trace);
      MoveOn(cmds, more, m - 1, error, trace);
    }
  }

  lemma RanAmong(
    exec: Exec, cmds: seq<string>, more: seq<string>, n: nat, error: Option<string>, trace: seq<Event>,
    failure: Option<string>)
    requires RanTo(exec, cmds, n, error, trace, failure) && failure.Some?
    ensures RanTo(exec, cmds + more, n, error, trace, failure)
  {
    forall i | 0 <= i < n
      ensures (cmds + more)[..i] == cmds[..i] && (cmds + more)[i] == cmds[i]
    {
    }
  }

  /** Before hooks run through all commands in order, up to and including the first that fails. */
  lemma {:induction false} BeforeTrace(exec: Exec, lists: seq<seq<string>>, v: View) returns (n: nat)
    ensures n <= |Concat(lists)|
    ensures var (v', failure) := RunUntilFailure(exec, lists, v);
      && RanTo(exec, Concat(lists), n, v.error, v.trace, failure)
      && v' == v.(trace := v.trace + HookEvents(Concat(lists)[..n], v.error))
    decreases |lists|
  {
    if lists == [] {
      n := 0;
    } else {
      var head, rest := lists[0], Concat(lists[1..]);
      var k := ListTrace(exec, head, v);
      var (v1, failure) := RunList(exec, head, v);
      if failure.Some? {
        n := k;
        assert Concat(lists)[..n] == head[..n];
        RanAmong(exec, head, rest, n, v.error, v.trace, failure);
      } else {
        assert head[..k] == head;
        var m := BeforeTrace(exec, lists[1..], v1);
        n := k + m;
        MoveOn(head, rest, m, v.error, v.trace);
        RanOn(exec, head, rest, m, v.error, v.trace, RunUntilFailure(exec, lists[1..], v1).1);
      }
    }
  }

  /** Every before command succeeds. */
  ghost predicate BeforePasses(exec: Exec, plan: Plan, trace: seq<Event>) {
    Succeed(exec, Concat(plan.before), |Concat(plan.before)|, None, trace)
  }

  /** A failure is reported exactly when not every before command succeeds. */
  lemma PassesIff(exec: Exec, plan: Plan, v: View)
    requires v.error == None
    ensures RunUntilFailure(exec, plan.before, v).1.None? <==> BeforePasses(exec, plan, v.trace)
    ensures BeforePasses(exec, plan, v.trace) ==>
      RunUntilFailure(exec, plan.before, v).0 == v.(trace := v.trace + HookEvents(Concat(plan.before), None))
  {
    var n := BeforeTrace(exec, plan.before, v);
    var all := Concat(plan.before);
    if BeforePasses(exec, plan, v.trace) {
      assert RunUntilFailure(exec, plan.before, v).1.None?;
      assert all[..n] == all;
    }
  }

  /** Later hooks attempt every list in order, whatever failed before, and never touch the error. */
  lemma {:induction false} LoggedTrace(exec: Exec, lists: seq<seq<string>>, v: View)
    returns (seg: seq<Event>, warnings: seq<string>)
    ensures RunLogged(exec, lists, v) == View(v.error, v.warnings + warnings, v.trace + seg)
    ensures Covers(exec, lists, v.error, v.trace, seg, warnings)
    decreases |lists|
  {
    if lists == [] {
      seg, warnings := [], [];
    } else {
      var n := ListTrace(exec, lists[0], v);
      var (v1, failure) := RunList(exec, lists[0], v);
      var v2 := if failure.Some? then v1.(warnings := v1.warnings + [failure.value]) else v1;
      var ran := HookEvents(lists[0][..n], v.error);
      var rest, more := LoggedTrace(exec, lists[1..], v2);
      seg := ran + rest;
      assert v.trace + ran + rest == v.trace + seg;
      if failure.Some? {
        warnings := [failure.value] + more;
        assert v.warnings + [failure.value] + more == v.warnings + warnings;
        assert warnings[1..] == more;
      } else {
        warnings := more;
      }
      assert CoversFrom(exec, lists, v.error, v.trace, seg, warnings, n) by {
        assert seg[..n] == ran && seg[n..] == rest;
      }
    }
  }

  /** The shape of every run: the before commands up to the first that fails; the action exactly when all of
      them succeed; exactly one of the after and failed phases; then the finally phase.  The result is the
      action's own, or the failed before command's message; the error is set exactly when the failed phase
      runs, and every hook of the last two phases sees it. */
  lemma LifecycleShape<T>(exec: Exec, plan: Plan, v: View, action: Action<T>)
    returns (n: nat, later: seq<Event>, last: seq<Event>, warned: seq<string>, warned': seq<string>)
    requires v.error == None
    ensures n <= |Concat(plan.before)|
    ensures var (v', result) := Lifecycle(exec, plan, v, action);
      var passes := BeforePasses(exec, plan, v.trace);
      var ran := v.trace + HookEvents(Concat(plan.before)[..n], None);
      var acted := if passes then [Acted] + action(ran).log else [];
      && RanTo(exec, Concat(plan.before), n, None, v.trace, if passes then None else FailureOf(result))
      && (if passes then result == action(ran).result else result.Err?)
      && v'.trace == ran + acted + later + last
      && v'.error == FailureOf(result)
      && v'.warnings == v.warnings + warned + warned'
      && Covers(exec, if result.Ok? then plan.after else plan.failed, v'.error, ran + acted, later, warned)
      && Covers(exec, plan.finally, v'.error, ran + acted + later, last, warned')
  {
    n := BeforeTrace(exec, plan.before, v);
    PassesIff(exec, plan, v);
    var (v1, failure) := RunUntilFailure(exec, plan.before, v);
    var (v', result) := Lifecycle(exec, plan, v, action);
    var acted := if failure.None? then [Acted] + action(v1.trace).log else [];
    var v2 := View(FailureOf(result), v1.warnings, v1.trace + acted);
    assert v1.trace + [] == v1.trace;
    assert failure.None? ==> v1.trace + [Acted] + action(v1.trace).log == v1.trace + acted;
    later, warned := LoggedTrace(exec, if result.Ok? then plan.after else plan.failed, v2);
    var v3 := RunLogged(exec, if result.Ok? then plan.after else plan.failed, v2);
    last, warned' := LoggedTrace(exec, plan.finally, v3);
    assert v' == RunLogged(exec, plan.finally, v3);
  }

  // ---------- which hooks these are ----------

  /** Every event of a later phase is a command of one of its lists, run with the error in its context. */
  lemma {:induction false} CoversMembers(
    exec: Exec, lists: seq<seq<string>>, error: Option<string>, trace: seq<Event>, seg: seq<Event>,
    warnings: seq<string>, i: nat)
    requires Covers(exec, lists, error, trace, seg, warnings) && i < |seg|
    ensures seg[i].Hook? && seg[i].error == error
    ensures exists k :: 0 <= k < |lists| && seg[i].cmd in lists[k]
    decreases |lists|
  {
    var n :| 0 <= n <= |lists[0]| && CoversFrom(exec, lists, error, trace, seg, warnings, n);
    if i < n {
      assert seg[i] == seg[..n][i];
      assert seg[i].cmd == lists[0][i];
    } else {
      var rest := if n == |lists[0]| && Covers(exec, lists[1..], error, trace + seg[..n], seg[n..], warnings)
                  then warnings else warnings[1..];
      CoversMembers(exec, lists[1..], error, trace + seg[..n], seg[n..], rest, i - n);
      var k :| 0 <= k < |lists[1..]| && seg[n..][i - n].cmd in lists[1..][k];
      assert seg[i].cmd in lists[k + 1];
    }
  }

  /** `cmd` is configured under `key`, globally or for the repository. */
  predicate ConfiguredAt(global: HooksConfig, repo: HooksConfig, key: string, cmd: string) {
    (key in global && cmd in global[key]) || (key in repo && cmd in repo[key])
  }

  /** The four lists of a phase, innermost first. */
  function Outwards(global: HooksConfig, repo: HooksConfig, general: string, specific: string): seq<seq<string>> {
    [GetHooks(repo, specific), GetHooks(global, specific), GetHooks(repo, general), GetHooks(global, general)]
  }

  /** The plan of a command in terms of its configuration keys. */
  lemma PlanOfKeys(global: HooksConfig, repo: HooksConfig, command: string)
    ensures var plan := RepoPlan(global, repo, command);
      && plan.before == [GetHooks(global, "before"), GetHooks(repo, "before"),
                         GetHooks(global, "before_" + command), GetHooks(repo, "before_" + command)]
      && plan.after == Outwards(global, repo, "after", "after_" + command)
      && plan.failed == Outwards(global, repo, "failed", "failed_" + command)
      && plan.finally == Outwards(global, repo, "finally", "finally_" + command)
  {
    assert "before" + "_" + command == "before_" + command;
    MirrorOfKeys(global, repo, "after", command, "after_" + command);
    MirrorOfKeys(global, repo, "failed", command, "failed_" + command);
    MirrorOfKeys(global, repo, "finally", command, "finally_" + command);
  }

  lemma MirrorOfKeys(global: HooksConfig, repo: HooksConfig, phase: string, command: string, specific: string)
    requires specific == phase + "_" + command
    ensures Reversed(Inward(global, repo, phase, command)) == Outwards(global, repo, phase, specific)
  {
  }

  /** Everything in `seg` is a hook command configured under one of the two keys, run with `error`. */
  ghost predicate FromKeys(
    global: HooksConfig, repo: HooksConfig, general: string, specific: string, error: Option<string>, seg: seq<Event>)
  {
    forall i :: 0 <= i < |seg| ==>
      && seg[i].Hook? && seg[i].error == error
      && (ConfiguredAt(global, repo, general, seg[i].cmd) || ConfiguredAt(global, repo, specific, seg[i].cmd))
  }

  lemma PhaseIsConfigured(
    exec: Exec, global: HooksConfig, repo: HooksConfig, general: string, specific: string, error: Option<string>,
    trace: seq<Event>, seg: seq<Event>, warnings: seq<string>)
    requires Covers(exec, Outwards(global, repo, general, specific), error, trace, seg, warnings)
    ensures FromKeys(global, repo, general, specific, error, seg)
  {
    forall i | 0 <= i < |seg|
      ensures seg[i].Hook? && seg[i].error == error
      ensures ConfiguredAt(global, repo, general, seg[i].cmd) || ConfiguredAt(global, repo, specific, seg[i].cmd)
    {
      CoversMembers(exec, Outwards(global, repo, general, specific), error, trace, seg, warnings, i);
    }
  }

  /** One run of a command with the hooks of its repository, in terms of the configuration keys.  Before hooks
      run from the outside in.  After a success exactly the "after" hooks run and after a failure exactly the
      "failed" hooks, and then the "finally" hooks, each from the inside out; no command runs after the action
      that is configured only for the other outcome. */
  lemma RepoLifecycle<T>(
    exec: Exec, global: HooksConfig, repo: HooksConfig, command: string, trace: seq<Event>, action: Action<T>)
    returns (n: nat, later: seq<Event>, last: seq<Event>, warned: seq<string>, warned': seq<string>)
    ensures var before := Concat([GetHooks(global, "before"), GetHooks(repo, "before"),
                                  GetHooks(global, "before_" + command), GetHooks(repo, "before_" + command)]);
      n <= |before| &&
      var (v, result) := Lifecycle(exec, RepoPlan(global, repo, command), View(None, [], trace), action);
      var passes := Succeed(exec, before, |before|, None, trace);
      var ran := trace + HookEvents(before[..n], None);
      var acted := if passes then [Acted] + action(ran).log else [];
      && RanTo(exec, before, n, None, trace, if passes then None else FailureOf(result))
      && (if passes then result == action(ran).result else result.Err?)
      && v.trace == ran + acted + later + last && v.warnings == warned + warned'
      && Covers(exec, if result.Ok? then Outwards(global, repo, "after", "after_" + command)
                      else Outwards(global, repo, "failed", "failed_" + command),
                FailureOf(result), ran + acted, later, warned)
      && (if result.Ok? then FromKeys(global, repo, "after", "after_" + command, None, later)
          else FromKeys(global, repo, "failed", "failed_" + command, Some(result.error), later))
      && Covers(exec, Outwards(global, repo, "finally", "finally_" + command),
                FailureOf(result), ran + acted + later, last, warned')
      && FromKeys(global, repo, "finally", "finally_" + command, FailureOf(result), last)
  {
    var plan := RepoPlan(global, repo, command);
    PlanOfKeys(global, repo, command);
    n, later, last, warned, warned' := LifecycleShape(exec, plan, View(None, [], trace), action);
    assert [] + warned + warned' == warned + warned';
    var (_, result) := Lifecycle(exec, plan, View(None, [], trace), action);
    var ran := trace + HookEvents(Concat(plan.before)[..n], None);
    var acted := if BeforePasses(exec, plan, trace) then [Acted] + action(ran).log else [];
    if result.Ok? {
      PhaseIsConfigured(exec, global, repo, "after", "after_" + command, None, ran + acted, later, warned);
    } else {
      PhaseIsConfigured(exec, global, repo, "failed", "failed_" + command, Some(result.error), ran + acted, later, warned);
    }
    PhaseIsConfigured(
      exec, global, repo, "finally", "finally_" + command, FailureOf(result), ran + acted + later, last, warned');
  }

  /** One run with the hooks of a source: its own four lists, each in its own place. */
  lemma SourceLifecycle<T>(exec: Exec, hooks: SourceHooks, trace: seq<Event>, action: Action<T>)
    returns (n: nat, later: seq<Event>, last: seq<Event>, warned: seq<string>, warned': seq<string>)
    ensures n <= |hooks.before|
    ensures var (v, result) := Lifecycle(exec, SourcePlan(hooks), View(None, [], trace), action);
      var passes := Succeed(exec, hooks.before, |hooks.before|, None, trace);
      var ran := trace + HookEvents(hooks.before[..n], None);
      var acted := if passes then [Acted] + action(ran).log else [];
      && RanTo(exec, hooks.before, n, None, trace, if passes then None else FailureOf(result))
      && (if passes then result == action(ran).result else result.Err?)
      && v.trace == ran + acted + later + last && v.warnings == warned + warned'
      && Covers(exec, [if result.Ok? then hooks.after else hooks.failed], FailureOf(result), ran + acted, later, warned)
      && Covers(exec, [hooks.finally], FailureOf(result), ran + acted + later, last, warned')
  {
    var plan := SourcePlan(hooks);
    assert Concat(plan.before) == hooks.before by {
      assert plan.before[1..] == [];
      assert Concat([]) == [];
      assert hooks.before + [] == hooks.before;
    }
    n, later, last, warned, warned' := LifecycleShape(exec, plan, View(None, [], trace), action);
    assert [] + warned + warned' == warned + warned';
  }

  lemma {:induction false} LoggedNothing(exec: Exec, lists: seq<seq<string>>, v: View)
    requires forall i :: 0 <= i < |lists| ==> lists[i] == []
    ensures RunLogged(exec, lists, v) == v
    decreases |lists|
  {
    if lists != [] {
      LoggedNothing(exec, lists[1..], v);
    }
  }

  lemma {:induction false} BeforeNothing(exec: Exec, lists: seq<seq<string>>, v: View)
    requires forall i :: 0 <= i < |lists| ==> lists[i] == []
    ensures RunUntilFailure(exec, lists, v) == (v, None)
    decreases |lists|
  {
    if lists != [] {
      BeforeNothing(exec, lists[1..], v);
    }
  }

  /** Without any configured hook nothing follows the action. */
  lemma ConcludeNothing(exec: Exec, command: string, v: View, failure: Option<string>)
    ensures var v' := Conclude(exec, RepoPlan(map[], map[], command), v, failure);
      v'.trace == v.trace && v'.warnings == v.warnings
  {
    var plan, v1 := RepoPlan(map[], map[], command), if v.error.None? then v.(error := failure) else v;
    LoggedNothing(exec, if failure.None? then plan.after else plan.failed, v1);
    LoggedNothing(exec, plan.finally, v1);
  }

  /** Without any configured hook the lifecycle is the bare action. */
  lemma NoHooksIsBareAction<T>(exec: Exec, command: string, v: View, action: Action<T>)
    ensures var (v', result) := Lifecycle(exec, RepoPlan(map[], map[], command), v, action);
      && v'.trace == Act(action, v).0.trace && result == Act(action, v).1 && v'.warnings == v.warnings
  {
    var plan := RepoPlan(map[], map[], command);
    BeforeNothing(exec, plan.before, v);
    var (v2, result) := Act(action, v);
    ConcludeNothing(exec, command, v2, FailureOf(result));
  }

  /** Nor does a source without hooks need the lifecycle. */
  lemma NoSourceHooksIsBareAction<T>(exec: Exec, hooks: SourceHooks, v: View, action: Action<T>)
    requires !hooks.HasAny()
    ensures var (v', result) := Lifecycle(exec, SourcePlan(hooks), v, action);
      var (v2, result') := Act(action, v);
      v'.trace == v2.trace && v'.warnings == v2.warnings && result == result'
  {
    var plan := SourcePlan(hooks);
    BeforeNothing(exec, plan.before, v);
    var (v2, result) := Act(action, v);
    var v3 := if v2.error.None? then v2.(error := FailureOf(result)) else v2;
    LoggedNothing(exec, if result.Ok? then plan.after else plan.failed, v3);
    LoggedNothing(exec, plan.finally, v3);
  }
}
