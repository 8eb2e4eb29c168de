/**
 * Deploy exclusion: deploys, rollbacks, restarts and pulls of one app exclude
 * each other through the tracker, also across a cancel, and every accepted one
 * ends its own deploy log exactly once.
 */
module DeployTracker {
  import opened Prelude

  // ---- what one accepted operation does, return path by return path

  datatype Kind = Deploy | Rollback | Restart | Pull

  datatype Command = ComposeUp | ComposePull | ComposeRestart

  datatype Stability = Stable | Unstable

  /** How the outside world answers one operation. */
  /** What re-reading the compose file right before it runs finds. */
  datatype FileCheck = Accepted | Unreadable(error: string) | Breaks(rules: seq<string>)

  datatype Env = Env(file: FileCheck, hasAuths: bool, authOk: bool, pullOk: bool, runOk: bool, stability: Stability)

  datatype Effect =
    | CheckFile(ok: bool)
    | Send(line: string)
    | WriteAuth(ok: bool)
    | Run(command: Command, ok: bool)
    | Stabilize(result: Stability)
    | Done(action: string, status: string)

  function Finish(action: string, ok: bool, stability: Stability): seq<Effect> {
    if !ok then [Done(action + "_failed", "failed")]
    else
      match stability
      case Stable => [Stabilize(Stable), Done(action, "success")]
      case Unstable => [Stabilize(Unstable), Done(action + "_unstable", "unstable")]
  }

  function Sends(lines: seq<string>): seq<Effect> {
    seq(|lines|, i requires 0 <= i < |lines| => Send(lines[i]))
  }

  function Bullets(rules: seq<string>): (lines: seq<string>)
    ensures |lines| == |rules| && forall i :: 0 <= i < |rules| ==> lines[i] == "  - " + rules[i]
  {
    seq(|rules|, i requires 0 <= i < |rules| => "  - " + rules[i])
  }

  /** Why a compose file was refused, for the deploy log. */
  function RefusalLines(file: FileCheck): seq<string> {
    match file
    case Accepted => []
    case Unreadable(error) => ["Stopped before starting: compose file could not be read: " + error]
    case Breaks(rules) =>
      ["Stopped before starting: the compose file breaks these security rules:"] + Bullets(rules) + ["Fix the compose file and try again."]
  }

  function Refuse(action: string, file: FileCheck): seq<Effect> {
    Sends(RefusalLines(file)) + [Done(action + "_failed", "failed")]
  }

  predicate Passes(env: Env) { env.file.Accepted? && (env.hasAuths ==> env.authOk) }

  function LoginEffects(action: string, env: Env): seq<Effect> {
    if !env.hasAuths then []
    else if env.authOk then [WriteAuth(true)]
    else [WriteAuth(false), Done(action + "_failed", "")]
  }

  /** The checks before any compose command: the file, then the registry logins. */
  function Checks(action: string, env: Env): seq<Effect> {
    if !env.file.Accepted? then [CheckFile(false)] + Refuse(action, env.file)
    else [CheckFile(true)] + LoginEffects(action, env)
  }

  lemma {:induction false} Regroup(a: seq<Effect>, b: seq<Effect>, c: seq<Effect>)
    ensures a + b + c == a + (b + c)
  {
  }

  function BaseAction(kind: Kind): string {
    match kind
    case Deploy | Rollback => "deploy"
    case Restart => "restart"
    case Pull => "pull"
  }

  /** What follows the checks of a deploy, rollback or pull. */
  function AfterChecks(kind: Kind, env: Env): seq<Effect> {
    if kind != Pull then [Run(ComposeUp, env.runOk)] + Finish(BaseAction(kind), env.runOk, env.stability)
    else if !env.pullOk then [Run(ComposePull, false), Done("pull_failed", "failed")]
    else [Run(ComposePull, true)] + ([Run(ComposeUp, env.runOk)] + Finish("pull", env.runOk, env.stability))
  }

  /** Effects of an accepted operation, from the tracked start to its last. */
  function Script(kind: Kind, env: Env): seq<Effect> {
    if kind == Restart then [Run(ComposeRestart, env.runOk)] + Finish("restart", env.runOk, env.stability)
    else Checks(BaseAction(kind), env) + if Passes(env) then AfterChecks(kind, env) else []
  }

  method BuildLines(rules: seq<string>) returns (lines: seq<string>)
    ensures lines == RefusalLines(Breaks(rules))
  {
    lines := ["Stopped before starting: the compose file breaks these security rules:"];
    for i := 0 to |rules|
      invariant lines == ["Stopped before starting: the compose file breaks these security rules:"] + Bullets(rules)[..i]
    {
      lines := lines + ["  - " + rules[i]];
    }
    lines := lines + ["Fix the compose file and try again."];
  }

  class Deployer {
    var trace: seq<Effect>

    constructor ()
      ensures trace == []
    {
      trace := [];
    }

    method FinishDeploy(action: string, ok: bool, stability: Stability)
      modifies this
      ensures trace == old(trace) + Finish(action, ok, stability)
    {
      if !ok {
        trace := trace + [Done(action + "_failed", "failed")];
        return;
      }
      trace := trace + [Stabilize(stability)];
      if stability == Unstable {
        trace := trace + [Done(action + "_unstable", "unstable")];
      } else {
        trace := trace + [Done(action, "success")];
      }
    }

    method RefuseDeploy(action: string, file: FileCheck)
      requires !file.Accepted?
      modifies this
      ensures trace == old(trace) + Refuse(action, file)
    {
      var lines: seq<string>;
      match file {
        case Unreadable(error) => lines := ["Stopped before starting: compose file could not be read: " + error];
        case Breaks(rules) => lines := BuildLines(rules);
      }
      for i := 0 to |lines|
        invariant trace == old(trace) + Sends(lines[..i])
      {
        assert Sends(lines[..i + 1]) == Sends(lines[..i]) + [Send(lines[i])];
        trace := trace + [Send(lines[i])];
      }
      assert lines[..|lines|] == lines;
      trace := trace + [Done(action + "_failed", "failed")];
    }

    /** The checks shared by deploy, rollback and pull; false when they ended the operation. */
    method Prepare(action: string, env: Env) returns (go: bool)
      modifies this
      ensures go <==> Passes(env)
      ensures trace == old(trace) + Checks(action, env)
    {
      trace := trace + [CheckFile(env.file.Accepted?)];
      if !env.file.Accepted? {
        RefuseDeploy(action, env.file);
        Regroup(old(trace), [CheckFile(false)], Refuse(action, env.file));
        return false;
      }
      go := Login(action, env);
      Regroup(old(trace), [CheckFile(true)], LoginEffects(action, env));
    }

    method Login(action: string, env: Env) returns (go: bool)
      requires env.file.Accepted?
      modifies this
      ensures go <==> Passes(env)
      ensures trace == old(trace) + LoginEffects(action, env)
    {
      if env.hasAuths {
        trace := trace + [WriteAuth(env.authOk)];
        if !env.authOk {
          trace := trace + [Done(action + "_failed", "")];
          return false;
        }
      }
      return true;
    }

    method RunOperation(kind: Kind, env: Env)
      modifies this
      ensures trace == old(trace) + Script(kind, env)
    {
      if kind == Restart {
        trace := trace + [Run(ComposeRestart, env.runOk)];
        FinishDeploy("restart", env.runOk, env.stability);
        return;
      }
      var go := Prepare(BaseAction(kind), env);
      if go {
        RunCommands(kind, env);
        Regroup(old(trace), Checks(BaseAction(kind), env), AfterChecks(kind, env));
      }
    }

    method RunCommands(kind: Kind, env: Env)
      requires kind != Restart
      modifies this
      ensures trace == old(trace) + AfterChecks(kind, env)
    {
      if kind == Pull {
        trace := trace + [Run(ComposePull, env.pullOk)];
        if !env.pullOk {
          trace := trace + [Done("pull_failed", "failed")];
          return;
        }
      }
      trace := trace + [Run(ComposeUp, env.runOk)];
      FinishDeploy(BaseAction(kind), env.runOk, env.stability);
    }
  }

  /** Done is the last effect and only there. */
  predicate EndsOnce(script: seq<Effect>) {
    && script != []
    && script[|script| - 1].Done?
    && forall i :: 0 <= i < |script| - 1 ==> !script[i].Done?
  }

  predicate NoDone(es: seq<Effect>) { forall i :: 0 <= i < |es| ==> !es[i].Done? }

  lemma {:induction false} EndsAfter(es: seq<Effect>, rest: seq<Effect>)
    requires NoDone(es) && EndsOnce(rest)
    ensures EndsOnce(es + rest)
  {
  }

  lemma {:induction false} ChecksEnd(action: string, env: Env)
    ensures if Passes(env) then NoDone(Checks(action, env)) else EndsOnce(Checks(action, env))
  {
    if !env.file.Accepted? {
      EndsAfter([CheckFile(false)] + Sends(RefusalLines(env.file)), [Done(action + "_failed", "failed")]);
      RefusedChecks(action, env);
    }
  }

  /** The refusal of a compose file: its check, why, and the report. */
  lemma {:induction false} RefusedChecks(action: string, env: Env)
    requires !env.file.Accepted?
    ensures Checks(action, env) == [CheckFile(false)] + Sends(RefusalLines(env.file)) + [Done(action + "_failed", "failed")]
  {
  }

  lemma {:induction false} CommandEnds(action: string, c: Command, ok: bool, stability: Stability)
    ensures EndsOnce([Run(c, ok)] + Finish(action, ok, stability))
  {
  }

  /** Every return path of every operation reports Done exactly once, as its last effect. */
  lemma {:induction false} EveryPathEndsOnce(kind: Kind, env: Env)
    ensures EndsOnce(Script(kind, env))
  {
    if kind == Restart {
      CommandEnds("restart", ComposeRestart, env.runOk, env.stability);
    } else {
      ChecksEnd(BaseAction(kind), env);
      if Passes(env) {
        AfterChecksEnds(kind, env);
        EndsAfter(Checks(BaseAction(kind), env), AfterChecks(kind, env));
      } else {
        assert Checks(BaseAction(kind), env) + [] == Checks(BaseAction(kind), env);
      }
    }
  }

  lemma {:induction false} AfterChecksEnds(kind: Kind, env: Env)
    requires kind != Restart
    ensures EndsOnce(AfterChecks(kind, env))
  {
    CommandEnds(BaseAction(kind), ComposeUp, env.runOk, env.stability);
    if kind == Pull && env.pullOk {
      EndsAfter([Run(ComposePull, true)], [Run(ComposeUp, env.runOk)] + Finish("pull", env.runOk, env.stability));
    }
  }

  // ---- what a run of an operation means

  /** Checks, pull and last command all went well, as far as the operation has them. */
  predicate AllWell(kind: Kind, env: Env) {
    && (kind != Restart ==> env.file.Accepted? && (env.hasAuths ==> env.authOk))
    && (kind == Pull ==> env.pullOk)
    && env.runOk
  }

  predicate LoginFailed(kind: Kind, env: Env) { kind != Restart && env.file.Accepted? && env.hasAuths && !env.authOk }

  /** What the final report says: success, unstable, or failed in every other case. */
  ghost predicate ReportsTruly(kind: Kind, env: Env, last: Effect) {
    && last.Done?
    && var name := if kind == Restart then "restart" else if kind == Pull then "pull" else "deploy";
    && (last.status == "success" <==> AllWell(kind, env) && env.stability == Stable)
    && (last.status == "unstable" <==> AllWell(kind, env) && env.stability == Unstable)
    && (!AllWell(kind, env) ==> last.action == name + "_failed")
    && (!AllWell(kind, env) ==> last.status == if LoginFailed(kind, env) then "" else "failed")
    && (AllWell(kind, env) ==> last.action == name + if env.stability == Stable then "" else "_unstable")
  }

  predicate IsRun(e: Effect) { e.Run? }

  predicate IsSend(e: Effect) { e.Send? }

  /** The compose commands that are run: none before the checks passed, pull before up, restart alone. */
  function CommandsOf(kind: Kind, env: Env): seq<Effect> {
    if kind == Restart then [Run(ComposeRestart, env.runOk)]
    else if !env.file.Accepted? || (env.hasAuths && !env.authOk) then []
    else if kind != Pull then [Run(ComposeUp, env.runOk)]
    else if env.pullOk then [Run(ComposePull, true), Run(ComposeUp, env.runOk)]
    else [Run(ComposePull, false)]
  }

  /** A failed command is followed by the report alone. */
  ghost predicate StopsAtFailure(script: seq<Effect>) {
    forall i :: 0 <= i < |script| && script[i].Run? && !script[i].ok ==> i == |script| - 2
  }

  /** Stabilization is awaited right after the last command and only if it succeeded. */
  ghost predicate StabilizesAfterSuccess(kind: Kind, env: Env, script: seq<Effect>) {
    && (forall i :: 0 <= i < |script| && script[i].Stabilize? ==>
          i == |script| - 2 && i > 0 && script[i - 1].Run? && script[i - 1].ok && script[i] == Stabilize(env.stability))
    && (AllWell(kind, env) <==> |script| >= 2 && script[|script| - 2].Stabilize?)
  }

  lemma {:induction false} FilterHead(e: Effect, rest: seq<Effect>, p: Effect -> bool)
    ensures Filter([e] + rest, p) == (if p(e) then [e] else []) + Filter(rest, p)
  {
    assert ([e] + rest)[1..] == rest;
  }

  lemma {:induction false} FilterNone(es: seq<Effect>, p: Effect -> bool)
    requires forall i :: 0 <= i < |es| ==> !p(es[i])
    ensures Filter(es, p) == []
  {
    if es != [] { FilterNone(es[1..], p); }
  }

  lemma {:induction false} FilterAll(es: seq<Effect>, p: Effect -> bool)
    requires forall i :: 0 <= i < |es| ==> p(es[i])
    ensures Filter(es, p) == es
  {
    if es != [] {
      FilterAll(es[1..], p);
      assert es == [es[0]] + es[1..];
    }
  }

  lemma {:induction false} RunsOfChecks(action: string, env: Env)
    ensures Filter(Checks(action, env), IsRun) == []
  {
    if !env.file.Accepted? { RefusedChecks(action, env); }
    FilterNone(Checks(action, env), IsRun);
  }

  lemma {:induction false} SendsOfChecks(action: string, env: Env)
    ensures Filter(Checks(action, env), IsSend) == Sends(RefusalLines(env.file))
  {
    if env.file.Accepted? {
      FilterNone(Checks(action, env), IsSend);
    } else {
      var lines, done := Sends(RefusalLines(env.file)), Done(action + "_failed", "failed");
      RefusedChecks(action, env);
      assert Checks(action, env) == [CheckFile(false)] + (lines + [done]);
      FilterHead(CheckFile(false), lines + [done], IsSend);
      FilterConcat(lines, [done], IsSend);
      FilterAll(lines, IsSend);
      FilterNone([done], IsSend);
    }
  }

  lemma {:induction false} RunsOfCommand(action: string, c: Command, ok: bool, stability: Stability)
    ensures Filter([Run(c, ok)] + Finish(action, ok, stability), IsRun) == [Run(c, ok)]
  {
    FilterHead(Run(c, ok), Finish(action, ok, stability), IsRun);
    FilterNone(Finish(action, ok, stability), IsRun);
  }

  lemma {:induction false} RunsAfterChecks(kind: Kind, env: Env)
    requires kind != Restart
    ensures Filter(AfterChecks(kind, env), IsRun) ==
      if kind != Pull then [Run(ComposeUp, env.runOk)]
      else if env.pullOk then [Run(ComposePull, true), Run(ComposeUp, env.runOk)] else [Run(ComposePull, false)]
  {
    RunsOfCommand(BaseAction(kind), ComposeUp, env.runOk, env.stability);
    if kind == Pull {
      if env.pullOk {
        FilterHead(Run(ComposePull, true), [Run(ComposeUp, env.runOk)] + Finish("pull", env.runOk, env.stability), IsRun);
      } else {
        FilterHead(Run(ComposePull, false), [Done("pull_failed", "failed")], IsRun);
        FilterNone([Done("pull_failed", "failed")], IsRun);
        assert [Run(ComposePull, false)] + [Done("pull_failed", "failed")] == AfterChecks(kind, env);
      }
    }
  }

  /** Every operation runs exactly the commands it should, in order. */
  lemma {:induction false} CommandsAreRun(kind: Kind, env: Env)
    ensures Filter(Script(kind, env), IsRun) == CommandsOf(kind, env)
  {
    if kind == Restart {
      RunsOfCommand("restart", ComposeRestart, env.runOk, env.stability);
    } else {
      var rest := if Passes(env) then AfterChecks(kind, env) else [];
      RunsOfChecks(BaseAction(kind), env);
      RunsAfterChecks(kind, env);
      FilterConcat(Checks(BaseAction(kind), env), rest, IsRun);
    }
  }

  lemma {:induction false} NoSendsAfterChecks(kind: Kind, env: Env)
    ensures Filter(AfterChecks(kind, env), IsSend) == [] && Filter([], IsSend) == []
  {
    FilterNone(AfterChecks(kind, env), IsSend);
  }

  /** The lines an operation itself sends are why its file was refused, in order. */
  lemma {:induction false} LinesAreComplaints(kind: Kind, env: Env)
    ensures Filter(Script(kind, env), IsSend) == if kind == Restart then [] else Sends(RefusalLines(env.file))
  {
    if kind == Restart {
      FilterNone(Script(kind, env), IsSend);
    } else {
      var rest := if Passes(env) then AfterChecks(kind, env) else [];
      SendsOfChecks(BaseAction(kind), env);
      NoSendsAfterChecks(kind, env);
      FilterConcat(Checks(BaseAction(kind), env), rest, IsSend);
    }
  }

  /** The words of a refusal: the read error, or one bullet for every broken rule, in order, between two fixed lines. */
  lemma {:induction false} RefusalNames(file: FileCheck)
    ensures var lines := RefusalLines(file);
      match file
      case Accepted => lines == []
      case Unreadable(error) => lines == ["Stopped before starting: compose file could not be read: " + error]
      case Breaks(rules) =>
        && |lines| == |rules| + 2
        && lines[0] == "Stopped before starting: the compose file breaks these security rules:"
        && (forall i :: 0 <= i < |rules| ==> lines[i + 1] == "  - " + rules[i])
        && lines[|rules| + 1] == "Fix the compose file and try again."
  {
  }

  /** The checks an operation makes: the file first and always, then the logins if there are any. */
  function ChecksOf(kind: Kind, env: Env): seq<Effect> {
    if kind == Restart then []
    else [CheckFile(env.file.Accepted?)] + if env.file.Accepted? && env.hasAuths then [WriteAuth(env.authOk)] else []
  }

  predicate IsCheck(e: Effect) { e.CheckFile? || e.WriteAuth? }

  lemma {:induction false} ChecksOfChecks(action: string, env: Env)
    ensures var checks := Checks(action, env);
      && checks != [] && checks[0] == CheckFile(env.file.Accepted?)
      && Filter(checks, IsCheck) == [checks[0]] + if env.file.Accepted? && env.hasAuths then [WriteAuth(env.authOk)] else []
  {
    if env.file.Accepted? {
      FilterHead(CheckFile(true), LoginEffects(action, env), IsCheck);
      LoginChecks(action, env);
    } else {
      RefusedChecksOnce(action, env, Sends(RefusalLines(env.file)) + [Done(action + "_failed", "failed")]);
    }
  }

  lemma {:induction false} RefusedChecksOnce(action: string, env: Env, rest: seq<Effect>)
    requires !env.file.Accepted? && rest == Sends(RefusalLines(env.file)) + [Done(action + "_failed", "failed")]
    ensures Checks(action, env) == [CheckFile(false)] + rest && Filter([CheckFile(false)] + rest, IsCheck) == [CheckFile(false)]
  {
    RefusedChecks(action, env);
    FilterHead(CheckFile(false), rest, IsCheck);
    FilterNone(rest, IsCheck);
  }

  lemma {:induction false} LoginChecks(action: string, env: Env)
    ensures Filter(LoginEffects(action, env), IsCheck) == if env.hasAuths then [WriteAuth(env.authOk)] else []
  {
    if env.hasAuths {
      var rest := if env.authOk then [] else [Done(action + "_failed", "")];
      FilterHead(WriteAuth(env.authOk), rest, IsCheck);
      FilterNone(rest, IsCheck);
      assert LoginEffects(action, env) == [WriteAuth(env.authOk)] + rest;
    }
  }

  /** Every operation but a restart checks its file before anything else, and makes exactly the checks it should. */
  lemma {:induction false} ChecksAreMade(kind: Kind, env: Env)
    ensures Filter(Script(kind, env), IsCheck) == ChecksOf(kind, env)
    ensures kind != Restart ==> Script(kind, env) != [] && Script(kind, env)[0] == CheckFile(env.file.Accepted?)
  {
    if kind == Restart {
      RestartChecksNothing(env);
    } else {
      var rest := if Passes(env) then AfterChecks(kind, env) else [];
      ChecksOfChecks(BaseAction(kind), env);
      NoChecksAfter(kind, env);
      FilterConcat(Checks(BaseAction(kind), env), rest, IsCheck);
    }
  }

  lemma {:induction false} RestartChecksNothing(env: Env)
    ensures Filter(Script(Restart, env), IsCheck) == []
  {
    FilterNone(Script(Restart, env), IsCheck);
  }

  lemma {:induction false} NoChecksAfter(kind: Kind, env: Env)
    ensures Filter(AfterChecks(kind, env), IsCheck) == [] && Filter([], IsCheck) == []
  {
    FilterNone(AfterChecks(kind, env), IsCheck);
  }

  lemma {:induction false} CommandReports(kind: Kind, env: Env)
    requires (AllWell(kind, env) <==> env.runOk) && !LoginFailed(kind, env)
    ensures var end := Finish(BaseAction(kind), env.runOk, env.stability); ReportsTruly(kind, env, end[|end| - 1])
  {
  }

  lemma {:induction false} ChecksReport(kind: Kind, env: Env)
    requires kind != Restart && !Passes(env)
    ensures var end := Checks(BaseAction(kind), env); end != [] && ReportsTruly(kind, env, end[|end| - 1])
  {
    if !env.file.Accepted? { RefusedChecks(BaseAction(kind), env); }
  }

  lemma {:induction false} AfterChecksReports(kind: Kind, env: Env)
    requires kind != Restart && Passes(env)
    ensures var end := AfterChecks(kind, env); end != [] && ReportsTruly(kind, env, end[|end| - 1])
  {
    if kind != Pull || env.pullOk { CommandReports(kind, env); }
  }

  /** In every case, the report at the end of an operation is true. */
  lemma {:induction false} ReportIsTrue(kind: Kind, env: Env)
    ensures Script(kind, env) != [] && ReportsTruly(kind, env, Script(kind, env)[|Script(kind, env)| - 1])
  {
    if kind == Restart {
      CommandReports(kind, env);
    } else if Passes(env) {
      AfterChecksReports(kind, env);
      LastOfBoth(Checks(BaseAction(kind), env), AfterChecks(kind, env));
    } else {
      ChecksReport(kind, env);
      assert Checks(BaseAction(kind), env) + [] == Checks(BaseAction(kind), env);
    }
  }

  lemma {:induction false} LastOfBoth(a: seq<Effect>, b: seq<Effect>)
    requires b != []
    ensures (a + b)[|a + b| - 1] == b[|b| - 1]
  {
  }

  /** Nothing is run after a failure, and stabilization follows success alone. */
  lemma {:induction false} FailureEndsIt(kind: Kind, env: Env)
    ensures StopsAtFailure(Script(kind, env)) && StabilizesAfterSuccess(kind, env, Script(kind, env))
  {
    if kind != Restart {
      var checks, rest := Checks(BaseAction(kind), env), if Passes(env) then AfterChecks(kind, env) else [];
      ChecksOnlyCheck(BaseAction(kind), env);
      TailOk(kind, env, rest);
      TailLifts(kind, env, checks, rest);
    }
  }

  lemma {:induction false} ChecksOnlyCheck(action: string, env: Env)
    ensures var checks := Checks(action, env); forall i :: 0 <= i < |checks| ==> !checks[i].Run? && !checks[i].Stabilize?
  {
    if !env.file.Accepted? { RefusedChecks(action, env); }
  }

  lemma {:induction false} TailOk(kind: Kind, env: Env, rest: seq<Effect>)
    requires kind != Restart && rest == if Passes(env) then AfterChecks(kind, env) else []
    ensures StopsAtFailure(rest) && StabilizesAfterSuccess(kind, env, rest)
  {
  }

  lemma {:induction false} TailLifts(kind: Kind, env: Env, checks: seq<Effect>, rest: seq<Effect>)
    requires forall i :: 0 <= i < |checks| ==> !checks[i].Run? && !checks[i].Stabilize?
    requires StopsAtFailure(rest) && StabilizesAfterSuccess(kind, env, rest)
    requires |rest| != 1
    ensures StopsAtFailure(checks + rest) && StabilizesAfterSuccess(kind, env, checks + rest)
  {
  }

  // ---- the tracker under its lock

  type Slug = string
  type OpId = nat
  type LogId = nat

  datatype Tables = Tables(flights: map<Slug, OpId>, logs: map<Slug, LogId>)

  class Tracker {
    var flights: map<Slug, OpId>
    var logs: map<Slug, LogId>
    var nextLog: LogId

    ghost function Abs(): Tables
      reads this
    {
      Tables(flights, logs)
    }

    constructor ()
      ensures Abs() == Tables(map[], map[]) && nextLog == 0
    {
      flights, logs, nextLog := map[], map[], 0;
    }

    method TrackWithLog(slug: Slug, op: OpId) returns (dl: Option<LogId>)
      modifies this
      ensures dl == if slug in old(logs) then None else Some(old(nextLog))
      ensures Abs() == if slug in old(logs) then old(Abs()) else Tracked(old(Abs()), slug, op, old(nextLog))
      ensures nextLog == if slug in old(logs) then old(nextLog) else old(nextLog) + 1
    {
      if slug in logs {
        return None;
      }
      flights := flights[slug := op];
      dl := Some(nextLog);
      logs := logs[slug := nextLog];
      nextLog := nextLog + 1;
    }

    method Cancel(slug: Slug) returns (op: Option<OpId>)
      modifies this
      ensures op == if slug in old(flights) then Some(old(flights)[slug]) else None
      ensures Abs() == Cancelled(old(Abs()), slug) && nextLog == old(nextLog)
    {
      if slug !in flights {
        assert flights - {slug} == flights;
        return None;
      }
      op := Some(flights[slug]);
      flights := flights - {slug};
    }

    /** The locked part of Done; the caller closes the log it gets back. */
    method DoneWithLog(slug: Slug) returns (dl: Option<LogId>)
      modifies this
      ensures dl == if slug in old(logs) then Some(old(logs)[slug]) else None
      ensures Abs() == Released(old(Abs()), slug) && nextLog == old(nextLog)
    {
      dl := if slug in logs then Some(logs[slug]) else None;
      flights := flights - {slug};
      logs := logs - {slug};
    }
  }

  function Tracked(t: Tables, slug: Slug, op: OpId, log: LogId): Tables {
    Tables(t.flights[slug := op], t.logs[slug := log])
  }

  function Cancelled(t: Tables, slug: Slug): Tables { Tables(t.flights - {slug}, t.logs) }

  function Released(t: Tables, slug: Slug): Tables { Tables(t.flights - {slug}, t.logs - {slug}) }

  // ---- operations and cancels in any interleaving

  datatype Phase = Skipped | Working | Closing(dl: Option<LogId>) | Finished

  datatype Op = Op(slug: Slug, log: LogId, script: seq<Effect>, pos: nat, phase: Phase)

  datatype State = State(tables: Tables, ops: map<OpId, Op>, closedBy: map<LogId, OpId>, cancelled: set<OpId>, nextOp: OpId, nextLog: LogId)

  datatype Step =
    | Start(slug: Slug, kind: Kind, env: Env)
    | Act(op: OpId)
    | Release(op: OpId)
    | CloseLog(op: OpId)
    | Cancel(slug: Slug)

  predicate Enabled(s: State, step: Step) {
    match step
    case Start(_, _, _) => true
    case Act(o) => o in s.ops && s.ops[o].phase == Working && s.ops[o].pos < |s.ops[o].script| && !s.ops[o].script[s.ops[o].pos].Done?
    case Release(o) => o in s.ops && s.ops[o].phase == Working && s.ops[o].pos < |s.ops[o].script| && s.ops[o].script[s.ops[o].pos].Done?
    case CloseLog(o) => o in s.ops && s.ops[o].phase.Closing?
    case Cancel(slug) => slug in s.tables.flights
  }

  function Next(s: State, step: Step): State
    requires Enabled(s, step)
  {
    match step
    case Start(slug, kind, env) =>
      if slug in s.tables.logs then
        // A refused start gets no log; it uses up a number only to keep the numbers of operations distinct.
        s.(ops := s.ops[s.nextOp := Op(slug, s.nextLog, [], 0, Skipped)], nextOp := s.nextOp + 1, nextLog := s.nextLog + 1)
      else
        s.(tables := Tracked(s.tables, slug, s.nextOp, s.nextLog),
           ops := s.ops[s.nextOp := Op(slug, s.nextLog, Script(kind, env), 0, Working)],
           nextOp := s.nextOp + 1, nextLog := s.nextLog + 1)
    case Act(o) =>
      s.(ops := s.ops[o := s.ops[o].(pos := s.ops[o].pos + 1)])
    case Release(o) =>
      var op := s.ops[o];
      var dl := if op.slug in s.tables.logs then Some(s.tables.logs[op.slug]) else None;
      s.(tables := Released(s.tables, op.slug), ops := s.ops[o := op.(pos := op.pos + 1, phase := Closing(dl))])
    case CloseLog(o) =>
      var dl := s.ops[o].phase.dl;
      // Closing a log twice is a no-op, so only the first closer counts.
      s.(ops := s.ops[o := s.ops[o].(phase := Finished)],
         closedBy := if dl.Some? && dl.value !in s.closedBy then s.closedBy[dl.value := o] else s.closedBy)
    case Cancel(slug) =>
      s.(tables := Cancelled(s.tables, slug), cancelled := s.cancelled + {s.tables.flights[slug]})
  }

  const INITIAL := State(Tables(map[], map[]), map[], map[], {}, 0, 0)

  ghost predicate Reached(states: seq<State>, steps: seq<Step>) {
    && |states| == |steps| + 1
    && states[0] == INITIAL
    && forall i :: 0 <= i < |steps| ==> Enabled(states[i], steps[i]) && states[i + 1] == Next(states[i], steps[i])
  }

  /** One operation, seen against the tables. */
  ghost predicate OpInv(s: State, o: OpId, op: Op) {
    && o < s.nextOp && op.log < s.nextLog
    && match op.phase {
         case Skipped => true
         case Working => EndsOnce(op.script) && op.pos < |op.script| && op.slug in s.tables.logs && s.tables.logs[op.slug] == op.log
                         && op.log !in s.closedBy
         case Closing(dl) => EndsOnce(op.script) && op.pos == |op.script| && dl == Some(op.log) && op.log !in s.closedBy
         case Finished => EndsOnce(op.script) && op.pos == |op.script| && op.log in s.closedBy
       }
  }

  ghost predicate Holds(s: State, slug: Slug, o: OpId) {
    o in s.ops && s.ops[o].slug == slug && s.ops[o].phase == Working
  }

  ghost predicate OpsInv(s: State) { forall o :: o in s.ops ==> OpInv(s, o, s.ops[o]) }

  ghost predicate LogsAreOwn(s: State) {
    forall o, p :: o in s.ops && p in s.ops && s.ops[o].log == s.ops[p].log ==> o == p
  }

  ghost predicate BusyInv(s: State) { forall slug :: slug in s.tables.logs ==> exists o :: Holds(s, slug, o) }

  ghost predicate FlightsInv(s: State) {
    forall slug :: slug in s.tables.flights ==> Holds(s, slug, s.tables.flights[slug])
  }

  /** An operation in progress can be cancelled until it has been. */
  ghost predicate CancellableInv(s: State) {
    forall o :: o in s.ops && s.ops[o].phase == Working && o !in s.cancelled ==>
      s.ops[o].slug in s.tables.flights && s.tables.flights[s.ops[o].slug] == o
  }

  ghost predicate ClosedInv(s: State) {
    forall l :: l in s.closedBy ==> s.closedBy[l] in s.ops && s.ops[s.closedBy[l]].log == l && s.ops[s.closedBy[l]].phase == Finished
  }

  ghost predicate Inv(s: State) { OpsInv(s) && LogsAreOwn(s) && BusyInv(s) && FlightsInv(s) && CancellableInv(s) && ClosedInv(s) }

  lemma {:induction false} OneHolder(s: State, slug: Slug, o: OpId, p: OpId)
    requires OpsInv(s) && LogsAreOwn(s) && Holds(s, slug, o) && Holds(s, slug, p)
    ensures o == p
  {
    assert OpInv(s, o, s.ops[o]) && OpInv(s, p, s.ops[p]);
  }

  lemma {:induction false} StartKeepsOp(s: State, slug: Slug, kind: Kind, env: Env, o: OpId, script: seq<Effect>)
    requires OpsInv(s) && ClosedInv(s) && script == Script(kind, env) && EndsOnce(script)
    requires o in Next(s, Start(slug, kind, env)).ops
    ensures OpInv(Next(s, Start(slug, kind, env)), o, Next(s, Start(slug, kind, env)).ops[o])
  {
    if o in s.ops { assert OpInv(s, o, s.ops[o]); }
    assert forall l :: l in s.closedBy ==> OpInv(s, s.closedBy[l], s.ops[s.closedBy[l]]);
  }

  lemma {:induction false} OpKept(s: State, step: Step, o: OpId)
    requires OpsInv(s) && LogsAreOwn(s) && ClosedInv(s) && Enabled(s, step) && o in Next(s, step).ops
    ensures OpInv(Next(s, step), o, Next(s, step).ops[o])
  {
    assert o in s.ops ==> OpInv(s, o, s.ops[o]);
    match step
    case Start(slug, kind, env) =>
      EveryPathEndsOnce(kind, env);
      StartKeepsOp(s, slug, kind, env, o, Script(kind, env));
    case Release(p) =>
      assert OpInv(s, p, s.ops[p]);
      if o != p && Holds(s, s.ops[p].slug, o) {
        OneHolder(s, s.ops[p].slug, o, p);
      }
    case CloseLog(p) => assert OpInv(s, p, s.ops[p]);
    case _ =>
  }

  lemma {:induction false} LogsKept(s: State, step: Step)
    requires OpsInv(s) && LogsAreOwn(s) && Enabled(s, step)
    ensures LogsAreOwn(Next(s, step))
  {
    if step.Start? {
      assert forall o :: o in s.ops ==> OpInv(s, o, s.ops[o]);
    }
  }

  lemma {:induction false} HolderKept(s: State, step: Step, slug: Slug, o: OpId)
    requires OpsInv(s) && Enabled(s, step) && Holds(s, slug, o) && !(step.Release? && s.ops[step.op].slug == slug)
    ensures Holds(Next(s, step), slug, o)
  {
    assert OpInv(s, o, s.ops[o]);
  }

  lemma {:induction false} BusyKept(s: State, step: Step)
    requires OpsInv(s) && BusyInv(s) && Enabled(s, step)
    ensures BusyInv(Next(s, step))
  {
    var t := Next(s, step);
    forall slug | slug in t.tables.logs ensures exists o :: Holds(t, slug, o) {
      if slug in s.tables.logs {
        var o :| Holds(s, slug, o);
        HolderKept(s, step, slug, o);
      } else {
        assert Holds(t, slug, s.nextOp);
      }
    }
  }

  lemma {:induction false} FlightsKept(s: State, step: Step)
    requires OpsInv(s) && FlightsInv(s) && Enabled(s, step)
    ensures FlightsInv(Next(s, step))
  {
    var t := Next(s, step);
    forall slug | slug in t.tables.flights ensures Holds(t, slug, t.tables.flights[slug]) {
      if slug in s.tables.flights && t.tables.flights[slug] == s.tables.flights[slug] {
        HolderKept(s, step, slug, s.tables.flights[slug]);
      }
    }
  }

  lemma {:induction false} CancellableKept(s: State, step: Step)
    requires OpsInv(s) && LogsAreOwn(s) && FlightsInv(s) && CancellableInv(s) && Enabled(s, step)
    ensures CancellableInv(Next(s, step))
  {
    var t := Next(s, step);
    forall o | o in t.ops && t.ops[o].phase == Working && o !in t.cancelled
      ensures t.ops[o].slug in t.tables.flights && t.tables.flights[t.ops[o].slug] == o
    {
      CancellableStep(s, step, o);
    }
  }

  lemma {:induction false} CancellableStep(s: State, step: Step, o: OpId)
    requires OpsInv(s) && LogsAreOwn(s) && FlightsInv(s) && CancellableInv(s) && Enabled(s, step)
    requires var t := Next(s, step); o in t.ops && t.ops[o].phase == Working && o !in t.cancelled
    ensures var t := Next(s, step); t.ops[o].slug in t.tables.flights && t.tables.flights[t.ops[o].slug] == o
  {
    if o in s.ops {
      assert OpInv(s, o, s.ops[o]);
      match step
      case Release(p) =>
        assert OpInv(s, p, s.ops[p]);
        if s.ops[p].slug == s.ops[o].slug { OneHolder(s, s.ops[o].slug, o, p); }
      case _ =>
    }
  }

  lemma {:induction false} ClosedKept(s: State, step: Step)
    requires OpsInv(s) && ClosedInv(s) && Enabled(s, step)
    ensures ClosedInv(Next(s, step))
  {
    match step
    case Start(_, _, _) => assert forall o :: o in s.ops ==> OpInv(s, o, s.ops[o]);
    case CloseLog(p) => assert OpInv(s, p, s.ops[p]);
    case _ =>
  }

  lemma {:induction false} InvKept(s: State, step: Step)
    requires Inv(s) && Enabled(s, step)
    ensures Inv(Next(s, step))
  {
    forall o | o in Next(s, step).ops ensures OpInv(Next(s, step), o, Next(s, step).ops[o]) { OpKept(s, step, o); }
    LogsKept(s, step);
    BusyKept(s, step);
    FlightsKept(s, step);
    CancellableKept(s, step);
    ClosedKept(s, step);
  }

  lemma {:induction false} RunInv(states: seq<State>, steps: seq<Step>, i: nat)
    requires Reached(states, steps) && i < |states|
    ensures Inv(states[i])
  {
    if i > 0 {
      RunInv(states, steps, i - 1);
      InvKept(states[i - 1], steps[i - 1]);
    }
  }

  // ---- theorems over whole runs

  /** An operation is in progress from its accepted start to the moment Done gives the slug back. */
  ghost predicate InProgress(s: State, o: OpId) { o in s.ops && s.ops[o].phase == Working }

  /** At most one operation per app is in progress, however starts, effects, ends and cancels interleave. */
  lemma {:induction false} DeployExclusion(states: seq<State>, steps: seq<Step>, i: nat, o: OpId, p: OpId)
    requires Reached(states, steps) && i < |states|
    requires InProgress(states[i], o) && InProgress(states[i], p) && states[i].ops[o].slug == states[i].ops[p].slug
    ensures o == p
  {
    RunInv(states, steps, i);
    OneHolder(states[i], states[i].ops[o].slug, o, p);
  }

  /** A start is skipped exactly when another operation of the app is in progress; a cancelled one still counts. */
  lemma {:induction false} SkippedIffBusy(states: seq<State>, steps: seq<Step>, i: nat, slug: Slug)
    requires Reached(states, steps) && i < |states|
    ensures slug in states[i].tables.logs <==> exists o :: InProgress(states[i], o) && states[i].ops[o].slug == slug
  {
    RunInv(states, steps, i);
    var s := states[i];
    if slug in s.tables.logs {
      var o :| Holds(s, slug, o);
      assert InProgress(s, o);
    }
    forall o | InProgress(s, o) && s.ops[o].slug == slug ensures slug in s.tables.logs {
      assert OpInv(s, o, s.ops[o]);
    }
  }

  /** What a start leaves: a refused one no trace in the tables, an accepted one its whole script ahead and a log of its own. */
  ghost predicate Starts(s: State, slug: Slug, kind: Kind, env: Env) {
    var o, t := s.nextOp, Next(s, Start(slug, kind, env));
    && o !in s.ops && o in t.ops && t.ops[o].slug == slug
    && if exists p :: InProgress(s, p) && s.ops[p].slug == slug then
         t.ops[o].phase == Skipped && t.tables == s.tables
       else
         && t.ops[o] == Op(slug, t.ops[o].log, Script(kind, env), 0, Working)
         && t.tables == Tables(s.tables.flights[slug := o], s.tables.logs[slug := t.ops[o].log])
         && forall p :: p in s.ops ==> s.ops[p].log != t.ops[o].log
  }

  lemma {:induction false} StartOutcome(states: seq<State>, steps: seq<Step>, i: nat, slug: Slug, kind: Kind, env: Env)
    requires Reached(states, steps) && i < |states|
    ensures Starts(states[i], slug, kind, env)
  {
    RunInv(states, steps, i);
    SkippedIffBusy(states, steps, i, slug);
    var s := states[i];
    forall p | p in s.ops ensures p < s.nextOp && s.ops[p].log < s.nextLog { assert OpInv(s, p, s.ops[p]); }
  }

  /** A cancel reaches the operation in progress of that app and no other. */
  lemma {:induction false} CancelHitsCurrent(states: seq<State>, steps: seq<Step>, i: nat, slug: Slug)
    requires Reached(states, steps) && i < |states| && slug in states[i].tables.flights
    ensures var o := states[i].tables.flights[slug]; InProgress(states[i], o) && states[i].ops[o].slug == slug
  {
    RunInv(states, steps, i);
    assert Holds(states[i], slug, states[i].tables.flights[slug]);
  }

  /** An operation in progress that was not cancelled is the one a cancel would reach; a cancel is remembered. */
  lemma {:induction false} CancellableUntilCancelled(states: seq<State>, steps: seq<Step>, i: nat, o: OpId)
    requires Reached(states, steps) && i < |states| && InProgress(states[i], o) && o !in states[i].cancelled
    ensures var s := states[i]; var slug := s.ops[o].slug;
      && slug in s.tables.flights && s.tables.flights[slug] == o && Enabled(s, Cancel(slug))
      && var t := Next(s, Cancel(slug)); o in t.cancelled && slug !in t.tables.flights && slug in t.tables.logs && InProgress(t, o)
  {
    RunInv(states, steps, i);
    assert OpInv(states[i], o, states[i].ops[o]);
  }

  /** A log is closed by the operation it belongs to, after that operation ran its whole script. */
  lemma {:induction false} LogClosedByItsOwner(states: seq<State>, steps: seq<Step>, i: nat, log: LogId)
    requires Reached(states, steps) && i < |states| && log in states[i].closedBy
    ensures var o := states[i].closedBy[log];
            && o in states[i].ops && states[i].ops[o].log == log && states[i].ops[o].phase == Finished
            && EndsOnce(states[i].ops[o].script) && states[i].ops[o].pos == |states[i].ops[o].script|
  {
    RunInv(states, steps, i);
    var o := states[i].closedBy[log];
    assert OpInv(states[i], o, states[i].ops[o]);
  }

  /** An accepted operation that is over has closed its log; one in progress has not, and can always go on. */
  lemma {:induction false} AcceptedReachesDone(states: seq<State>, steps: seq<Step>, i: nat, o: OpId)
    requires Reached(states, steps) && i < |states| && o in states[i].ops
    ensures var op := states[i].ops[o];
            match op.phase
            case Skipped => true
            case Working => op.log !in states[i].closedBy && (Enabled(states[i], Act(o)) || Enabled(states[i], Release(o)))
            case Closing(dl) => dl == Some(op.log) && op.log !in states[i].closedBy && Enabled(states[i], CloseLog(o))
            case Finished => op.log in states[i].closedBy && states[i].closedBy[op.log] == o
  {
    RunInv(states, steps, i);
    var s := states[i];
    assert OpInv(s, o, s.ops[o]);
  }

  /** How much an operation still has to do; every step of its own brings it down. */
  function Remaining(op: Op): nat {
    match op.phase
    case Skipped => 0
    case Working => if op.pos < |op.script| then 1 + |op.script| - op.pos else 1
    case Closing(_) => 1
    case Finished => 0
  }

  /** Own steps bring an operation closer to its end, and no step of anything else moves it. */
  lemma {:induction false} OnlyOwnStepsMove(s: State, step: Step, o: OpId)
    requires Inv(s) && Enabled(s, step) && o in s.ops
    ensures o in Next(s, step).ops
    ensures var own := (step.Act? && step.op == o) || (step.Release? && step.op == o) || (step.CloseLog? && step.op == o);
            if own then Remaining(Next(s, step).ops[o]) == Remaining(s.ops[o]) - 1 else Next(s, step).ops[o] == s.ops[o]
  {
    assert OpInv(s, o, s.ops[o]);
  }
}
