/**
 * Backup and restore runs: pre-hooks, the strategy, the target and post-hooks,
 * with every early exit. Post-hooks undo pre-hooks (they restart what was
 * stopped), so the point is which hooks run on which exit.
 */
module BackupPipeline {
  import opened Prelude

  datatype HookType = Stop | Start | FlushRedis | FlushMySQL | Exec | UnknownType(name: string)

  datatype Hook = Hook(typ: HookType, service: string, command: string)

  datatype Phase = Pre | Post

  /** One hook that was attempted, at its position in the list of its phase. */
  datatype Attempt = Attempt(phase: Phase, index: nat, hook: Hook, ok: bool)

  /** How the container actions of a run turn out, and what a failed stop or start leaves behind. */
  datatype Executor = Executor(succeeds: (Phase, nat) -> bool, leavesRunning: (Phase, nat) -> bool)

  function Execute(x: Executor, phase: Phase, index: nat, h: Hook): Attempt {
    Attempt(phase, index, h,
            match h.typ
            case Stop | Start | FlushRedis | FlushMySQL => x.succeeds(phase, index)
            case Exec => h.command != "" && x.succeeds(phase, index)
            case UnknownType(_) => false)
  }

  /** Pre-hooks stop at the first failure. */
  function PreAttempts(x: Executor, hooks: seq<Hook>, from: nat): seq<Attempt>
    requires from <= |hooks|
    decreases |hooks| - from
  {
    if from == |hooks| then []
    else
      var a := Execute(x, Pre, from, hooks[from]);
      if a.ok then [a] + PreAttempts(x, hooks, from + 1) else [a]
  }

  predicate PreFails(x: Executor, hooks: seq<Hook>) {
    exists i :: 0 <= i < |hooks| && !Execute(x, Pre, i, hooks[i]).ok
  }

  /** Post-hooks run to the last, whatever fails. */
  function PostAttempts(x: Executor, hooks: seq<Hook>): seq<Attempt> {
    if hooks == [] then []
    else PostAttempts(x, hooks[..|hooks| - 1]) + [Execute(x, Post, |hooks| - 1, hooks[|hooks| - 1])]
  }

  datatype Event =
    | Hooked(attempt: Attempt)
    | Backed(ok: bool)
    | Uploaded(ok: bool)
    | Downloaded(ok: bool)
    | Staged(ok: bool)
    | Verified(ok: bool)
    | Restored(ok: bool)

  function Hooks(as': seq<Attempt>): seq<Event> {
    seq(|as'|, i requires 0 <= i < |as'| => Hooked(as'[i]))
  }

  datatype BackupEnv = BackupEnv(x: Executor, backs: bool, uploads: bool)

  datatype RestoreEnv = RestoreEnv(x: Executor, downloads: bool, checksum: bool, spools: bool, stages: bool, matches: bool, restores: bool)

  datatype Outcome = Success | PreHookFailed | BackupFailed | UploadFailed | DownloadFailed | ChecksumMismatch | RestoreFailed

  class Pipeline {
    const hasHooks: bool
    var trace: seq<Event>

    constructor (hasHooks: bool)
      ensures this.hasHooks == hasHooks && trace == []
    {
      this.hasHooks := hasHooks;
      trace := [];
    }

    method RunPre(x: Executor, hooks: seq<Hook>) returns (ok: bool)
      modifies this`trace
      ensures trace == old(trace) + Hooks(PreAttempts(x, hooks, 0))
      ensures ok <==> !PreFails(x, hooks)
    {
      var i := 0;
      while i < |hooks|
        invariant 0 <= i <= |hooks|
        invariant trace + Hooks(PreAttempts(x, hooks, i)) == old(trace) + Hooks(PreAttempts(x, hooks, 0))
        invariant forall k :: 0 <= k < i ==> Execute(x, Pre, k, hooks[k]).ok
      {
        var a := Execute(x, Pre, i, hooks[i]);
        ghost var rest := PreAttempts(x, hooks, i);
        assert Hooks(rest) == [Hooked(a)] + Hooks(rest[1..]);
        trace := trace + [Hooked(a)];
        if !a.ok {
          assert Hooks(rest[1..]) == [];
          return false;
        }
        i := i + 1;
      }
      assert Hooks(PreAttempts(x, hooks, |hooks|)) == [];
      return true;
    }

    method RunPost(x: Executor, hooks: seq<Hook>)
      modifies this`trace
      ensures trace == old(trace) + if hasHooks then Hooks(PostAttempts(x, hooks)) else []
    {
      if !hasHooks {
        return;
      }
      var i := 0;
      while i < |hooks|
        invariant 0 <= i <= |hooks|
        invariant trace == old(trace) + Hooks(PostAttempts(x, hooks[..i]))
      {
        assert hooks[..i + 1][..i] == hooks[..i];
        var a := Execute(x, Post, i, hooks[i]);
        assert Hooks(PostAttempts(x, hooks[..i + 1])) == Hooks(PostAttempts(x, hooks[..i])) + [Hooked(a)];
        trace := trace + [Hooked(a)];
        i := i + 1;
      }
      assert hooks[..|hooks|] == hooks;
    }

    method RunBackup(env: BackupEnv, pre: seq<Hook>, post: seq<Hook>) returns (r: Outcome)
      modifies this`trace
      ensures (r, trace) == (BackupRun(hasHooks, env, pre, post).0, old(trace) + BackupRun(hasHooks, env, pre, post).1)
    {
      ghost var before, after := PreEvents(hasHooks, env.x, pre), PostEvents(hasHooks, env.x, post);
      if hasHooks && |pre| > 0 {
        var ok := RunPre(env.x, pre);
        if !ok {
          RunPost(env.x, post);
          assert trace == old(trace) + (before + after);
          return PreHookFailed;
        }
      }
      assert trace == old(trace) + before;
      trace := trace + [Backed(env.backs)];
      if !env.backs {
        RunPost(env.x, post);
        assert trace == old(trace) + (before + [Backed(false)] + after);
        return BackupFailed;
      }
      trace := trace + [Uploaded(env.uploads)];
      RunPost(env.x, post);
      assert trace == old(trace) + (before + [Backed(true)] + [Uploaded(env.uploads)] + after);
      return if env.uploads then Success else UploadFailed;
    }

    method RunRestore(env: RestoreEnv, pre: seq<Hook>, post: seq<Hook>) returns (r: Outcome)
      modifies this`trace
      ensures (r, trace) == (RestoreRun(hasHooks, env, pre, post).0, old(trace) + RestoreRun(hasHooks, env, pre, post).1)
    {
      r := FetchArchive(env);
      if r == Success {
        r := UnpackArchive(env, pre, post);
        Regroup(old(trace), Fetch(env).1, Unpack(hasHooks, env, pre, post).1);
      }
    }

    /** Hooks around the strategy, once the archive may be used. */
    method UnpackArchive(env: RestoreEnv, pre: seq<Hook>, post: seq<Hook>) returns (r: Outcome)
      modifies this`trace
      ensures (r, trace) == (Unpack(hasHooks, env, pre, post).0, old(trace) + Unpack(hasHooks, env, pre, post).1)
    {
      ghost var before, after := PreEvents(hasHooks, env.x, pre), PostEvents(hasHooks, env.x, post);
      if hasHooks && |pre| > 0 {
        var ok := RunPre(env.x, pre);
        if !ok {
          RunPost(env.x, post);
          assert trace == old(trace) + (before + after);
          return PreHookFailed;
        }
      }
      assert trace == old(trace) + before;
      trace := trace + [Restored(env.restores)];
      RunPost(env.x, post);
      assert trace == old(trace) + (before + [Restored(env.restores)] + after);
      return if env.restores then Success else RestoreFailed;
    }

    /** Download, and with a checksum stage and verify; `Success` means the archive may be used. */
    method FetchArchive(env: RestoreEnv) returns (r: Outcome)
      modifies this`trace
      ensures trace == old(trace) + Fetch(env).1
      ensures r == if Fetch(env).0.Some? then Fetch(env).0.value else Success
      ensures r == Success <==> Fetch(env).0.None?
    {
      trace := trace + [Downloaded(env.downloads)];
      if !env.downloads {
        return DownloadFailed;
      }
      if !env.checksum {
        return Success;
      }
      if !env.spools {
        return DownloadFailed;
      }
      trace := trace + [Staged(env.stages)];
      if !env.stages {
        return DownloadFailed;
      }
      trace := trace + [Verified(env.matches)];
      return if env.matches then Success else ChecksumMismatch;
    }
  }

  // ---- what a run leaves in the trace

  function PreEvents(hasHooks: bool, x: Executor, pre: seq<Hook>): seq<Event> {
    if hasHooks && |pre| > 0 then Hooks(PreAttempts(x, pre, 0)) else []
  }

  function PostEvents(hasHooks: bool, x: Executor, post: seq<Hook>): seq<Event> {
    if hasHooks then Hooks(PostAttempts(x, post)) else []
  }

  function BackupRun(hasHooks: bool, env: BackupEnv, pre: seq<Hook>, post: seq<Hook>): (Outcome, seq<Event>) {
    var before, after := PreEvents(hasHooks, env.x, pre), PostEvents(hasHooks, env.x, post);
    if hasHooks && |pre| > 0 && PreFails(env.x, pre) then (PreHookFailed, before + after)
    else if !env.backs then (BackupFailed, before + [Backed(false)] + after)
    else if !env.uploads then (UploadFailed, before + [Backed(true)] + [Uploaded(false)] + after)
    else (Success, before + [Backed(true)] + [Uploaded(true)] + after)
  }

  /** What happens before any hook of a restore, and the error that stops it there. */
  function Fetch(env: RestoreEnv): (Option<Outcome>, seq<Event>) {
    if !env.downloads then (Some(DownloadFailed), [Downloaded(false)])
    else if !env.checksum then (None, [Downloaded(true)])
    else if !env.spools then (Some(DownloadFailed), [Downloaded(true)])
    else if !env.stages then (Some(DownloadFailed), [Downloaded(true), Staged(false)])
    else if !env.matches then (Some(ChecksumMismatch), [Downloaded(true), Staged(true), Verified(false)])
    else (None, [Downloaded(true), Staged(true), Verified(true)])
  }

  function Unpack(hasHooks: bool, env: RestoreEnv, pre: seq<Hook>, post: seq<Hook>): (Outcome, seq<Event>) {
    var before, after := PreEvents(hasHooks, env.x, pre), PostEvents(hasHooks, env.x, post);
    if hasHooks && |pre| > 0 && PreFails(env.x, pre) then (PreHookFailed, before + after)
    else (if env.restores then Success else RestoreFailed, before + [Restored(env.restores)] + after)
  }

  function RestoreRun(hasHooks: bool, env: RestoreEnv, pre: seq<Hook>, post: seq<Hook>): (Outcome, seq<Event>) {
    var fetch, unpack := Fetch(env), Unpack(hasHooks, env, pre, post);
    if fetch.0.Some? then (fetch.0.value, fetch.1) else (unpack.0, fetch.1 + unpack.1)
  }

  lemma {:induction false} Regroup(a: seq<Event>, b: seq<Event>, c: seq<Event>)
    ensures a + b + c == a + (b + c)
  {
  }

  /** The hooks of a trace, in order. */
  function Attempts(t: seq<Event>): seq<Attempt> {
    if t == [] then []
    else (if t[0].Hooked? then [t[0].attempt] else []) + Attempts(t[1..])
  }

  lemma {:induction false} AttemptsConcat(a: seq<Event>, b: seq<Event>)
    ensures Attempts(a + b) == Attempts(a) + Attempts(b)
  {
    if a == [] {
      assert a + b == b;
    } else {
      assert (a + b)[1..] == a[1..] + b && (a + b)[0] == a[0];
      AttemptsConcat(a[1..], b);
    }
  }

  lemma {:induction false} AttemptsOfHooks(as': seq<Attempt>)
    ensures Attempts(Hooks(as')) == as'
  {
    if as' != [] {
      assert Hooks(as')[1..] == Hooks(as'[1..]);
      AttemptsOfHooks(as'[1..]);
    }
  }

  lemma {:induction false} NoAttempts(t: seq<Event>)
    requires forall i :: 0 <= i < |t| ==> !t[i].Hooked?
    ensures Attempts(t) == []
  {
    if t != [] {
      NoAttempts(t[1..]);
    }
  }

  /** Pre-hooks were attempted in order up to the first failure, every post-hook exactly once, in order. */
  ghost predicate Disciplined(as': seq<Attempt>, x: Executor, pre: seq<Hook>, post: seq<Hook>) {
    exists k: nat :: DisciplinedAt(as', x, pre, post, k)
  }

  ghost predicate DisciplinedAt(as': seq<Attempt>, x: Executor, pre: seq<Hook>, post: seq<Hook>, k: nat) {
    && k <= |pre| && |as'| == k + |post|
    && (forall i :: 0 <= i < k ==> as'[i] == Execute(x, Pre, i, pre[i]))
    && (forall i :: 0 <= i < k - 1 ==> as'[i].ok)
    && (k < |pre| ==> 0 < k && !as'[k - 1].ok)
    && (forall i :: 0 <= i < |post| ==> as'[k + i] == Execute(x, Post, i, post[i]))
  }

  ghost predicate PreShape(p: seq<Attempt>, x: Executor, hooks: seq<Hook>, from: nat)
    requires from <= |hooks|
  {
    && |p| <= |hooks| - from
    && (forall i :: 0 <= i < |p| ==> p[i] == Execute(x, Pre, from + i, hooks[from + i]))
    && (forall i :: 0 <= i < |p| - 1 ==> p[i].ok)
    && (|p| < |hooks| - from ==> 0 < |p| && !p[|p| - 1].ok)
  }

  ghost predicate PostShape(q: seq<Attempt>, x: Executor, hooks: seq<Hook>) {
    && |q| == |hooks|
    && (forall i :: 0 <= i < |hooks| ==> q[i] == Execute(x, Post, i, hooks[i]))
  }

  lemma {:induction false} PreAttemptsShape(x: Executor, hooks: seq<Hook>, from: nat)
    requires from <= |hooks|
    ensures PreShape(PreAttempts(x, hooks, from), x, hooks, from)
    decreases |hooks| - from
  {
    if from < |hooks| {
      PreAttemptsShape(x, hooks, from + 1);
    }
  }

  lemma {:induction false} PostAttemptsShape(x: Executor, hooks: seq<Hook>)
    ensures PostShape(PostAttempts(x, hooks), x, hooks)
  {
    if hooks != [] {
      PostAttemptsShape(x, hooks[..|hooks| - 1]);
    }
  }

  lemma {:induction false} Appended(p: seq<Attempt>, q: seq<Attempt>, x: Executor, pre: seq<Hook>, post: seq<Hook>)
    requires PreShape(p, x, pre, 0) && PostShape(q, x, post)
    ensures Disciplined(p + q, x, pre, post)
  {
    assert DisciplinedAt(p + q, x, pre, post, |p|);
  }

  lemma {:induction false} PreThenPost(x: Executor, pre: seq<Hook>, post: seq<Hook>)
    ensures Disciplined(PreAttempts(x, pre, 0) + PostAttempts(x, post), x, pre, post)
  {
    var p, q := PreAttempts(x, pre, 0), PostAttempts(x, post);
    assert PreShape(p, x, pre, 0) by { PreAttemptsShape(x, pre, 0); }
    assert PostShape(q, x, post) by { PostAttemptsShape(x, post); }
    Appended(p, q, x, pre, post);
  }

  /** Steps other than hooks leave the hooks of a trace alone. */
  lemma {:induction false} Sandwich(fetch: seq<Event>, before: seq<Event>, middle: seq<Event>, after: seq<Event>)
    requires forall i :: 0 <= i < |fetch| ==> !fetch[i].Hooked?
    requires forall i :: 0 <= i < |middle| ==> !middle[i].Hooked?
    ensures Attempts(fetch + before + middle + after) == Attempts(before) + Attempts(after)
  {
    AttemptsConcat(fetch + before + middle, after);
    AttemptsConcat(fetch + before, middle);
    AttemptsConcat(fetch, before);
    NoAttempts(fetch);
    NoAttempts(middle);
  }

  lemma {:induction false} AttemptsOfPhases(x: Executor, pre: seq<Hook>, post: seq<Hook>)
    ensures Attempts(PreEvents(true, x, pre)) == PreAttempts(x, pre, 0)
    ensures Attempts(PostEvents(true, x, post)) == PostAttempts(x, post)
  {
    AttemptsOfHooks(PreAttempts(x, pre, 0));
    AttemptsOfHooks(PostAttempts(x, post));
  }

  /** A backup run is disciplined on every exit. */
  lemma {:induction false} BackupHooks(env: BackupEnv, pre: seq<Hook>, post: seq<Hook>)
    ensures Attempts(BackupRun(true, env, pre, post).1) == PreAttempts(env.x, pre, 0) + PostAttempts(env.x, post)
    ensures Disciplined(Attempts(BackupRun(true, env, pre, post).1), env.x, pre, post)
  {
    var before, after := PreEvents(true, env.x, pre), PostEvents(true, env.x, post);
    var middle := if |pre| > 0 && PreFails(env.x, pre) then []
                  else if !env.backs then [Backed(false)]
                  else [Backed(true), Uploaded(env.uploads)];
    assert BackupRun(true, env, pre, post).1 == [] + before + middle + after;
    Sandwich([], before, middle, after);
    AttemptsOfPhases(env.x, pre, post);
    PreThenPost(env.x, pre, post);
  }

  /** A restore that fails to download or verify touches nothing; any other exit is disciplined. */
  lemma {:induction false} RestoreHooks(env: RestoreEnv, pre: seq<Hook>, post: seq<Hook>)
    ensures var run := RestoreRun(true, env, pre, post).1;
            if Fetch(env).0.Some? then
              Attempts(run) == [] && forall i :: 0 <= i < |run| ==> !run[i].Restored?
            else
              && Attempts(run) == PreAttempts(env.x, pre, 0) + PostAttempts(env.x, post)
              && Disciplined(Attempts(run), env.x, pre, post)
  {
    var before, after := PreEvents(true, env.x, pre), PostEvents(true, env.x, post);
    var fetch, run := Fetch(env), RestoreRun(true, env, pre, post).1;
    if fetch.0.Some? {
      NoAttempts(run);
    } else {
      var middle := if |pre| > 0 && PreFails(env.x, pre) then [] else [Restored(env.restores)];
      assert run == fetch.1 + before + middle + after;
      Sandwich(fetch.1, before, middle, after);
      AttemptsOfPhases(env.x, pre, post);
      PreThenPost(env.x, pre, post);
    }
  }

  // ---- outcomes, and what is done between the hooks

  predicate HooksPass(hasHooks: bool, x: Executor, pre: seq<Hook>) {
    !hasHooks || forall i :: 0 <= i < |pre| ==> Execute(x, Pre, i, pre[i]).ok
  }

  /** A hook succeeds exactly when its action does, and never without a command to run or with an unknown type. */
  lemma {:induction false} HookSucceeds(x: Executor, phase: Phase, i: nat, h: Hook)
    ensures Execute(x, phase, i, h).ok <==> x.succeeds(phase, i) && !h.typ.UnknownType? && (h.typ == Exec ==> h.command != "")
  {
  }

  predicate IsStep(e: Event) { !e.Hooked? }

  lemma {:induction false} StepsOfHooks(as': seq<Attempt>)
    ensures Filter(Hooks(as'), IsStep) == []
  {
    if as' != [] {
      assert Hooks(as')[1..] == Hooks(as'[1..]);
      StepsOfHooks(as'[1..]);
    }
  }

  lemma {:induction false} AllSteps(es: seq<Event>)
    requires forall i :: 0 <= i < |es| ==> IsStep(es[i])
    ensures Filter(es, IsStep) == es
  {
    if es != [] {
      AllSteps(es[1..]);
      assert es == [es[0]] + es[1..];
    }
  }

  lemma {:induction false} StepsBetween(before: seq<Event>, middle: seq<Event>, after: seq<Event>)
    requires Filter(before, IsStep) == [] && Filter(after, IsStep) == [] && forall i :: 0 <= i < |middle| ==> IsStep(middle[i])
    ensures Filter(before + middle + after, IsStep) == middle
  {
    FilterConcat(before + middle, after, IsStep);
    FilterConcat(before, middle, IsStep);
    AllSteps(middle);
  }

  lemma {:induction false} PhasesHaveNoSteps(hasHooks: bool, x: Executor, pre: seq<Hook>, post: seq<Hook>)
    ensures Filter(PreEvents(hasHooks, x, pre), IsStep) == [] && Filter(PostEvents(hasHooks, x, post), IsStep) == []
  {
    StepsOfHooks(PreAttempts(x, pre, 0));
    StepsOfHooks(PostAttempts(x, post));
  }

  /** Nothing is backed up after a failed pre-hook and nothing uploaded after a failed backup. */
  function BackupSteps(passed: bool, env: BackupEnv): seq<Event> {
    if !passed then [] else if !env.backs then [Backed(false)] else [Backed(true), Uploaded(env.uploads)]
  }

  /** A backup succeeds exactly when every step did; its error names the step that failed; nothing runs after that but post-hooks. */
  lemma {:induction false} BackupOutcome(hasHooks: bool, env: BackupEnv, pre: seq<Hook>, post: seq<Hook>)
    ensures var (r, run) := BackupRun(hasHooks, env, pre, post);
      var passed := HooksPass(hasHooks, env.x, pre);
      && (r == Success <==> passed && env.backs && env.uploads)
      && (r == PreHookFailed <==> !passed) && (r == BackupFailed <==> passed && !env.backs)
      && (r == UploadFailed <==> passed && env.backs && !env.uploads)
      && Filter(run, IsStep) == BackupSteps(passed, env)
      && run == PreEvents(hasHooks, env.x, pre) + BackupSteps(passed, env) + PostEvents(hasHooks, env.x, post)
  {
    var before, after := PreEvents(hasHooks, env.x, pre), PostEvents(hasHooks, env.x, post);
    var middle := BackupSteps(HooksPass(hasHooks, env.x, pre), env);
    assert BackupRun(hasHooks, env, pre, post).1 == before + middle + after;
    PhasesHaveNoSteps(hasHooks, env.x, pre, post);
    StepsBetween(before, middle, after);
  }

  /** The archive may be used: it was downloaded and, given a checksum, spooled, read to its end and found to match. */
  predicate Usable(env: RestoreEnv) { env.downloads && (env.checksum ==> env.spools && env.stages && env.matches) }

  /** A restore succeeds exactly when every step did, and its error names the step that failed. */
  lemma {:induction false} RestoreOutcome(hasHooks: bool, env: RestoreEnv, pre: seq<Hook>, post: seq<Hook>)
    ensures var r, passed := RestoreRun(hasHooks, env, pre, post).0, HooksPass(hasHooks, env.x, pre);
      && (r == Success <==> Usable(env) && passed && env.restores)
      && (r == ChecksumMismatch <==> env.downloads && env.checksum && env.spools && env.stages && !env.matches)
      && (r == DownloadFailed <==> !env.downloads || (env.checksum && !(env.spools && env.stages)))
      && (r == PreHookFailed <==> Usable(env) && !passed) && (r == RestoreFailed <==> Usable(env) && passed && !env.restores)
  {
  }

  lemma {:induction false} FetchSteps(env: RestoreEnv)
    ensures Fetch(env).0.None? <==> Usable(env)
    ensures forall i :: 0 <= i < |Fetch(env).1| ==> IsStep(Fetch(env).1[i]) && !Fetch(env).1[i].Restored?
  {
  }

  /** Each step before the hooks happens exactly when the one before it went well, and is recorded as it went. */
  lemma {:induction false} FetchIsRecorded(env: RestoreEnv)
    ensures var t, staged := Fetch(env).1, env.downloads && env.checksum && env.spools;
      && 1 <= |t| <= 3 && t[0] == Downloaded(env.downloads)
      && (|t| >= 2 <==> staged) && (|t| >= 2 ==> t[1] == Staged(env.stages))
      && (|t| == 3 <==> staged && env.stages) && (|t| == 3 ==> t[2] == Verified(env.matches))
  {
  }

  /** Without an executor no hook runs, before or after a backup or a restore. */
  lemma {:induction false} NoExecutorNoHooks(backup: BackupEnv, restore: RestoreEnv, pre: seq<Hook>, post: seq<Hook>)
    ensures Attempts(BackupRun(false, backup, pre, post).1) == [] && Attempts(RestoreRun(false, restore, pre, post).1) == []
  {
    NoAttempts(BackupRun(false, backup, pre, post).1);
    NoAttempts(RestoreRun(false, restore, pre, post).1);
  }

  function RestoreSteps(hasHooks: bool, env: RestoreEnv, pre: seq<Hook>): seq<Event> {
    if HooksPass(hasHooks, env.x, pre) then [Restored(env.restores)] else []
  }

  /** Nothing is restored before the archive is usable or after a failed pre-hook, and hooks stand around the restore alone. */
  lemma {:induction false} RestoreInOrder(hasHooks: bool, env: RestoreEnv, pre: seq<Hook>, post: seq<Hook>)
    ensures var run, steps := RestoreRun(hasHooks, env, pre, post).1, RestoreSteps(hasHooks, env, pre);
      if Usable(env) then
        && Filter(run, IsStep) == Fetch(env).1 + steps
        && run == Fetch(env).1 + (PreEvents(hasHooks, env.x, pre) + steps + PostEvents(hasHooks, env.x, post))
      else run == Fetch(env).1 && Filter(run, IsStep) == run
  {
    var fetch, unpack, steps := Fetch(env).1, Unpack(hasHooks, env, pre, post).1, RestoreSteps(hasHooks, env, pre);
    FetchSteps(env);
    AllSteps(fetch);
    if Usable(env) {
      var before, after := PreEvents(hasHooks, env.x, pre), PostEvents(hasHooks, env.x, post);
      assert unpack == before + steps + after;
      PhasesHaveNoSteps(hasHooks, env.x, pre, post);
      StepsBetween(before, steps, after);
      FilterConcat(fetch, unpack, IsStep);
    }
  }

  // ---- what that means for the services

  function After(running: map<string, bool>, x: Executor, a: Attempt): map<string, bool> {
    match a.hook.typ
    case Stop => running[a.hook.service := !a.ok && x.leavesRunning(a.phase, a.index)]
    case Start => running[a.hook.service := a.ok || x.leavesRunning(a.phase, a.index)]
    case _ => running
  }

  function AfterAll(running: map<string, bool>, x: Executor, as': seq<Attempt>): map<string, bool> {
    if as' == [] then running
    else After(AfterAll(running, x, as'[..|as'| - 1]), x, as'[|as'| - 1])
  }

  predicate Switches(h: Hook, service: string) {
    (h.typ == Stop || h.typ == Start) && h.service == service
  }

  lemma {:induction false} LastSwitchWins(running: map<string, bool>, x: Executor, as': seq<Attempt>, i: nat, service: string)
    requires i < |as'| && as'[i].hook.typ == Start && as'[i].hook.service == service && as'[i].ok
    requires forall j :: i < j < |as'| ==> !Switches(as'[j].hook, service)
    ensures service in AfterAll(running, x, as') && AfterAll(running, x, as')[service]
  {
    if i < |as'| - 1 {
      LastSwitchWins(running, x, as'[..|as'| - 1], i, service);
    }
  }

  lemma {:induction false} PostStartWins(running: map<string, bool>, x: Executor, pre: seq<Hook>, post: seq<Hook>, i: nat, service: string)
    requires i < |post| && post[i].typ == Start && post[i].service == service && x.succeeds(Post, i)
    requires forall j :: i < j < |post| ==> !Switches(post[j], service)
    ensures var end := AfterAll(running, x, PreAttempts(x, pre, 0) + PostAttempts(x, post)); service in end && end[service]
  {
    PostAttemptsShape(x, post);
    var k := |PreAttempts(x, pre, 0)|;
    var as' := PreAttempts(x, pre, 0) + PostAttempts(x, post);
    assert forall j :: k <= j < |as'| ==> as'[j] == PostAttempts(x, post)[j - k];
    LastSwitchWins(running, x, as', k + i, service);
  }

  /** Whatever a backup stopped or failed at, a service whose last switching post-hook is a working start is up again. */
  lemma {:induction false} ServiceUpAfterBackup(running: map<string, bool>, env: BackupEnv, pre: seq<Hook>, post: seq<Hook>, i: nat, service: string)
    requires i < |post| && post[i].typ == Start && post[i].service == service && env.x.succeeds(Post, i)
    requires forall j :: i < j < |post| ==> !Switches(post[j], service)
    ensures var end := AfterAll(running, env.x, Attempts(BackupRun(true, env, pre, post).1)); service in end && end[service]
  {
    BackupHooks(env, pre, post);
    PostStartWins(running, env.x, pre, post, i, service);
  }

  /** The same after a restore; one that failed before its hooks left every service as it was. */
  lemma {:induction false} ServiceUpAfterRestore(running: map<string, bool>, env: RestoreEnv, pre: seq<Hook>, post: seq<Hook>, i: nat, service: string)
    requires i < |post| && post[i].typ == Start && post[i].service == service && env.x.succeeds(Post, i)
    requires forall j :: i < j < |post| ==> !Switches(post[j], service)
    ensures var end := AfterAll(running, env.x, Attempts(RestoreRun(true, env, pre, post).1));
            if Fetch(env).0.Some? then end == running else service in end && end[service]
  {
    RestoreHooks(env, pre, post);
    PostStartWins(running, env.x, pre, post, i, service);
  }
}
