/**
 * The process layer of apebuild.h: spawning a command (ape_run_cmd_async),
 * waiting for it (ape_proc_wait), running one command (ape_cmd_run_sync) and
 * a list of commands in order (ape_cmds_run). fork/execvp/waitpid are
 * replaced by `exec`, which gives the outcome the operating system reports
 * for a command.
 */
module Process {

  type Cmd = seq<string>

  /**
   * What happens to a spawned command: it exits with a status, it is killed
   * by a signal, or fork fails so that no child exists. A failing execvp in
   * the child is an exit with status 1.
   */
  datatype Outcome = Exited(code: int) | Signaled | SpawnFailed

  /** ApeProc: APE_INVALID_PROC, or a child whose outcome wait will report. */
  datatype Proc = InvalidProc | Child(outcome: Outcome)

  /**
   * ape_run_cmd_async: an empty command is refused with APE_INVALID_PROC
   * without spawning anything; a failed fork also gives APE_INVALID_PROC.
   */
  function RunCmdAsync(exec: Cmd -> Outcome, cmd: Cmd): (p: Proc)
    ensures cmd == [] ==> p == InvalidProc
    ensures p.Child? ==> p.outcome == exec(cmd) && !p.outcome.SpawnFailed?
  {
    if |cmd| < 1 then InvalidProc
    else if exec(cmd).SpawnFailed? then InvalidProc
    else Child(exec(cmd))
  }

  /** ape_proc_wait: 1 only for a child that exited with status 0. */
  function ProcWait(p: Proc): (ok: bool)
    ensures ok <==> p == Child(Exited(0))
  {
    match p
    case InvalidProc => false
    case Child(Exited(code)) => code == 0
    case Child(Signaled) => false
    case Child(SpawnFailed) => false
  }

  /**
   * ape_cmd_run_sync: spawn, then wait unless the spawn was refused. It
   * succeeds exactly when the command is non-empty and its process exits
   * with status 0.
   */
  function CmdRunSync(exec: Cmd -> Outcome, cmd: Cmd): (ok: bool)
    ensures ok <==> cmd != [] && exec(cmd) == Exited(0)
  {
    var p := RunCmdAsync(exec, cmd);
    if p == InvalidProc then false else ProcWait(p)
  }

  /** ape_cmd_run_sync as a test on commands. */
  function CmdSucceeds(exec: Cmd -> Outcome): Cmd -> bool
  {
    (c: Cmd) => CmdRunSync(exec, c)
  }

  /** What a run-in-order loop did: whether everything succeeded, and how many items it started. */
  datatype RunTrace = RunTrace(ok: bool, attempted: nat)

  /**
   * The loop shape of ape_cmds_run and ape_run: run the items in order and
   * stop at the first one that fails.
   */
  function RunInOrder<T>(succeeds: T -> bool, xs: seq<T>): (t: RunTrace)
    ensures t.attempted <= |xs|
  {
    if xs == [] then RunTrace(true, 0)
    else if !succeeds(xs[0]) then RunTrace(false, 1)
    else var t := RunInOrder(succeeds, xs[1..]); RunTrace(t.ok, t.attempted + 1)
  }

  /**
   * The loop succeeds exactly when every item succeeds; it then ran all of
   * them. When it fails, the items before the last one it ran succeeded and
   * that last one failed: nothing after the first failure runs.
   */
  lemma {:induction false} RunInOrderSpec<T>(succeeds: T -> bool, xs: seq<T>)
    ensures var t := RunInOrder(succeeds, xs);
            && (t.ok <==> forall i :: 0 <= i < |xs| ==> succeeds(xs[i]))
            && (t.ok ==> t.attempted == |xs|)
            && (!t.ok ==> 0 < t.attempted && !succeeds(xs[t.attempted - 1])
                          && forall i :: 0 <= i < t.attempted - 1 ==> succeeds(xs[i]))
  {
    if xs != [] {
      RunInOrderSpec(succeeds, xs[1..]);
      assert forall i :: 1 <= i < |xs| ==> xs[i] == xs[1..][i - 1];
    }
  }

  /** One turn of a run-in-order loop, seen from item i. */
  lemma RunInOrderStep<T>(succeeds: T -> bool, xs: seq<T>, i: nat)
    requires i < |xs|
    ensures RunInOrder(succeeds, xs[i..]) ==
            if !succeeds(xs[i]) then RunTrace(false, 1)
            else var t := RunInOrder(succeeds, xs[i + 1..]); RunTrace(t.ok, t.attempted + 1)
  {
    assert xs[i..][1..] == xs[i + 1..];
  }

  /** ape_cmds_run: a for loop with an early return of 0; an empty list returns 1. */
  method CmdsRun(exec: Cmd -> Outcome, cmds: seq<Cmd>) returns (ok: bool, ghost attempted: nat)
    ensures RunTrace(ok, attempted) == RunInOrder(CmdSucceeds(exec), cmds)
  {
    var i := 0;
    while i < |cmds|
      invariant 0 <= i <= |cmds|
      invariant RunInOrder(CmdSucceeds(exec), cmds) ==
                var t := RunInOrder(CmdSucceeds(exec), cmds[i..]); RunTrace(t.ok, t.attempted + i)
    {
      RunInOrderStep(CmdSucceeds(exec), cmds, i);
      var p := CmdRunSync(exec, cmds[i]);
      if !p {
        return false, i + 1;
      }
      i := i + 1;
    }
    assert cmds[i..] == [];
    return true, |cmds|;
  }

  /**
   * ape_cmds_run returns 1 exactly when every command is non-empty and exits
   * with status 0.
   */
  lemma CmdsRunSpec(exec: Cmd -> Outcome, cmds: seq<Cmd>)
    ensures RunInOrder(CmdSucceeds(exec), cmds).ok <==>
            forall i :: 0 <= i < |cmds| ==> cmds[i] != [] && exec(cmds[i]) == Exited(0)
  {
    RunInOrderSpec(CmdSucceeds(exec), cmds);
  }
}
