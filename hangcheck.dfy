/**
 * hangcheck: the earlier, smaller supervisor. Its hang detector is a stub
 * that never reports a hang, its escalation rule sends SIGKILL first and
 * SIGTERM only later, and its retry loop forks the child at most
 * MAX_RETRIES times, succeeding on the first exit code 0.
 */
module Hangcheck {
  import opened Types
  import opened ExitReasons
  import Monitor
  import Supervisor

  const HANG_CHECK_INTERVAL: nat := 5
  const MAX_HANGS: nat := 5
  const MAX_RETRIES: nat := 5

  /** process_looks_hung: a placeholder that answers "not hung" for every pid. */
  function ProcessLooksHung(pid: int): int {
    0
  }

  /** The stub never reports a hang, whatever the pid. */
  lemma StubNeverHung(pid: int)
    ensures ProcessLooksHung(pid) == 0
  {
  }

  /** The signal for the n-th consecutive hang: SIGKILL up to max_hangs, SIGTERM beyond. */
  function Escalation(hangCount: nat, maxHangs: nat): Signal {
    if hangCount > maxHangs then SIGTERM else SIGKILL
  }

  /**
   * For every positive hang count the two programs choose opposite signals:
   * where yoyo sends SIGTERM, hangcheck sends SIGKILL, and the other way round.
   */
  lemma EscalationInverted(hangCount: nat, maxHangs: nat)
    ensures Escalation(hangCount, maxHangs) != Monitor.Escalation(hangCount, maxHangs)
    ensures Escalation(hangCount, maxHangs) == SIGKILL <==> hangCount <= maxHangs
  {
  }

  /** hang_count after the first n iterations, given the detector's verdict at each one. */
  function HangCount(hung: nat -> bool, n: nat): nat {
    if n == 0 then 0
    else if hung(n - 1) then HangCount(hung, n - 1) + 1
    else 0
  }

  /** The signals sent during the first n iterations, in order. */
  function SignalsUpTo(hung: nat -> bool, maxHangs: nat, n: nat): seq<Signal> {
    if n == 0 then []
    else
      var sent := if hung(n - 1) then [Escalation(HangCount(hung, n), maxHangs)] else [];
      SignalsUpTo(hung, maxHangs, n - 1) + sent
  }

  /**
   * The child and the SIGCHLD handler as the monitor sees them: the handler
   * reaps `reapedPid` with wait status `status` while the monitor sleeps for
   * the (reapedDuring+1)-th time. Sleeps and signals sent are recorded.
   */
  class ChildWorld {
    const reapedDuring: nat
    const reapedPid: int
    const status: int32
    var sleeps: seq<nat>
    var sent: seq<Signal>

    constructor (reapedDuring: nat, reapedPid: int, status: int32)
      ensures this.reapedDuring == reapedDuring && this.reapedPid == reapedPid && this.status == status
      ensures sleeps == [] && sent == []
    {
      this.reapedDuring := reapedDuring;
      this.reapedPid := reapedPid;
      this.status := status;
      sleeps, sent := [], [];
    }

    /** sleep(seconds); during the right sleep the handler runs exit_reason_set on the reaped status. */
    method Sleep(seconds: nat, reason: ExitReasonRec)
      modifies this, reason
      ensures sleeps == old(sleeps) + [seconds] && sent == old(sent)
      ensures |old(sleeps)| == reapedDuring ==> reason.Value() == Decode(reapedPid, status)
      ensures |old(sleeps)| != reapedDuring ==> reason.Value() == old(reason.Value())
    {
      if |sleeps| == reapedDuring {
        reason.Set(reapedPid, status);
      }
      sleeps := sleeps + [seconds];
    }

    /** kill(pid, sig), recorded; it reports success. */
    method Kill(pid: int, sig: Signal) returns (err: int)
      modifies this
      ensures sent == old(sent) + [sig] && sleeps == old(sleeps)
      ensures err == 0
    {
      sent := sent + [sig];
      err := 0;
    }
  }

  /**
   * monitor_child_for_hang: sleep, ask the detector (its verdict at iteration
   * i is hung(i)), count consecutive hangs and signal, until the handler has
   * recorded a normal exit.
   */
  method MonitorChildForHang(world: ChildWorld, childPid: int, reason: ExitReasonRec,
                             maxHangs: nat, interval: nat, hung: nat -> bool)
    requires world.sleeps == [] && world.sent == []
    requires reason.Value() == Cleared
    requires Decode(world.reapedPid, world.status).exited
    modifies world, reason
    ensures world.sleeps == seq(world.reapedDuring + 1, _ => interval)
    ensures world.sent == SignalsUpTo(hung, maxHangs, world.reapedDuring + 1)
    ensures reason.Value() == Decode(world.reapedPid, world.status)
  {
    var hangCount: nat := 0;
    var i: nat := 0;
    while !reason.exited
      invariant i == |world.sleeps| <= world.reapedDuring + 1
      invariant i <= world.reapedDuring ==> reason.Value() == Cleared
      invariant i == world.reapedDuring + 1 ==> reason.Value() == Decode(world.reapedPid, world.status)
      invariant world.sleeps == seq(i, _ => interval)
      invariant hangCount == HangCount(hung, i)
      invariant world.sent == SignalsUpTo(hung, maxHangs, i)
      decreases world.reapedDuring + 1 - i
    {
      world.Sleep(interval, reason);
      if hung(i) {
        hangCount := hangCount + 1;
        var sig := if hangCount > maxHangs then SIGTERM else SIGKILL;
        var err := world.Kill(childPid, sig);
      } else {
        hangCount := 0;
      }
      i := i + 1;
    }
  }

  /** With the stub detector the count never leaves 0 and no signal is ever sent. */
  lemma {:induction false} StubNeverSignals(pid: int, maxHangs: nat, n: nat)
    ensures HangCount((i: nat) => ProcessLooksHung(pid) != 0, n) == 0
    ensures SignalsUpTo((i: nat) => ProcessLooksHung(pid) != 0, maxHangs, n) == []
  {
    if n > 0 {
      StubNeverSignals(pid, maxHangs, n - 1);
    }
  }

  /** A detector that always reports a hang: the count is the number of iterations. */
  lemma {:induction false} AlwaysHungCount(n: nat)
    ensures HangCount(_ => true, n) == n
  {
    if n > 0 {
      AlwaysHungCount(n - 1);
    }
  }

  /**
   * A detector that always reports a hang: max_hangs SIGKILLs come first,
   * SIGTERM only after them.
   */
  lemma {:induction false} AlwaysHungSignals(maxHangs: nat, n: nat)
    ensures SignalsUpTo(_ => true, maxHangs, n)
      == seq(n, i requires 0 <= i < n => if i < maxHangs then SIGKILL else SIGTERM)
  {
    if n > 0 {
      AlwaysHungSignals(maxHangs, n - 1);
      AlwaysHungCount(n);
    }
  }

  /** The exit code a normal exit reports, 0 .. 255. */
  type ExitCode = c: int | 0 <= c < 0x100

  /**
   * What the world does in one attempt: the value fork() returns, the value
   * execv() returns in the child, and the exit code the child leaves,
   * reaped during the (reapedDuring+1)-th sleep of the monitor.
   */
  datatype Attempt = Attempt(forkResult: int, execResult: int, exitCode: ExitCode, reapedDuring: nat)

  /** Attempts i, i+1, ... with `remaining` retries left. */
  function AttemptsFrom(world: nat -> Attempt, i: nat, remaining: nat): Supervisor.Outcome
    decreases remaining
  {
    if remaining == 0 then Supervisor.Outcome(EXIT_FAILURE, i, 0)
    else
      var a := world(i);
      if a.forkResult < 0 then Supervisor.Outcome(EXIT_FAILURE, i + 1, 0)
      else if a.forkResult == 0 then Supervisor.Outcome(a.execResult, i + 1, 1)
      else if a.exitCode != 0 then AttemptsFrom(world, i + 1, remaining - 1)
      else Supervisor.Outcome(EXIT_SUCCESS, i + 1, 0)
  }

  /** hangcheck's main as a function of the argument count and the world. */
  function Run(argc: int, world: nat -> Attempt): Supervisor.Outcome {
    if argc < 2 then Supervisor.Outcome(EXIT_FAILURE, 0, 0)
    else AttemptsFrom(world, 0, MAX_RETRIES)
  }

  /**
   * main: refuse a missing child command, then the retry loop, with the
   * reason cleared before each fork, the monitor called with MAX_RETRIES as
   * its hang limit and HANG_CHECK_INTERVAL as its interval, and the stub
   * as its detector.
   */
  method HangcheckMain(argc: int, world: nat -> Attempt) returns (status: int, forks: nat, execs: nat)
    ensures Supervisor.Outcome(status, forks, execs) == Run(argc, world)
  {
    forks, execs := 0, 0;
    if argc < 2 {
      return EXIT_FAILURE, forks, execs;
    }
    var reason := new ExitReasonRec();
    var retriesRemaining: nat := MAX_RETRIES;
    while retriesRemaining > 0
      invariant forks + retriesRemaining == MAX_RETRIES && execs == 0
      invariant AttemptsFrom(world, 0, MAX_RETRIES) == AttemptsFrom(world, forks, retriesRemaining)
    {
      reason.Clear();
      var attempt := world(forks);
      var childPid := attempt.forkResult;
      forks := forks + 1;
      if childPid < 0 {
        return EXIT_FAILURE, forks, execs;
      } else if childPid == 0 {
        execs := execs + 1;
        return attempt.execResult, forks, execs;
      }
      var child := new ChildWorld(attempt.reapedDuring, childPid, attempt.exitCode * 0x100);
      ExitCodeRoundTrip(childPid, attempt.exitCode);
      MonitorChildForHang(child, childPid, reason, MAX_RETRIES, HANG_CHECK_INTERVAL,
                          (i: nat) => ProcessLooksHung(childPid) != 0);
      assert reason.exited;
      if reason.exitCode != 0 {
      } else {
        return EXIT_SUCCESS, forks, execs;
      }
      retriesRemaining := retriesRemaining - 1;
    }
    return EXIT_FAILURE, forks, execs;
  }

  /** A run forks at most MAX_RETRIES times; success comes from the last child's exit code 0. */
  lemma {:induction false} AttemptsBounded(world: nat -> Attempt, i: nat, remaining: nat)
    ensures var r := AttemptsFrom(world, i, remaining);
      i <= r.forks <= i + remaining && r.execs <= 1
      && (r.execs == 0 && r.status == EXIT_SUCCESS ==>
            r.forks >= 1 && world(r.forks - 1).forkResult > 0 && world(r.forks - 1).exitCode == 0)
    decreases remaining
  {
    if remaining > 0 && world(i).forkResult > 0 && world(i).exitCode != 0 {
      AttemptsBounded(world, i + 1, remaining - 1);
    }
  }

  /** Children that all fork and all exit with a nonzero code use up every retry, then fail. */
  lemma {:induction false} Exhaustion(world: nat -> Attempt, i: nat, remaining: nat)
    requires forall j :: i <= j < i + remaining ==> world(j).forkResult > 0 && world(j).exitCode != 0
    ensures AttemptsFrom(world, i, remaining) == Supervisor.Outcome(EXIT_FAILURE, i + remaining, 0)
    decreases remaining
  {
    if remaining > 0 {
      Exhaustion(world, i + 1, remaining - 1);
    }
  }

  /** Children that fork and exit nonzero, then one that exits with code 0: success right there. */
  lemma {:induction false} SuccessAfterRetries(world: nat -> Attempt, i: nat, remaining: nat, k: nat)
    requires k < remaining
    requires forall j :: i <= j < i + k ==> world(j).forkResult > 0 && world(j).exitCode != 0
    requires world(i + k).forkResult > 0 && world(i + k).exitCode == 0
    ensures AttemptsFrom(world, i, remaining) == Supervisor.Outcome(EXIT_SUCCESS, i + k + 1, 0)
    decreases k
  {
    if k > 0 {
      SuccessAfterRetries(world, i + 1, remaining - 1, k - 1);
    }
  }

  /** Without a child command nothing is forked and the result is failure. */
  lemma NoChildCommand(argc: int, world: nat -> Attempt)
    requires argc < 2
    ensures Run(argc, world) == Supervisor.Outcome(EXIT_FAILURE, 0, 0)
  {
  }

  /** Five children that each exit with code 1: five forks, then failure. */
  lemma RetriesExhausted(argc: int)
    requires argc >= 2
    ensures Run(argc, (i: nat) => Attempt(100 + i, -1, 1, i)) == Supervisor.Outcome(EXIT_FAILURE, 5, 0)
  {
    Exhaustion((i: nat) => Attempt(100 + i, -1, 1, i), 0, 5);
  }
}
