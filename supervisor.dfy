/**
 * yoyo_main: resolve the options, then fork the child up to max_retries
 * times, monitor each child until it is gone, and decide from its decoded
 * exit reason whether to stop with success or to try again.
 */
module Supervisor {
  import opened Types
  import opened ExitReasons

  const DEFAULT_HANG_CHECK_INTERVAL: int := 60
  const DEFAULT_MAX_HANGS: int := 5
  const DEFAULT_MAX_RETRIES: int := 5

  /** struct yoyo_options, as parse_command_line leaves it (fakeroot and verbosity aside) */
  datatype Options = Options(
    version: bool,
    help: bool,
    hangCheckInterval: int,
    maxHangs: int,
    maxRetries: int,
    childCommandLineLen: nat)

  /** The clamping at the end of parse_command_line: values below 1 fall back to the defaults. */
  function ApplyDefaults(o: Options): (r: Options)
    ensures r.version == o.version && r.help == o.help && r.childCommandLineLen == o.childCommandLineLen
    ensures r.hangCheckInterval == if o.hangCheckInterval < 1 then DEFAULT_HANG_CHECK_INTERVAL else o.hangCheckInterval
    ensures r.maxHangs == if o.maxHangs < 1 then DEFAULT_MAX_HANGS else o.maxHangs
    ensures r.maxRetries == if o.maxRetries < 1 then DEFAULT_MAX_RETRIES else o.maxRetries
    ensures r.hangCheckInterval >= 1 && r.maxHangs >= 1 && r.maxRetries >= 1
  {
    o.(hangCheckInterval := if o.hangCheckInterval < 1 then DEFAULT_HANG_CHECK_INTERVAL else o.hangCheckInterval,
       maxHangs := if o.maxHangs < 1 then DEFAULT_MAX_HANGS else o.maxHangs,
       maxRetries := if o.maxRetries < 1 then DEFAULT_MAX_RETRIES else o.maxRetries)
  }

  /** What the SIGCHLD handler reaped while the child was monitored: a pid and its wait status. */
  datatype Reaped = Reaped(pid: int, status: int32)

  /**
   * What the world does in one attempt: the value fork() returns, the value
   * execv() returns in the child, and what the handler reaped, if anything.
   */
  datatype Attempt = Attempt(forkResult: int, execResult: int, reaped: Option<Reaped>)

  /**
   * The exit reason after the monitor returns: the handler records the reaped
   * status only when the pid is the current child's; otherwise the cleared
   * reason stays.
   */
  function ReasonAfter(a: Attempt): (r: ExitReason)
    ensures a.reaped.Some? && a.reaped.value.pid == a.forkResult ==> r == Decode(a.forkResult, a.reaped.value.status)
    ensures !(a.reaped.Some? && a.reaped.value.pid == a.forkResult) ==> r == Cleared
  {
    match a.reaped
    case Some(Reaped(pid, status)) => if pid == a.forkResult then Decode(pid, status) else Cleared
    case None => Cleared
  }

  datatype Decision = Retry | Succeed

  /** A nonzero exit code retries; a normal exit with code 0 succeeds; anything else retries. */
  function Evaluate(r: ExitReason): (d: Decision)
    ensures d == Succeed <==> r.exited && r.exitCode == 0
  {
    if r.exitCode != 0 then Retry
    else if r.exited then Succeed
    else Retry
  }

  /** The return value of yoyo_main, and how often it forked and exec'd. */
  datatype Outcome = Outcome(status: int, forks: nat, execs: nat)

  /** Attempts i, i+1, ... with `remaining` retries left. */
  function AttemptsFrom(world: nat -> Attempt, i: nat, remaining: nat): Outcome
    decreases remaining
  {
    if remaining == 0 then Outcome(EXIT_FAILURE, i, 0)
    else
      var a := world(i);
      if a.forkResult < 0 then Outcome(EXIT_FAILURE, i + 1, 0)
      else if a.forkResult == 0 then Outcome(a.execResult, i + 1, 1)
      else if Evaluate(ReasonAfter(a)) == Succeed then Outcome(EXIT_SUCCESS, i + 1, 0)
      else AttemptsFrom(world, i + 1, remaining - 1)
  }

  /** yoyo_main as a function of the parsed options and the world. */
  function Supervise(parsed: Options, world: nat -> Attempt): Outcome {
    var o := ApplyDefaults(parsed);
    if o.version then Outcome(0, 0, 0)
    else if o.help || o.childCommandLineLen == 0 then
      Outcome(if !o.help && o.childCommandLineLen == 0 then EXIT_FAILURE else EXIT_SUCCESS, 0, 0)
    else AttemptsFrom(world, 0, o.maxRetries)
  }

  /**
   * yoyo_main: the retries_remaining countdown, with the exit reason cleared
   * before each fork and filled in by the handler when it reaps the child.
   */
  method YoyoMain(parsed: Options, world: nat -> Attempt) returns (status: int, forks: nat, execs: nat)
    ensures Outcome(status, forks, execs) == Supervise(parsed, world)
  {
    var options := ApplyDefaults(parsed);
    forks, execs := 0, 0;
    if options.version {
      return 0, forks, execs;
    } else if options.help || options.childCommandLineLen == 0 {
      if !options.help && options.childCommandLineLen == 0 {
        return EXIT_FAILURE, forks, execs;
      }
      return EXIT_SUCCESS, forks, execs;
    }
    status, forks, execs := RetryLoop(options.maxRetries, world);
  }

  /** The retry loop of yoyo_main, for max_retries >= 1. */
  method RetryLoop(maxRetries: int, world: nat -> Attempt) returns (status: int, forks: nat, execs: nat)
    requires maxRetries >= 1
    ensures Outcome(status, forks, execs) == AttemptsFrom(world, 0, maxRetries)
  {
    forks, execs := 0, 0;
    var reason := new ExitReasonRec();
    var retriesRemaining: int := maxRetries;
    while retriesRemaining > 0
      invariant 0 <= retriesRemaining <= maxRetries
      invariant forks == maxRetries - retriesRemaining && execs == 0
      invariant AttemptsFrom(world, 0, maxRetries) == AttemptsFrom(world, forks, retriesRemaining)
    {
      reason.Clear();
      var attempt := world(forks);
      var childPid := attempt.forkResult;
      forks := forks + 1;
      if childPid < 0 {
        return EXIT_FAILURE, forks, execs;
      } else if childPid == 0 {
        execs := execs + 1;
        return attempt.execResult, forks, execs;
      }
      var succeeded := AwaitChild(reason, attempt);
      if succeeded {
        return EXIT_SUCCESS, forks, execs;
      }
      retriesRemaining := retriesRemaining - 1;
    }
    return EXIT_FAILURE, forks, execs;
  }

  /**
   * The parent's side of one attempt after the fork. The call to
   * monitor_child_for_hang is not made here: the attempt's reaped status
   * stands for what the handler delivered while the monitor ran (the
   * monitor itself is Monitor.MonitorChildForHang). The handler fills the
   * cleared reason only for this child's pid; then the decision on the reason.
   */
  method AwaitChild(reason: ExitReasonRec, attempt: Attempt) returns (succeeded: bool)
    requires attempt.forkResult > 0 && reason.Value() == Cleared
    modifies reason
    ensures reason.Value() == ReasonAfter(attempt)
    ensures succeeded <==> Evaluate(ReasonAfter(attempt)) == Succeed
  {
    var childPid := attempt.forkResult;
    if attempt.reaped.Some? && attempt.reaped.value.pid == childPid {
      reason.Set(childPid, attempt.reaped.value.status);
    }
    succeeded := false;
    if reason.exitCode != 0 {
    } else if reason.exited {
      succeeded := true;
    }
  }

  /** A run forks at most max_retries times and execs at most once, in the child. */
  lemma {:induction false} AttemptsBounded(world: nat -> Attempt, i: nat, remaining: nat)
    ensures var r := AttemptsFrom(world, i, remaining);
      i <= r.forks <= i + remaining && r.execs <= 1
      && (r.execs == 1 ==> r.forks >= 1 && world(r.forks - 1).forkResult == 0 && r.status == world(r.forks - 1).execResult)
    decreases remaining
  {
    if remaining > 0 && world(i).forkResult > 0 && Evaluate(ReasonAfter(world(i))) != Succeed {
      AttemptsBounded(world, i + 1, remaining - 1);
    }
  }

  /** Success only ever comes from a reaped child of this attempt that exited with code 0. */
  lemma {:induction false} SuccessMeansCleanExit(world: nat -> Attempt, i: nat, remaining: nat)
    requires AttemptsFrom(world, i, remaining).status == EXIT_SUCCESS
    requires AttemptsFrom(world, i, remaining).execs == 0
    ensures var n := AttemptsFrom(world, i, remaining).forks;
      n >= i + 1 && var a := world(n - 1);
      a.forkResult > 0 && a.reaped.Some? && a.reaped.value.pid == a.forkResult
      && Decode(a.forkResult, a.reaped.value.status).exited
      && Decode(a.forkResult, a.reaped.value.status).exitCode == 0
    decreases remaining
  {
    var a := world(i);
    if remaining > 0 && a.forkResult > 0 && Evaluate(ReasonAfter(a)) != Succeed {
      SuccessMeansCleanExit(world, i + 1, remaining - 1);
    }
  }

  /** Every attempt forks a child that does not succeed: all retries are used, then failure. */
  lemma {:induction false} Exhaustion(world: nat -> Attempt, i: nat, remaining: nat)
    requires forall j :: i <= j < i + remaining ==>
      world(j).forkResult > 0 && Evaluate(ReasonAfter(world(j))) == Retry
    ensures AttemptsFrom(world, i, remaining) == Outcome(EXIT_FAILURE, i + remaining, 0)
    decreases remaining
  {
    if remaining > 0 {
      Exhaustion(world, i + 1, remaining - 1);
    }
  }

  /** The decision on a reaped status: success exactly for a normal exit with code 0. */
  lemma SucceedIff(pid: int, status: int32)
    ensures Evaluate(Decode(pid, status)) == Succeed <==> status % 0x80 == 0 && status / 0x100 % 0x100 == 0
  {
  }

  /** A status reaped for some other pid leaves the reason cleared, which retries. */
  lemma StaleReapRetries(a: Attempt)
    requires a.reaped.Some? && a.reaped.value.pid != a.forkResult
    ensures Evaluate(ReasonAfter(a)) == Retry
  {
  }

  /** Without a child command and without --help (or --version) nothing is forked and the result is failure. */
  lemma NoChildCommand(parsed: Options, world: nat -> Attempt)
    requires !parsed.version && !parsed.help && parsed.childCommandLineLen == 0
    ensures Supervise(parsed, world) == Outcome(EXIT_FAILURE, 0, 0)
  {
  }

  /** A failed fork ends yoyo_main at once with failure and no exec. */
  lemma ForkFailureIsFatal(parsed: Options, world: nat -> Attempt)
    requires !parsed.version && !parsed.help && parsed.childCommandLineLen > 0
    requires world(0).forkResult < 0
    ensures Supervise(parsed, world) == Outcome(EXIT_FAILURE, 1, 0)
  {
  }

  /** In the child, yoyo_main returns what execv returned. */
  lemma ChildReturnsExecResult(parsed: Options, world: nat -> Attempt)
    requires !parsed.version && !parsed.help && parsed.childCommandLineLen > 0
    requires world(0).forkResult == 0
    ensures Supervise(parsed, world) == Outcome(world(0).execResult, 1, 1)
  {
  }

  /** A child that exits with status 0 on the first try: one fork, success. */
  lemma FirstCleanExit(parsed: Options, world: nat -> Attempt)
    requires !parsed.version && !parsed.help && parsed.childCommandLineLen > 0
    requires world(0) == Attempt(10007, -1, Some(Reaped(10007, 0)))
    ensures Supervise(parsed, world) == Outcome(EXIT_SUCCESS, 1, 0)
  {
  }

  /** A child that keeps failing with exit code 1 under the default retry limit: five forks, then failure. */
  lemma DefaultRetriesExhausted(parsed: Options)
    requires !parsed.version && !parsed.help && parsed.childCommandLineLen > 0
    requires parsed.maxRetries < 1
    ensures Supervise(parsed, (i: nat) => Attempt(100 + i, -1, Some(Reaped(100 + i, 0x100))))
      == Outcome(EXIT_FAILURE, 5, 0)
  {
    var world := (i: nat) => Attempt(100 + i, -1, Some(Reaped(100 + i, 0x100)));
    forall j | 0 <= j < 5
      ensures world(j).forkResult > 0 && Evaluate(ReasonAfter(world(j))) == Retry
    {
      ExitCodeRoundTrip(100 + j, 1);
    }
    Exhaustion(world, 0, 5);
  }

  /**
   * Attempts that each fork and retry, followed by one whose own child is
   * reaped with a normal exit and code 0: the run succeeds right there.
   */
  lemma {:induction false} SuccessAfterRetries(world: nat -> Attempt, i: nat, remaining: nat, k: nat)
    requires k < remaining
    requires forall j :: i <= j < i + k ==> world(j).forkResult > 0 && Evaluate(ReasonAfter(world(j))) == Retry
    requires var a := world(i + k);
      a.forkResult > 0 && a.reaped.Some? && a.reaped.value.pid == a.forkResult
      && Decode(a.forkResult, a.reaped.value.status).exited
      && Decode(a.forkResult, a.reaped.value.status).exitCode == 0
    ensures AttemptsFrom(world, i, remaining) == Outcome(EXIT_SUCCESS, i + k + 1, 0)
    decreases k
  {
    if k > 0 {
      SuccessAfterRetries(world, i + 1, remaining - 1, k - 1);
    }
  }

  /**
   * The yoyo_main of yoyo.c: only argc < 2 is refused up front, --help
   * returns what print_help returns (always 0), and a command line holding
   * options but no command goes on into the retry loop.
   */
  function LegacySupervise(argc: int, parsed: Options, world: nat -> Attempt): Outcome {
    var o := ApplyDefaults(parsed);
    if argc < 2 then Outcome(EXIT_FAILURE, 0, 0)
    else if o.version then Outcome(0, 0, 0)
    else if o.help then Outcome(0, 0, 0)
    else AttemptsFrom(world, 0, o.maxRetries)
  }

  /** yoyo_main of yoyo.c, with the same retry loop as src/yoyo.c. */
  method LegacyYoyoMain(argc: int, parsed: Options, world: nat -> Attempt) returns (status: int, forks: nat, execs: nat)
    ensures Outcome(status, forks, execs) == LegacySupervise(argc, parsed, world)
  {
    forks, execs := 0, 0;
    if argc < 2 {
      return EXIT_FAILURE, forks, execs;
    }
    var options := ApplyDefaults(parsed);
    if options.version {
      return 0, forks, execs;
    } else if options.help {
      var printed := 0;  // print_help's result
      return printed, forks, execs;
    }
    status, forks, execs := RetryLoop(options.maxRetries, world);
  }

  /**
   * Options but no command (`yoyo --verbose`): src/yoyo.c refuses without
   * forking, while yoyo.c forks max_retries children. Each of them execs a
   * NULL path, gets -1 back and exits with 255, so the parent retries
   * every time and finally fails.
   */
  lemma LegacyOptionsOnlyForks(argc: int, parsed: Options, world: nat -> Attempt)
    requires argc >= 2 && !parsed.version && !parsed.help && parsed.childCommandLineLen == 0
    requires forall j: nat :: world(j).forkResult > 0 && world(j).reaped == Some(Reaped(world(j).forkResult, 0xff00))
    ensures LegacySupervise(argc, parsed, world) == Outcome(EXIT_FAILURE, ApplyDefaults(parsed).maxRetries, 0)
    ensures Supervise(parsed, world) == Outcome(EXIT_FAILURE, 0, 0)
  {
    var m := ApplyDefaults(parsed).maxRetries;
    forall j | 0 <= j < m
      ensures world(j).forkResult > 0 && Evaluate(ReasonAfter(world(j))) == Retry
    {
      ExitCodeRoundTrip(world(j).forkResult, 255);
    }
    Exhaustion(world, 0, m);
  }
}
