# yoyo, modelled in Dafny

yoyo is a supervisor for programs that sometimes hang. It forks a child
command and polls the child's threads through
`/proc/<pid>/task/<tid>/stat`. If every thread keeps sleeping and neither
its user time nor its system time moves by more than one clock tick, the
child is treated as hung. yoyo then sends SIGTERM for up to `max_hangs`
consecutive hung verdicts and SIGKILL after that. When the child is gone,
yoyo decodes its wait status. A normal exit with code 0 ends the run with
success; anything else forks the child again, up to `max_retries` times.

The model covers five source files:

- `src/yoyo.c`: the current supervisor (detector, monitor loop, retry loop).
- `yoyo.c`: an older copy with injected collaborators. Its wait-status
  decoder, string builder and `/proc` sampler are modelled from it.
- `hangcheck.c`: a prototype. Its detector is a stub, and its escalation
  rule is the reverse of yoyo's.
- `tests/faux-rogue.c` and `faux-rogue.c`: the test child. A counter kept
  in a file decides whether each run fails, hangs or succeeds.

One module per concern, one file each:

| file | module | what it holds |
|---|---|---|
| types.dfy | Types | `thread_state`, snapshots, list pointers, signals, `unsigned long` and `int` ranges |
| cstrings.dfy | CStrings | C strings in a buffer, truncation, `%d` printing and its inverse |
| hang_detector.dfy | HangDetector | `process_looks_hung` as a function and as the loop the source runs |
| monitor.dfy | Monitor | `monitor_child_for_hang` over an abstract environment that records every call |
| supervisor.dfy | Supervisor | option defaults and the `yoyo_main` retry loop over per-attempt outcomes |
| exit_reason.dfy | ExitReasons | the `<sys/wait.h>` macros (Linux/glibc layout) and `exit_reason_clear/set` |
| format.dfy | Format | `appendf` on a `char` array and `exit_reason_to_str` |
| sampler.dfy | Sampler | the stat pattern, an `sscanf` model, `thread_state_from_path`, `state_list_new/free` with an allocation ledger, `get_states_proc` |
| hangcheck.dfy | Hangcheck | the prototype's stub detector, its monitor loop and its `main` |
| faux_rogue.dfy | FauxRogue | `get_action` and `main` of both faux-rogue variants |

Operating-system calls become explicit inputs or recording objects. The
probe `kill(pid, 0)`, `sleep`, `get_states`/`free_states` and `kill` are
`Monitor.Env`. `fork`, `execv` and the reaped status are a function
`world` from the attempt number to that attempt's outcome. Files are a map
from path to contents (`Sampler.FileSystem`, `FauxRogue.Disk`), and
`calloc`/`free` are `Sampler.Allocator`.

Three details of `process_looks_hung` (src/yoyo.c:209-239) shape what the
monitor does:

- An awake thread, or any progress, returns a NULL baseline, not the
  current snapshot.
- A hung verdict replaces the baseline with the current snapshot.
- The tolerance is a fixed single tick, `new > old + 1` in
  `unsigned long`, and threads are compared by position in the list.

## Model

| member | source | states |
|---|---|---|
| HangDetector.ProcessLooksHung | src/yoyo.c:209-239 | The two loops return exactly `LooksHung`. An awake thread gives (0, NULL). No baseline, or one of another length, gives (0, current). A pid mismatch or a clock moved by more than a tick gives (0, NULL). Otherwise the result is (1, current). |
| HangDetector.NextIsNoneOrCurrent | src/yoyo.c:209-239 | The baseline handed back is always NULL or the current snapshot, never the previous one. |
| HangDetector.AwakeThreadDropsBaseline | src/yoyo.c:212-217 | A thread not in state 'S' gives verdict 0 and a NULL baseline, whatever the previous snapshot was. |
| HangDetector.NoComparableBaseline | src/yoyo.c:219-222 | With every thread asleep, a missing baseline or one of a different length gives verdict 0, and the current snapshot becomes the baseline. |
| HangDetector.FirstSampleNeverHung | src/yoyo.c:219-222 | With no previous snapshot the verdict is never hung. |
| HangDetector.HungIff | src/yoyo.c:224-238 | Hung if and only if all threads sleep, the lengths match, and every index keeps its pid with both clocks advanced at most a tick. A hung verdict keeps the current snapshot. |
| HangDetector.ProgressDropsBaseline | src/yoyo.c:228-234 | A pid mismatch at some index, or a utime or stime moved beyond `old + 1`, gives verdict 0 and a NULL baseline. |
| HangDetector.AdvancedWithoutWrap | src/yoyo.c:229-230 | Below ULONG_MAX, the unsigned test means "more than one tick". |
| HangDetector.AdvancedAtWrap | src/yoyo.c:229-230 | At ULONG_MAX, `old + 1` wraps to 0, so any nonzero reading counts as progress. |
| HangDetector.DecreaseIsIdle | src/yoyo.c:229-230 | Clocks that go backwards never count as progress. |
| HangDetector.EmptySnapshotsHung | src/yoyo.c:212-238 | Two empty snapshots are vacuously hung, and the current one is kept. |
| HangDetector.SelfComparisonHung | src/yoyo.c:224-238 | A sleeping snapshot compared with an identical one is hung. |
| HangDetector.NoPreviousKeepsCurrent | tests/test_process_looks_hung.c:10-33 | The fixture with no previous snapshot: verdict 0, and the current snapshot is kept. |
| HangDetector.OneAwake | tests/test_process_looks_hung.c:35-64 | The fixture whose middle thread is running: verdict 0, NULL baseline. |
| HangDetector.ThreadAppeared | tests/test_process_looks_hung.c:66-97 | The fixture where a fourth thread appeared: verdict 0, and the current snapshot is kept. |
| HangDetector.IncrementByOneIsHung | tests/test_process_looks_hung.c:99-129 | The fixture where every clock moved by exactly one tick: hung. |
| HangDetector.IncrementBy17IsProgress | tests/test_process_looks_hung.c:131-160 | The fixture where one clock moved by 17 ticks: not hung, NULL baseline. |
| Monitor.CheckOnce | src/yoyo.c:418-446 | One loop pass follows `Next`: the count goes up on hung and resets otherwise, and the baseline is the one the detector handed back. A hung verdict sends `Escalation(count)` and then yields. The previous list and the current list, unless retained, are released, so the freed addresses plus the held one gain exactly the new list. |
| Monitor.MonitorChildForHang | src/yoyo.c:411-449 | The loop probes once more than it samples, and samples once per script entry. Signals equal `SignalsUpTo`, and sleeps equal `SleepsUpTo`: the interval, plus the yield after each signal (0 s here, 1 s in yoyo.c:419). Every list obtained is freed exactly once (freed multiset = all addresses). |
| Monitor.BaselineIsLatest | src/yoyo.c:421-423 | The retained baseline, when present, is the list from the latest sample. |
| Monitor.HangCountIsRunLength | src/yoyo.c:423-437 | `hang_count` after k passes is the length of the run of hung verdicts ending there; the verdict just before the run was not hung. |
| Monitor.FirstIterationSilent | src/yoyo.c:415-423 | The first pass has no baseline, so it is never hung and sends nothing. |
| Monitor.EscalationOrder | src/yoyo.c:424-425 | A run of m hung verdicts starting from count 0 sends SIGTERM for the first `max_hangs` of them and SIGKILL after, one signal each, and leaves the count at m. |
| Monitor.EscalationRunCounts | src/yoyo.c:425 | Such a run contains min(m, max_hangs) SIGTERMs. |
| Monitor.SleepsMatchSignals | src/yoyo.c:418-435 | The number of sleeps is the number of passes plus the number of signals. |
| Monitor.AwakeIterationResets | src/yoyo.c:436-437 | A sample with an awake thread sends nothing, and resets the count to 0 with no baseline. |
| Monitor.FrozenProcess | src/yoyo.c:417-446 | A process frozen in sleep: after k samples the count is k-1, the latest list is held, and the signals are the escalation run of length k-1. |
| Monitor.RequiresSigkillRun | tests/test_monitor_child_for_hang.c:116-151 | In the requires-SIGKILL fixture, the three samples with running threads and the first all-asleep one are not hung, and the hang count is 0 after them. The next four samples are hung: one clock moves one tick, then nothing moves. |
| Monitor.RequiresSigkillTrace | tests/test_monitor_child_for_hang.c:206-232 | With max_hangs 3 and the 1-second yield, the fixture's signals are three SIGTERMs and then a SIGKILL. The sleeps are the interval five times, then alternate yields and intervals. |
| Monitor.MonitorRequiresSigkill | tests/test_monitor_child_for_hang.c:206-257 | Running the monitor on the fixture sends three SIGTERMs and one SIGKILL (at least max_hangs SIGTERMs, then a SIGKILL), takes eight lists, and frees as many lists as it took. |
| Supervisor.ApplyDefaults | src/yoyo.c:613-627 | Interval, max_hangs and max_retries below 1 become 60, 5 and 5. Other values and the other options are unchanged, and all three end up at least 1. |
| Supervisor.ReasonAfter | src/yoyo.c:393-398 | The handler records the reaped status only when the reaped pid is the current child. Otherwise the cleared reason stays. |
| Supervisor.AwaitChild | src/yoyo.c:178-198 | After the monitor, the reason is `ReasonAfter(attempt)`. The attempt succeeds exactly when `Evaluate` says so: exit code nonzero retries, a normal exit with code 0 succeeds, anything else retries. |
| Supervisor.RetryLoop | src/yoyo.c:147-205 | The countdown loop's status, forks and execs equal `AttemptsFrom(world, 0, max_retries)`. |
| Supervisor.YoyoMain | src/yoyo.c:113-206 | The result equals `Supervise`: version gives 0, help gives success, no child command gives failure, and otherwise the retry loop runs with the clamped options. |
| Supervisor.AttemptsBounded | src/yoyo.c:147-171 | A run forks at most `max_retries` times and execs at most once. An exec happens only in a child (fork result 0), and the run returns what execv returned. |
| Supervisor.SuccessMeansCleanExit | src/yoyo.c:181-192 | Success without an exec comes only from an attempt whose own child was reaped with a normal exit and code 0. |
| Supervisor.Exhaustion | src/yoyo.c:147-205 | When every attempt forks and retries, all retries are used and the result is EXIT_FAILURE. |
| Supervisor.SucceedIff | src/yoyo.c:181-192 | A reaped status succeeds exactly when its low 7 bits are 0 and bits 8-15 are 0. |
| Supervisor.StaleReapRetries | src/yoyo.c:393-398 | A status reaped for another pid leaves the reason cleared, which retries. |
| Supervisor.NoChildCommand | src/yoyo.c:122-127 | No child command and no --help or --version: EXIT_FAILURE with zero forks. |
| Supervisor.ForkFailureIsFatal | src/yoyo.c:156-158 | A negative fork result ends the run at once with EXIT_FAILURE, one fork and no exec. |
| Supervisor.ChildReturnsExecResult | src/yoyo.c:159-170 | In the child (fork result 0), yoyo_main returns what execv returned. |
| Supervisor.Evaluate | src/yoyo.c:181-198 | The decision on the reason after the monitor is success exactly when the child exited normally with code 0. |
| Supervisor.SuccessAfterRetries | src/yoyo.c:147-198 | Attempts that each fork and retry, then one whose own child exits normally with code 0 before the retries run out: success at that attempt, with no exec and one fork per attempt so far. |
| Supervisor.LegacyYoyoMain | yoyo.c:72-167 | The older yoyo_main equals `LegacySupervise`. argc < 2 fails at once, version gives 0, help gives print_help's 0, and every other command line goes into the retry loop with the clamped options. |
| Supervisor.LegacyOptionsOnlyForks | yoyo.c:74-87 | An options-only command line (`yoyo --verbose`): src/yoyo.c fails with no fork. yoyo.c forks max_retries children, each exiting 255 after a failed exec of a NULL path, and then fails. |
| Supervisor.FirstCleanExit | src/yoyo.c:181-192 | A child reaped with status 0 on the first try: one fork, success. |
| Supervisor.DefaultRetriesExhausted | src/yoyo.c:621-623 | With the default of five retries and a child that always exits 1: five forks, then failure. |
| ExitReasons.MacroArithmetic | yoyo.c:484-499 | The macro masks and shifts as arithmetic on the signed status: `WTERMSIG = s mod 128`, `WEXITSTATUS = (s div 256) mod 256`, `WCOREDUMP` = bit 7. |
| ExitReasons.SignaledArithmetic | yoyo.c:489 | The signed-char test of WIFSIGNALED holds exactly when the low 7 bits are neither 0 nor 0x7f. |
| ExitReasons.Decode | yoyo.c:477-503 | Pid and raw status are kept verbatim. `exited` iff low 7 bits are 0, with `exit_code` = bits 8-15. `signaled` iff low 7 bits are neither 0 nor 0x7f, with termsig and the core bit. `stopped` iff the low byte is 0x7f, with `stopsig` = bits 8-15. `continued` iff the status is 0xffff. Codes of flags that are false stay 0. |
| ExitReasons.ExitedSignaledStoppedExclusive | yoyo.c:484-499 | At most one of exited, signaled and stopped holds. |
| ExitReasons.ExitCodeRoundTrip | yoyo.c:484-487 | A status `code << 8` decodes back to a normal exit with that code, and no other flag. |
| ExitReasons.TermSigRoundTrip | yoyo.c:489-495 | A signal 1..126, with or without the core bit, decodes back to that signal and core flag. |
| ExitReasons.StopSigRoundTrip | yoyo.c:497-500 | A status `sig << 8 | 0x7f` decodes back to a stop by that signal. |
| ExitReasons.KnownStatuses | tests/test_exit_reason.c:9-107 | Status 0 is exit code 0. Status 1 is signal 1. Status 2943 is stopped by 11. Status 0xffff is continued. |
| ExitReasons.ExitReasonRec.Clear | yoyo.c:472-475 | Every field is zero afterwards. |
| ExitReasons.ExitReasonRec.Set | yoyo.c:477-503 | The struct holds exactly `Decode(pid, status)` afterwards (hangcheck.c:237-260 is the same code). |
| CStrings.DecNatRoundTrip | yoyo.c:206 | The digits `%ld` prints for a natural number read back as that number. |
| CStrings.DecInjective | yoyo.c:206 | Different numbers are never printed the same way. |
| CStrings.ClipAppend | yoyo.c:435-449 | Appending to a buffer already truncated gives the same text as truncating once at the end. |
| Format.AppendInto | yoyo.c:435-449 | After appendf the buffer keeps its length and its old string, its last byte is NUL, and its C string is `old + text` truncated to `bufsize - 1`. |
| Format.WrittenAt | yoyo.c:437-447 | Writing `text[..n]` and a NUL after the old string, with n the room vsnprintf has, leaves that truncated concatenation. |
| Format.Strlen | yoyo.c:437 | Returns the length of the C string, which is below the buffer size. |
| Format.WriteTerminated | yoyo.c:444 | The buffer is unchanged except for `text[..n]` and a NUL at the write position. |
| Format.Appendf | yoyo.c:435-449 | The buffer becomes `AppendInto(old, text)`, and the result is the untruncated length. |
| Format.Zero | yoyo.c:507 | Every byte is NUL afterwards. |
| Format.AppendExited | yoyo.c:510-513 | Appends " terminated normally exit code: <code>" only when exited, keeping the buffer's contract. |
| Format.AppendSignaled | yoyo.c:515-523 | Appends " terminated by a signal", then the signal number only when nonzero, then " produced a core dump" only when set. |
| Format.AppendStopped | yoyo.c:525-531 | Appends " stopped (WUNTRACED? ptrace?)", then " stop signal: <n>" only when the number is nonzero. |
| Format.AppendContinued | yoyo.c:533-535 | Appends " was resumed by SIGCONT" only when continued. |
| Format.ExitReasonToStr | yoyo.c:505-536 | The buffer holds `Describe(reason)` truncated to `bufsize - 1` and ends in NUL: "child pid <pid>", then the phrases in the order exited, signaled, stopped, continued. |
| Format.TailStartsWithSpace | yoyo.c:510-535 | Every phrase after the pid begins with a space. |
| Format.DescribeSplit | yoyo.c:508-535 | The description is "child pid ", the pid, then the tail. |
| Format.DescribeIdentifiesPid | yoyo.c:508 | Equal descriptions name the same pid. |
| Format.CleanExitTail | yoyo.c:510-513 | A normal exit with code 0 alone reads " terminated normally exit code: 0". |
| Format.DescribeCleanExit | tests/test_exit_reason.c:9-40 | Status 0 of pid 10007 is described as a clean exit with code 0. |
| Format.Signal1Tail | yoyo.c:515-519 | Signal 1 without a core dump reads " terminated by a signal 1". |
| Format.DescribeSignaled | tests/test_exit_reason.c:42-63 | Status 1 is described as "terminated by a signal 1". |
| Format.StopBy11Tail | yoyo.c:525-530 | A stop by signal 11 reads " stopped (WUNTRACED? ptrace?) stop signal: 11". |
| Format.DescribeStopped | tests/test_exit_reason.c:65-86 | Status 2943 is described as stopped by signal 11. |
| Format.ContinuedTail | yoyo.c:533-535 | A resumption alone reads " was resumed by SIGCONT". |
| Format.DescribeContinued | tests/test_exit_reason.c:88-109 | Status 0xffff is described as resumed by SIGCONT. |
| Sampler.StatPattern | yoyo.c:202-209 | The pattern starts with the fake root (empty for NULL) and ends in `/task/*/stat`. Its length is the root's, plus the pid's digits, plus 18. |
| Sampler.StatPatternInjective | yoyo.c:202-209 | Under one fake root, different pids give different glob patterns. |
| Sampler.NullRootIsEmpty | yoyo.c:204 | A NULL fake root gives the same pattern as an empty one. |
| Sampler.StrToUL | yoyo.c:246 | `%lu` reads a magnitude as itself, negates a signed input modulo 2^64, and saturates above ULONG_MAX. |
| Sampler.StatFormatAssignsFour | yoyo.c:245-249 | The stat format assigns exactly four values: fields 1, 3, 14 and 15. |
| Sampler.ScanExtends | yoyo.c:248-249 | sscanf only appends values, at most one per assigning conversion, and reports EOF only when nothing was assigned. |
| Sampler.Slurped | yoyo.c:211-231 | The parsed text has no NUL and fits the buffer. A small file is read whole; an unreadable file reads as empty. |
| Sampler.ThreadStateFromPath | yoyo.c:233-255 | Only the entry `ts[i]` changes, and only in the fields sscanf assigned. The result is `4 - matched`. |
| Sampler.FileResultRange | yoyo.c:248-254 | The result is 0..5. It is 0 exactly when all four fields were assigned, and 5 exactly on EOF. |
| Sampler.BlankInputIsEOF | yoyo.c:245-254 | Empty or blank text: sscanf returns EOF, the result is 5, and the thread_state is untouched. |
| Sampler.MissingFile | yoyo.c:233-254 | An unreadable file gives result 5 and a zero thread_state. |
| Sampler.WellFormedStatLine | yoyo.c:245-254 | A well-formed stat line (fields 1-15, each followed by a space) yields pid, state, utime and stime, with result 0. |
| Sampler.CommWithSpaceMisparses | yoyo.c:246 | A command name with a space shifts the fields: only pid and one letter of the name are assigned, and the result is 2. |
| Sampler.StateListNew | yoyo.c:257-277 | NULL exactly when either calloc fails, and then nothing stays allocated. Otherwise `len` zeroed states, with two new live blocks. |
| Sampler.StateListFree | yoyo.c:279-285 | NULL frees nothing. Otherwise both blocks leave the live set, and the release order is the states block, then the list. |
| Sampler.ErrorSumZeroIff | yoyo.c:325-337 | The error total is never negative. It is zero exactly when every file yielded all four fields. |
| Sampler.FillStates | yoyo.c:325-333 | Entry i is parsed from path i, and the error total is the sum of the per-file results. |
| Sampler.GetStatesProc | yoyo.c:296-343 | The list has one entry per matched path, each parsed from its own file, with the summed error. It is NULL exactly when one of the two callocs fails, which is where the source exits. |
| Hangcheck.StubNeverHung | hangcheck.c:147-151 | The stub detector answers 0 for every pid. |
| Hangcheck.EscalationInverted | hangcheck.c:186 | The prototype sends SIGKILL while `hang_count <= max_hangs` and SIGTERM after: always the opposite of yoyo's signal. |
| Hangcheck.ChildWorld.Sleep | hangcheck.c:153-164 | During the chosen sleep the handler records the reaped status, without checking the pid. The sleep is logged, and otherwise the reason is unchanged. |
| Hangcheck.MonitorChildForHang | hangcheck.c:174-198 | The loop sleeps the interval until the handler has recorded the exit, and then stops. Signals follow the inverted rule over the detector's verdicts, and the reason holds the decoded status. |
| Hangcheck.StubNeverSignals | hangcheck.c:184-196 | With the stub detector the count stays 0 and no signal is sent. |
| Hangcheck.AlwaysHungCount | hangcheck.c:184-193 | A detector that always says hung counts every pass. |
| Hangcheck.AlwaysHungSignals | hangcheck.c:184-187 | Such a detector gets `max_hangs` SIGKILLs first, and SIGTERM only after them. |
| Hangcheck.HangcheckMain | hangcheck.c:91-145 | The result equals `Run`. A missing command fails; otherwise up to MAX_RETRIES forks, with MAX_RETRIES as the hang limit and the 5-second interval. The first exit code 0 succeeds. |
| Hangcheck.AttemptsBounded | hangcheck.c:108-140 | At most MAX_RETRIES forks and one exec. Success without an exec comes from a forked child that exited with code 0. |
| Hangcheck.Exhaustion | hangcheck.c:108-144 | Children that all exit nonzero use every retry, then fail. |
| Hangcheck.SuccessAfterRetries | hangcheck.c:108-139 | Children that fork and exit nonzero, then one that exits with code 0 within MAX_RETRIES: success at that attempt with no exec. |
| Hangcheck.NoChildCommand | hangcheck.c:93-96 | Fewer than two arguments: failure, no fork. |
| Hangcheck.RetriesExhausted | hangcheck.c:108-144 | Five children exiting 1: five forks, then failure. |
| FauxRogue.StepTowardZero | tests/faux-rogue.c:23-28 | The written count is one step closer to zero, never past it, and keeps its sign. |
| FauxRogue.ActionIff | tests/faux-rogue.c:36-49 | Hang iff n < 0, fail iff n > 0, succeed iff n = 0. |
| FauxRogue.Overwrite | tests/faux-rogue.c:30-31 | The written text replaces the start of the file. A longer old content keeps its tail (no truncation). |
| FauxRogue.ReadBack | tests/faux-rogue.c:19-31 | A count written with "%d\n" is read back by "%d", whatever follows. |
| FauxRogue.ReadAfterWrite | tests/faux-rogue.c:19-31 | After the overwrite, the next fscanf reads the written count, whatever the old file held. |
| FauxRogue.UnparsableIsZero | tests/faux-rogue.c:15-22 | A file starting with something other than blank, sign or digit gives count 0. |
| FauxRogue.BlankIsZero | tests/faux-rogue.c:15-22 | An empty or blank file gives count 0. |
| FauxRogue.GetAction | tests/faux-rogue.c:13-52 | The action is `ActionOf` the old files. Only the fail file changes, and only when it opens: it gets the stepped count. |
| FauxRogue.LegacyGetAction | faux-rogue.c:10-43 | The same action and file update in the older variant, with the action chosen succeed-first. |
| FauxRogue.ExitStatus | tests/faux-rogue.c:73-85 | 0 iff succeed, 127 iff fail. A hang gives 1 + unslept below 98 unslept seconds, and 99 from 98 on. |
| FauxRogue.FauxRogueMain | tests/faux-rogue.c:62-86 | SIGTERM during the delay exits 0 with the file untouched. Otherwise the file takes one step, and the status is `ExitStatus`, or 0 when SIGTERM cuts a hang short. |
| FauxRogue.LegacyFauxRogueMain | faux-rogue.c:47-69 | The file takes one step, and the status is `ExitStatus` of the action. |
| FauxRogue.NoPathSucceeds | faux-rogue.c:12-13 | With no path argument and no FAILCOUNT, the files are untouched and the run succeeds. |
| FauxRogue.NextReadsStep | tests/faux-rogue.c:19-31 | The next run reads the count this run wrote back. |
| FauxRogue.RunsFollowCount | tests/faux-rogue.c:23-50 | When a file reads back the stepped count, consecutive runs follow the count alone. |
| FauxRogue.ActionsFollowCount | tests/faux-rogue.c:13-52 | The actions of k consecutive runs against the fail file equal the countdown from its stored count. |
| FauxRogue.CountdownOf | tests/faux-rogue.c:23-50 | From count n, the first abs(n) runs take n's action, and every later run succeeds. |
| FauxRogue.Countdown | tests/faux-rogue.c:13-52 | From a stored n, the first abs(n) runs fail (n > 0) or hang (n < 0), and every later run succeeds. |
| FauxRogue.PreparedFile | tests/faux-rogue.c:13-52 | A file prepared with "%d\n" of n gives abs(n) failing or hanging runs, then successes. |

## Left out

- fork, execv, kill, sleep, waitpid, glob and fopen are operating-system
  calls. They are inputs (per-attempt outcomes, a snapshot script, a file
  map) or recording objects, and are not modelled as processes.
- `exit_reason_child_trap` runs asynchronously in a signal handler. The
  model fixes the point where it runs. In yoyo the status it delivered
  is part of each attempt (`Supervisor.AwaitChild`). In hangcheck it
  runs during a chosen sleep (`Hangcheck.ChildWorld.Sleep`). Only the pid
  guard (src/yoyo.c:395) is kept.
- Logging (`errorf`, `errnof`, verbosity), `print_help`, `--version`
  output, and the `getopt_long`/`atoi`/`getenv` parsing are not modelled.
  Only the default clamping is modelled, and parsing starts from an
  `Options` value.
- The older `yoyo_main` (yoyo.c:72-167) is `Supervisor.LegacyYoyoMain`.
  It shares the retry loop with `Supervisor.RetryLoop`. Its children's
  exec call and verbose output are not modelled beyond the world's
  per-attempt outcomes.
- The monitor in yoyo.c:391-433 is `Monitor.MonitorChildForHang` with a
  yield of 1 second instead of 0.
- hangcheck.c's `appendf`, `exit_reason_set` and `exit_reason_to_str`
  (hangcheck.c:200-293) are the same code as yoyo.c's. They share
  `Format` and `ExitReasons`.
- Monitor.MonitorChildForHang: `hang_count` is a natural number. The
  32-bit wrap of `unsigned int` after 2^32 hangs is not modelled.
- Supervisor.YoyoMain does not call `Monitor.MonitorChildForHang`. The
  monitor's signals and sleeps are proved on their own. The retry loop
  sees only the status the handler delivered during the monitor.
- Format.ExitReasonToStr and Sampler.ThreadStateFromPath treat the pid as
  an unbounded integer. The source prints a `long` with `%d`
  (yoyo.c:508) and scans `%d` into a `long` (yoyo.c:246-248). Both are
  undefined for pids outside the `int` range, which is not modelled.
- Monitor.Env.Kill: `kill` always succeeds. Its error is only logged in
  the source.
- Hangcheck.MonitorChildForHang requires a reaped status that decodes as
  a normal exit. For any other status `reason->exited` stays false, and
  the source loops forever.
- Hangcheck.HangcheckMain: an attempt carries only an exit code. The
  monitor returns only once `reason->exited` is set (hangcheck.c:179), so
  `assert(reason.exited)` (hangcheck.c:131) always holds. A child that
  dies any other way leaves the source looping forever, as the line above
  says. The child's `exit(rv)` after a failed execv is modelled as
  returning rv.
- FauxRogue.ReadCount: `%d` is read as an unbounded integer. The
  overflow of a count outside the `int` range is not modelled.
- Sampler.StatPattern: the pattern is built as a string of any length.
  The overflow of the `FILENAME_MAX + 3` buffer by a long fake root is not
  modelled.
- Sampler.GetStatesProc: when `state_list_new` fails, the source calls
  `exit(EXIT_FAILURE)`. The model returns NULL with nothing allocated.
- Sampler.Slurped: `fread` errors and partial reads are not modelled. A
  file is readable in full or not at all.
- Sampler.CommWithSpaceMisparses: the `%*s` conversion for the command
  name breaks on names containing spaces. The lemma records this
  fragility; it is not intended behaviour.
- FauxRogue.LegacyFauxRogueMain: the older faux-rogue has no SIGTERM
  handler, so a SIGTERM kills it. That termination is not modelled.
- The expectation in tests/test_qemu_states.c that counters advancing 2-4
  ticks per sample look hung contradicts the one-tick tolerance of
  src/yoyo.c:229-230. It is not encoded.
- `term_then_kill` is not defined in any of the source files and is not
  modelled.
