# maxtime in Dafny

maxtime runs a command with a limit on its real (wall-clock) time:
`maxtime [-g] [-k] [-v] [-w] [--] <time> <command> [<arg> ...]`. It checks its
arguments, forks the command, arms a periodic real-time interval timer with the period,
and waits. If the timer expires first, the SIGALRM handler `cexpired` sends TERM to the
child, or to its process group with `-g`. With `-k` it sends KILL after a grace
interval of 100000 µs when TERM was delivered. With `-w` it waits for the child. maxtime
then exits with the child's own status, or with 106 when the child was timed out or ended
by a signal. Its own failures have the codes 101..110.

The model has seven modules, one per part of the program:

- `ExitCodes` (exit_codes.dfy): the `ERR_*` constants as an `Error` datatype, their codes
  and their decoding, and the `Result`/`Option` wrappers.
- `Options` (options.dfy): the getopt loop with the option string `"+gkvw"`. `Getopt` is
  the reference definition. `GetOpts` is the loop itself, proved equal to it.
- `Startup` (startup.dfy): the checks on the operand count and on the period, in the
  order the program makes them.
- `Outcome` (outcome.dfy): how the wait status and the `killed` flag become the exit code.
- `IntervalTimer` (interval_timer.dfy): splitting the period into seconds and
  microseconds for `setitimer`.
- `Escalation` (escalation.dfy): the handler's globals as a class `Controller`. Its
  method `Expire` is `cexpired`, and it records the handler's effects in an action trace.
- `Supervisor` (supervisor.dfy): the control flow of `main` as a function `Main`, which
  arms the timer as written. `MainCorrected` is the same run with the corrected split.
  `Execute` is `main` step by step, driving the `Controller`, and is proved equal to `Main`.
  The answers of the operating system (allocation, sigaction, fork, exec, setitimer, how
  the command ends, whether the timer expired) are inputs.

## Model

| member | source | states |
|---|---|---|
| ExitCodes.Code | maxtime.c:31-40 | every error has a code in 101..110 that decodes back to it |
| ExitCodes.Decode | maxtime.c:31-40 | an exit code names an error of maxtime exactly when it lies in 101..110 |
| ExitCodes.CodesDistinct | maxtime.c:31-40 | no two error constants share a code |
| Options.ScanEnd | maxtime.c:97-99 | option parsing stops at the first argument after argv[0] that is not an option cluster; every argument before it is one |
| Options.Getopt | maxtime.c:97-107 | the reference option loop: an invalid option character in any cluster gives ERR_ARGS; otherwise each flag is set exactly when its letter is given, and optind is the stopping point, one past it when that argument is `--` |
| Options.GetOpts | maxtime.c:99-107 | the getopt loop, character by character, returns exactly what Getopt defines |
| Options.ScanEndIs | maxtime.c:97-99 | the stopping point is unique: it is the index such that every argument before it is a cluster and it is not one |
| Options.ScanEndAtLeast | maxtime.c:97-99 | parsing runs at least past every argument in an unbroken run of clusters |
| Options.StopsAtFirstOperand | maxtime.c:97-107 | arguments after the first operand, including ones that look like options, do not change the result of option parsing |
| Options.RepeatedClusterIsIdempotent | maxtime.c:100-106 | flags are only ever set: repeating an option cluster gives the same flags (or the same ERR_ARGS) and moves optind by one |
| Startup.CheckArgs | maxtime.c:108-124 | ERR_ARGS iff an option was invalid; ERR_ARGC iff fewer than two operands; ERR_FPCONV iff sscanf matches nothing; ERR_FPVAL iff the period is not positive or the argument is blank; otherwise the configuration has the flags, the positive period, and as command exactly the arguments after the period |
| Startup.ParseCommandLine | maxtime.c:99-124 | the option loop followed by the checks gives the same result as the reference definitions |
| Startup.InvalidOptionFirst | maxtime.c:99-111 | an invalid option gives ERR_ARGS whatever follows it, with no operand at all included |
| Startup.BlankPeriodIsNonPositive | maxtime.c:112-122 | a blank period is reported as ERR_FPVAL, not as ERR_FPCONV |
| Startup.RepeatedOptionSameConfig | maxtime.c:99-124 | repeating an option gives the same configuration |
| Startup.CheckArgsShift | maxtime.c:108-124 | the checks read only the arguments from optind on: one more argument before them, with optind moved past it, gives the same result |
| Outcome.ExitCode | maxtime.c:194-201 | the exit code is the child's WEXITSTATUS exactly when the child exited normally and `killed` is not set; otherwise it is ERR_SIGNALED |
| Outcome.NonSignaledCodeIsChildStatus | maxtime.c:195-201 | any exit code other than 106 is the child's own status after a normal exit and no timeout; a code of 128 or more is never a signal report |
| Outcome.ReservedCodesCollide | maxtime.c:195-201 | a child exiting with a reserved code, 106 included, is reported as that same code and cannot be told from maxtime's own error |
| IntervalTimer.SplitAsWritten | maxtime.c:183-185 | the split as written: a valid timeval, no longer than the period and less than 1 µs short of it |
| IntervalTimer.SubMicrosecondPeriodDisarms | maxtime.c:119-190 | a positive period of 0.1 µs passes the period check but splits to a zero timer value, which disarms the timer |
| IntervalTimer.Split | maxtime.c:183-185 | corrected: the split as intended, never zero, valid, within 1 µs of the period, and equal to the written split whenever that is nonzero |
| IntervalTimer.WrittenTimer | maxtime.c:183-185 | the timer main arms as written: periodic (value equals interval), disarming exactly when the truncating split is zero, and never disarming for a period of 1 µs or more |
| IntervalTimer.TimerFor | maxtime.c:183-190 | the corrected timer: periodic, never disarming, and equal to the written timer whenever that one arms |
| Escalation.ExpiryOrder | maxtime.c:63-74 | the handler restores the timer and sets `killed` before any signal; TERM is its third action and goes to -cpid with -g, to cpid otherwise; every signal goes to that one target; KILL only right after TERM and one grace interval |
| Escalation.ExpiryCounts | maxtime.c:70-78 | TERM is sent once; KILL is sent iff TERM was delivered and -k is set, at most once, and the grace sleep happens under the same condition; the wait happens iff -w is set, and only as the last action |
| Escalation.FiringsConsistent | maxtime.c:60-79 | over any number of handler runs the trace keeps the invariant: empty iff the handler never ran, signals after `killed`, one target, KILL only after TERM and a grace interval |
| Escalation.Controller.constructor | maxtime.c:50-54 | the parent's globals after fork: the flags, the child's pid, `killed` clear, an empty trace |
| Escalation.Controller.ArmTimer | maxtime.c:190 | setitimer installs the new setting and saves the one it replaces |
| Escalation.Controller.Expire | maxtime.c:60-79 | one run of cexpired: the timer goes back to the saved setting, `killed` is set, the trace grows by exactly the handler's actions, and the invariant is kept |
| Escalation.Controller.Classify | maxtime.c:195-201 | the exit code main computes from the stored status and `killed`, which is ExitCode of the two; any code other than 106 means `killed` is clear |
| Supervisor.Main | maxtime.c:99-201 | main as written: an argument error exits with its code before anything is created; the child runs exactly the operands after the period; the armed timer is the truncating split, periodic, and disarming exactly when that split is zero; the handler runs exactly when an armed timer expires, and then the exit is 106; otherwise the exit is the child's status or ERR_EXEC; every run that does not reach the wait exits with a code in 101..110 other than 105 and 106 |
| Supervisor.MainCorrected | maxtime.c:183-201 | main with the corrected split: the armed timer never disarms, so the handler runs exactly when the timer expires; the run is the same as main's whenever the written split is nonzero, and whenever the wait is not reached |
| Supervisor.Parent | maxtime.c:183-201 | the parent's steps on the handler's globals (Controller construction, ArmTimer, Expire when the armed timer expires, Classify) arm the written timer and give the handler's actions and the exit code that main defines |
| Supervisor.Execute | maxtime.c:99-201 | the checks in order, each failure ending the program, then the parent's steps, give exactly the run of main |
| Supervisor.CommandInTime | maxtime.c:194-201 | a command that exits with c before the timer makes maxtime exit with c without sending a signal; the same command interrupted by an armed timer gives 106 |
| Supervisor.TimeoutEscalates | maxtime.c:65-74 | a timeout with -k, after TERM was delivered, sends TERM, sleeps one grace interval, then sends KILL, all to the same target, which is the process group with -g |
| Supervisor.SubMicrosecondRunNeverTimesOut | maxtime.c:119-201 | `maxtime 0.0000001 sleep 100` with every system call succeeding: main as written arms a disarming timer, sends no signal even after the period, and returns the command's own status; with the corrected split the run is timed out with 106 |

## Left out

- fork, execvp, setpgid, sigaction, sigemptyset, malloc and setitimer are not executed. Their outcomes are inputs of `Supervisor.Main` (the `Os` datatype). Whether `setpgid` succeeds is not modelled. With -g, a failed `setpgid`, or one that has not run yet when the timer fires, means no process group `cpid` exists, so `kill(-cpid, SIGTERM)` fails, no signal reaches the command, and no KILL follows. The model covers that run only because whether TERM was delivered (`termDelivered`) is a free input.
- sscanf with `%f` is an abstract parameter of type `string -> Scan`. The period is a real rather than a C `float`, so rounding to float precision is not modelled. `Converted(real)` cannot hold the NaN and infinity values that `%f` accepts: "nan" passes the check `period <= 0` and reaches the `(long)` cast, which is undefined for NaN, for infinity and for periods above LONG_MAX. Those runs are not modelled.
- IntervalTimer.SplitAsWritten: the product `(period - (long)period) * 1000000` is computed in `float` and rounded before it is truncated. The model truncates the exact product. So for "0.000001" (the float 9.99999997e-7) the program arms 1 µs where the model gives 0 µs, and for "0.000002" the program arms 2 µs, longer than the float period, against the model's "no longer than the period". The threshold below which the timer disarms is about 1 µs, not exactly 1 µs.
- The asynchrony of SIGALRM is reduced to one boolean: whether the handler ran before `main` read `killed`. Interleavings inside the handler or inside `main` are not modelled.
- `Escalation.Controller.Expire`: the results of `setitimer`, `kill(SIGKILL)`, `usleep` and `wait` in the handler are ignored, as the program ignores them. Only whether `kill(SIGTERM)` returned 0 is an input. The grace interval is recorded as an action, not as time that passes.
- The status that the wait in `main` reports after the handler has already reaped the child (with `-w`) is not modelled. Once `killed` is set the exit code is 106 whatever that status is.
- The `-v` diagnostics, `usage()` text, the DEBUG output and the version string are not modelled. `opt_v` is kept as a flag.
- A SIGALRM that arrives before the timer is armed, or from another process, is not modelled.
- How `execvp` resolves the command through PATH is not modelled. Only the argument vector handed to it is.
- The manual says that codes 128 and up mean the command died of a signal, and that codes 1 to 100 are the command's failures. The code passes WEXITSTATUS on unchanged and reports every signal as 106, so the model follows the code. `Outcome.NonSignaledCodeIsChildStatus` and `Outcome.ReservedCodesCollide` state this.
- A blank period argument makes sscanf return EOF, which `!sscanf` does not catch. The period then keeps its initial value 0 and the result is ERR_FPVAL, where the manual promises ERR_FPCONV for an invalid number. The model follows the code (`Startup.BlankPeriodIsNonPositive`).

## Findings

| source | as written | input that shows it | evidently intended | confidence | as-written member | corrected member |
|---|---|---|---|---|---|---|
| maxtime.c:183-185 | a positive period below about 1 µs is truncated to 0 s + 0 µs; setitimer with a zero it_value disarms the timer, so the command is never timed out | `maxtime 0.0000001 sleep 100` | any positive period arms the timer, so the split should be at least 1 µs | high, not executed | IntervalTimer.SplitAsWritten (with IntervalTimer.SubMicrosecondPeriodDisarms and Supervisor.SubMicrosecondRunNeverTimesOut) | IntervalTimer.Split (used by IntervalTimer.TimerFor in Supervisor.MainCorrected) |
