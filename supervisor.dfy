/** The control flow of main (maxtime.c:89-203) with the operating system's answers as
    inputs: the argument checks, the resource and signal-handler set-up, fork, arming the
    timer, the handler if the timer expired, and the final classification. */
module Supervisor {
  import opened ExitCodes
  import opened Options
  import opened Startup
  import opened Outcome
  import opened IntervalTimer
  import opened Escalation

  /** What the system calls of main return, and what happens while it waits. */
  datatype Os = Os(
    childActionAlloc: bool,  // malloc for the SIGCHLD action (maxtime.c:130)
    childActionSet: bool,    // sigaction(SIGCHLD) (maxtime.c:139)
    forkPid: int,            // fork() as the parent sees it: negative on failure, else the child's pid
    execOk: bool,            // execvp in the child succeeded (maxtime.c:155)
    alarmActionAlloc: bool,  // malloc for the SIGALRM action (maxtime.c:160)
    alarmActionSet: bool,    // sigaction(SIGALRM) (maxtime.c:169)
    statusAlloc: bool,       // malloc for the wait status (maxtime.c:173)
    timerAlloc: bool,        // both mallocs for the timer values (maxtime.c:177-178)
    timerSet: bool,          // setitimer (maxtime.c:190)
    commandEnd: WaitStatus,  // how the command ends if it runs
    expired: bool,           // the handler ran before main read `killed`
    termDelivered: bool)     // kill(TERM) in the handler succeeded

  /** What one run of maxtime did: the command vector of the child it created, if any; the
      timer it armed, if any; the handler's actions; and its exit code. */
  datatype Run = Run(spawned: Option<seq<string>>, armed: Option<ITimerVal>, handler: seq<Action>, exit: int)

  /** A run whose child and timer were both set up, so that main reached its wait. */
  predicate Waited(r: Run) {
    r.spawned.Some? && r.armed.Some?
  }

  /** The control flow of main, arming either the timer as written or the corrected one.
      The handler runs only when the timer expired, which an armed timer that disarms never does. */
  function Supervise(argv: seq<string>, scan: string -> Scan, os: Os, corrected: bool): Run
    requires os.forkPid != 0
  {
    match Dispatch(argv, scan)
    case Fail(e) => Run(None, None, [], Code(e))
    case Ok(cfg) =>
      if !os.childActionAlloc then Run(None, None, [], Code(Malloc))
      else if !os.childActionSet then Run(None, None, [], Code(SigAct))
      else if os.forkPid < 0 then Run(None, None, [], Code(Fork))
      else
        var spawned := Some(cfg.command);
        if !os.alarmActionAlloc then Run(spawned, None, [], Code(Malloc))
        else if !os.alarmActionSet then Run(spawned, None, [], Code(SigAct))
        else if !os.statusAlloc || !os.timerAlloc then Run(spawned, None, [], Code(Malloc))
        else if !os.timerSet then Run(spawned, None, [], Code(Timer))
        else
          var armed := if corrected then TimerFor(cfg.period) else WrittenTimer(cfg.period);
          var fired := os.expired && !Disarms(armed);
          var handler :=
            if fired then ExpiryActions(os.forkPid, cfg.flags.g, cfg.flags.k, cfg.flags.w, os.termDelivered)
            else [];
          var status := if os.execOk then os.commandEnd else Exited(Code(Exec));
          Run(spawned, Some(armed), handler, ExitCode(status, fired))
  }

  /** Whether the handler ran in a run that reached the wait: the timer expired and the
      armed setting does not disarm it. */
  predicate Fired(r: Run, os: Os) {
    Waited(r) && os.expired && !Disarms(r.armed.value)
  }

  /** main as written: nothing is created when the arguments are rejected; the child runs
      exactly the operands after the period; the armed timer is the truncating split, which
      disarms exactly when that split is zero; the handler runs only when an armed timer
      expires, and then the result is ERR_SIGNALED; otherwise the result is the child's own
      status, or ERR_EXEC when execvp failed. */
  function Main(argv: seq<string>, scan: string -> Scan, os: Os): (r: Run)
    requires os.forkPid != 0
    ensures Dispatch(argv, scan).Fail? ==>
      r == Run(None, None, [], Code(Dispatch(argv, scan).error))
    ensures r.spawned.Some? ==>
      Dispatch(argv, scan).Ok? && r.spawned.value == Dispatch(argv, scan).value.command &&
      r.spawned.value == argv[Getopt(argv).optind + 1..]
    ensures r.armed.Some? ==>
      r.spawned.Some? && r.armed.value == WrittenTimer(Dispatch(argv, scan).value.period) &&
      r.armed.value.value == r.armed.value.interval &&
      (Disarms(r.armed.value) <==> SplitAsWritten(Dispatch(argv, scan).value.period) == Zero)
    ensures r.handler != [] <==> Fired(r, os)
    ensures Fired(r, os) ==>
      var flags := Dispatch(argv, scan).value.flags;
      r.handler == ExpiryActions(os.forkPid, flags.g, flags.k, flags.w, os.termDelivered) &&
      r.exit == Code(Signaled)
    ensures Waited(r) && !Fired(r, os) ==>
      r.exit == if !os.execOk then Code(Exec) else ExitCode(os.commandEnd, false)
    ensures !Waited(r) ==> r.exit in {101, 102, 103, 104, 107, 108, 109, 110}
  {
    Supervise(argv, scan, os, false)
  }

  /** main with the corrected split: the same run, except that the armed timer never
      disarms, so an expiry always runs the handler. */
  function MainCorrected(argv: seq<string>, scan: string -> Scan, os: Os): (r: Run)
    requires os.forkPid != 0
    ensures r.armed.Some? ==>
      r.spawned.Some? && Dispatch(argv, scan).Ok? &&
      r.armed.value == TimerFor(Dispatch(argv, scan).value.period) && !Disarms(r.armed.value)
    ensures r.handler != [] <==> Waited(r) && os.expired
    ensures Waited(r) && os.expired ==> r.exit == Code(Signaled)
    ensures Waited(r) && !os.expired ==>
      r.exit == if !os.execOk then Code(Exec) else ExitCode(os.commandEnd, false)
    ensures (Dispatch(argv, scan).Ok? && SplitAsWritten(Dispatch(argv, scan).value.period) != Zero) ==>
      r == Main(argv, scan, os)
    ensures !Waited(r) ==> r == Main(argv, scan, os)
  {
    Supervise(argv, scan, os, true)
  }

  /** The parent once its set-up succeeded (maxtime.c:183-201): the globals the handler
      sees, the timer armed with the written split, the handler if that timer expired, and
      the classification of the status wait() stores. The process starts with no timer. */
  method Parent(cfg: Config, os: Os) returns (armed: ITimerVal, handler: seq<Action>, code: Byte)
    requires cfg.period > 0.0
    ensures armed == WrittenTimer(cfg.period)
    ensures var fired := os.expired && !Disarms(armed);
      handler == (if fired then ExpiryActions(os.forkPid, cfg.flags.g, cfg.flags.k, cfg.flags.w, os.termDelivered) else []) &&
      code == ExitCode(if os.execOk then os.commandEnd else Exited(Code(Exec)), fired)
  {
    var globals := new Controller(cfg.flags, os.forkPid, Disarmed);
    armed := WrittenTimer(cfg.period);
    globals.ArmTimer(armed);
    if os.expired && !Disarms(armed) {
      globals.Expire(os.termDelivered);
    }
    var status := if os.execOk then os.commandEnd else Exited(Code(Exec));
    code := globals.Classify(status);
    handler := globals.trace;
  }

  /** main as it runs: the checks in order, each failure ending the program, then the
      parent's part. */
  method Execute(argv: seq<string>, scan: string -> Scan, os: Os) returns (run: Run)
    requires os.forkPid != 0
    ensures run == Main(argv, scan, os)
  {
    var parsed := ParseCommandLine(argv, scan);
    if parsed.Fail? {
      return Run(None, None, [], Code(parsed.error));
    }
    var cfg := parsed.value;
    if !os.childActionAlloc {
      return Run(None, None, [], Code(Malloc));
    }
    if !os.childActionSet {
      return Run(None, None, [], Code(SigAct));
    }
    if os.forkPid < 0 {
      return Run(None, None, [], Code(Fork));
    }
    var spawned := Some(cfg.command);
    if !os.alarmActionAlloc {
      return Run(spawned, None, [], Code(Malloc));
    }
    if !os.alarmActionSet {
      return Run(spawned, None, [], Code(SigAct));
    }
    if !os.statusAlloc || !os.timerAlloc {
      return Run(spawned, None, [], Code(Malloc));
    }
    if !os.timerSet {
      return Run(spawned, None, [], Code(Timer));
    }
    var armed, handler, code := Parent(cfg, os);
    run := Run(spawned, Some(armed), handler, code);
  }

  /** A command that ends by itself with status c before the timer expires makes maxtime
      exit with c, and no signal is sent; the same command interrupted by an armed timer
      gives 106. */
  lemma CommandInTime(argv: seq<string>, scan: string -> Scan, os: Os, c: Byte)
    requires os.forkPid != 0 && os.execOk && os.commandEnd == Exited(c)
    requires Waited(Main(argv, scan, os))
    ensures !os.expired ==> Main(argv, scan, os).exit == c && Main(argv, scan, os).handler == []
    ensures os.expired && !Disarms(Main(argv, scan, os).armed.value) ==>
      Main(argv, scan, os).exit == Code(Signaled)
  {
  }

  /** A timeout with -k, after TERM was delivered, sends TERM, waits one grace interval and
      sends KILL to the same target, which with -g is the child's whole process group. */
  lemma TimeoutEscalates(argv: seq<string>, scan: string -> Scan, os: Os)
    requires os.forkPid != 0 && os.termDelivered
    requires Fired(Main(argv, scan, os), os)
    requires Dispatch(argv, scan).value.flags.k
    ensures var flags := Dispatch(argv, scan).value.flags;
      var handler := Main(argv, scan, os).handler;
      var target := Convicts(os.forkPid, flags.g);
      |handler| >= 5 &&
      handler[2] == Signal(target, Term) && handler[3] == Sleep(WaitSigInterval) &&
      handler[4] == Signal(target, Kill) &&
      KillAfterGrace(handler) && SignalsTo(handler, target) &&
      (flags.g ==> target == -os.forkPid)
  {
    var flags := Dispatch(argv, scan).value.flags;
    var handler := ExpiryActions(os.forkPid, flags.g, flags.k, flags.w, os.termDelivered);
    assert Main(argv, scan, os).handler == handler;
    ExpiryOrder(os.forkPid, flags.g, flags.k, flags.w, os.termDelivered);
    var target := Convicts(os.forkPid, flags.g);
    assert handler[..5] == [RestoreTimer, SetKilled, Signal(target, Term), Sleep(WaitSigInterval), Signal(target, Kill)];
  }

  /** The finding of the split, as a run: with the period "0.0000001" and every system call
      succeeding, main as written arms a timer that disarms, so even a command that outlives
      the period is never signalled and its own status is returned; with the corrected split
      the same run is timed out. */
  lemma SubMicrosecondRunNeverTimesOut(scan: string -> Scan, os: Os)
    requires scan("0.0000001") == Converted(1.0 / 10000000.0)
    requires os.forkPid > 0 && os.execOk && os.commandEnd == Exited(0) && os.expired
    requires os.childActionAlloc && os.childActionSet && os.alarmActionAlloc && os.alarmActionSet
    requires os.statusAlloc && os.timerAlloc && os.timerSet
    ensures var argv := ["maxtime", "0.0000001", "sleep", "100"];
      var written := Main(argv, scan, os);
      var corrected := MainCorrected(argv, scan, os);
      Waited(written) && Disarms(written.armed.value) && written.handler == [] && written.exit == 0 &&
      corrected.handler != [] && corrected.exit == Code(Signaled)
  {
    var argv := ["maxtime", "0.0000001", "sleep", "100"];
    ScanEndIs(argv, 1, 1);
    assert !HasBadOption(argv, 1);
    assert Getopt(argv) == Parsed(Flags(false, false, false, false), 1);
    SubMicrosecondPeriodDisarms();
  }
}
