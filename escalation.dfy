/** The SIGALRM handler cexpired (maxtime.c:60-79) and the global state it works on.
    The handler restores the timer saved when main armed it, sets `killed`, sends TERM to the
    child (or to its process group with -g), sends KILL after a grace interval when TERM
    was delivered and -k is given, and reaps the child when -w is given. Its effects are
    recorded, in order, in a trace of actions; the results of the system calls it ignores
    are not modelled, and the one it tests, kill(TERM), is a parameter. */
module Escalation {
  import opened Options
  import opened IntervalTimer
  import opened Outcome

  /** WAITSIGINTERVAL: the grace interval between TERM and KILL, in microseconds. */
  const WaitSigInterval: nat := 100000

  datatype Sig = Term | Kill

  /** The effects of the handler, in the order it performs them. */
  datatype Action =
    | RestoreTimer               // setitimer(ITIMER_REAL, oatimer, NULL)
    | SetKilled                  // killed = 1
    | Signal(target: int, sig: Sig)  // kill(target, SIGTERM or SIGKILL)
    | Sleep(us: nat)             // usleep(us)
    | Wait                       // wait(cstatus)

  /** The process the handler signals: the child's process group, named by the negated pid,
      with -g; the child alone otherwise. */
  function Convicts(cpid: int, g: bool): int {
    if g then -cpid else cpid
  }

  /** Every signal in the trace is sent after `killed` has been set. */
  predicate KilledBeforeSignals(t: seq<Action>) {
    forall i | 0 <= i < |t| && t[i].Signal? :: SetKilled in t[..i]
  }

  /** Every signal in the trace goes to the same target. */
  predicate SignalsTo(t: seq<Action>, target: int) {
    forall i | 0 <= i < |t| && t[i].Signal? :: t[i].target == target
  }

  /** Every KILL comes right after a TERM to the same target and one grace interval. */
  predicate KillAfterGrace(t: seq<Action>) {
    forall i | 0 <= i < |t| && t[i].Signal? && t[i].sig == Kill ::
      2 <= i && t[i - 1] == Sleep(WaitSigInterval) && t[i - 2] == Signal(t[i].target, Term)
  }

  /** The three properties hold of a trace when they hold of its two parts. */
  lemma TracePropertiesAppend(a: seq<Action>, b: seq<Action>, target: int)
    requires KilledBeforeSignals(a) && SignalsTo(a, target) && KillAfterGrace(a)
    requires KilledBeforeSignals(b) && SignalsTo(b, target) && KillAfterGrace(b)
    ensures KilledBeforeSignals(a + b) && SignalsTo(a + b, target) && KillAfterGrace(a + b)
  {
    var t := a + b;
    forall i | |a| <= i < |t| && t[i].Signal?
      ensures SetKilled in t[..i]
    {
      assert SetKilled in b[..i - |a|];
      assert t[..i] == a + b[..i - |a|];
    }
    forall i | 0 <= i < |a| && t[i].Signal?
      ensures SetKilled in t[..i]
    {
      assert t[..i] == a[..i];
    }
  }

  /** The invariant of the handler's state: `killed` is set exactly when the handler has run
      (its trace is not empty); every signal follows `killed`, goes to the target, and a KILL
      only right after a TERM and a grace interval. */
  predicate Consistent(killed: bool, trace: seq<Action>, target: int) {
    (killed <==> trace != []) &&
    KilledBeforeSignals(trace) && SignalsTo(trace, target) && KillAfterGrace(trace)
  }

  /** The actions of one run of the handler, as a function of the globals it reads and of
      whether kill(TERM) succeeded. */
  function ExpiryActions(cpid: int, g: bool, k: bool, w: bool, termDelivered: bool): seq<Action> {
    var target := Convicts(cpid, g);
    var terminated := [RestoreTimer] + [SetKilled] + [Signal(target, Term)];
    var escalated := if termDelivered && k then terminated + [Sleep(WaitSigInterval)] + [Signal(target, Kill)]
                     else terminated;
    if w then escalated + [Wait] else escalated
  }

  /** The order of the handler's actions: the timer is restored and `killed` set before
      anything else, so every signal follows `killed`; all signals go to the same target,
      and KILL only right after TERM and one grace interval. */
  lemma ExpiryOrder(cpid: int, g: bool, k: bool, w: bool, termDelivered: bool)
    ensures var r := ExpiryActions(cpid, g, k, w, termDelivered);
      |r| >= 3 && r[0] == RestoreTimer && r[1] == SetKilled && r[2] == Signal(Convicts(cpid, g), Term) &&
      KilledBeforeSignals(r) && SignalsTo(r, Convicts(cpid, g)) && KillAfterGrace(r)
  {
    var r := ExpiryActions(cpid, g, k, w, termDelivered);
    var target := Convicts(cpid, g);
    var kills := termDelivered && k;
    assert r == if kills && w then [RestoreTimer, SetKilled, Signal(target, Term), Sleep(WaitSigInterval), Signal(target, Kill), Wait]
      else if kills then [RestoreTimer, SetKilled, Signal(target, Term), Sleep(WaitSigInterval), Signal(target, Kill)]
      else if w then [RestoreTimer, SetKilled, Signal(target, Term), Wait]
      else [RestoreTimer, SetKilled, Signal(target, Term)];
    forall i | 0 <= i < |r| && r[i].Signal?
      ensures SetKilled in r[..i]
    {
      assert r[..i][1] == SetKilled;
    }
  }

  /** How many signals one run of the handler sends, and what else it does: one TERM, the
      third action; one KILL, after one grace interval, if and only if TERM was delivered and
      -k is given, and no other signal; a wait if and only if -w is given, and then only as
      the last action. */
  lemma ExpiryCounts(cpid: int, g: bool, k: bool, w: bool, termDelivered: bool)
    ensures var r := ExpiryActions(cpid, g, k, w, termDelivered);
      var target := Convicts(cpid, g);
      (forall i | 0 <= i < |r| && r[i].Signal? :: i == 2 || (i == 4 && r[i].sig == Kill)) &&
      (Signal(target, Kill) in r <==> termDelivered && k) &&
      (Sleep(WaitSigInterval) in r <==> termDelivered && k) &&
      (Wait in r <==> w) &&
      (forall i | 0 <= i < |r| && r[i] == Wait :: i == |r| - 1)
  {
    var r := ExpiryActions(cpid, g, k, w, termDelivered);
    var target := Convicts(cpid, g);
    var kills := termDelivered && k;
    assert r == if kills && w then [RestoreTimer, SetKilled, Signal(target, Term), Sleep(WaitSigInterval), Signal(target, Kill), Wait]
      else if kills then [RestoreTimer, SetKilled, Signal(target, Term), Sleep(WaitSigInterval), Signal(target, Kill)]
      else if w then [RestoreTimer, SetKilled, Signal(target, Term), Wait]
      else [RestoreTimer, SetKilled, Signal(target, Term)];
  }

  /** The trace of a sequence of runs of the handler, one per entry of deliveries (whether
      that run's kill(TERM) succeeded), oldest first. */
  function Firings(cpid: int, g: bool, k: bool, w: bool, deliveries: seq<bool>): seq<Action> {
    if deliveries == [] then []
    else Firings(cpid, g, k, w, deliveries[..|deliveries| - 1]) + ExpiryActions(cpid, g, k, w, deliveries[|deliveries| - 1])
  }

  lemma FiringsStep(cpid: int, g: bool, k: bool, w: bool, deliveries: seq<bool>, termDelivered: bool)
    ensures Firings(cpid, g, k, w, deliveries + [termDelivered]) ==
            Firings(cpid, g, k, w, deliveries) + ExpiryActions(cpid, g, k, w, termDelivered)
  {
    assert (deliveries + [termDelivered])[..|deliveries|] == deliveries;
  }

  /** However often the handler runs, its trace keeps the invariant: it is empty exactly
      when the handler never ran, every signal follows `killed`, all go to one target, and
      every KILL follows a TERM and a grace interval. */
  lemma {:induction false} FiringsConsistent(cpid: int, g: bool, k: bool, w: bool, deliveries: seq<bool>)
    ensures Consistent(deliveries != [], Firings(cpid, g, k, w, deliveries), Convicts(cpid, g))
  {
    if deliveries != [] {
      var earlier := deliveries[..|deliveries| - 1];
      FiringsConsistent(cpid, g, k, w, earlier);
      ExpiryOrder(cpid, g, k, w, deliveries[|deliveries| - 1]);
      TracePropertiesAppend(Firings(cpid, g, k, w, earlier),
                            ExpiryActions(cpid, g, k, w, deliveries[|deliveries| - 1]), Convicts(cpid, g));
    }
  }

  /** The globals of maxtime that the handler reads and writes. */
  class Controller {
    var optG: bool
    var optK: bool
    var optV: bool
    var optW: bool
    var cpid: int
    var killed: bool
    /** The current ITIMER_REAL setting. */
    var timer: ITimerVal
    /** oatimer: the setting that arming the timer replaced. */
    var savedTimer: ITimerVal
    /** The handler's effects so far, oldest first. */
    var trace: seq<Action>
    /** For each run of the handler so far, whether its kill(TERM) succeeded. */
    ghost var deliveries: seq<bool>

    /** The trace is that of the handler's runs so far, and `killed` is set exactly when the
        handler has run; FiringsConsistent gives the properties of such a trace. */
    ghost predicate Valid()
      reads this
    {
      trace == Firings(cpid, optG, optK, optW, deliveries) &&
      (killed <==> deliveries != [])
    }

    /** The parent's state right after fork: the flags from the option loop, the child's
        pid, `killed` still 0, and the timer setting the process started with. */
    constructor (flags: Flags, pid: int, initialTimer: ITimerVal)
      ensures Valid()
      ensures optG == flags.g && optK == flags.k && optV == flags.v && optW == flags.w
      ensures cpid == pid && !killed && timer == initialTimer && savedTimer == initialTimer
      ensures trace == [] && deliveries == []
    {
      optG, optK, optV, optW := flags.g, flags.k, flags.v, flags.w;
      cpid := pid;
      killed := false;
      timer, savedTimer := initialTimer, initialTimer;
      trace := [];
      deliveries := [];
    }

    /** setitimer(ITIMER_REAL, atimer, oatimer) (maxtime.c:190): arm the timer and keep the
        setting it replaces. */
    method ArmTimer(it: ITimerVal)
      requires Valid()
      modifies this`timer, this`savedTimer
      ensures Valid()
      ensures timer == it && savedTimer == old(timer)
    {
      savedTimer := timer;
      timer := it;
    }

    /** cexpired: one run of the SIGALRM handler. termDelivered is whether kill(TERM)
        returned 0. The timer goes back to the saved setting, which for a process started
        without a timer is Disarmed, so the periodic timer does not fire again. */
    method Expire(termDelivered: bool)
      requires Valid()
      modifies this`timer, this`killed, this`trace, this`deliveries
      ensures Valid()
      ensures deliveries == old(deliveries) + [termDelivered]
      ensures killed && timer == savedTimer
      ensures trace == old(trace) + ExpiryActions(cpid, optG, optK, optW, termDelivered)
    {
      // The actions of this run, in order; they are added to the trace when it returns.
      var acts := [RestoreTimer];
      timer := savedTimer;
      acts := acts + [SetKilled];
      killed := true;
      var convicts := Convicts(cpid, optG);
      acts := acts + [Signal(convicts, Term)];
      if termDelivered && optK {
        acts := acts + [Sleep(WaitSigInterval)];
        acts := acts + [Signal(convicts, Kill)];
      }
      if optW {
        acts := acts + [Wait];
      }
      assert acts == ExpiryActions(cpid, optG, optK, optW, termDelivered);
      FiringsStep(cpid, optG, optK, optW, deliveries, termDelivered);
      trace := trace + acts;
      deliveries := deliveries + [termDelivered];
    }

    /** The end of main (maxtime.c:195-201): the exit code from the status wait() stored
        and the `killed` flag as it stands after the wait. */
    method Classify(ws: WaitStatus) returns (code: Byte)
      ensures code == ExitCode(ws, killed)
      ensures code != 106 ==> !killed
    {
      code := ExitCode(ws, killed);
    }
  }
}
