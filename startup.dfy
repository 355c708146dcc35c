/** The checks main makes on its arguments before anything else (maxtime.c:99-124):
    an invalid option, too few operands, a period that is not a number, a period that is
    not positive. Each ends the program with its own exit code before a child is created;
    otherwise the result is the run's configuration. */
module Startup {
  import opened ExitCodes
  import opened Options

  /** What sscanf(arg, "%f", &period) reports: one conversion and the value it stored
      (after rounding to float), no match (it returns 0), or the end of the input reached
      before any conversion (it returns EOF: an empty or all-blank argument). */
  datatype Scan = Converted(value: real) | NoMatch | NoInput

  /** The configuration of a run: the option flags, the period in seconds and the command
      vector handed to execvp. */
  datatype Config = Config(flags: Flags, period: real, command: seq<string>)

  /** The checks after the option loop (maxtime.c:108-124), with scan standing for sscanf.
      `!sscanf(...)` is false for EOF, so an argument with no input leaves period at its
      static initial value 0 and is rejected as non-positive, not as unparsable. */
  function CheckArgs(argv: seq<string>, opts: OptResult, scan: string -> Scan): (r: Result<Config>)
    ensures r == Fail(Args) <==> opts.BadOption?
    ensures r == Fail(Argc) <==> opts.Parsed? && |argv| < opts.optind + 2
    ensures r == Fail(FpConv) <==>
      opts.Parsed? && opts.optind + 2 <= |argv| && scan(argv[opts.optind]) == NoMatch
    ensures r == Fail(FpVal) <==>
      opts.Parsed? && opts.optind + 2 <= |argv| &&
      match scan(argv[opts.optind])
      case Converted(p) => p <= 0.0
      case NoInput => true
      case NoMatch => false
    ensures r.Fail? ==> r.error in {Args, Argc, FpConv, FpVal}
    ensures r.Ok? ==>
      opts.Parsed? && opts.optind + 2 <= |argv| &&
      scan(argv[opts.optind]) == Converted(r.value.period) && r.value.period > 0.0 &&
      r.value.flags == opts.flags &&
      r.value.command == argv[opts.optind + 1..] && |r.value.command| >= 1 &&
      r.value.command[0] == argv[opts.optind + 1]
  {
    match opts
    case BadOption => Fail(Args)
    case Parsed(flags, optind) =>
      if |argv| < optind + 2 then Fail(Argc)
      else
        var scanned := scan(argv[optind]);
        if scanned == NoMatch then Fail(FpConv)
        else
          var period := if scanned.Converted? then scanned.value else 0.0;
          if period <= 0.0 then Fail(FpVal)
          else Ok(Config(flags, period, argv[optind + 1..]))
  }

  /** Everything main decides from its arguments alone. */
  function Dispatch(argv: seq<string>, scan: string -> Scan): Result<Config> {
    CheckArgs(argv, Getopt(argv), scan)
  }

  /** The start of main as it runs: the option loop, then the checks. */
  method ParseCommandLine(argv: seq<string>, scan: string -> Scan) returns (r: Result<Config>)
    ensures r == Dispatch(argv, scan)
  {
    var opts := GetOpts(argv);
    r := CheckArgs(argv, opts, scan);
  }

  /** An invalid option is reported before any operand is looked at: however few operands
      there are (none at all included) and whatever follows, the exit code is ERR_ARGS. */
  lemma InvalidOptionFirst(argv: seq<string>, scan: string -> Scan, rest: seq<string>)
    requires Getopt(argv) == BadOption
    ensures Dispatch(argv, scan) == Fail(Args)
    ensures Dispatch(argv + rest, scan) == Fail(Args)
  {
    var e := ScanEnd(argv, 1);
    var argv' := argv + rest;
    var i, j :| 1 <= i < e && i < |argv| && 1 <= j < |argv[i]| && !IsFlag(argv[i][j]);
    assert forall m | 0 <= m < |argv| :: argv'[m] == argv[m];
    ScanEndAtLeast(argv', 1, i + 1);
    assert argv'[i] == argv[i];
    assert HasBadOption(argv', ScanEnd(argv', 1));
  }

  /** A blank period (sscanf returns EOF) is reported as a non-positive period, ERR_FPVAL,
      where the manual describes ERR_FPCONV for a time that is not a valid number. */
  lemma BlankPeriodIsNonPositive(scan: string -> Scan)
    requires scan("") == NoInput
    ensures Dispatch(["maxtime", "", "true"], scan) == Fail(FpVal)
  {
    var argv := ["maxtime", "", "true"];
    ScanEndIs(argv, 1, 1);
    assert !HasBadOption(argv, 1);
  }

  /** Repeating an option, as in `maxtime -k -k 5 cmd`, yields the same configuration. */
  lemma RepeatedOptionSameConfig(argv: seq<string>, scan: string -> Scan, i: nat)
    requires 1 <= i < ScanEnd(argv, 1)
    ensures Dispatch(Repeat(argv, i), scan) == Dispatch(argv, scan)
  {
    var argv' := Repeat(argv, i);
    RepeatedClusterIsIdempotent(argv, i);
    var opts := Getopt(argv);
    if opts.Parsed? {
      CheckArgsShift(argv, argv', opts.flags, opts.optind, scan);
    }
  }

  /** The checks read only the operands from optind on, so an extra argument before them,
      with optind moved past it, changes nothing. */
  lemma CheckArgsShift(argv: seq<string>, argv': seq<string>, flags: Flags, optind: nat, scan: string -> Scan)
    requires |argv'| == |argv| + 1
    requires forall m | optind <= m < |argv| :: argv'[m + 1] == argv[m]
    ensures CheckArgs(argv', Parsed(flags, optind + 1), scan) == CheckArgs(argv, Parsed(flags, optind), scan)
  {
    if optind + 2 <= |argv| {
      assert argv'[optind + 1] == argv[optind];
      assert argv'[optind + 2..] == argv[optind + 1..];
    }
  }
}
