/** The exit codes by which maxtime reports its own failures (maxtime.c, ERR_* constants).
    They are the program's wire contract with calling scripts. */
module ExitCodes {

  datatype Option<T> = None | Some(value: T)

  /** One constructor per ERR_* constant of the program. */
  datatype Error =
    | Argc      // too few command-line arguments
    | Args      // invalid option
    | SigAct    // a signal handler could not be installed
    | Fork      // the child process could not be created
    | Exec      // the command could not be executed (reported by the child)
    | Signaled  // the command timed out or was terminated by a signal
    | Malloc    // out of memory
    | FpConv    // the period is not a number
    | FpVal     // the period is zero or negative
    | Timer     // the interval timer could not be set

  /** Failure of a step that yields a value: the value, or the error that ends the program. */
  datatype Result<T> = Ok(value: T) | Fail(error: Error)

  /** The numeric exit code of an error. Every code lies in the reserved range 101..110
      and decodes back to its error, so no two errors share a code. */
  function Code(e: Error): (c: int)
    ensures 101 <= c <= 110
    ensures Decode(c) == Some(e)
  {
    match e
    case Argc => 101
    case Args => 102
    case SigAct => 103
    case Fork => 104
    case Exec => 105
    case Signaled => 106
    case Malloc => 107
    case FpConv => 108
    case FpVal => 109
    case Timer => 110
  }

  /** What a calling script can read from an exit code: the error it stands for, if any. */
  function Decode(c: int): (r: Option<Error>)
    ensures r.Some? <==> 101 <= c <= 110
  {
    if c == 101 then Some(Argc)
    else if c == 102 then Some(Args)
    else if c == 103 then Some(SigAct)
    else if c == 104 then Some(Fork)
    else if c == 105 then Some(Exec)
    else if c == 106 then Some(Signaled)
    else if c == 107 then Some(Malloc)
    else if c == 108 then Some(FpConv)
    else if c == 109 then Some(FpVal)
    else if c == 110 then Some(Timer)
    else None
  }

  /** The error constants are pairwise distinct. */
  lemma CodesDistinct(e1: Error, e2: Error)
    ensures Code(e1) == Code(e2) ==> e1 == e2
  {
    if Code(e1) == Code(e2) {
      assert Some(e1) == Decode(Code(e1)) == Decode(Code(e2)) == Some(e2);
    }
  }
}
