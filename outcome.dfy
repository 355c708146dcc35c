/** How main turns the child's wait status and the `killed` flag into its own exit code
    (maxtime.c:194-201). */
module Outcome {
  import opened ExitCodes

  /** An exit status as WEXITSTATUS extracts it: the low eight bits of the child's exit value. */
  type Byte = x: int | 0 <= x < 256

  /** The status wait() stores: the child exited (WIFEXITED) with a status, or it was
      ended by a signal. */
  datatype WaitStatus = Exited(status: Byte) | BySignal(signal: nat)

  /** The exit code of maxtime once the child is gone. The child's own status is passed on,
      whatever its value in 0..255, exactly when the child exited by itself and the expiry
      handler has not run; in every other case the result is ERR_SIGNALED (106): after a
      timeout even if the child exited normally, and after a signal from anyone. */
  function ExitCode(ws: WaitStatus, killed: bool): (code: Byte)
    ensures ws.Exited? && !killed ==> code == ws.status
    ensures killed || ws.BySignal? ==> code == Code(Signaled)
  {
    if ws.Exited? && !killed then ws.status else Code(Signaled)
  }

  /** What a calling script may conclude from an exit code other than 106: the child exited
      by itself with that status and was not timed out. In particular maxtime never reports
      a signal as 128 or more; a code of 128 and up is the child's own exit status. */
  lemma NonSignaledCodeIsChildStatus(ws: WaitStatus, killed: bool)
    ensures ExitCode(ws, killed) != Code(Signaled) ==>
      ws.Exited? && !killed && ExitCode(ws, killed) == ws.status
    ensures ExitCode(ws, killed) >= 128 ==> ws.Exited? && ws.status >= 128
  {
  }

  /** The reserved codes are not protected: a child that exits with 106, or with any other
      code of 101..110, is indistinguishable from maxtime's own report. */
  lemma ReservedCodesCollide(e: Error)
    ensures ExitCode(Exited(Code(e)), false) == Code(e)
    ensures ExitCode(Exited(Code(Signaled)), false) == ExitCode(BySignal(15), true)
  {
  }
}
