/** The real-time interval timer main arms with the period (maxtime.c:177-192):
    the period in seconds is split into whole seconds and microseconds, and the same value
    is used for the first expiry and for the reload interval. */
module IntervalTimer {

  const MicrosPerSecond: int := 1000000

  /** struct timeval: seconds and microseconds. */
  datatype TimeVal = TimeVal(sec: int, usec: int)

  const Zero := TimeVal(0, 0)

  /** struct itimerval: the time to the next expiry and the reload interval. */
  datatype ITimerVal = ITimerVal(value: TimeVal, interval: TimeVal)

  /** The setting of a process that has no timer running. */
  const Disarmed := ITimerVal(Zero, Zero)

  /** setitimer with a zero it_value does not arm the timer: it disarms it. */
  predicate Disarms(it: ITimerVal) {
    it.value == Zero
  }

  /** The length of a timeval in seconds. */
  function Seconds(t: TimeVal): real {
    t.sec as real + t.usec as real / MicrosPerSecond as real
  }

  /** The split as written at maxtime.c:183-184: truncate to whole seconds, then truncate the
      fraction to whole microseconds. For a positive period truncation is the floor. The result
      is a valid timeval no longer than the period and less than a microsecond short of it. */
  function SplitAsWritten(period: real): (t: TimeVal)
    requires period > 0.0
    ensures t.sec >= 0 && 0 <= t.usec < MicrosPerSecond
    ensures Seconds(t) <= period < Seconds(t) + 1.0 / MicrosPerSecond as real
  {
    var sec := period.Floor;
    TimeVal(sec, ((period - sec as real) * MicrosPerSecond as real).Floor)
  }

  /** A positive period below one microsecond, accepted by the check at maxtime.c:119, splits
      into 0 s + 0 us: setitimer then disarms the timer, and the command is never timed out. */
  lemma SubMicrosecondPeriodDisarms()
    ensures var period := 1.0 / 10000000.0;
            period > 0.0 && Disarms(ITimerVal(SplitAsWritten(period), SplitAsWritten(period)))
  {
    var period := 1.0 / 10000000.0;
    var sec := period.Floor;
    assert sec == 0;
    assert ((period - sec as real) * MicrosPerSecond as real).Floor == 0;
  }

  /** The timer main arms as written (maxtime.c:183-185): both fields from the truncating
      split. It is periodic, and it disarms the timer exactly when the split is zero. */
  function WrittenTimer(period: real): (it: ITimerVal)
    requires period > 0.0
    ensures it.value == it.interval
    ensures Disarms(it) <==> SplitAsWritten(period) == Zero
    ensures period >= 1.0 / MicrosPerSecond as real ==> !Disarms(it)
  {
    ITimerVal(SplitAsWritten(period), SplitAsWritten(period))
  }

  /** The split as intended: a positive period always arms the timer, so a period below one
      microsecond is rounded up to one microsecond. Within a microsecond of the period. */
  function Split(period: real): (t: TimeVal)
    requires period > 0.0
    ensures t != Zero
    ensures t.sec >= 0 && 0 <= t.usec < MicrosPerSecond
    ensures Seconds(t) - 1.0 / MicrosPerSecond as real < period < Seconds(t) + 1.0 / MicrosPerSecond as real
    ensures SplitAsWritten(period) != Zero ==> t == SplitAsWritten(period)
  {
    var t := SplitAsWritten(period);
    if t == Zero then TimeVal(0, 1) else t
  }

  /** The corrected timer: periodic, since it_value equals it_interval, and never the
      disarming value; the same as the written one whenever that one arms. */
  function TimerFor(period: real): (it: ITimerVal)
    requires period > 0.0
    ensures it.value == it.interval
    ensures !Disarms(it)
    ensures !Disarms(WrittenTimer(period)) ==> it == WrittenTimer(period)
  {
    ITimerVal(Split(period), Split(period))
  }
}
