/** `Timer` (Sources/Kernel/Utility/Timer.cpp): a start/stop stopwatch. The clock is a
    parameter: each operation that reads it is given the current time in clock ticks,
    and elapsed time is returned in the same ticks (the source converts to
    milliseconds as a double). */
module Timer {

  datatype Timer = Timer(running: bool, start: int, stop: int)

  /** The constructor: start and stop both read the clock; the timer is not running. */
  function New(now: int): (t: Timer)
    ensures !t.running && Elapsed(t, now) == 0
  {
    Timer(false, now, now)
  }

  /** `GetMilisecondsElapsed`: against the clock while running, frozen at the stop time
      otherwise. */
  function Elapsed(t: Timer, now: int): (r: int)
    ensures t.running ==> r == now - t.start
    ensures !t.running ==> r == t.stop - t.start
  {
    if t.running then now - t.start else t.stop - t.start
  }

  /** `Restart`: running, timed from now; the stop time is left as it was. */
  function Restart(t: Timer, now: int): (r: Timer)
    ensures r.running && Elapsed(r, now) == 0 && r.stop == t.stop
  {
    t.(running := true, start := now)
  }

  /** `Stop`: false and no change when not running; otherwise the stop time is now. */
  function Stop(t: Timer, now: int): (r: (bool, Timer))
    ensures !t.running ==> r == (false, t)
    ensures t.running ==> r.0 && !r.1.running && r.1.start == t.start && Elapsed(r.1, now) == Elapsed(t, now)
  {
    if !t.running then (false, t) else (true, t.(running := false, stop := now))
  }

  /** `Start`: false and no change when already running; otherwise running from now. */
  function Start(t: Timer, now: int): (r: (bool, Timer))
    ensures t.running ==> r == (false, t)
    ensures !t.running ==> r.0 && r.1.running && Elapsed(r.1, now) == 0 && r.1.stop == t.stop
  {
    if t.running then (false, t) else (true, t.(running := true, start := now))
  }

  /** A start at `t1` and a stop at `t2` measure `t2 - t1`, and the reading no longer
      moves with the clock; starting again resumes from zero rather than from the
      frozen reading. */
  lemma StartStopMeasures(t: Timer, t1: int, t2: int, later: int)
    requires !t.running
    ensures var s := Stop(Start(t, t1).1, t2).1;
      Elapsed(s, later) == t2 - t1 && Elapsed(s, later) == Elapsed(s, t2)
      && Elapsed(Start(s, later).1, later) == 0
  {
  }

  /** A second `Start` or `Stop` in a row is refused and changes nothing. */
  lemma StartStopIdempotent(t: Timer, t1: int, t2: int)
    ensures var s := Start(t, t1).1; Start(s, t2) == (false, s)
    ensures var s := Stop(t, t1).1; Stop(s, t2) == (false, s)
  {
  }
}
