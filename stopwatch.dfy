/** The Stopwatch page: an open-ended count-up clock with no phases, shown as `HH:MM:SS` and as
    three stat cards (hours, minutes, seconds). */
module Stopwatch {
  import TimeFormat

  class Stopwatch {
    var time: nat
    var isRunning: bool

    /** The page on mount: zero seconds, stopped. */
    constructor ()
      ensures time == 0 && !isRunning
    {
      time := 0;
      isRunning := false;
    }

    /** One run of the interval callback, which exists only while running: one more second,
      without bound. */
    method Tick()
      requires isRunning
      modifies this
      ensures time == old(time) + 1 && isRunning
    {
      time := time + 1;
    }

    method ToggleTimer()
      modifies this
      ensures isRunning == !old(isRunning) && time == old(time)
    {
      isRunning := !isRunning;
    }

    method ResetTimer()
      modifies this
      ensures time == 0 && !isRunning
    {
      isRunning := false;
      time := 0;
    }

    method StopAndNavigateHome()
      modifies this
      ensures !isRunning && time == old(time)
    {
      isRunning := false;
    }
  }

  /** The stat cards: whole hours, the minutes within the hour and the seconds within the
      minute, which recombine to the elapsed time. */
  function Stats(time: nat): (r: (nat, nat, nat))
    ensures r.0 * 3600 + r.1 * 60 + r.2 == time
    ensures r.1 < 60 && r.2 < 60
  {
    TimeFormat.HourMinSecSplit(time);
    (time / 3600, (time % 3600) / 60, time % 60)
  }

  /** formatTime: `HH:MM:SS`, eight characters with ':' at 2 and 5 below 100 hours, reading back
      as the input at any size; its fields are the stat cards. */
  function FormatTime(seconds: nat): (r: string)
    ensures TimeFormat.IsClockFace(r) && TimeFormat.ParseClock(r) == seconds
    ensures seconds < 360000 ==> |r| == 8 && r[2] == ':' && r[5] == ':'
    ensures |r| >= 8
    ensures r[..|r| - 6] == TimeFormat.Pad2(Stats(seconds).0)
    ensures r[|r| - 5..|r| - 3] == TimeFormat.Pad2(Stats(seconds).1)
    ensures r[|r| - 2..] == TimeFormat.Pad2(Stats(seconds).2)
  {
    TimeFormat.PaddedHourMinSecRoundTrip(seconds);
    TimeFormat.PaddedHourMinSec(seconds)
  }

  /** Start, let `n` seconds pass, pause, wait (no interval fires while paused), resume, and let
      one more second pass: the paused clock shows `n` and the final one `n + 1`, no time lost or
      gained across the pause. */
  method PauseAndResume(n: nat) returns (paused: nat, elapsed: nat)
    ensures paused == n
    ensures elapsed == n + 1
  {
    var w := new Stopwatch();
    w.ToggleTimer();
    var i := 0;
    while i < n
      invariant 0 <= i <= n
      invariant w.isRunning && w.time == i
    {
      w.Tick();
      i := i + 1;
    }
    w.ToggleTimer();
    paused := w.time;
    w.ToggleTimer();
    w.Tick();
    elapsed := w.time;
  }
}
