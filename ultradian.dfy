/** The Ultradian page: 90 minutes of deep work and a 25-minute break, no long break; the counter
    is called `session`. */
module Ultradian {
  import opened Countdown
  import TimeFormat
  import opened SessionDots

  const WorkMinutes: nat := 90
  const BreakMinutes: nat := 25

  const Technique: Profile := Profile(false, WorkMinutes, BreakMinutes, NoLongBreak)

  /** The page on mount: work phase, 5400 seconds, stopped, session 1. */
  method NewTimer() returns (t: CountdownTimer)
    ensures fresh(t) && t.Valid() && t.profile == Technique
    ensures t.State() == Session(5400, false, false, 1)
  {
    t := new CountdownTimer(Technique);
  }

  /** The last second of deep work stops the clock at a 25-minute break; the session stays. */
  lemma WorkExpiry(s: Session)
    requires s.isRunning && !s.isBreak && s.timeLeft <= 1
    ensures TickUpdate(Technique, s) == Session(1500, false, true, s.cycle)
  {
  }

  /** The last second of a break stops the clock at 90 minutes of work in the next session. */
  lemma BreakExpiry(s: Session)
    requires s.isRunning && s.isBreak && s.timeLeft <= 1
    ensures TickUpdate(Technique, s) == Session(5400, false, false, s.cycle + 1)
  {
  }

  /** getProgress with the page's own literals. */
  function GetProgress(s: Session): (r: real)
    ensures r == Progress(Technique, s)
  {
    var totalTime := if s.isBreak then 25 * 60 else 90 * 60;
    ((totalTime - s.timeLeft) as real / totalTime as real) * 100.0
  }

  /** getProgress is the engine's progress through the current phase: 0 at the start of
      either phase, 100 at zero, within [0, 100] in between. */
  lemma GetProgressFollowsPhase(s: Session)
    ensures GetProgress(s) == Progress(Technique, s)
    ensures s.timeLeft == (if s.isBreak then 1500 else 5400) ==> GetProgress(s) == 0.0
    ensures s.timeLeft == 0 ==> GetProgress(s) == 100.0
    ensures s.timeLeft <= PhaseSeconds(Technique, s) ==> 0.0 <= GetProgress(s) <= 100.0
  {
    if s.timeLeft <= PhaseSeconds(Technique, s) {
      ProgressBounds(Technique, s);
    }
  }

  /** formatTime: `H:MM:SS` from one hour on and `MM:SS` below, reading back as the input. */
  function FormatTime(seconds: nat): (r: string)
    ensures TimeFormat.IsClockFace(r) && TimeFormat.ParseClock(r) == seconds
    ensures seconds >= 3600 <==> |r| > 5
    ensures seconds >= 3600 ==> r[..|r| - 6] == TimeFormat.DecimalString(seconds / 3600)
    ensures r[|r| - 5..|r| - 3] == TimeFormat.Pad2((seconds % 3600) / 60)
    ensures r[|r| - 2..] == TimeFormat.Pad2(seconds % 60)
    ensures seconds < 3600 ==> r[..2] == TimeFormat.Pad2(seconds / 60) && r[3..] == TimeFormat.Pad2(seconds % 60)
    ensures TimeFormat.DigitsValue(r[|r| - 5..|r| - 3]) < 60 && TimeFormat.DigitsValue(r[|r| - 2..]) < 60
  {
    TimeFormat.HourMinSecRoundTrip(seconds);
    TimeFormat.HourMinSec(seconds)
  }

  // ---------------------------------------------------------------------------------------
  // The session dots: at most six, the current one pulsing, then a `+n` label

  const SessionDotsShown: nat := 6

  /** Dots and label together account for every session; there are never more than six dots;
      no drawn dot is ever a dim one, and the pulsing dot is drawn exactly up to the sixth
      session. */
  lemma SessionDisplay(session: nat)
    requires session >= 1
    ensures DotCount(SessionDotsShown, session) + Overflow(SessionDotsShown, session) == session
    ensures 1 <= DotCount(SessionDotsShown, session) <= 6
    ensures session <= 6 ==> DotCount(SessionDotsShown, session) == session && Overflow(SessionDotsShown, session) == 0
    ensures session > 6 ==> DotCount(SessionDotsShown, session) == 6 && Overflow(SessionDotsShown, session) == session - 6
    ensures Overflow(SessionDotsShown, session) > 0 <==> session > 6
    ensures forall i :: 0 <= i < DotCount(SessionDotsShown, session) ==> StyleOf(session, i) != Upcoming
    ensures (exists i :: 0 <= i < DotCount(SessionDotsShown, session) && StyleOf(session, i) == Current)
            <==> session <= 6
  {
    Display(SessionDotsShown, session);
  }
}
