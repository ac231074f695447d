/** The Desktime page: work and break lengths set by the user (45 and 15 minutes at first) with
    two sliders that only act while the clock is stopped; the counter is called `session`. */
module Desktime {
  import opened Countdown
  import opened SessionDots

  const InitialWorkMinutes: nat := 45
  const InitialBreakMinutes: nat := 15

  const Technique: Profile := Profile(true, InitialWorkMinutes, InitialBreakMinutes, NoLongBreak)

  /** The profile the page holds after the sliders have set `work` and `brk` minutes. */
  function Configured(work: nat, brk: nat): Profile {
    Profile(true, work, brk, NoLongBreak)
  }

  /** The page on mount: 45/15 minutes, work phase, 2700 seconds, stopped, session 1. */
  method NewTimer() returns (t: CountdownTimer)
    ensures fresh(t) && t.Valid() && t.profile == Technique
    ensures t.profile.workMinutes == 45 && t.profile.breakMinutes == 15
    ensures t.State() == Session(2700, false, false, 1)
  {
    t := new CountdownTimer(Technique);
  }

  /** The last second of work stops the clock at the break length configured now; the session stays. */
  lemma WorkExpiry(work: nat, brk: nat, s: Session)
    requires work >= 1 && brk >= 1
    requires s.isRunning && !s.isBreak && s.timeLeft <= 1
    ensures TickUpdate(Configured(work, brk), s) == Session(brk * 60, false, true, s.cycle)
  {
  }

  /** The last second of a break stops the clock at the work length configured now, next session. */
  lemma BreakExpiry(work: nat, brk: nat, s: Session)
    requires work >= 1 && brk >= 1
    requires s.isRunning && s.isBreak && s.timeLeft <= 1
    ensures TickUpdate(Configured(work, brk), s) == Session(work * 60, false, false, s.cycle + 1)
  {
  }

  /** Reset keeps the settings and restarts at the configured work length, not at 2700: after
      the work slider is moved to 60 minutes, reset shows 3600 seconds. */
  lemma ResetUsesCurrentWork(work: nat, brk: nat, s: Session)
    requires work >= 1 && brk >= 1
    ensures Reset(Configured(work, brk), s) == Session(work * 60, false, false, 1)
    ensures !s.isRunning ==>
      var (p, s') := SetWorkDuration(Technique, s, 60);
      p == Configured(60, 15) && Reset(p, s').timeLeft == 3600
  {
  }

  /** getProgress with the page's own expression. */
  function GetProgress(workDuration: nat, breakDuration: nat, s: Session): (r: real)
    requires workDuration >= 1 && breakDuration >= 1
    ensures r == Progress(Configured(workDuration, breakDuration), s)
  {
    var totalTime := if s.isBreak then breakDuration * 60 else workDuration * 60;
    ((totalTime - s.timeLeft) as real / totalTime as real) * 100.0
  }

  /** getProgress measures the currently configured length of the current phase, so it is 0
      after a completed phase, after reset and after a slider move while stopped. */
  lemma GetProgressRestarts(work: nat, brk: nat, s: Session, minutes: nat)
    requires work >= 1 && brk >= 1
    ensures GetProgress(work, brk, s) == Progress(Configured(work, brk), s)
    ensures s.isRunning && s.timeLeft == 1 ==>
      GetProgress(work, brk, TickUpdate(Configured(work, brk), s)) == 0.0
    ensures GetProgress(work, brk, Reset(Configured(work, brk), s)) == 0.0
    ensures !s.isRunning && !s.isBreak && minutes >= 1 ==>
      GetProgress(minutes, brk, SetWorkDuration(Configured(work, brk), s, minutes).1) == 0.0
    ensures !s.isRunning && s.isBreak && minutes >= 1 ==>
      GetProgress(work, minutes, SetBreakDuration(Configured(work, brk), s, minutes).1) == 0.0
  {
  }

  /** Within the slider ranges, any sequence of user actions from mount keeps the clock within
      [1, the configured length of the current phase]; getProgress stays in [0, 100]. */
  lemma ProgressInRange(events: seq<Event>)
    requires forall i :: 0 <= i < |events| ==> Allowed(Technique, events[i])
    ensures var (p, s) := Run(Technique, Initial(Technique), events);
      Inv(p, s) && p.workMinutes >= 1 && p.breakMinutes >= 1 && 0.0 <= GetProgress(p.workMinutes, p.breakMinutes, s) <= 100.0
  {
    ReachableInv(Technique, events);
    var (p, s) := Run(Technique, Initial(Technique), events);
    ProgressBounds(p, s);
  }

  // ---------------------------------------------------------------------------------------
  // "Sessions Completed": at most eight dots, the current one pulsing, then a `+n` label

  const SessionDotsShown: nat := 8

  /** Dots and label together account for every session; there are never more than eight
      dots; no drawn dot is ever a dim one, and the pulsing dot is drawn exactly up to the
      eighth session. */
  lemma SessionDisplay(session: nat)
    requires session >= 1
    ensures DotCount(SessionDotsShown, session) + Overflow(SessionDotsShown, session) == session
    ensures 1 <= DotCount(SessionDotsShown, session) <= 8
    ensures session <= 8 ==> DotCount(SessionDotsShown, session) == session && Overflow(SessionDotsShown, session) == 0
    ensures session > 8 ==> DotCount(SessionDotsShown, session) == 8 && Overflow(SessionDotsShown, session) == session - 8
    ensures Overflow(SessionDotsShown, session) > 0 <==> session > 8
    ensures forall i :: 0 <= i < DotCount(SessionDotsShown, session) ==> StyleOf(session, i) != Upcoming
    ensures (exists i :: 0 <= i < DotCount(SessionDotsShown, session) && StyleOf(session, i) == Current)
            <==> session <= 8
  {
    Display(SessionDotsShown, session);
  }
}
