/** The Pomodoro page: 25 minutes of work, 5 minutes of break, and a 15-minute break after
    every fourth work phase (`cycle % 4 == 0`). */
module Pomodoro {
  import opened Countdown
  import TimeFormat

  const WorkMinutes: nat := 25
  const ShortBreakMinutes: nat := 5
  const LongBreakMinutes: nat := 15
  const LongBreakEvery: nat := 4

  const Technique: Profile := Profile(false, WorkMinutes, ShortBreakMinutes, EveryNthCycle(LongBreakEvery, LongBreakMinutes))

  /** The page on mount: focus phase, 1500 seconds, stopped, cycle 1. */
  method NewTimer() returns (t: CountdownTimer)
    ensures fresh(t) && t.Valid() && t.profile == Technique
    ensures t.State() == Session(1500, false, false, 1)
  {
    t := new CountdownTimer(Technique);
  }

  /** The last second of a focus phase stops the clock in a 15-minute break when the cycle is a
      multiple of four and a 5-minute break otherwise; the cycle stays. */
  lemma WorkExpiry(s: Session)
    requires s.isRunning && !s.isBreak && s.timeLeft <= 1
    ensures TickUpdate(Technique, s) == Session(if s.cycle % 4 == 0 then 900 else 300, false, true, s.cycle)
  {
  }

  /** The last second of a break stops the clock at 25 minutes of focus and counts one more cycle. */
  lemma BreakExpiry(s: Session)
    requires s.isRunning && s.isBreak && s.timeLeft <= 1
    ensures TickUpdate(Technique, s) == Session(1500, false, false, s.cycle + 1)
  {
  }

  /** Starting each phase and waiting it out from mount: the break after the `k`-th focus phase
      is the long one exactly when four divides `k`. */
  lemma LongBreakEveryFourthCycle(k: nat)
    requires k >= 1
    ensures Phases(Technique, Initial(Technique), 2 * k - 1)
         == Session(if k % 4 == 0 then 900 else 300, false, true, k)
    ensures Phases(Technique, Initial(Technique), 2 * k) == Session(1500, false, false, k + 1)
  {
    PhasesFromInitial(Technique, k);
    PhasesFromInitial(Technique, k + 1);
  }

  /** Four full cycles: the fourth break lasts 900 seconds, and the fifth focus phase starts at
      1500 seconds in cycle 5. */
  lemma FourCycles()
    ensures Phases(Technique, Initial(Technique), 7) == Session(900, false, true, 4)
    ensures Phases(Technique, Initial(Technique), 8) == Session(1500, false, false, 5)
  {
    LongBreakEveryFourthCycle(4);
  }

  /** getProgress with the page's own literals. */
  function GetProgress(s: Session): (r: real)
    ensures r == Progress(Technique, s)
  {
    var totalTime := if s.isBreak then (if s.cycle % 4 == 0 then 15 * 60 else 5 * 60) else 25 * 60;
    ((totalTime - s.timeLeft) as real / totalTime as real) * 100.0
  }

  /** getProgress takes its total from the same cycle rule as the transition: it is the
      engine's progress through the current phase, 0 right after every transition and within
      [0, 100] on every reachable state. */
  lemma GetProgressFollowsPhase(s: Session)
    ensures GetProgress(s) == Progress(Technique, s)
    ensures s.timeLeft <= PhaseSeconds(Technique, s) ==> 0.0 <= GetProgress(s) <= 100.0
    ensures s.timeLeft == 0 ==> GetProgress(s) == 100.0
    ensures s.isRunning && s.timeLeft == 1 ==> GetProgress(TickUpdate(Technique, s)) == 0.0
  {
    if s.timeLeft <= PhaseSeconds(Technique, s) {
      ProgressBounds(Technique, s);
    }
    if s.isRunning && s.timeLeft == 1 {
      var r := TickUpdate(Technique, s);
      ProgressBounds(Technique, r);
    }
  }

  /** formatTime: `MM:SS` whose minutes and seconds (below 60) recombine to the input; below
      100 minutes it is five characters and reads back as the input. */
  function FormatTime(seconds: nat): (r: string)
    ensures |r| >= 5 && r[|r| - 3] == ':'
    ensures TimeFormat.AllDigits(r[..|r| - 3]) && TimeFormat.AllDigits(r[|r| - 2..])
    ensures TimeFormat.DigitsValue(r[..|r| - 3]) * 60 + TimeFormat.DigitsValue(r[|r| - 2..]) == seconds
    ensures TimeFormat.DigitsValue(r[|r| - 2..]) < 60
    ensures seconds < 6000 ==> |r| == 5 && TimeFormat.IsClockFace(r) && TimeFormat.ParseClock(r) == seconds
  {
    TimeFormat.MinSecFields(seconds);
    if seconds < 6000 then (TimeFormat.MinSecRoundTrip(seconds); TimeFormat.MinSec(seconds))
    else TimeFormat.MinSec(seconds)
  }

  // ---------------------------------------------------------------------------------------
  // The four-dot cycle indicator

  /** Dot `num` (1..4) as the page fills it. */
  function CycleDotFilled(cycle: nat, num: nat): (r: bool)
    ensures 1 <= num <= 4 && cycle % 4 != 0 ==> (r <==> num <= cycle % 4)
    ensures 1 <= num <= 4 && cycle % 4 == 0 ==> (r <==> num == 4)
  {
    num <= cycle % 4 || (cycle % 4 == 0 && num == 4)
  }

  /** The number of dots among 1..n the page fills. */
  function CountFilled(cycle: nat, n: nat): nat {
    if n == 0 then 0 else CountFilled(cycle, n - 1) + (if CycleDotFilled(cycle, n) then 1 else 0)
  }

  /** As written, a cycle that is a multiple of four lights only the fourth dot. */
  lemma CycleIndicatorAsWritten(cycle: nat)
    ensures CountFilled(cycle, 4) == if cycle % 4 == 0 then 1 else cycle % 4
    ensures cycle % 4 == 0 ==> !CycleDotFilled(cycle, 1) && CycleDotFilled(cycle, 4)
  {
    assert CountFilled(cycle, 4) == CountFilled(cycle, 3) + (if CycleDotFilled(cycle, 4) then 1 else 0);
    assert CountFilled(cycle, 3) == CountFilled(cycle, 2) + (if CycleDotFilled(cycle, 3) then 1 else 0);
    assert CountFilled(cycle, 2) == CountFilled(cycle, 1) + (if CycleDotFilled(cycle, 2) then 1 else 0);
  }

  /** The concrete case: in cycle 4, after three cycles of one, two and three lit dots, only one is lit. */
  lemma FourthCycleLightsOneDot()
    ensures CountFilled(3, 4) == 3
    ensures CountFilled(4, 4) == 1
  {
    CycleIndicatorAsWritten(3);
    CycleIndicatorAsWritten(4);
  }

  /** The indicator as evidently intended: all four dots in a cycle that is a multiple of four. */
  function CycleDotFilledIntended(cycle: nat, num: nat): bool {
    num <= (if cycle % 4 == 0 then 4 else cycle % 4)
  }

  function CountFilledIntended(cycle: nat, n: nat): nat {
    if n == 0 then 0 else CountFilledIntended(cycle, n - 1) + (if CycleDotFilledIntended(cycle, n) then 1 else 0)
  }

  /** The intended indicator lights the first `((cycle - 1) % 4) + 1` dots: one more dot per
      cycle, back to one after every fourth. */
  lemma CycleIndicatorIntended(cycle: nat)
    requires cycle >= 1
    ensures CountFilledIntended(cycle, 4) == (cycle - 1) % 4 + 1
    ensures forall num :: 1 <= num < 4 && CycleDotFilledIntended(cycle, num + 1) ==> CycleDotFilledIntended(cycle, num)
  {
    assert CountFilledIntended(cycle, 4) == CountFilledIntended(cycle, 3) + (if CycleDotFilledIntended(cycle, 4) then 1 else 0);
    assert CountFilledIntended(cycle, 3) == CountFilledIntended(cycle, 2) + (if CycleDotFilledIntended(cycle, 3) then 1 else 0);
    assert CountFilledIntended(cycle, 2) == CountFilledIntended(cycle, 1) + (if CycleDotFilledIntended(cycle, 2) then 1 else 0);
  }
}
