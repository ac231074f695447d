/** The 30/30 page: 30 minutes of study and a 30-minute active break; its break flag is
    `isActiveBreak`. */
module ThirtyThirty {
  import opened Countdown

  const StudyMinutes: nat := 30
  const ActiveBreakMinutes: nat := 30

  const Technique: Profile := Profile(false, StudyMinutes, ActiveBreakMinutes, NoLongBreak)

  /** The page on mount: study phase, 1800 seconds, stopped, cycle 1. */
  method NewTimer() returns (t: CountdownTimer)
    ensures fresh(t) && t.Valid() && t.profile == Technique
    ensures t.State() == Session(1800, false, false, 1)
  {
    t := new CountdownTimer(Technique);
  }

  /** The last second of study stops the clock at a 30-minute active break; the cycle stays. */
  lemma StudyExpiry(s: Session)
    requires s.isRunning && !s.isBreak && s.timeLeft <= 1
    ensures TickUpdate(Technique, s) == Session(1800, false, true, s.cycle)
  {
  }

  /** The last second of an active break stops the clock at 30 minutes of study, next cycle. */
  lemma ActiveBreakExpiry(s: Session)
    requires s.isRunning && s.isBreak && s.timeLeft <= 1
    ensures TickUpdate(Technique, s) == Session(1800, false, false, s.cycle + 1)
  {
  }

  /** getProgress: the page uses 1800 seconds whatever the phase. */
  function GetProgress(s: Session): (r: real)
    ensures r == Progress(Technique, s)
  {
    var totalTime := 30 * 60;
    ((totalTime - s.timeLeft) as real / totalTime as real) * 100.0
  }

  /** Both phases last 1800 seconds, so the fixed total is the engine's phase progress, and on
      every state a page can reach (after any events from mount) it lies in [0, 100]. */
  lemma GetProgressInRange(s: Session, events: seq<Event>)
    requires forall i :: 0 <= i < |events| ==> Allowed(Technique, events[i])
    ensures GetProgress(s) == Progress(Technique, s)
    ensures var r := Run(Technique, Initial(Technique), events);
      r.0 == Technique && 0.0 <= GetProgress(r.1) <= 100.0
  {
    ReachableInv(Technique, events);
    RunKeepsFixedProfile(Initial(Technique), events);
    var r := Run(Technique, Initial(Technique), events);
    ProgressBounds(Technique, r.1);
  }

  /** A page that is not configurable keeps its profile whatever happens. */
  lemma {:induction false} RunKeepsFixedProfile(s: Session, events: seq<Event>)
    requires forall i :: 0 <= i < |events| ==> Allowed(Technique, events[i])
    ensures Run(Technique, s, events).0 == Technique
    decreases |events|
  {
    if events != [] {
      var (p', s') := Apply(Technique, s, events[0]);
      assert p' == Technique by {
        assert Allowed(Technique, events[0]);
      }
      RunKeepsFixedProfile(s', events[1..]);
    }
  }

  // ---------------------------------------------------------------------------------------
  // The mind-body balance indicator: `cycle * 2` dots, study dots at even indices, bright up to
  // `(cycle - 1) * 2 + (isActiveBreak ? 1 : 0)`

  function BalanceDots(cycle: nat): nat {
    cycle * 2
  }

  predicate IsStudyDot(i: nat) {
    i % 2 == 0
  }

  /** Dot `i` stands for the `i / 2`-th study phase (even `i`) or active break (odd `i`); it is
      bright exactly when that phase is over. */
  predicate IsBright(cycle: nat, isActiveBreak: bool, i: nat)
    ensures cycle >= 1 ==>
      (IsBright(cycle, isActiveBreak, i) <==>
        i / 2 < cycle - 1 || (i / 2 == cycle - 1 && isActiveBreak && IsStudyDot(i)))
  {
    !(i >= (cycle - 1) * 2 + (if isActiveBreak then 1 else 0))
  }

  /** Bright dots among indices 0..n-1, all of them or only the study ones. */
  function CountBright(cycle: nat, isActiveBreak: bool, n: nat, studyOnly: bool): nat {
    if n == 0 then 0
    else CountBright(cycle, isActiveBreak, n - 1, studyOnly)
         + (if IsBright(cycle, isActiveBreak, n - 1) && (!studyOnly || IsStudyDot(n - 1)) then 1 else 0)
  }

  lemma {:induction false} CountBrightPrefix(cycle: nat, isActiveBreak: bool, n: nat)
    requires cycle >= 1
    ensures var t := (cycle - 1) * 2 + (if isActiveBreak then 1 else 0);
      && CountBright(cycle, isActiveBreak, n, false) == (if n < t then n else t)
      && CountBright(cycle, isActiveBreak, n, true) == ((if n < t then n else t) + 1) / 2
  {
    if n > 0 {
      CountBrightPrefix(cycle, isActiveBreak, n - 1);
    }
  }

  /** The bright dots are the phases already over: `cycle - 1` (+1 in an active break) study
      phases and `cycle - 1` active breaks; at least the last dot is always dim. */
  lemma BalanceIndicator(cycle: nat, isActiveBreak: bool)
    requires cycle >= 1
    ensures var bright := CountBright(cycle, isActiveBreak, BalanceDots(cycle), false);
      && bright == (cycle - 1) * 2 + (if isActiveBreak then 1 else 0)
      && bright < BalanceDots(cycle)
      && CountBright(cycle, isActiveBreak, BalanceDots(cycle), true) == cycle - 1 + (if isActiveBreak then 1 else 0)
      && !IsBright(cycle, isActiveBreak, BalanceDots(cycle) - 1)
  {
    CountBrightPrefix(cycle, isActiveBreak, BalanceDots(cycle));
  }
}
