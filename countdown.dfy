/** The per-technique session timer of the four countdown pages (Pomodoro, Ultradian, 30/30,
    Desktime). Every page keeps `timeLeft`, `isRunning`, a break flag and a cycle (or session)
    counter, ticks once a second while running, and on the last second stops the clock and
    moves to the other phase at its full duration. The pages differ only in their durations,
    which a `Profile` gives; Desktime's durations are user-adjustable while stopped.

    The transitions are pure functions on `Session`; `CountdownTimer` is the page's mutable
    state and each of its methods is proved against one of them. */
module Countdown {

  /** Every `every`-th work phase is followed by a break of `minutes` instead of the ordinary one. */
  datatype LongBreakRule = NoLongBreak | EveryNthCycle(every: nat, minutes: nat)

  /** A technique's durations in minutes, as the pages write them (`25 * 60`). `configurable`
      is true for the page whose durations the user can change while stopped; that page has
      no long break. */
  datatype Profile = Profile(configurable: bool, workMinutes: nat, breakMinutes: nat, longBreak: LongBreakRule)

  predicate ValidProfile(p: Profile) {
    && p.workMinutes >= 1
    && p.breakMinutes >= 1
    && (p.longBreak.EveryNthCycle? ==> p.longBreak.every >= 1 && p.longBreak.minutes >= 1)
    && (p.configurable ==> p.longBreak.NoLongBreak?)
  }

  /** The page's timer state; `cycle` is Pomodoro's and 30/30's `cycle`, Ultradian's and Desktime's `session`. */
  datatype Session = Session(timeLeft: nat, isRunning: bool, isBreak: bool, cycle: nat)

  function WorkSeconds(p: Profile): nat {
    p.workMinutes * 60
  }

  /** The break that follows the work phase of cycle `cycle`. */
  function BreakSeconds(p: Profile, cycle: nat): (r: nat)
    requires ValidProfile(p)
    ensures r >= 60
    ensures p.longBreak.EveryNthCycle? && cycle % p.longBreak.every == 0 ==> r == p.longBreak.minutes * 60
    ensures p.longBreak.NoLongBreak? || cycle % p.longBreak.every != 0 ==> r == p.breakMinutes * 60
  {
    match p.longBreak
    case EveryNthCycle(n, m) => if cycle % n == 0 then m * 60 else p.breakMinutes * 60
    case NoLongBreak => p.breakMinutes * 60
  }

  /** The full duration of the phase `s` is in. */
  function PhaseSeconds(p: Profile, s: Session): (d: nat)
    requires ValidProfile(p)
    ensures d >= 60
    ensures !s.isBreak ==> d == p.workMinutes * 60
    ensures s.isBreak && p.longBreak.NoLongBreak? ==> d == p.breakMinutes * 60
  {
    if s.isBreak then BreakSeconds(p, s.cycle) else WorkSeconds(p)
  }

  /** What every reachable state satisfies: the clock lies in [1, phase duration] and the
      counter has started at 1. */
  ghost predicate Inv(p: Profile, s: Session) {
    ValidProfile(p) && s.cycle >= 1 && 1 <= s.timeLeft <= PhaseSeconds(p, s)
  }

  /** The state on mount and after reset: work phase, full work duration, stopped, cycle 1. */
  function Initial(p: Profile): (r: Session)
    ensures !r.isRunning && !r.isBreak && r.cycle == 1
    ensures ValidProfile(p) ==> Inv(p, r) && r.timeLeft == PhaseSeconds(p, r)
  {
    Session(WorkSeconds(p), false, false, 1)
  }

  /** handleTimerComplete: work -> break (the long break when the rule says so, cycle
      unchanged); break -> work with the counter advanced. Leaves isRunning alone. */
  function Complete(p: Profile, s: Session): (r: Session)
    requires ValidProfile(p)
    ensures r.isBreak == !s.isBreak && r.isRunning == s.isRunning
    ensures r.timeLeft == PhaseSeconds(p, r)
    ensures r.cycle == if s.isBreak then s.cycle + 1 else s.cycle
    ensures s.cycle >= 1 ==> Inv(p, r)
  {
    if !s.isBreak then s.(isBreak := true, timeLeft := BreakSeconds(p, s.cycle))
    else s.(isBreak := false, timeLeft := WorkSeconds(p), cycle := s.cycle + 1)
  }

  /** One run of the interval callback's `setTimeLeft` updater, taken with the completion it
      triggers as a single step: on the last second the clock stops and the phase flips. */
  function TickUpdate(p: Profile, s: Session): (r: Session)
    requires ValidProfile(p)
    ensures r.isBreak == s.isBreak ==>
      r.timeLeft == s.timeLeft - 1 && r.isRunning == s.isRunning && r.cycle == s.cycle
    ensures r.isBreak != s.isBreak ==> !r.isRunning && r.timeLeft == PhaseSeconds(p, r)
    ensures Inv(p, s) ==> Inv(p, r)
  {
    if s.timeLeft <= 1 then Complete(p, s.(isRunning := false)) else s.(timeLeft := s.timeLeft - 1)
  }

  /** The interval fires only while `isRunning && timeLeft > 0`; otherwise nothing happens. */
  function Fire(p: Profile, s: Session): (r: Session)
    requires ValidProfile(p)
    ensures !s.isRunning ==> r == s
    ensures Inv(p, s) ==> Inv(p, r)
  {
    if s.isRunning && s.timeLeft > 0 then TickUpdate(p, s) else s
  }

  /** toggleTimer: flips `isRunning` and nothing else. */
  function Toggle(s: Session): (r: Session)
    ensures r.isRunning != s.isRunning
    ensures r.(isRunning := s.isRunning) == s
  {
    s.(isRunning := !s.isRunning)
  }

  /** resetTimer: the work duration of the profile as it is now (Desktime keeps its settings). */
  function Reset(p: Profile, s: Session): (r: Session)
    ensures r.timeLeft == WorkSeconds(p) && !r.isRunning && !r.isBreak && r.cycle == 1
    ensures ValidProfile(p) ==> Inv(p, r) && r.timeLeft == PhaseSeconds(p, r)
  {
    Initial(p)
  }

  /** stopAndNavigateHome, as far as timer state goes. */
  function StopForNavigation(s: Session): (r: Session)
    ensures !r.isRunning
    ensures r.(isRunning := s.isRunning) == s
  {
    s.(isRunning := false)
  }

  /** updateWorkDuration: ignored while running; otherwise the new work minutes, and the clock
      restarts at the new duration when the work phase is current. */
  function SetWorkDuration(p: Profile, s: Session, minutes: nat): (r: (Profile, Session))
    ensures s.isRunning ==> r == (p, s)
    ensures !s.isRunning ==> r.0 == p.(workMinutes := minutes)
    ensures r.1.isRunning == s.isRunning && r.1.isBreak == s.isBreak && r.1.cycle == s.cycle
    ensures !s.isRunning && !s.isBreak ==> r.1.timeLeft == WorkSeconds(r.0)
    ensures s.isBreak ==> r.1.timeLeft == s.timeLeft
    ensures Inv(p, s) && p.configurable && minutes >= 1 ==> Inv(r.0, r.1)
  {
    if s.isRunning then (p, s)
    else (p.(workMinutes := minutes), if !s.isBreak then s.(timeLeft := minutes * 60) else s)
  }

  /** updateBreakDuration: the same guard, for the break phase. */
  function SetBreakDuration(p: Profile, s: Session, minutes: nat): (r: (Profile, Session))
    ensures s.isRunning ==> r == (p, s)
    ensures !s.isRunning ==> r.0 == p.(breakMinutes := minutes)
    ensures r.1.isRunning == s.isRunning && r.1.isBreak == s.isBreak && r.1.cycle == s.cycle
    ensures !s.isRunning && s.isBreak ==> r.1.timeLeft == r.0.breakMinutes * 60
    ensures !s.isBreak ==> r.1.timeLeft == s.timeLeft
    ensures Inv(p, s) && p.configurable && minutes >= 1 ==> Inv(r.0, r.1)
  {
    if s.isRunning then (p, s)
    else (p.(breakMinutes := minutes), if s.isBreak then s.(timeLeft := minutes * 60) else s)
  }

  /** The value of a slider from `min` at its `j`-th step of `step`. */
  function SliderPosition(min: nat, step: nat, j: nat): nat {
    min + step * j
  }

  /** The Desktime work slider: 15..120 minutes in steps of 5, so one of its 22 positions. */
  predicate WorkSliderValue(m: nat)
    ensures WorkSliderValue(m) <==> exists j :: 0 <= j < 22 && m == SliderPosition(15, 5, j)
  {
    if 15 <= m <= 120 && m % 5 == 0 then
      assert m == SliderPosition(15, 5, (m - 15) / 5);
      true
    else false
  }

  /** The Desktime break slider: 5..60 minutes in steps of 5, so one of its 12 positions. */
  predicate BreakSliderValue(m: nat)
    ensures BreakSliderValue(m) <==> exists j :: 0 <= j < 12 && m == SliderPosition(5, 5, j)
  {
    if 5 <= m <= 60 && m % 5 == 0 then
      assert m == SliderPosition(5, 5, (m - 5) / 5);
      true
    else false
  }

  /** getProgress: the share of the current phase already elapsed, in percent. */
  function Progress(p: Profile, s: Session): (r: real)
    requires ValidProfile(p)
    ensures s.timeLeft == PhaseSeconds(p, s) ==> r == 0.0
    ensures s.timeLeft == 0 ==> r == 100.0
  {
    var total := PhaseSeconds(p, s);
    var elapsed := (total - s.timeLeft) as real;
    assert s.timeLeft == 0 ==> elapsed / total as real == 1.0;
    (elapsed / total as real) * 100.0
  }

  // ---------------------------------------------------------------------------------------
  // Properties of single steps

  lemma InitialInv(p: Profile)
    requires ValidProfile(p)
    ensures Inv(p, Initial(p))
    ensures Initial(p).timeLeft == PhaseSeconds(p, Initial(p))
  {
  }

  /** Above the last second a tick takes exactly one second off and changes nothing else. */
  lemma TickCountsDown(p: Profile, s: Session)
    requires ValidProfile(p) && s.isRunning && s.timeLeft > 1
    ensures var r := TickUpdate(p, s);
      r.timeLeft == s.timeLeft - 1 && r.isRunning && r.isBreak == s.isBreak && r.cycle == s.cycle
  {
  }

  /** The last second stops the clock and starts the other phase at its full duration; the
      counter moves on exactly on break -> work. There is no automatic start of the next phase. */
  lemma TickCompletesPhase(p: Profile, s: Session)
    requires ValidProfile(p) && s.isRunning && s.timeLeft == 1
    ensures var r := TickUpdate(p, s);
      && !r.isRunning
      && r.isBreak == !s.isBreak
      && r.timeLeft == PhaseSeconds(p, r)
      && (s.isBreak ==> r.cycle == s.cycle + 1 && r.timeLeft == WorkSeconds(p))
      && (!s.isBreak ==> r.cycle == s.cycle && r.timeLeft == BreakSeconds(p, s.cycle))
  {
  }

  /** The counter never goes down, and goes up by one exactly when a break turns into work. */
  lemma TickCounter(p: Profile, s: Session)
    requires ValidProfile(p) && s.isRunning
    ensures var r := TickUpdate(p, s);
      r.cycle == if s.isBreak && !r.isBreak then s.cycle + 1 else s.cycle
  {
  }

  /** While paused the interval does not fire, so the clock keeps its value. */
  lemma PausedHolds(p: Profile, s: Session)
    requires ValidProfile(p) && !s.isRunning
    ensures Fire(p, s) == s
  {
  }

  lemma ToggleTwice(s: Session)
    ensures Toggle(s).isRunning == !s.isRunning
    ensures Toggle(s).timeLeft == s.timeLeft && Toggle(s).isBreak == s.isBreak && Toggle(s).cycle == s.cycle
    ensures Toggle(Toggle(s)) == s
  {
  }

  lemma ResetRestoresInitial(p: Profile, s: Session)
    requires ValidProfile(p)
    ensures Reset(p, s) == Initial(p) && Inv(p, Reset(p, s))
    ensures Reset(p, s) == Session(WorkSeconds(p), false, false, 1)
  {
  }

  lemma StopOnlyStops(s: Session)
    ensures StopForNavigation(s) == s.(isRunning := false)
    ensures StopForNavigation(s).timeLeft == s.timeLeft && !StopForNavigation(s).isRunning
  {
  }

  /** While running, neither duration update changes anything. */
  lemma UpdatesIgnoredWhileRunning(p: Profile, s: Session, minutes: nat)
    requires s.isRunning
    ensures SetWorkDuration(p, s, minutes) == (p, s)
    ensures SetBreakDuration(p, s, minutes) == (p, s)
  {
  }

  /** While stopped, a work update sets the work minutes and touches the clock only in the
      work phase, where it becomes the new full duration; nothing else changes. */
  lemma UpdateWorkWhileStopped(p: Profile, s: Session, minutes: nat)
    requires !s.isRunning
    ensures var (p', s') := SetWorkDuration(p, s, minutes);
      && p' == p.(workMinutes := minutes)
      && s'.timeLeft == (if s.isBreak then s.timeLeft else minutes * 60)
      && s'.isRunning == s.isRunning && s'.isBreak == s.isBreak && s'.cycle == s.cycle
  {
  }

  lemma UpdateBreakWhileStopped(p: Profile, s: Session, minutes: nat)
    requires !s.isRunning
    ensures var (p', s') := SetBreakDuration(p, s, minutes);
      && p' == p.(breakMinutes := minutes)
      && s'.timeLeft == (if s.isBreak then minutes * 60 else s.timeLeft)
      && s'.isRunning == s.isRunning && s'.isBreak == s.isBreak && s'.cycle == s.cycle
  {
  }

  /** Helper for ProgressBounds: an elapsed share of a positive total lies in [0, 1]. */
  lemma RatioBounds(x: real, y: real)
    requires 0.0 < y && 0.0 <= x <= y
    ensures 0.0 <= x / y <= 1.0
    ensures x == y ==> x / y == 1.0
    ensures x == 0.0 ==> x / y == 0.0
  {
    var q := x / y;
    assert q * y == x;
  }

  /** Progress lies in [0, 100] while the clock is within the phase, and is 100 at zero. */
  lemma ProgressBounds(p: Profile, s: Session)
    requires ValidProfile(p) && s.timeLeft <= PhaseSeconds(p, s)
    ensures 0.0 <= Progress(p, s) <= 100.0
    ensures s.timeLeft == 0 ==> Progress(p, s) == 100.0
    ensures s.timeLeft == PhaseSeconds(p, s) ==> Progress(p, s) == 0.0
  {
    var total := PhaseSeconds(p, s) as real;
    var done := (PhaseSeconds(p, s) - s.timeLeft) as real;
    assert Progress(p, s) == (done / total) * 100.0;
    RatioBounds(done, total);
  }

  // ---------------------------------------------------------------------------------------
  // The events a page reacts to, and the invariant over any sequence of them

  datatype Event =
    | Interval                  // the one-second interval callback
    | ToggleButton              // toggleTimer
    | ResetButton               // resetTimer
    | LeavePage                 // stopAndNavigateHome
    | WorkSlider(minutes: nat)  // updateWorkDuration (Desktime only)
    | BreakSlider(minutes: nat) // updateBreakDuration (Desktime only)

  /** The events the page can deliver: sliders only on the configurable page, within range. */
  predicate Allowed(p: Profile, e: Event) {
    match e
    case WorkSlider(m) => p.configurable && WorkSliderValue(m)
    case BreakSlider(m) => p.configurable && BreakSliderValue(m)
    case _ => true
  }

  function Apply(p: Profile, s: Session, e: Event): (Profile, Session)
    requires ValidProfile(p)
  {
    match e
    case Interval => (p, Fire(p, s))
    case ToggleButton => (p, Toggle(s))
    case ResetButton => (p, Reset(p, s))
    case LeavePage => (p, StopForNavigation(s))
    case WorkSlider(m) => SetWorkDuration(p, s, m)
    case BreakSlider(m) => SetBreakDuration(p, s, m)
  }

  lemma ApplyInv(p: Profile, s: Session, e: Event)
    requires Inv(p, s) && Allowed(p, e)
    ensures Inv(Apply(p, s, e).0, Apply(p, s, e).1)
    ensures Apply(p, s, e).0.configurable == p.configurable
  {
  }

  /** Runs a sequence of events from a page state; stops early if the profile stopped being valid. */
  function Run(p: Profile, s: Session, events: seq<Event>): (Profile, Session)
    decreases |events|
  {
    if events == [] || !ValidProfile(p) then (p, s)
    else
      var (p', s') := Apply(p, s, events[0]);
      Run(p', s', events[1..])
  }

  /** Whatever the user does, the clock stays within [1, phase duration] and the counter at least 1. */
  lemma {:induction false} RunInv(p: Profile, s: Session, events: seq<Event>)
    requires Inv(p, s)
    requires forall i :: 0 <= i < |events| ==> Allowed(p, events[i])
    ensures Inv(Run(p, s, events).0, Run(p, s, events).1)
    ensures Run(p, s, events).0.configurable == p.configurable
    decreases |events|
  {
    if events != [] {
      ApplyInv(p, s, events[0]);
      var (p', s') := Apply(p, s, events[0]);
      assert p'.configurable == p.configurable;
      forall i | 0 <= i < |events[1..]|
        ensures Allowed(p', events[1..][i])
      {
        assert Allowed(p, events[i + 1]);
      }
      RunInv(p', s', events[1..]);
    }
  }

  /** The page that mounts with the profile's initial state keeps the invariant for ever. */
  lemma ReachableInv(p: Profile, events: seq<Event>)
    requires ValidProfile(p)
    requires forall i :: 0 <= i < |events| ==> Allowed(p, events[i])
    ensures Inv(Run(p, Initial(p), events).0, Run(p, Initial(p), events).1)
    ensures Run(p, Initial(p), events).0.configurable == p.configurable
  {
    RunInv(p, Initial(p), events);
  }

  // ---------------------------------------------------------------------------------------
  // Ticking through a phase

  /** `t` firings of the interval. */
  function Advance(p: Profile, s: Session, t: nat): Session
    requires ValidProfile(p)
  {
    if t == 0 then s else Fire(p, Advance(p, s, t - 1))
  }

  /** From a running state with `timeLeft` above `t`, `t` firings take exactly `t` seconds off
      and change nothing else. */
  lemma {:induction false} AdvanceCountsDown(p: Profile, s: Session, t: nat)
    requires ValidProfile(p) && s.isRunning && t < s.timeLeft
    ensures Advance(p, s, t) == s.(timeLeft := s.timeLeft - t)
  {
    if t > 0 {
      AdvanceCountsDown(p, s, t - 1);
    }
  }

  /** After `t` seconds of a phase of `D` seconds, progress is exactly t / D. */
  lemma ProgressAfterTicks(p: Profile, s: Session, t: nat)
    requires ValidProfile(p) && s.isRunning && s.timeLeft == PhaseSeconds(p, s)
    requires t < s.timeLeft
    ensures Progress(p, Advance(p, s, t)) == (t as real / PhaseSeconds(p, s) as real) * 100.0
  {
    AdvanceCountsDown(p, s, t);
  }

  /** Starting a phase from its full duration and letting the interval fire for its whole
      length lands, stopped, on the full next phase: exactly what handleTimerComplete gives. */
  lemma RunWholePhase(p: Profile, s: Session)
    requires ValidProfile(p) && !s.isRunning && s.timeLeft == PhaseSeconds(p, s)
    ensures Advance(p, Toggle(s), s.timeLeft) == Complete(p, s)
  {
    var d := s.timeLeft;
    AdvanceCountsDown(p, Toggle(s), d - 1);
  }

  /** A user who presses start at every phase and waits it out. */
  function PhaseCycle(p: Profile, s: Session): Session
    requires ValidProfile(p)
  {
    Advance(p, Toggle(s), s.timeLeft)
  }

  /** `k` phases of start-and-wait from a state. */
  function Phases(p: Profile, s: Session, k: nat): Session
    requires ValidProfile(p)
  {
    if k == 0 then s else PhaseCycle(p, Phases(p, s, k - 1))
  }

  /** From mount, after `2(k-1)` whole phases the page is at the start of work of cycle `k`, and
      one more phase gives the break that follows the `k`-th work phase (the long one whenever
      the rule's period divides `k`). */
  lemma {:induction false} PhasesFromInitial(p: Profile, k: nat)
    requires ValidProfile(p) && k >= 1
    ensures Phases(p, Initial(p), 2 * (k - 1)) == Session(WorkSeconds(p), false, false, k)
    ensures Phases(p, Initial(p), 2 * k - 1) == Session(BreakSeconds(p, k), false, true, k)
  {
    var w := Session(WorkSeconds(p), false, false, k);
    if k == 1 {
      assert Phases(p, Initial(p), 0) == w;
    } else {
      PhasesFromInitial(p, k - 1);
      var b := Session(BreakSeconds(p, k - 1), false, true, k - 1);
      RunWholePhase(p, b);
      assert Phases(p, Initial(p), 2 * (k - 1)) == PhaseCycle(p, b);
    }
    RunWholePhase(p, w);
    assert Phases(p, Initial(p), 2 * k - 1) == PhaseCycle(p, w);
  }

  // ---------------------------------------------------------------------------------------
  // The page's mutable state

  class CountdownTimer {
    var profile: Profile
    var timeLeft: nat
    var isRunning: bool
    var isBreak: bool
    var cycle: nat

    function State(): Session
      reads this
    {
      Session(timeLeft, isRunning, isBreak, cycle)
    }

    ghost predicate Valid()
      reads this
    {
      Inv(profile, State())
    }

    /** The state the page mounts with (its `useState` initial values). */
    constructor (p: Profile)
      requires ValidProfile(p)
      ensures Valid() && profile == p && State() == Initial(p)
    {
      profile := p;
      timeLeft := p.workMinutes * 60;
      isRunning := false;
      isBreak := false;
      cycle := 1;
    }

    /** One run of the interval callback: only while running (and, as always, timeLeft > 0). */
    method Tick()
      requires Valid() && isRunning && timeLeft > 0
      modifies this
      ensures Valid() && profile == old(profile)
      ensures State() == TickUpdate(profile, old(State()))
    {
      if timeLeft <= 1 {
        isRunning := false;
        HandleTimerComplete();
      } else {
        timeLeft := timeLeft - 1;
      }
    }

    method HandleTimerComplete()
      requires Valid()
      modifies this
      ensures Valid() && profile == old(profile)
      ensures State() == Complete(profile, old(State()))
    {
      if !isBreak {
        isBreak := true;
        match profile.longBreak {
          case EveryNthCycle(n, m) =>
            if cycle % n == 0 {
              timeLeft := m * 60;
            } else {
              timeLeft := profile.breakMinutes * 60;
            }
          case NoLongBreak =>
            timeLeft := profile.breakMinutes * 60;
        }
      } else {
        isBreak := false;
        timeLeft := profile.workMinutes * 60;
        cycle := cycle + 1;
      }
    }

    method ToggleTimer()
      requires Valid()
      modifies this
      ensures Valid() && profile == old(profile)
      ensures State() == Toggle(old(State()))
    {
      isRunning := !isRunning;
    }

    method ResetTimer()
      requires Valid()
      modifies this
      ensures Valid() && profile == old(profile)
      ensures State() == Reset(profile, old(State()))
    {
      isRunning := false;
      isBreak := false;
      timeLeft := profile.workMinutes * 60;
      cycle := 1;
    }

    method StopAndNavigateHome()
      requires Valid()
      modifies this
      ensures Valid() && profile == old(profile)
      ensures State() == StopForNavigation(old(State()))
    {
      isRunning := false;
    }

    method UpdateWorkDuration(minutes: nat)
      requires Valid() && profile.configurable && WorkSliderValue(minutes)
      modifies this
      ensures Valid()
      ensures (profile, State()) == SetWorkDuration(old(profile), old(State()), minutes)
    {
      if !isRunning {
        profile := profile.(workMinutes := minutes);
        if !isBreak {
          timeLeft := minutes * 60;
        }
      }
    }

    method UpdateBreakDuration(minutes: nat)
      requires Valid() && profile.configurable && BreakSliderValue(minutes)
      modifies this
      ensures Valid()
      ensures (profile, State()) == SetBreakDuration(old(profile), old(State()), minutes)
    {
      if !isRunning {
        profile := profile.(breakMinutes := minutes);
        if isBreak {
          timeLeft := minutes * 60;
        }
      }
    }

    /** getProgress, read off the current state. */
    function GetProgress(): (r: real)
      reads this
      requires Valid()
      ensures r == Progress(profile, State())
      ensures 0.0 <= r <= 100.0
    {
      ProgressBounds(profile, State());
      Progress(profile, State())
    }
  }
}
