# Pine study timer: the session timer state machine

The Pine study timer is a browser focus timer with five technique pages: Pomodoro, Ultradian,
30/30, Desktime and Stopwatch. Each countdown page keeps the same four pieces of state:
`timeLeft`, `isRunning`, a break flag (`isBreak`, or `isActiveBreak` on 30/30) and a counter
(`cycle`, or `session` on Ultradian and Desktime). The same handlers change that state:

- a once-a-second tick;
- `handleTimerComplete`, which flips the phase;
- `toggleTimer`;
- `resetTimer`;
- `stopAndNavigateHome`;
- on Desktime only, the two duration sliders, which act only while the clock is stopped.

The Stopwatch counts up without bound. The music player moves a cursor over a list of five
tracks.

This project models that logic in Dafny:

- `countdown.dfy` (module `Countdown`) holds the shared engine, because the four countdown pages
  are copies of one state machine that differ only in their durations.
  - The transitions are pure functions on a `Session` value: `TickUpdate`, `Complete`,
    `Toggle`, `Reset`, `StopForNavigation`, `SetWorkDuration` and `SetBreakDuration`.
  - A `Profile` gives the durations in minutes and an optional long-break rule.
  - The class `CountdownTimer` is a page's mutable state. Each of its methods is proved to
    produce exactly the pure function's result and to keep the invariant `Inv`: the clock lies in
    [1, current phase duration] and the counter is at least 1.
  - `Run` and `RunInv` extend the invariant to any sequence of user and timer events.
    `Advance`, `Phases` and `PhasesFromInitial` follow a user who starts each phase and waits it
    out.
- `pomodoro.dfy`, `ultradian.dfy`, `thirty_thirty.dfy` and `desktime.dfy` each hold one page's
  constants as a `Profile`. Each also holds that page's own `getProgress` expression, a lemma that
  ties it to the engine's `Progress`, and the page's expiry rules. Pomodoro, Ultradian, 30/30
  and Desktime each also hold their counter indicator.
- `session_dots.dfy` (module `SessionDots`) holds the session dots that Ultradian (up to six)
  and Desktime (up to eight) share.
- `time_format.dfy` (module `TimeFormat`) models the three clock faces:
  - `MM:SS` on Pomodoro and 30/30;
  - `H:MM:SS` on Ultradian and Desktime, whose `formatTime` functions are the same code;
  - `HH:MM:SS` on Stopwatch.

  `ParseClock` reads a face back. The round-trip lemmas state that the `H:MM:SS` and `HH:MM:SS`
  faces read back as their input for every value, and the `MM:SS` face for every value below
  6000 s.
- `stopwatch.dfy` holds the count-up class, the stat-card decomposition and the pause/resume
  scenario.
- `music_player.dfy` holds the track cursor.

Behaviours of the code worth knowing, each of which the model keeps:

- **The next phase does not start by itself.** The last tick stops the clock and then flips the
  phase (`PomodoroTimer.tsx:65-67`). The next phase waits at its full duration for the user to
  start it (`TickCompletesPhase`).
- **The sliders act only while the clock is stopped.** While it runs, both sliders are disabled
  (`DesktimeTimer.tsx:273`, `:287`), and the panel says the settings can only be changed when the
  timer is stopped (`:291-295`). The handlers themselves also do nothing unless the clock is
  stopped (`:141`, `:150`), and report no error (`UpdatesIgnoredWhileRunning`).
- **The Ultradian break is 25 minutes** (`UltradianTimer.tsx:94`). The dashboard card for the
  technique says 20 (`Dashboard.tsx:72`), which the model does not follow.
- **There is only `toggleTimer`.** No page has separate start and pause actions. `Toggle` flips
  the running flag.
- **The displayed progress goes from (D-1)/D straight to 0.** The final tick flips the phase in
  the same step, so the bar never shows 100 on screen. The value 100 holds only of the
  `timeLeft = 0` case of the formula (`ProgressBounds`).

## Model

| member | source | states |
|---|---|---|
| Countdown.PhaseSeconds | src/pages/timers/DesktimeTimer.tsx:169-172 | `getProgress`'s `totalTime`: the full length of the current phase, at least a minute. In work it is the work minutes × 60. In a break without a long-break rule it is the break minutes × 60. |
| Countdown.BreakSeconds | src/pages/timers/PomodoroTimer.tsx:95-103 | The break after the work phase of cycle `c` lasts at least a minute. It is the long break exactly when the profile has a long-break rule whose period divides `c`, and the ordinary break otherwise. |
| Countdown.Initial | src/pages/timers/PomodoroTimer.tsx:43-46 | The mount state is stopped, in work, with counter 1. For a valid profile its clock shows the full work duration, and it satisfies the invariant. |
| Countdown.Complete | src/pages/timers/PomodoroTimer.tsx:86-119 | `handleTimerComplete` flips the phase and sets `timeLeft` to the new phase's full duration. The counter moves on by one exactly on break to work. The running flag is left alone. The result satisfies the invariant. |
| Countdown.TickUpdate | src/pages/timers/PomodoroTimer.tsx:64-70 | Either the phase is kept and exactly one second goes, or the phase flips and the clock stops at the new phase's full duration. Every tick keeps the invariant. |
| Countdown.Fire | src/pages/timers/PomodoroTimer.tsx:61-77 | While paused, a firing leaves the state unchanged. Every firing keeps the invariant. |
| Countdown.Toggle | src/pages/timers/PomodoroTimer.tsx:121-123 | `toggleTimer` flips `isRunning` and leaves every other field unchanged. |
| Countdown.Reset | src/pages/timers/PomodoroTimer.tsx:125-133 | From any state, `resetTimer` gives work at the profile's full work duration, stopped, with counter 1, which satisfies the invariant. |
| Countdown.StopForNavigation | src/pages/timers/PomodoroTimer.tsx:135-143 | `stopAndNavigateHome` clears `isRunning` and leaves every other field unchanged. |
| Countdown.SetWorkDuration | src/pages/timers/DesktimeTimer.tsx:140-147 | Nothing changes while running. While stopped, the work minutes are set, and in the work phase the clock shows the new full work length. The break clock, the phase, the running flag and the counter are kept, and so is the invariant. |
| Countdown.SetBreakDuration | src/pages/timers/DesktimeTimer.tsx:149-156 | Nothing changes while running. While stopped, the break minutes are set, and in the break phase the clock shows the new break length. The work clock, the phase, the running flag and the counter are kept, and so is the invariant. |
| Countdown.Progress | src/pages/timers/PomodoroTimer.tsx:151-154 | The elapsed share of the current phase in percent: 0 at the phase's full duration and 100 at zero. |
| Countdown.InitialInv | src/pages/timers/PomodoroTimer.tsx:43-46 | The mount state is work, at the full work duration, stopped, with counter 1, and it satisfies the invariant. |
| Countdown.TickCountsDown | src/pages/timers/PomodoroTimer.tsx:62-70 | While running with more than one second left, a tick takes off exactly one second and leaves the phase, the running flag and the counter alone. |
| Countdown.TickCompletesPhase | src/pages/timers/PomodoroTimer.tsx:64-68 | The last second stops the clock and flips the phase. `timeLeft` becomes the new phase's full duration. Work leads to the break for the current cycle with the counter kept. A break leads to work with the counter plus one. The next phase does not start by itself. |
| Countdown.TickCounter | src/pages/timers/PomodoroTimer.tsx:104-113 | A tick raises the counter by exactly one when it turns a break into work, and otherwise leaves it unchanged. |
| Countdown.PausedHolds | src/pages/timers/PomodoroTimer.tsx:61-77 | The interval fires only while running, so a paused page keeps its state. |
| Countdown.ToggleTwice | src/pages/timers/PomodoroTimer.tsx:121-123 | Toggle flips only `isRunning`, and toggling twice gives back the same state. |
| Countdown.ResetRestoresInitial | src/pages/timers/PomodoroTimer.tsx:125-133 | Reset from any state gives the mount state for the current profile, and that state satisfies the invariant. |
| Countdown.StopOnlyStops | src/pages/timers/PomodoroTimer.tsx:135-143 | Leaving for the dashboard sets `isRunning` to false and changes nothing else. |
| Countdown.UpdatesIgnoredWhileRunning | src/pages/timers/DesktimeTimer.tsx:140-156 | While running, both slider handlers leave the settings and the clock unchanged. |
| Countdown.UpdateWorkWhileStopped | src/pages/timers/DesktimeTimer.tsx:140-147 | While stopped, the work slider sets the work minutes. It resets `timeLeft` to the new length only in the work phase, and changes nothing else. |
| Countdown.UpdateBreakWhileStopped | src/pages/timers/DesktimeTimer.tsx:149-156 | While stopped, the break slider sets the break minutes. It resets `timeLeft` to the new length only in the break phase, and changes nothing else. |
| Countdown.WorkSliderValue | src/pages/timers/DesktimeTimer.tsx:267-275 | A work-slider value is exactly one of the slider's 22 positions `15 + 5j` (min 15, max 120, step 5). |
| Countdown.BreakSliderValue | src/pages/timers/DesktimeTimer.tsx:281-289 | A break-slider value is exactly one of the slider's 12 positions `5 + 5j` (min 5, max 60, step 5). |
| Countdown.ProgressBounds | src/pages/timers/PomodoroTimer.tsx:151-154 | While `timeLeft` is within the phase, progress lies in [0, 100]. It is 0 at the phase's full duration and 100 at zero. |
| Countdown.ApplyInv | src/pages/timers/PomodoroTimer.tsx:61-143 | Shared by every countdown page's interval effect and handlers. Every event keeps the invariant: a tick, a toggle, a reset, leaving the page, or a slider move within range. |
| Countdown.RunInv | src/pages/timers/PomodoroTimer.tsx:61-143 | Shared by every countdown page. Any sequence of allowed events keeps the clock within [1, phase duration] and the counter at least 1. It also keeps the profile's kind. |
| Countdown.ReachableInv | src/pages/timers/DesktimeTimer.tsx:43-156 | Every state reachable from mount satisfies the invariant, so the guard `timeLeft > 0` always holds. |
| Countdown.AdvanceCountsDown | src/pages/timers/PomodoroTimer.tsx:61-84 | Shared by every countdown page's interval effect. While running, `t` interval firings with more than `t` seconds left take off exactly `t` seconds and change nothing else. |
| Countdown.ProgressAfterTicks | src/pages/timers/PomodoroTimer.tsx:151-154 | Shared by every countdown page's `getProgress`. After `t` ticks from the start of a phase of `D` seconds, progress is exactly `t/D*100`. |
| Countdown.RunWholePhase | src/pages/timers/PomodoroTimer.tsx:61-84 | Shared by every countdown page's interval effect. Starting a phase at full duration and letting it run for its whole length gives, stopped, exactly `handleTimerComplete`'s next phase. |
| Countdown.PhasesFromInitial | src/pages/timers/PomodoroTimer.tsx:86-119 | Start each phase from mount and wait it out. After 2(k-1) phases the page is at the start of work in cycle k. One more phase gives the break for cycle k, which is the long one when the rule's period divides k. |
| Countdown.CountdownTimer.constructor | src/pages/timers/PomodoroTimer.tsx:43-46 | The page's initial `useState` values for the given profile. |
| Countdown.CountdownTimer.Tick | src/pages/timers/PomodoroTimer.tsx:61-84 | Requires the page to be running. The new state is `TickUpdate` of the old state, and the invariant is kept. |
| Countdown.CountdownTimer.HandleTimerComplete | src/pages/timers/PomodoroTimer.tsx:86-119 | The new state is `Complete` of the old state: the phase is flipped, at full duration, with the counter moved on break to work. |
| Countdown.CountdownTimer.ToggleTimer | src/pages/timers/PomodoroTimer.tsx:121-123 | The new state is `Toggle` of the old state. |
| Countdown.CountdownTimer.ResetTimer | src/pages/timers/PomodoroTimer.tsx:125-133 | The new state is the mount state of the current profile. |
| Countdown.CountdownTimer.StopAndNavigateHome | src/pages/timers/PomodoroTimer.tsx:135-143 | Only `isRunning` becomes false. |
| Countdown.CountdownTimer.UpdateWorkDuration | src/pages/timers/DesktimeTimer.tsx:140-147 | The new profile and state are `SetWorkDuration` of the old ones, and the invariant is kept. |
| Countdown.CountdownTimer.UpdateBreakDuration | src/pages/timers/DesktimeTimer.tsx:149-156 | The new profile and state are `SetBreakDuration` of the old ones, and the invariant is kept. |
| Countdown.CountdownTimer.GetProgress | src/pages/timers/DesktimeTimer.tsx:169-172 | The progress reading is exactly the engine's `Progress` of the current profile and state, and it lies in [0, 100]. |
| Pomodoro.NewTimer | src/pages/timers/PomodoroTimer.tsx:43-46 | Pomodoro mounts in work at 1500 s, stopped, in cycle 1. |
| Pomodoro.GetProgress | src/pages/timers/PomodoroTimer.tsx:151-154 | The page's literal totals (900 in a break when `cycle % 4 == 0`, else 300; 1500 in work) give exactly the engine's progress through the current phase. |
| Pomodoro.WorkExpiry | src/pages/timers/PomodoroTimer.tsx:94-103 | At the end of work the clock stops in a break of 900 s when `cycle % 4 == 0` and of 300 s otherwise. The cycle is kept. |
| Pomodoro.BreakExpiry | src/pages/timers/PomodoroTimer.tsx:111-113 | At the end of a break the clock stops in work at 1500 s, with cycle + 1. |
| Pomodoro.LongBreakEveryFourthCycle | src/pages/timers/PomodoroTimer.tsx:94-113 | From mount, the break after the k-th work phase is 900 s exactly when 4 divides k, and is followed by work at 1500 s in cycle k+1. |
| Pomodoro.FourCycles | src/pages/timers/PomodoroTimer.tsx:95-103 | After four full cycles the fourth break is 900 s, and the fifth work phase starts at 1500 s in cycle 5. |
| Pomodoro.GetProgressFollowsPhase | src/pages/timers/PomodoroTimer.tsx:151-154 | The page's literal total follows the same `cycle % 4` rule as the transition. Progress is 0 right after every transition, 100 at zero, and within [0, 100] within the phase. |
| Pomodoro.FormatTime | src/pages/timers/PomodoroTimer.tsx:145-149 | The `MM:SS` minutes and seconds fields recombine to the input, with seconds below 60. Below 6000 s the face is five characters and reads back as the input. |
| Pomodoro.CycleDotFilled | src/pages/timers/PomodoroTimer.tsx:285 | For dots 1 to 4: dot `num` is lit exactly when `num <= cycle % 4`, except when `cycle % 4 == 0`, when only dot 4 is lit. |
| Pomodoro.CycleIndicatorAsWritten | src/pages/timers/PomodoroTimer.tsx:281-290 | As written, the indicator lights `cycle % 4` dots, but only the fourth dot when `cycle % 4 == 0`. |
| Pomodoro.FourthCycleLightsOneDot | src/pages/timers/PomodoroTimer.tsx:285 | Cycle 3 lights three dots, and cycle 4 lights one. |
| Pomodoro.CycleIndicatorIntended | src/pages/timers/PomodoroTimer.tsx:285 | The corrected rule lights the first `(cycle-1) % 4 + 1` dots, always as a prefix: all four in cycles 4, 8, … |
| Ultradian.NewTimer | src/pages/timers/UltradianTimer.tsx:42-45 | Ultradian mounts in work at 5400 s, stopped, in session 1. |
| Ultradian.WorkExpiry | src/pages/timers/UltradianTimer.tsx:93-94 | At the end of deep work the clock stops in a 1500 s break. The session is kept. |
| Ultradian.BreakExpiry | src/pages/timers/UltradianTimer.tsx:102-104 | At the end of a break the clock stops in work at 5400 s, with session + 1. |
| Ultradian.GetProgress | src/pages/timers/UltradianTimer.tsx:147-150 | The page's literal totals (1500 in a break, 5400 in work) give exactly the engine's progress through the current phase. |
| Ultradian.GetProgressFollowsPhase | src/pages/timers/UltradianTimer.tsx:147-150 | The total is 1500 in a break and 5400 in work. Progress is 0 at the start of a phase, 100 at zero, and within [0, 100] in between. |
| Ultradian.FormatTime | src/pages/timers/UltradianTimer.tsx:136-145 | The face is `H:MM:SS` exactly from 3600 s on and `MM:SS` below. The hour field is the unpadded hour count. The minute field is `Pad2((s % 3600) / 60)` and the second field is `Pad2(s % 60)`, both below 60. The face reads back as the input. |
| SessionDots.DotCount | src/pages/timers/UltradianTimer.tsx:285 | `min(session, cap)`: the session count within the cap, and exactly the cap beyond it. |
| SessionDots.StyleOf | src/pages/timers/UltradianTimer.tsx:288-290 | Dot `i` is a finished session exactly when `i + 1 < session`, and the current, pulsing one exactly when `i + 1 == session`. |
| SessionDots.Overflow | src/pages/timers/UltradianTimer.tsx:293 | The `+n` label is shown exactly beyond the cap, with `n = session - cap`. Dots plus label equal the session count. |
| SessionDots.Display | src/pages/timers/DesktimeTimer.tsx:359-367 | From session 1, for any cap of at least 1: between 1 and the cap dots are drawn, none of them dim, and the pulsing dot is drawn exactly while the session count is within the cap. |
| Ultradian.SessionDisplay | src/pages/timers/UltradianTimer.tsx:285-293 | Up to six sessions the page shows `session` dots and no label. Beyond six it shows exactly 6 dots and a `+(session-6)` label. No drawn dot is ever the dim kind. The pulsing dot shows exactly up to session 6. |
| ThirtyThirty.NewTimer | src/pages/timers/ThirtyThirtyTimer.tsx:42-45 | 30/30 mounts in study at 1800 s, stopped, in cycle 1. |
| ThirtyThirty.StudyExpiry | src/pages/timers/ThirtyThirtyTimer.tsx:93-94 | At the end of study the clock stops in a 1800 s active break. The cycle is kept. |
| ThirtyThirty.ActiveBreakExpiry | src/pages/timers/ThirtyThirtyTimer.tsx:102-104 | At the end of an active break the clock stops in study at 1800 s, with cycle + 1. |
| ThirtyThirty.GetProgress | src/pages/timers/ThirtyThirtyTimer.tsx:142-145 | The fixed total of 1800 gives exactly the engine's progress through the current phase, because both phases last 1800 s. |
| ThirtyThirty.GetProgressInRange | src/pages/timers/ThirtyThirtyTimer.tsx:142-145 | The fixed total of 1800 is the engine's phase progress, and on every state reachable from mount it lies in [0, 100]. |
| ThirtyThirty.RunKeepsFixedProfile | src/pages/timers/ThirtyThirtyTimer.tsx:112-134 | None of the page's handlers changes its durations. |
| ThirtyThirty.IsBright | src/pages/timers/ThirtyThirtyTimer.tsx:302-308 | Dot `i` stands for study phase `i / 2` (even `i`) or active break `i / 2` (odd `i`). It is bright exactly when that phase is over. |
| ThirtyThirty.CountBrightPrefix | src/pages/timers/ThirtyThirtyTimer.tsx:306 | The bright dots among the first n are the first `min(n, t)` of them, and `ceil(min(n, t)/2)` of those are study dots. |
| ThirtyThirty.BalanceIndicator | src/pages/timers/ThirtyThirtyTimer.tsx:298-309 | Of the `cycle*2` dots, `(cycle-1)*2 + (isActiveBreak ? 1 : 0)` are bright, always fewer than all of them. The bright study dots number `cycle - 1`, plus one in an active break. |
| Desktime.NewTimer | src/pages/timers/DesktimeTimer.tsx:43-48 | Desktime mounts with 45/15 minutes, in work at 2700 s, stopped, in session 1. |
| Desktime.WorkExpiry | src/pages/timers/DesktimeTimer.tsx:97-98 | At the end of work the clock stops in a break of the configured break minutes × 60. The session is kept. |
| Desktime.BreakExpiry | src/pages/timers/DesktimeTimer.tsx:106-108 | At the end of a break the clock stops in work at the configured work minutes × 60, with session + 1. |
| Desktime.ResetUsesCurrentWork | src/pages/timers/DesktimeTimer.tsx:120-128 | Reset keeps the settings and restarts at the configured work length, not at 2700: after the work slider moves to 60, reset shows 3600. |
| Desktime.GetProgress | src/pages/timers/DesktimeTimer.tsx:169-172 | The total from the current sliders gives exactly the engine's progress for the configured profile. |
| Desktime.GetProgressRestarts | src/pages/timers/DesktimeTimer.tsx:169-172 | The page's total is the configured length of the current phase, so progress is 0 after a completed phase, after reset, and after a slider move while stopped. |
| Desktime.ProgressInRange | src/pages/timers/DesktimeTimer.tsx:267-287 | Within the slider ranges, after any events from mount, the invariant holds and progress lies in [0, 100]. |
| Desktime.SessionDisplay | src/pages/timers/DesktimeTimer.tsx:359-367 | Up to eight sessions, "Sessions Completed" shows `session` dots and no label. Beyond eight it shows exactly 8 dots and a `+(session-8)` label. No drawn dot is ever the dim kind. The pulsing dot shows exactly up to session 8. |
| TimeFormat.DecimalString | src/pages/timers/DesktimeTimer.tsx:164 | `n.toString()` (and `${hours}`) is digits only and at least one character. It is exactly one digit below 10 and two digits from 10 to 99. |
| TimeFormat.PadStart2 | src/pages/timers/PomodoroTimer.tsx:148 | `padStart(2, '0')` leaves a string of two or more characters unchanged. A shorter one becomes exactly two characters: the original at the end, '0' in front. |
| TimeFormat.Pad2 | src/pages/timers/PomodoroTimer.tsx:148 | `n.toString().padStart(2, '0')` is digits only and at least two characters. It is exactly two below 100. |
| TimeFormat.MinSec | src/pages/timers/ThirtyThirtyTimer.tsx:136-140 | `MM:SS` of the 30/30 and Pomodoro pages: two digit fields around the ':' three from the end. The face is exactly five characters below 6000 s. |
| TimeFormat.HourMinSec | src/pages/timers/DesktimeTimer.tsx:158-167 | `H:MM:SS` of the Desktime and Ultradian pages. The face is exactly five characters below one hour. From one hour on it has at least seven, with a second ':' six from the end. |
| TimeFormat.PaddedHourMinSec | src/pages/timers/StopwatchTimer.tsx:95-100 | `HH:MM:SS` of the Stopwatch: at least eight characters, with ':' three and six from the end. It is exactly eight below 100 hours. |
| TimeFormat.DecimalStringValue | src/pages/timers/PomodoroTimer.tsx:148 | `toString` of a non-negative integer reads back as that integer. |
| TimeFormat.LeadingZeroValue | src/pages/timers/PomodoroTimer.tsx:148 | The `'0'` that `padStart` adds does not change the value. |
| TimeFormat.Pad2Value | src/pages/timers/PomodoroTimer.tsx:148 | A two-digit padded field reads back as its number. |
| TimeFormat.MinSecRoundTrip | src/pages/timers/PomodoroTimer.tsx:145-149 | Below 6000 s, `MM:SS` has five characters with ':' at index 2 and reads back as the input. |
| TimeFormat.MinSecFields | src/pages/timers/ThirtyThirtyTimer.tsx:136-140 | For any input, the `MM:SS` fields recombine to the input, with seconds below 60. |
| TimeFormat.HourMinSecSplit | src/pages/timers/UltradianTimer.tsx:137-139 | Hours, minutes below 60 and seconds below 60 recombine to the input. |
| TimeFormat.HourMinSecRoundTrip | src/pages/timers/DesktimeTimer.tsx:158-167 | The face is `H:MM:SS` exactly from one hour on and `MM:SS` below, and it reads back as the input. The minute field is `Pad2((s % 3600) / 60)` and the second field is `Pad2(s % 60)`, both below 60. Below an hour the face is `Pad2(s / 60) + ":" + Pad2(s % 60)`. |
| TimeFormat.PaddedHourMinSecRoundTrip | src/pages/timers/StopwatchTimer.tsx:95-100 | Below 360000 s, `HH:MM:SS` has eight characters with ':' at indices 2 and 5. At any size it reads back as the input. |
| Stopwatch.Stopwatch.constructor | src/pages/timers/StopwatchTimer.tsx:28-29 | The stopwatch mounts at 0 s, stopped. |
| Stopwatch.Stopwatch.Tick | src/pages/timers/StopwatchTimer.tsx:45-49 | Only while running, a tick adds exactly one second, with no bound and no phase. |
| Stopwatch.Stopwatch.ToggleTimer | src/pages/timers/StopwatchTimer.tsx:63-71 | Toggle flips `isRunning` and keeps `time`. |
| Stopwatch.Stopwatch.ResetTimer | src/pages/timers/StopwatchTimer.tsx:73-78 | From any state, reset gives 0 s, stopped. |
| Stopwatch.Stopwatch.StopAndNavigateHome | src/pages/timers/StopwatchTimer.tsx:85-93 | Only `isRunning` becomes false. |
| Stopwatch.Stats | src/pages/timers/StopwatchTimer.tsx:273-281 | The hours, minutes and seconds cards recombine to `time`, with minutes and seconds below 60. |
| Stopwatch.FormatTime | src/pages/timers/StopwatchTimer.tsx:95-100 | `HH:MM:SS` reads back as the input, its fields are the stat cards, and below 100 hours it has eight characters with ':' at indices 2 and 5. |
| Stopwatch.PauseAndResume | src/pages/timers/StopwatchTimer.tsx:45-61 | n running ticks, then a pause: the clock shows n. Then a resume and one more tick: it shows n + 1. No time is lost or gained across the pause. |
| MusicPlayer.TrackCount | src/components/MusicPlayer.tsx:7-33 | The track list holds five tracks. |
| MusicPlayer.NextIndex | src/components/MusicPlayer.tsx:42-44 | `nextTrack` yields a valid index, and wraps to 0 exactly from the last track. |
| MusicPlayer.PrevIndex | src/components/MusicPlayer.tsx:46-48 | `prevTrack` yields a valid index, and wraps to 4 exactly from track 0. |
| MusicPlayer.NextPrevInverse | src/components/MusicPlayer.tsx:42-48 | Next then previous, and previous then next, give back the same track. |
| MusicPlayer.NextTimes | src/components/MusicPlayer.tsx:42-44 | Any number of `nextTrack` presses stays in [0, 5). |
| MusicPlayer.NextTimesAdds | src/components/MusicPlayer.tsx:42-44 | k presses of next move the cursor to `(i + k) % 5`. |
| MusicPlayer.FiveNextsReturn | src/components/MusicPlayer.tsx:42-44 | Five presses of next come back to the starting track. |
| MusicPlayer.TrackAfter | src/components/MusicPlayer.tsx:37-53 | After any sequence of next, previous and play/pause presses, the cursor stays in [0, 5). |
| MusicPlayer.TrackLabel | src/components/MusicPlayer.tsx:95 | "Track n of 5" always has n in 1..5. |
| MusicPlayer.Player.constructor | src/components/MusicPlayer.tsx:37-38 | The player mounts on track 0, not playing. |
| MusicPlayer.Player.NextTrack | src/components/MusicPlayer.tsx:42-44 | The cursor moves to `NextIndex`, and the play flag is unchanged. |
| MusicPlayer.Player.PrevTrack | src/components/MusicPlayer.tsx:46-48 | The cursor moves to `PrevIndex`, and the play flag is unchanged. |
| MusicPlayer.Player.TogglePlay | src/components/MusicPlayer.tsx:50-53 | The play flag flips and the track is unchanged, so toggling twice is the identity. |
| MusicPlayer.Player.Title | src/components/MusicPlayer.tsx:93 | The title shown is one of the five track titles. |

## Left out

- The React plumbing is not modelled: `useEffect`, `setInterval`/`clearInterval` and
  `intervalRef`. A tick is a method that requires `isRunning` (and `timeLeft > 0`), and a paused
  interval is a no-op (`Fire`).
- The completing tick is one atomic step. On the last second the updater returns 0 while the
  completion handler sets the new phase's duration. The model goes straight to the new duration.
  It does not model React's ordering of the queued updates.
- Toasts, navigation and the random motivational quote are not modelled. They are foreign calls
  that change no timer state. `stopAndNavigateHome` is modelled only as `isRunning := false`.
- `getProgress` is computed in Dafny `real` arithmetic, not in JavaScript floating point.
  Division by a zero total cannot occur: every duration is at least 5 minutes.
- Slider events in `Countdown.Allowed` may arrive while the clock runs, which the disabled sliders
  never send. The handlers ignore them then, so the model only admits more runs than the page does.
- `Desktime.GetProgress` requires both durations to be at least one minute. The sliders never go
  below 15 and 5 minutes, and JavaScript would show `NaN` for a zero total.
- `Countdown.CountdownTimer.UpdateWorkDuration` and `Countdown.CountdownTimer.UpdateBreakDuration`
  require a slider value (15..120 and 5..60 minutes, in steps of 5). The handlers themselves
  accept any number, but the sliders are their only caller.
- Stopwatch `time` is an unbounded integer. JavaScript numbers lose integer precision beyond 2^53
  seconds, which is not modelled.
- The `TimeDisplay` digit animation and `prevTimeRef` are cosmetic. So are the background lookup
  tables (`getBackgroundImage`, `getBackgroundStyle`, `BackgroundSelector.tsx`) and the
  presentational pages: the dashboard, the timer and theme selection pages, the router, the logo
  and the page transition.
- The music player's embedded video and its volume slider are not modelled. The player's
  open/closed panel flag is presentational and is not modelled either.

## Findings

| source | as written | input that shows it | evidently intended | confidence | as-written member | corrected member |
|---|---|---|---|---|---|---|
| src/pages/timers/PomodoroTimer.tsx:285 | A dot is filled when `num <= cycle % 4 \|\| (cycle % 4 === 0 && num === 4)`. At `cycle % 4 == 0` the first clause is false for every dot, so only dot 4 lights. | `cycle = 4`: one, two and three dots in cycles 1 to 3, then a single dot (the fourth) in cycle 4. | All four dots lit when `cycle % 4 == 0`: one more dot per cycle, back to one after every fourth. | medium; not executed | Pomodoro.FourthCycleLightsOneDot | Pomodoro.CycleIndicatorIntended |
