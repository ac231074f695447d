/** The clock faces the timer pages print: `MM:SS` (Pomodoro, 30/30), `H:MM:SS` with an unpadded
    hour field shown only from one hour on (Ultradian, Desktime) and `HH:MM:SS` (Stopwatch).
    Each field is a JavaScript `n.toString().padStart(2, '0')` of a non-negative integer.
    `ParseClock` reads any of the three faces back; the round-trip lemmas are its partner. */
module TimeFormat {

  predicate IsDigit(c: char) {
    '0' <= c <= '9'
  }

  predicate AllDigits(s: string) {
    forall i :: 0 <= i < |s| ==> IsDigit(s[i])
  }

  function DigitChar(d: nat): (c: char)
    requires d < 10
    ensures IsDigit(c) && (c as int) - ('0' as int) == d
  {
    (('0' as int) + d) as char
  }

  function DigitValue(c: char): nat
    requires IsDigit(c)
  {
    (c as int) - ('0' as int)
  }

  /** `n.toString()` for a non-negative integer: decimal, no leading zeros. */
  function DecimalString(n: nat): (r: string)
    ensures 1 <= |r| && AllDigits(r)
    ensures n < 10 <==> |r| == 1
    ensures 10 <= n < 100 ==> |r| == 2
  {
    if n < 10 then [DigitChar(n)] else DecimalString(n / 10) + [DigitChar(n % 10)]
  }

  /** The value of a string of decimal digits (leading zeros allowed). */
  function DigitsValue(s: string): nat
    requires AllDigits(s)
  {
    if s == [] then 0 else DigitsValue(s[..|s| - 1]) * 10 + DigitValue(s[|s| - 1])
  }

  /** `s.padStart(2, '0')`. */
  function PadStart2(s: string): (r: string)
    ensures |r| >= 2 && |r| >= |s|
    ensures |s| >= 2 ==> r == s
    ensures |s| < 2 ==> |r| == 2 && r[2 - |s|..] == s && r[0] == '0' && r[1 - |s|] == '0'
  {
    if |s| >= 2 then s else seq(2 - |s|, _ => '0') + s
  }

  function Pad2(n: nat): (r: string)
    ensures AllDigits(r) && |r| >= 2
    ensures n < 100 ==> |r| == 2
  {
    PadStart2(DecimalString(n))
  }

  lemma {:induction false} DecimalStringValue(n: nat)
    ensures DigitsValue(DecimalString(n)) == n
  {
    if n >= 10 {
      var s := DecimalString(n);
      assert s[..|s| - 1] == DecimalString(n / 10);
      DecimalStringValue(n / 10);
    }
  }

  /** A leading zero does not change the value of a digit string. */
  lemma {:induction false} LeadingZeroValue(s: string)
    requires AllDigits(s)
    ensures AllDigits(['0'] + s) && DigitsValue(['0'] + s) == DigitsValue(s)
    decreases |s|
  {
    var t := ['0'] + s;
    if s != [] {
      assert t[..|t| - 1] == ['0'] + s[..|s| - 1];
      LeadingZeroValue(s[..|s| - 1]);
    }
  }

  lemma Pad2Value(n: nat)
    ensures DigitsValue(Pad2(n)) == n
  {
    var d := DecimalString(n);
    DecimalStringValue(n);
    if |d| < 2 {
      assert Pad2(n) == ['0'] + d;
      LeadingZeroValue(d);
    }
  }

  /** formatTime of PomodoroTimer.tsx and ThirtyThirtyTimer.tsx. */
  function MinSec(seconds: nat): (r: string)
    ensures |r| >= 5 && r[|r| - 3] == ':'
    ensures AllDigits(r[..|r| - 3]) && AllDigits(r[|r| - 2..])
    ensures seconds < 6000 <==> |r| == 5
  {
    Pad2(seconds / 60) + ":" + Pad2(seconds % 60)
  }

  /** formatTime of UltradianTimer.tsx and DesktimeTimer.tsx. */
  function HourMinSec(seconds: nat): (r: string)
    ensures |r| >= 5 && r[|r| - 3] == ':'
    ensures seconds < 3600 <==> |r| == 5
    ensures seconds >= 3600 ==> |r| >= 7 && r[|r| - 6] == ':'
  {
    var hours := seconds / 3600;
    var mins := (seconds % 3600) / 60;
    var secs := seconds % 60;
    if hours > 0 then DecimalString(hours) + ":" + Pad2(mins) + ":" + Pad2(secs)
    else Pad2(mins) + ":" + Pad2(secs)
  }

  /** formatTime of StopwatchTimer.tsx. */
  function PaddedHourMinSec(seconds: nat): (r: string)
    ensures |r| >= 8 && r[|r| - 3] == ':' && r[|r| - 6] == ':'
    ensures seconds < 360000 <==> |r| == 8
  {
    Pad2(seconds / 3600) + ":" + Pad2((seconds % 3600) / 60) + ":" + Pad2(seconds % 60)
  }

  /** A clock face: digit fields separated by ':' at |s|-3 and, when longer than MM:SS,
      at |s|-6; everything else a digit. */
  predicate IsClockFace(s: string) {
    && |s| >= 5
    && s[|s| - 3] == ':'
    && AllDigits(s[|s| - 2..])
    && (if |s| == 5 then AllDigits(s[..2])
        else |s| >= 7 && s[|s| - 6] == ':' && AllDigits(s[..|s| - 6]) && AllDigits(s[|s| - 5..|s| - 3]))
  }

  /** Reads a clock face back into seconds (the last field seconds, then minutes, then hours). */
  function ParseClock(s: string): nat
    requires IsClockFace(s)
  {
    if |s| == 5 then DigitsValue(s[..2]) * 60 + DigitsValue(s[3..])
    else DigitsValue(s[..|s| - 6]) * 3600 + DigitsValue(s[|s| - 5..|s| - 3]) * 60
         + DigitsValue(s[|s| - 2..])
  }

  /** `MM:SS` below 100 minutes: five characters, ':' in the middle, and it reads back. */
  lemma MinSecRoundTrip(seconds: nat)
    requires seconds < 6000
    ensures var r := MinSec(seconds);
      |r| == 5 && r[2] == ':' && IsClockFace(r) && ParseClock(r) == seconds
  {
    var m, s := Pad2(seconds / 60), Pad2(seconds % 60);
    var r := MinSec(seconds);
    assert r[..2] == m && r[3..] == s;
    Pad2Value(seconds / 60);
    Pad2Value(seconds % 60);
  }

  /** The minutes and seconds fields of `MM:SS` recombine to the input at any size. */
  lemma MinSecFields(seconds: nat)
    ensures var r := MinSec(seconds);
      |r| >= 5 && r[|r| - 3] == ':' && AllDigits(r[..|r| - 3]) && AllDigits(r[|r| - 2..])
      && DigitsValue(r[..|r| - 3]) * 60 + DigitsValue(r[|r| - 2..]) == seconds
      && DigitsValue(r[|r| - 2..]) < 60
  {
    var m, s := Pad2(seconds / 60), Pad2(seconds % 60);
    var r := MinSec(seconds);
    assert r[..|r| - 3] == m && r[|r| - 2..] == s;
    Pad2Value(seconds / 60);
    Pad2Value(seconds % 60);
  }

  /** Whole hours, minutes below 60 and seconds below 60 recombine to the input. */
  lemma HourMinSecSplit(seconds: nat)
    ensures (seconds / 3600) * 3600 + ((seconds % 3600) / 60) * 60 + seconds % 60 == seconds
    ensures (seconds % 3600) / 60 < 60
  {
    var rest := seconds % 3600;
    assert rest % 60 == seconds % 60 by {
      assert seconds == (seconds / 3600) * 60 * 60 + rest;
    }
  }

  lemma HourFaceFields(seconds: nat)
    requires seconds >= 3600
    ensures var r := HourMinSec(seconds);
      && r[..|r| - 6] == DecimalString(seconds / 3600)
      && r[|r| - 5..|r| - 3] == Pad2((seconds % 3600) / 60)
      && r[|r| - 2..] == Pad2(seconds % 60)
      && r[|r| - 6] == ':' && r[|r| - 3] == ':'
  {
    HourMinSecSplit(seconds);
  }

  /** `H:MM:SS` appears exactly from one hour on, `MM:SS` below; either face reads back. */
  lemma HourMinSecRoundTrip(seconds: nat)
    ensures var r := HourMinSec(seconds);
      && IsClockFace(r) && ParseClock(r) == seconds
      && (seconds < 3600 <==> |r| == 5)
      && (seconds >= 3600 ==> r[..|r| - 6] == DecimalString(seconds / 3600))
      && r[|r| - 5..|r| - 3] == Pad2((seconds % 3600) / 60)
      && r[|r| - 2..] == Pad2(seconds % 60)
      && (seconds < 3600 ==> r[..2] == Pad2(seconds / 60) && r[3..] == Pad2(seconds % 60))
      && DigitsValue(r[|r| - 5..|r| - 3]) < 60 && DigitsValue(r[|r| - 2..]) < 60
  {
    var hours, mins, secs := seconds / 3600, (seconds % 3600) / 60, seconds % 60;
    var r := HourMinSec(seconds);
    HourMinSecSplit(seconds);
    Pad2Value(mins);
    Pad2Value(secs);
    if hours > 0 {
      HourFaceFields(seconds);
      DecimalStringValue(hours);
      assert ParseClock(r) == hours * 3600 + mins * 60 + secs;
    } else {
      assert r[..2] == Pad2(mins) && r[3..] == Pad2(secs);
    }
  }

  lemma PaddedFaceFields(seconds: nat)
    ensures var r := PaddedHourMinSec(seconds);
      && |r| >= 8
      && r[..|r| - 6] == Pad2(seconds / 3600)
      && r[|r| - 5..|r| - 3] == Pad2((seconds % 3600) / 60)
      && r[|r| - 2..] == Pad2(seconds % 60)
      && r[|r| - 6] == ':' && r[|r| - 3] == ':'
  {
    HourMinSecSplit(seconds);
  }

  /** `HH:MM:SS` is eight characters with ':' at 2 and 5 below 100 hours, and always reads back. */
  lemma PaddedHourMinSecRoundTrip(seconds: nat)
    ensures var r := PaddedHourMinSec(seconds);
      && IsClockFace(r) && ParseClock(r) == seconds
      && (seconds < 360000 ==> |r| == 8 && r[2] == ':' && r[5] == ':')
      && |r| >= 8
      && r[..|r| - 6] == Pad2(seconds / 3600)
      && r[|r| - 5..|r| - 3] == Pad2((seconds % 3600) / 60)
      && r[|r| - 2..] == Pad2(seconds % 60)
  {
    var hours, mins, secs := seconds / 3600, (seconds % 3600) / 60, seconds % 60;
    var r := PaddedHourMinSec(seconds);
    PaddedFaceFields(seconds);
    HourMinSecSplit(seconds);
    Pad2Value(hours);
    Pad2Value(mins);
    Pad2Value(secs);
    assert ParseClock(r) == hours * 3600 + mins * 60 + secs;
  }
}
