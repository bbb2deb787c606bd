/** The focus-session countdown (client/src/components/SessionTimer.tsx): a `remainingSecs`
    state stepped once a second while the session runs, its `MM:SS` rendering, the low-time
    warning and the enabled state of the Start and Reset buttons. */
module SessionTimer {
  import opened Wrappers
  import opened Text

  // ---------------------------------------------------------------- formatTime

  /** `s.padStart(2, '0')`. */
  function PadStart2(s: string): (r: string)
    ensures |s| >= 2 ==> r == s
    ensures |s| < 2 ==> |r| == 2 && r[2 - |s|..] == s && forall i :: 0 <= i < 2 - |s| ==> r[i] == '0'
  {
    if |s| >= 2 then s else if |s| == 1 then "0" + s else "00"
  }

  /** `formatTime`: whole minutes and the remaining seconds, each padded to two digits. */
  function FormatTime(seconds: nat): string {
    PadStart2(NatToString(seconds / 60)) + ":" + PadStart2(NatToString(seconds % 60))
  }

  /** The two-digit padding of a number keeps its value and only adds digits. */
  lemma PadStart2Value(n: nat)
    ensures var p := PadStart2(NatToString(n));
      AllDigits(p) && DecimalValue(p) == n && |p| >= 2 && (n < 100 ==> |p| == 2)
  {
    var d := NatToString(n);
    DecimalRoundTrip(n);
    if n < 10 {
      assert |d| == 1;
      assert PadStart2(d) == "0" + d;
      DecimalLeadingZero(d);
    }
  }

  /** Below 100 minutes the clock is exactly `MM:SS`, five characters. */
  lemma FormatTimeLength(seconds: nat)
    requires seconds < 6000
    ensures |FormatTime(seconds)| == 5 && FormatTime(seconds)[2] == ':'
  {
    PadStart2Value(seconds / 60);
    PadStart2Value(seconds % 60);
  }

  /** The seconds field is always two digits from `00` to `59`, after the colon. */
  lemma FormatTimeSecondsField(seconds: nat)
    ensures var t := FormatTime(seconds);
      && |t| >= 5 && t[|t| - 3] == ':'
      && AllDigits(t[|t| - 2..]) && DecimalValue(t[|t| - 2..]) == seconds % 60 < 60
      && t[|t| - 2] <= '5'
  {
    var m := PadStart2(NatToString(seconds / 60));
    var sec := PadStart2(NatToString(seconds % 60));
    PadStart2Value(seconds / 60);
    PadStart2Value(seconds % 60);
    var t := FormatTime(seconds);
    assert t == m + ":" + sec;
    assert t[|t| - 2..] == sec;
    assert t[|t| - 3] == ':';
    TwoDigitTens(sec);
  }

  /** A two-digit decimal below 60 starts with a digit at most `5`. */
  lemma TwoDigitTens(d: string)
    requires |d| == 2 && AllDigits(d) && DecimalValue(d) < 60
    ensures d[0] <= '5'
  {
    assert d[..1] == [d[0]];
    assert d[..1][..0] == [];
    assert DecimalValue(d) == (d[0] as int - '0' as int) * 10 + (d[1] as int - '0' as int);
  }

  /** Reading a clock back: the minutes before the colon and the two seconds digits after it. */
  function ParseClock(t: string): Option<nat> {
    if |t| >= 3 && t[|t| - 3] == ':' then ClockValue(t[..|t| - 3], t[|t| - 2..]) else None
  }

  function ClockValue(mins: string, secs: string): Option<nat> {
    if AllDigits(mins) && AllDigits(secs) then Some(DecimalValue(mins) * 60 + DecimalValue(secs))
    else None
  }

  lemma ParseClockOf(m: string, sec: string)
    requires AllDigits(m) && AllDigits(sec) && |sec| == 2
    ensures ParseClock(m + ":" + sec) == Some(DecimalValue(m) * 60 + DecimalValue(sec))
  {
    ClockParts(m, sec);
  }

  lemma ClockParts(m: string, sec: string)
    requires |sec| == 2
    ensures var t := m + ":" + sec;
      |t| >= 3 && t[|t| - 3] == ':' && t[..|t| - 3] == m && t[|t| - 2..] == sec
  {
    var t := m + ":" + sec;
    assert t[..|m|] == m;
    assert t[|m| + 1..] == sec;
  }

  /** `formatTime` loses nothing: the clock reads back as the number of seconds it shows. */
  lemma FormatTimeRoundTrip(seconds: nat)
    ensures ParseClock(FormatTime(seconds)) == Some(seconds)
  {
    var m := PadStart2(NatToString(seconds / 60));
    var sec := PadStart2(NatToString(seconds % 60));
    PadStart2Value(seconds / 60);
    PadStart2Value(seconds % 60);
    ParseClockOf(m, sec);
    assert (seconds / 60) * 60 + seconds % 60 == seconds;
  }

  // ---------------------------------------------------------------- the interval tick

  datatype TickResult = TickResult(remaining: int, pauseRequested: bool)

  /** The updater passed to `setRemainingSecs` by the interval callback. */
  function TickStep(prev: int): (r: TickResult)
    ensures r.remaining >= 0
    ensures r.pauseRequested <==> prev <= 1
    ensures prev >= 1 ==> r.remaining == prev - 1
    ensures prev <= 1 ==> r.remaining == 0
  {
    if prev <= 1 then TickResult(0, true) else TickResult(prev - 1, false)
  }

  /** The remaining seconds after `k` ticks starting from `n`. */
  function AfterTicks(n: int, k: nat): int
    decreases k
  {
    if k == 0 then n else AfterTicks(TickStep(n).remaining, k - 1)
  }

  lemma {:induction false} AfterTicksCount(n: int, k: nat)
    requires n >= 1 && k <= n
    ensures AfterTicks(n, k) == n - k
    decreases k
  {
    if k > 0 && n > 1 {
      AfterTicksCount(n - 1, k - 1);
    }
  }

  /** Counting down from `n >= 1`: every tick before the `n`-th leaves a positive count (so the
      interval stays armed) without asking to pause, the `n`-th tick reaches 0 and asks to pause,
      and the count never goes below 0. */
  lemma CountdownReachesZero(n: int)
    requires n >= 1
    ensures forall k: nat :: k < n ==> AfterTicks(n, k) > 0
    ensures forall k: nat :: k < n - 1 ==> !TickStep(AfterTicks(n, k)).pauseRequested
    ensures TickStep(AfterTicks(n, n - 1)).pauseRequested && AfterTicks(n, n) == 0
    ensures forall k: nat :: AfterTicks(n, k) >= 0
  {
    forall k: nat | k <= n ensures AfterTicks(n, k) == n - k {
      AfterTicksCount(n, k);
    }
    forall k: nat ensures AfterTicks(n, k) >= 0 {
      AfterTicksNonNegative(n, k);
    }
  }

  lemma {:induction false} AfterTicksNonNegative(n: int, k: nat)
    requires n >= 0
    ensures AfterTicks(n, k) >= 0
    decreases k
  {
    if k > 0 {
      AfterTicksNonNegative(TickStep(n).remaining, k - 1);
    }
  }

  // ---------------------------------------------------------------- display predicates

  /** `isLowTime`: five minutes or less remain. */
  predicate IsLowTime(remainingSecs: int) {
    remainingSecs <= 300
  }

  /** The warning starts exactly when the clock shows `05:00`: below that only `04:59` and less. */
  lemma LowTimeMatchesClock(remainingSecs: nat)
    requires remainingSecs < 6000
    ensures IsLowTime(remainingSecs) <==> remainingSecs / 60 < 5 || (remainingSecs / 60 == 5 && remainingSecs % 60 == 0)
    ensures DecimalValue(FormatTime(remainingSecs)[..2]) == remainingSecs / 60
  {
    var m := PadStart2(NatToString(remainingSecs / 60));
    PadStart2Value(remainingSecs / 60);
    PadStart2Value(remainingSecs % 60);
    assert FormatTime(remainingSecs)[..2] == m;
  }

  predicate IntervalArmed(isRunning: bool, remainingSecs: int) {
    isRunning && remainingSecs > 0
  }

  /** `disabled={remainingSecs === 0}` on Start. */
  predicate StartDisabled(remainingSecs: int) {
    remainingSecs == 0
  }

  /** `disabled={!isRunning && remainingSecs === durationSecs}` on Reset. */
  predicate ResetDisabled(isRunning: bool, remainingSecs: int, durationSecs: int) {
    !isRunning && remainingSecs == durationSecs
  }

  // ---------------------------------------------------------------- the component state

  /** The timer component: its two props and its `remainingSecs` state. */
  class Countdown {
    var durationSecs: int
    var isRunning: bool
    var remainingSecs: int

    /** `useState(durationSecs)`. */
    constructor(durationSecs: int, isRunning: bool)
      ensures this.durationSecs == durationSecs && this.isRunning == isRunning
      ensures remainingSecs == durationSecs
      ensures ResetDisabled(isRunning, remainingSecs, durationSecs) <==> !isRunning
    {
      this.durationSecs := durationSecs;
      this.isRunning := isRunning;
      remainingSecs := durationSecs;
    }

    /** A new `durationSecs` prop: the effect resets the countdown to it. */
    method SetDuration(d: int)
      modifies this
      ensures durationSecs == d && remainingSecs == d && isRunning == old(isRunning)
      ensures !isRunning ==> ResetDisabled(isRunning, remainingSecs, durationSecs)
      ensures StartDisabled(remainingSecs) <==> d == 0
    {
      durationSecs := d;
      remainingSecs := d;
    }

    /** A new `isRunning` prop (from `onStart`/`onPause`); the countdown is not touched. */
    method SetRunning(running: bool)
      modifies this
      ensures isRunning == running
      ensures durationSecs == old(durationSecs) && remainingSecs == old(remainingSecs)
    {
      isRunning := running;
    }

    /** One interval callback; the result says whether `onPause` was called. */
    method Tick() returns (pauseRequested: bool)
      modifies this
      ensures TickResult(remainingSecs, pauseRequested) == TickStep(old(remainingSecs))
      ensures remainingSecs >= 0 && (pauseRequested ==> StartDisabled(remainingSecs))
      ensures durationSecs == old(durationSecs) && isRunning == old(isRunning)
    {
      if remainingSecs <= 1 {
        pauseRequested := true;
        remainingSecs := 0;
      } else {
        pauseRequested := false;
        remainingSecs := remainingSecs - 1;
      }
    }
  }
}
