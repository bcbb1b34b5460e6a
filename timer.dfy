/**
 * The speaking timer: a countdown over `timeLeft` that runs while it is
 * started and not paused, fires its end callback once when it reaches zero,
 * and can be paused, resumed, reset and completed by hand. The one-second
 * interval is a call to `Tick`.
 */
module SpeakingTimer {
  import opened Text

  datatype TimerState = TimerState(timeLeft: int, isRunning: bool, isPaused: bool)

  /** The interval is armed exactly in this state. */
  predicate Counting(s: TimerState) {
    s.isRunning && !s.isPaused && s.timeLeft > 0
  }

  /** One second of the interval: the new state, and whether the end callback fired. */
  function TickStep(s: TimerState): (r: (TimerState, bool))
    ensures !Counting(s) ==> r == (s, false)
    ensures r.1 <==> Counting(s) && s.timeLeft <= 1
    ensures r.1 ==> r.0 == TimerState(0, false, s.isPaused)
    ensures Counting(s) && s.timeLeft > 1 ==> r.0 == s.(timeLeft := s.timeLeft - 1)
    ensures 0 <= r.0.timeLeft <= s.timeLeft || r.0 == s
  {
    if !Counting(s) then (s, false)
    else if s.timeLeft <= 1 then (s.(timeLeft := 0, isRunning := false), true)
    else (s.(timeLeft := s.timeLeft - 1), false)
  }

  /** `n` seconds of the interval: the state reached and how often the end callback fired. */
  function Ticks(s: TimerState, n: nat): (TimerState, nat)
    decreases n
  {
    if n == 0 then (s, 0)
    else
      var (t, fired) := TickStep(s);
      var (u, count) := Ticks(t, n - 1);
      (u, count + if fired then 1 else 0)
  }

  /** A timer that is stopped, paused or at zero ignores the interval. */
  lemma {:induction false} IdleTimerIgnoresTicks(s: TimerState, n: nat)
    requires !Counting(s)
    ensures Ticks(s, n) == (s, 0)
  {
    if n > 0 {
      IdleTimerIgnoresTicks(s, n - 1);
    }
  }

  /** Before `d` seconds have passed a timer started at `d` is still counting and has not fired. */
  lemma {:induction false} CountsDownOneAtATime(d: int, n: nat)
    requires n < d
    ensures Ticks(TimerState(d, true, false), n) == (TimerState(d - n, true, false), 0)
  {
    if n > 0 {
      CountsDownOneAtATime(d - 1, n - 1);
    }
  }

  /** A timer started at `d > 0` and never paused reaches zero after exactly `d` seconds, stops,
      and fires its end callback exactly once; further seconds change nothing. */
  lemma {:induction false} StartedTimerEnds(d: int, extra: nat)
    requires d > 0
    ensures Ticks(TimerState(d, true, false), d + extra) == (TimerState(0, false, false), 1)
  {
    if d == 1 {
      IdleTimerIgnoresTicks(TimerState(0, false, false), extra);
    } else {
      StartedTimerEnds(d - 1, extra);
    }
  }

  /** Timer's `formatTime`: under a minute the plain number of seconds, otherwise minutes and
      seconds, each padded to two digits. */
  function FormatClock(seconds: int): string {
    if seconds < 60 then IntToString(seconds)
    else PadStart2(NatToString(seconds / 60)) + ":" + PadStart2(NatToString(seconds % 60))
  }

  /** The clock reads back as the time it shows: under a minute one or two digits with the value;
      from a minute on, at least two digits of minutes, a colon and two digits of seconds. */
  lemma FormatClockReadsBack(seconds: nat)
    ensures var r := FormatClock(seconds);
      && (seconds < 60 ==> |r| <= 2 && AllDigits(r) && DigitsValue(r) == seconds)
      && (seconds >= 60 ==>
            && |r| >= 5 && r[|r| - 3] == ':'
            && AllDigits(r[..|r| - 3]) && AllDigits(r[|r| - 2..])
            && DigitsValue(r[..|r| - 3]) == seconds / 60
            && DigitsValue(r[|r| - 2..]) == seconds % 60)
  {
    var r := FormatClock(seconds);
    if seconds < 60 {
      NatToStringRoundTrip(seconds);
    } else {
      var mins := PadStart2(NatToString(seconds / 60));
      var secs := PadStart2(NatToString(seconds % 60));
      NatToStringRoundTrip(seconds / 60);
      NatToStringRoundTrip(seconds % 60);
      PadStart2Value(NatToString(seconds / 60));
      PadStart2Value(NatToString(seconds % 60));
      assert |NatToString(seconds % 60)| <= 2;
      assert r == mins + ":" + secs;
      assert r[..|r| - 3] == mins;
      assert r[|r| - 2..] == secs;
    }
  }

  class Timer {
    var duration: int
    var autoStart: bool
    var timeLeft: int
    var isRunning: bool
    var isPaused: bool

    function State(): TimerState
      reads this
    {
      TimerState(timeLeft, isRunning, isPaused)
    }

    /** A fresh timer shows its whole duration and runs at once only when asked to. */
    constructor (duration: int, autoStart: bool)
      ensures this.duration == duration && this.autoStart == autoStart
      ensures State() == TimerState(duration, autoStart, false)
    {
      this.duration := duration;
      this.autoStart := autoStart;
      timeLeft := duration;
      isRunning := autoStart;
      isPaused := false;
    }

    /** One second of the interval; `ended` says whether `onTimerEnd` fired. */
    method Tick() returns (ended: bool)
      modifies this`timeLeft, this`isRunning
      ensures (State(), ended) == TickStep(old(State()))
    {
      if isRunning && !isPaused && timeLeft > 0 {
        if timeLeft <= 1 {
          isRunning := false;
          timeLeft := 0;
          ended := true;
        } else {
          timeLeft := timeLeft - 1;
          ended := false;
        }
      } else {
        ended := false;
      }
    }

    /** `handleStart`: only a timer with time left starts, and it starts unpaused. */
    method Start()
      modifies this`isRunning, this`isPaused
      ensures old(timeLeft) > 0 ==> State() == TimerState(timeLeft, true, false)
      ensures old(timeLeft) <= 0 ==> State() == old(State())
    {
      if timeLeft > 0 {
        isRunning := true;
        isPaused := false;
      }
    }

    /** `handlePause`: only the pause flag changes. */
    method Pause()
      modifies this`isPaused
      ensures State() == old(State()).(isPaused := true)
    {
      isPaused := true;
    }

    /** `handleResume`: only the pause flag changes. */
    method Resume()
      modifies this`isPaused
      ensures State() == old(State()).(isPaused := false)
    {
      isPaused := false;
    }

    /** `handleReset`: from any state, the full duration, stopped and unpaused. */
    method Reset()
      modifies this`timeLeft, this`isRunning, this`isPaused
      ensures State() == TimerState(duration, false, false)
    {
      timeLeft := duration;
      isRunning := false;
      isPaused := false;
    }

    /** `handleComplete`: the speech ends at once and `onTimerComplete` always fires, which
        `completed` reports. The pause flag is left as it was. */
    method Complete() returns (completed: bool)
      modifies this`timeLeft, this`isRunning
      ensures State() == old(State()).(timeLeft := 0, isRunning := false)
      ensures !Counting(State())
      ensures completed
    {
      timeLeft := 0;
      isRunning := false;
      completed := true;
    }

    /** The effect on `duration` and `autoStart`: like a reset, except that the timer runs when
        `autoStart` says so. */
    method ChangeDuration(newDuration: int, newAutoStart: bool)
      modifies this
      ensures duration == newDuration && autoStart == newAutoStart
      ensures State() == TimerState(newDuration, newAutoStart, false)
    {
      duration := newDuration;
      autoStart := newAutoStart;
      timeLeft := newDuration;
      isRunning := newAutoStart;
      isPaused := false;
    }
  }
}
