// The Pomodoro timer of src/pages/Pomodoro.jsx: a one-second tick over minutes and
// seconds, the work/break cycle with a long break after every fourth work session,
// start, pause, reset, skip and the two-digit time format.

module ClassicPomodoro {
  import opened JsText

  const WorkTime: nat := 25
  const BreakTime: nat := 5
  const LongBreakTime: nat := 15
  const CyclesBeforeLongBreak: nat := 4

  /** The timer's state. */
  datatype Clock = Clock(minutes: nat, seconds: nat, isActive: bool, isBreak: bool, cycleCount: nat)

  /** The state on mount: a stopped 25:00 work session, no cycle completed. */
  const Initial := Clock(WorkTime, 0, false, false, 0)

  /** Seconds left on the clock. */
  function Remaining(c: Clock): nat {
    c.minutes * 60 + c.seconds
  }

  /** The length in minutes of the break that follows the `n`-th completed work session. */
  function BreakAfter(n: nat): nat {
    if n % CyclesBeforeLongBreak == 0 then LongBreakTime else BreakTime
  }

  /** handleTimerCompletion: a finished work session counts one cycle and starts a break,
      long after every fourth cycle; a finished break returns to a 25-minute work
      session. Either way the timer stops. */
  function Completion(c: Clock): (r: Clock)
    ensures !r.isActive && r.seconds == c.seconds && r.isBreak == !c.isBreak
    ensures !c.isBreak ==> r.cycleCount == c.cycleCount + 1 && r.minutes in {BreakTime, LongBreakTime}
    ensures !c.isBreak ==> (r.minutes == LongBreakTime <==> r.cycleCount % CyclesBeforeLongBreak == 0)
    ensures c.isBreak ==> r.cycleCount == c.cycleCount && r.minutes == WorkTime
  {
    if !c.isBreak then
      var n := c.cycleCount + 1;
      if n % CyclesBeforeLongBreak == 0 then c.(cycleCount := n, minutes := LongBreakTime, isBreak := true, isActive := false)
      else c.(cycleCount := n, minutes := BreakTime, isBreak := true, isActive := false)
    else c.(minutes := WorkTime, isBreak := false, isActive := false)
  }

  /** One firing of the one-second interval, which runs only while the timer is active:
      at 0:00 it completes the session, otherwise it takes one second off the clock. */
  function TickStep(c: Clock): (r: Clock)
    ensures !c.isActive ==> r == c
    ensures c.isActive && Remaining(c) > 0 ==>
      && Remaining(r) == Remaining(c) - 1
      && r.isActive && r.isBreak == c.isBreak && r.cycleCount == c.cycleCount
    ensures c.isActive && Remaining(c) == 0 ==> r == Completion(c)
    ensures c.seconds < 60 ==> r.seconds < 60
  {
    if !c.isActive then c
    else if c.seconds == 0 then
      if c.minutes == 0 then Completion(c)
      else c.(minutes := c.minutes - 1, seconds := 59)
    else c.(seconds := c.seconds - 1)
  }

  /** `n` firings of the interval. */
  function Ticks(c: Clock, n: nat): Clock {
    if n == 0 then c else TickStep(Ticks(c, n - 1))
  }

  /** A running session counts down one second per tick without changing phase. */
  lemma {:induction false} CountDown(c: Clock, n: nat)
    requires c.isActive && n <= Remaining(c)
    ensures var z := Ticks(c, n);
      z.isActive && Remaining(z) == Remaining(c) - n && z.isBreak == c.isBreak && z.cycleCount == c.cycleCount
  {
    if n > 0 {
      CountDown(c, n - 1);
    }
  }

  /** A running session completes on the tick after it reaches 0:00, which is tick number
      minutes*60 + seconds + 1. */
  lemma RunsOut(c: Clock)
    requires c.isActive
    ensures var z := Ticks(c, Remaining(c)); Ticks(c, Remaining(c) + 1) == Completion(z) && Remaining(z) == 0
  {
    CountDown(c, Remaining(c));
  }

  /** `n` completions in a row. */
  function Completions(c: Clock, n: nat): Clock {
    if n == 0 then c else Completion(Completions(c, n - 1))
  }

  /** Each work session and the break after it bring the timer back to a stopped 25:00
      work session with one more cycle counted. */
  lemma {:induction false} WorkAfterPairs(k: nat)
    ensures Completions(Initial, 2 * k) == Clock(WorkTime, 0, false, false, k)
  {
    if k > 0 {
      WorkAfterPairs(k - 1);
      assert Completions(Initial, 2 * k) == Completion(Completion(Completions(Initial, 2 * (k - 1))));
    }
  }

  /** From mount, the break after the k-th work session (k counted from 1) is the long one
      exactly when k is a multiple of four. */
  lemma {:induction false} LongBreakEveryFourth(k: nat)
    requires k >= 1
    ensures var c := Completions(Initial, 2 * k - 1);
      c.isBreak && c.cycleCount == k && (c.minutes == LongBreakTime <==> k % CyclesBeforeLongBreak == 0)
  {
    var j: nat := 2 * (k - 1);
    assert Completions(Initial, j) == Clock(WorkTime, 0, false, false, k - 1) by {
      WorkAfterPairs(k - 1);
    }
    assert 2 * k - 1 == j + 1;
    var c := Completions(Initial, j + 1);
    assert c == Completion(Clock(WorkTime, 0, false, false, k - 1));
  }

  /** skipSession: stops the timer and moves to the next phase as it is written at
      Pomodoro.jsx:94-113, with seconds zeroed. */
  function Skip(c: Clock): (r: Clock)
    ensures !r.isActive && r.seconds == 0
  {
    var c' := c.(isActive := false);
    if c'.isBreak then c'.(minutes := WorkTime, isBreak := false, seconds := 0)
    else
      var n := c'.cycleCount + 1;
      c'.(cycleCount := n, minutes := if n % CyclesBeforeLongBreak == 0 then LongBreakTime else BreakTime,
          isBreak := true, seconds := 0)
  }

  /** Skipping is completing the session early: the same next phase, with the clock's
      seconds cleared. */
  lemma SkipIsCompletion(c: Clock)
    ensures Skip(c) == Completion(c).(seconds := 0)
  {
  }

  /** resetTimer: stops the timer at the start of the current phase, 5 minutes for any
      break (long ones included) and 25 for work. */
  function Reset(c: Clock): (r: Clock)
    ensures !r.isActive && r.seconds == 0 && r.isBreak == c.isBreak && r.cycleCount == c.cycleCount
    ensures r.minutes == if c.isBreak then BreakTime else WorkTime
  {
    c.(isActive := false, minutes := if c.isBreak then BreakTime else WorkTime, seconds := 0)
  }

  /** formatTime: values below 10 get one leading zero. */
  function FormatTime(t: nat): (r: string)
    ensures forall i :: 0 <= i < |r| ==> IsDigit(r[i])
    ensures r == PadStart2(NatToString(t))
  {
    if t < 10 then "0" + NatToString(t) else NatToString(t)
  }

  /** A leading zero does not change the value of a digit string. */
  lemma {:induction false} LeadingZero(s: string)
    requires forall i :: 0 <= i < |s| ==> IsDigit(s[i])
    ensures DigitsValue("0" + s) == DigitsValue(s)
  {
    if s != [] {
      var z := "0" + s;
      assert z[..|z| - 1] == "0" + s[..|s| - 1];
      LeadingZero(s[..|s| - 1]);
    }
  }

  /** The formatted text reads back as the value, and it has two characters below 100. */
  lemma FormatTimeRoundTrip(t: nat)
    ensures DigitsValue(FormatTime(t)) == t
    ensures t < 100 ==> |FormatTime(t)| == 2
  {
    NatToStringRoundTrip(t);
    if t < 10 {
      LeadingZero(NatToString(t));
    } else if t < 100 {
      assert NatToString(t) == NatToString(t / 10) + [DigitChar(t % 10)];
    }
  }

  /** The component's timer state. */
  class Timer {
    var minutes: nat
    var seconds: nat
    var isActive: bool
    var isBreak: bool
    var cycleCount: nat

    function State(): Clock
      reads this
    {
      Clock(minutes, seconds, isActive, isBreak, cycleCount)
    }

    /** The clock never shows 60 seconds or more. */
    ghost predicate Valid()
      reads this
    {
      seconds < 60
    }

    constructor ()
      ensures Valid() && State() == Initial
    {
      minutes, seconds, isActive, isBreak, cycleCount := WorkTime, 0, false, false, 0;
    }

    /** One firing of the interval; `completed` tells whether it ended the session. */
    method Tick() returns (completed: bool)
      requires Valid()
      modifies this
      ensures Valid() && State() == TickStep(old(State()))
      ensures completed <==> old(isActive) && old(Remaining(State())) == 0
    {
      completed := false;
      if !isActive {
        return;
      }
      if seconds == 0 {
        if minutes == 0 {
          HandleTimerCompletion();
          completed := true;
        } else {
          minutes, seconds := minutes - 1, 59;
        }
      } else {
        seconds := seconds - 1;
      }
    }

    method HandleTimerCompletion()
      requires Valid()
      modifies this
      ensures Valid() && State() == Completion(old(State()))
    {
      if !isBreak {
        var newCycleCount := cycleCount + 1;
        cycleCount := newCycleCount;
        if newCycleCount % CyclesBeforeLongBreak == 0 {
          minutes, isBreak := LongBreakTime, true;
        } else {
          minutes, isBreak := BreakTime, true;
        }
      } else {
        minutes, isBreak := WorkTime, false;
      }
      isActive := false;
    }

    method StartTimer()
      requires Valid()
      modifies this
      ensures Valid() && State() == old(State()).(isActive := true)
    {
      isActive := true;
    }

    method PauseTimer()
      requires Valid()
      modifies this
      ensures Valid() && State() == old(State()).(isActive := false)
    {
      isActive := false;
    }

    method ResetTimer()
      requires Valid()
      modifies this
      ensures Valid() && State() == Reset(old(State()))
    {
      isActive := false;
      if isBreak {
        minutes := BreakTime;
      } else {
        minutes := WorkTime;
      }
      seconds := 0;
    }

    method SkipSession()
      requires Valid()
      modifies this
      ensures Valid() && State() == Skip(old(State()))
    {
      isActive := false;
      if isBreak {
        minutes, isBreak := WorkTime, false;
      } else {
        var newCycleCount := cycleCount + 1;
        cycleCount := newCycleCount;
        if newCycleCount % CyclesBeforeLongBreak == 0 {
          minutes := LongBreakTime;
        } else {
          minutes := BreakTime;
        }
        isBreak := true;
      }
      seconds := 0;
    }
  }
}
