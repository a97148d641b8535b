// The session-tracking Pomodoro of frontend/src/pages/Pomodoro.jsx: the same
// one-second tick, session types with fixed durations, the automatic switch between
// a pomodoro and a short break, and the study session recorded through the API (whose
// replies are parameters here).

module SessionPomodoro {
  import opened Wrappers

  const Pomodoro := "pomodoro"
  const ShortBreak := "short_break"
  const LongBreak := "long_break"

  /** The full length in minutes of a session of type `t`; any type that is neither a
      pomodoro nor a short break lasts 15 minutes. */
  function Duration(t: string): (r: nat)
    ensures r == 25 <==> t == Pomodoro
    ensures r == 5 <==> t == ShortBreak
    ensures r == 15 <==> t != Pomodoro && t != ShortBreak
  {
    if t == Pomodoro then 25 else if t == ShortBreak then 5 else 15
  }

  /** The type completeSession switches to. */
  function NextType(t: string): (r: string)
    ensures r == ShortBreak <==> t == Pomodoro
    ensures r == Pomodoro <==> t != Pomodoro
  {
    if t == Pomodoro then ShortBreak else Pomodoro
  }

  /** The type after `n` completions starting from `t`. */
  function NextN(t: string, n: nat): string {
    if n == 0 then t else NextType(NextN(t, n - 1))
  }

  /** Completions alternate between a pomodoro and a short break from any starting type
      after the first; a long break is never reached automatically. */
  lemma {:induction false} Alternation(t: string, n: nat)
    requires n >= 1
    ensures NextN(t, n) != LongBreak
    ensures NextN(t, n) == (if (n % 2 == 1) == (t == Pomodoro) then ShortBreak else Pomodoro)
  {
    if n > 1 {
      Alternation(t, n - 1);
    }
  }

  /** The timer's state; `currentSession` is the id of the recorded study session. */
  datatype Clock = Clock(minutes: nat, seconds: nat, isActive: bool, sessionType: string, currentSession: Option<string>)

  const Initial := Clock(25, 0, false, Pomodoro, None)

  function Remaining(c: Clock): nat {
    c.minutes * 60 + c.seconds
  }

  /** The clock shows a valid time no longer than the full session. */
  predicate Fits(c: Clock) {
    c.seconds < 60 && Remaining(c) <= Duration(c.sessionType) * 60
  }

  /** completeSession: stops, switches type, restarts the clock at the new type's full
      length and forgets the recorded session. */
  function Complete(c: Clock): (r: Clock)
    ensures !r.isActive && r.currentSession.None? && r.seconds == 0
    ensures r.sessionType == NextType(c.sessionType) && r.minutes == Duration(r.sessionType)
  {
    if c.sessionType == Pomodoro then Clock(5, 0, false, ShortBreak, None)
    else Clock(25, 0, false, Pomodoro, None)
  }

  /** changeSessionType. */
  function Change(c: Clock, t: string): (r: Clock)
    ensures !r.isActive && r.currentSession.None? && r.sessionType == t
    ensures Remaining(r) == Duration(t) * 60
  {
    Clock(Duration(t), 0, false, t, None)
  }

  /** resetSession: the current type's full length, stopped, no recorded session. */
  function Reset(c: Clock): (r: Clock)
    ensures r == Change(c, c.sessionType)
  {
    Clock(Duration(c.sessionType), 0, false, c.sessionType, None)
  }

  /** One firing of the interval, which runs only while the timer is active. */
  function TickStep(c: Clock): (r: Clock)
    ensures !c.isActive ==> r == c
    ensures c.isActive && Remaining(c) > 0 ==>
      Remaining(r) == Remaining(c) - 1 && r == c.(minutes := r.minutes, seconds := r.seconds)
    ensures c.isActive && Remaining(c) == 0 ==> r == Complete(c)
  {
    if !c.isActive then c
    else if c.seconds == 0 then
      if c.minutes == 0 then Complete(c)
      else c.(minutes := c.minutes - 1, seconds := 59)
    else c.(seconds := c.seconds - 1)
  }

  /** Every step keeps the clock within the current session's full length. */
  lemma StepsFit(c: Clock, t: string)
    requires Fits(c)
    ensures Fits(TickStep(c)) && Fits(Complete(c)) && Fits(Change(c, t)) && Fits(Reset(c))
  {
  }

  /** The component's timer state. */
  class SessionTimer {
    var minutes: nat
    var seconds: nat
    var isActive: bool
    var sessionType: string
    var currentSession: Option<string>

    function State(): Clock
      reads this
    {
      Clock(minutes, seconds, isActive, sessionType, currentSession)
    }

    ghost predicate Valid()
      reads this
    {
      Fits(State())
    }

    constructor ()
      ensures Valid() && State() == Initial
    {
      minutes, seconds, isActive, sessionType, currentSession := 25, 0, false, Pomodoro, None;
    }

    /** startSession: asks the API to record a session of the current type and length
        (the returned request), keeps the recorded session when the API created one
        (`created`), and starts the timer whether or not it did. */
    method StartSession(created: Option<string>) returns (duration: nat, kind: string)
      requires Valid()
      modifies this
      ensures Valid()
      ensures duration == Duration(old(sessionType)) && kind == old(sessionType)
      ensures State() == old(State()).(isActive := true,
        currentSession := if created.Some? then created else old(currentSession))
    {
      duration := if sessionType == Pomodoro then 25 else if sessionType == ShortBreak then 5 else 15;
      kind := sessionType;
      if created.Some? {
        currentSession := created;
      }
      isActive := true;
    }

    method PauseSession()
      requires Valid()
      modifies this
      ensures Valid() && State() == old(State()).(isActive := false)
    {
      isActive := false;
    }

    method ResetSession()
      requires Valid()
      modifies this
      ensures Valid() && State() == Reset(old(State()))
    {
      isActive := false;
      currentSession := None;
      var duration := if sessionType == Pomodoro then 25 else if sessionType == ShortBreak then 5 else 15;
      minutes := duration;
      seconds := 0;
    }

    /** completeSession; `completed` is the recorded session the API is asked to mark
        complete, if any (a failure of that call changes nothing here). */
    method CompleteSession() returns (completed: Option<string>)
      requires Valid()
      modifies this
      ensures Valid() && State() == Complete(old(State()))
      ensures completed == old(currentSession)
    {
      isActive := false;
      completed := currentSession;
      if sessionType == Pomodoro {
        sessionType, minutes := ShortBreak, 5;
      } else {
        sessionType, minutes := Pomodoro, 25;
      }
      seconds := 0;
      currentSession := None;
    }

    method ChangeSessionType(t: string)
      requires Valid()
      modifies this
      ensures Valid() && State() == Change(old(State()), t)
    {
      sessionType := t;
      isActive := false;
      currentSession := None;
      var duration := if t == Pomodoro then 25 else if t == ShortBreak then 5 else 15;
      minutes := duration;
      seconds := 0;
    }

    /** One firing of the interval; `completed` is the session marked complete when the
        tick ended it. */
    method Tick() returns (ended: bool, completed: Option<string>)
      requires Valid()
      modifies this
      ensures Valid() && State() == TickStep(old(State()))
      ensures ended <==> old(isActive) && old(Remaining(State())) == 0
      ensures ended ==> completed == old(currentSession)
    {
      ended, completed := false, None;
      if !isActive {
        return;
      }
      if seconds == 0 {
        if minutes == 0 {
          completed := CompleteSession();
          ended := true;
        } else {
          minutes, seconds := minutes - 1, 59;
        }
      } else {
        seconds := seconds - 1;
      }
    }
  }
}
