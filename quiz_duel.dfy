// The timed quiz of src/Component/QuizDuel.jsx: one selection per question, scoring,
// the two-minute countdown, the stored high score, the badge and the m:ss clock.

module QuizDuel {
  import opened Wrappers
  import opened JsText

  const TimeLimit: int := 120
  const Correct := "correct"
  const Incorrect := "incorrect"

  datatype Question = Question(question: string, options: seq<string>, answer: string)

  /** The five built-in questions. */
  const Bank: seq<Question> := [
    Question("What is the capital of France?", ["Berlin", "Madrid", "Paris", "Rome"], "Paris"),
    Question("Which planet is known as the Red Planet?", ["Earth", "Mars", "Venus", "Jupiter"], "Mars"),
    Question("Who developed the theory of relativity?", ["Newton", "Einstein", "Tesla", "Edison"], "Einstein"),
    Question("What is the largest mammal?", ["Elephant", "Blue Whale", "Giraffe", "Shark"], "Blue Whale"),
    Question("Which gas do plants absorb for photosynthesis?", ["Oxygen", "Carbon Dioxide", "Nitrogen", "Hydrogen"], "Carbon Dioxide")
  ]

  /** Every option is a non-empty string, so a selection is truthy. */
  predicate GoodBank(questions: seq<Question>) {
    |questions| > 0 && forall k, o :: 0 <= k < |questions| && o in questions[k].options ==> o != ""
  }

  datatype Badge = Beginner | Achiever | Master

  function Rank(b: Badge): nat {
    match b
    case Beginner => 0
    case Achiever => 1
    case Master => 2
  }

  /** getBadge. */
  function GetBadge(score: int): (b: Badge)
    ensures b == Beginner <==> score <= 2
    ensures b == Achiever <==> 2 < score <= 4
    ensures b == Master <==> score > 4
  {
    if score <= 2 then Beginner else if score <= 4 then Achiever else Master
  }

  /** A higher score never earns a lower badge. */
  lemma BadgeMonotone(s1: int, s2: int)
    requires s1 <= s2
    ensures Rank(GetBadge(s1)) <= Rank(GetBadge(s2))
  {
  }

  /** The minutes, a colon and the seconds padded to two digits. */
  function MinSec(m: nat, s: nat): string {
    NatToString(m) + ":" + PadStart2(NatToString(s))
  }

  /** formatTime. */
  function FormatTime(t: nat): string {
    MinSec(t / 60, t % 60)
  }

  /** Seconds below 60 are padded to exactly two digits that read back as them. */
  lemma {:induction false} PaddedSeconds(s: nat)
    requires s < 60
    ensures var p := PadStart2(NatToString(s));
      |p| == 2 && IsDigit(p[0]) && IsDigit(p[1]) && DigitsValue(p) == s
  {
    var b := NatToString(s);
    var p := PadStart2(b);
    NatToStringRoundTrip(s);
    if s < 10 {
      assert p == ['0', b[0]];
      assert p[..1] == ['0'];
      assert b[..0] == [];
    } else {
      assert b == NatToString(s / 10) + [DigitChar(s % 10)];
    }
  }

  predicate AllDigits(s: string) {
    forall i :: 0 <= i < |s| ==> IsDigit(s[i])
  }

  /** Reads an `m:ss` clock back as seconds: the digits before the colon are minutes
      and the two after it seconds. */
  function ReadClock(r: string): Option<nat> {
    var k := |r| - 3;
    if k >= 1 && r[k] == ':' && AllDigits(r[..k]) && AllDigits(r[k + 1..]) then
      Some(DigitsValue(r[..k]) * 60 + DigitsValue(r[k + 1..]))
    else None
  }

  /** Any digits, a colon and two more digits read back as minutes and seconds. */
  lemma ReadJoined(r: string, a: string, p: string, m: nat, s: nat)
    requires r == a + ":" + p
    requires |a| >= 1 && |p| == 2 && AllDigits(a) && AllDigits(p)
    requires DigitsValue(a) == m && DigitsValue(p) == s
    ensures ReadClock(r) == Some(m * 60 + s)
  {
    assert r[..|a|] == a;
    assert r[|a| + 1..] == p;
  }

  /** The text of `m` minutes and `s` seconds reads back as `m * 60 + s`. */
  lemma {:induction false} ClockText(m: nat, s: nat)
    requires s < 60
    ensures ReadClock(MinSec(m, s)) == Some(m * 60 + s)
  {
    var a, p := NatToString(m), PadStart2(NatToString(s));
    assert |a| >= 1 && AllDigits(a) && DigitsValue(a) == m by {
      NatToStringRoundTrip(m);
    }
    assert |p| == 2 && AllDigits(p) && DigitsValue(p) == s by {
      PaddedSeconds(s);
    }
    ReadJoined(MinSec(m, s), a, p, m, s);
  }

  /** Reading the formatted clock back gives the seconds it was made from. */
  lemma {:induction false} FormatTimeRoundTrip(t: nat)
    ensures ReadClock(FormatTime(t)) == Some(t)
  {
    var m, s := t / 60, t % 60;
    assert FormatTime(t) == MinSec(m, s) && s < 60 && m * 60 + s == t;
    ClockText(m, s);
  }

  /** The component's state. */
  class Quiz {
    const questions: seq<Question>
    var timeLeft: int
    var score: nat
    var currentQ: nat
    var selected: Option<string>
    var feedback: string
    var isFinished: bool
    var showExplanation: bool
    var quizStarted: bool
    var highScore: nat

    /** The questions answered so far: those before the current one, and the current one
        once an option is selected. */
    function Answered(): nat
      reads this
    {
      currentQ + if Truthy(selected) then 1 else 0
    }

    /** Each question scores at most once, so the score never exceeds the answers. */
    ghost predicate Valid()
      reads this
    {
      GoodBank(questions) && currentQ < |questions| && score <= Answered() && timeLeft >= 0
    }

    /** Mounting, with the high score read from storage. */
    constructor (questions: seq<Question>, saved: nat)
      requires GoodBank(questions)
      ensures Valid() && this.questions == questions
      ensures timeLeft == TimeLimit && score == 0 && currentQ == 0 && selected.None? && feedback == ""
      ensures !isFinished && !showExplanation && !quizStarted && highScore == saved
    {
      this.questions := questions;
      timeLeft, score, currentQ, selected, feedback := TimeLimit, 0, 0, None, "";
      isFinished, showExplanation, quizStarted, highScore := false, false, false, saved;
    }

    /** handleSelect: ignored once an option is selected; otherwise records the option
        and scores one point exactly when it is the answer. */
    method HandleSelect(option: string)
      requires Valid() && option in questions[currentQ].options
      modifies this
      ensures Valid() && score <= |questions|
      ensures Truthy(old(selected)) ==>
        score == old(score) && selected == old(selected) && feedback == old(feedback) && showExplanation == old(showExplanation)
      ensures !Truthy(old(selected)) ==>
        && selected == Some(option) && showExplanation
        && (option == questions[currentQ].answer ==> score == old(score) + 1 && feedback == Correct)
        && (option != questions[currentQ].answer ==> score == old(score) && feedback == Incorrect)
      ensures currentQ == old(currentQ) && timeLeft == old(timeLeft) && isFinished == old(isFinished)
      ensures quizStarted == old(quizStarted) && highScore == old(highScore)
    {
      if Truthy(selected) {
        return;
      }
      selected := Some(option);
      if option == questions[currentQ].answer {
        score := score + 1;
        feedback := Correct;
      } else {
        feedback := Incorrect;
      }
      showExplanation := true;
    }

    /** handleNext: the next question with the selection cleared, or the end of the quiz
        after the last one. */
    method HandleNext()
      requires Valid()
      modifies this
      ensures Valid() && score <= |questions|
      ensures old(currentQ) + 1 < |questions| ==>
        currentQ == old(currentQ) + 1 && selected.None? && feedback == "" && !showExplanation && isFinished == old(isFinished)
      ensures old(currentQ) + 1 >= |questions| ==>
        isFinished && currentQ == old(currentQ) && selected == old(selected)
        && feedback == old(feedback) && showExplanation == old(showExplanation)
      ensures score == old(score) && timeLeft == old(timeLeft) && quizStarted == old(quizStarted) && highScore == old(highScore)
    {
      if currentQ + 1 < |questions| {
        currentQ := currentQ + 1;
        selected := None;
        feedback := "";
        showExplanation := false;
      } else {
        isFinished := true;
      }
    }

    /** One step of the countdown effect: nothing before the start, the end of the quiz at
        0 seconds, one second less otherwise. */
    method Countdown()
      requires Valid()
      modifies this
      ensures Valid()
      ensures !old(quizStarted) ==> timeLeft == old(timeLeft) && isFinished == old(isFinished)
      ensures old(quizStarted) && old(timeLeft) <= 0 ==> isFinished && timeLeft == old(timeLeft)
      ensures old(quizStarted) && old(timeLeft) > 0 ==> timeLeft == old(timeLeft) - 1 && isFinished == old(isFinished)
      ensures score == old(score) && currentQ == old(currentQ) && selected == old(selected) && feedback == old(feedback)
      ensures showExplanation == old(showExplanation) && quizStarted == old(quizStarted) && highScore == old(highScore)
    {
      if !quizStarted {
        return;
      }
      if timeLeft <= 0 {
        isFinished := true;
        return;
      }
      timeLeft := timeLeft - 1;
    }

    /** The high-score effect: a finished quiz with a better score raises the high score
        to it and stores it (`stored`). */
    method SaveHighScore() returns (stored: Option<nat>)
      requires Valid()
      modifies this
      ensures Valid()
      ensures old(isFinished) ==> highScore == if old(score) > old(highScore) then old(score) else old(highScore)
      ensures !old(isFinished) ==> highScore == old(highScore)
      ensures highScore >= old(highScore)
      ensures stored.Some? <==> highScore != old(highScore)
      ensures stored.Some? ==> stored.value == highScore
      ensures timeLeft == old(timeLeft) && score == old(score) && currentQ == old(currentQ) && selected == old(selected)
      ensures feedback == old(feedback) && isFinished == old(isFinished)
      ensures showExplanation == old(showExplanation) && quizStarted == old(quizStarted)
    {
      stored := None;
      if isFinished && score > highScore {
        highScore := score;
        stored := Some(score);
      }
    }

    method StartQuiz()
      requires Valid()
      modifies this
      ensures Valid() && quizStarted
      ensures timeLeft == old(timeLeft) && score == old(score) && currentQ == old(currentQ) && selected == old(selected)
      ensures feedback == old(feedback) && isFinished == old(isFinished)
      ensures showExplanation == old(showExplanation) && highScore == old(highScore)
    {
      quizStarted := true;
    }

    /** restartQuiz: a fresh two-minute run, started at once; the high score stays. */
    method RestartQuiz()
      requires Valid()
      modifies this
      ensures Valid()
      ensures timeLeft == TimeLimit && score == 0 && currentQ == 0 && selected.None? && feedback == ""
      ensures !isFinished && !showExplanation && quizStarted && highScore == old(highScore)
    {
      timeLeft := TimeLimit;
      score := 0;
      currentQ := 0;
      selected := None;
      feedback := "";
      isFinished := false;
      showExplanation := false;
      quizStarted := true;
    }
  }

  /** Mounting the component with the built-in questions. */
  method Mount(saved: nat) returns (q: Quiz)
    ensures fresh(q) && q.Valid() && q.questions == Bank && q.highScore == saved && !q.quizStarted
  {
    assert GoodBank(Bank) by {
      forall k, o | 0 <= k < |Bank| && o in Bank[k].options ensures o != "" {
        assert k in {0, 1, 2, 3, 4};
      }
    }
    q := new Quiz(Bank, saved);
  }
}
