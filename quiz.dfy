/** The quiz page of static/script.js: grading (`evaluateQuiz`), the message chosen from the
    percentage, and the page state around the stored questions `mcqQuestions`. */
module Quiz {
  import opened Wrappers
  import opened Strings
  import opened MCQParser
  import opened Notifications

  // ---------------------------------------------------------------------------
  // Grading

  /** `userAnswer` for question `i`: the value of its checked radio button, or -1 when none
      of its buttons is checked. `checked[i]` is what the page holds for question `i`; a
      missing entry means nothing was checked. */
  function UserAnswer(checked: seq<Option<nat>>, i: nat): (a: int)
    ensures a >= -1
    ensures a == -1 <==> i >= |checked| || checked[i].None?
  {
    if i < |checked| && checked[i].Some? then checked[i].value else -1
  }

  /** `userAnswer === q.correctIndex`: strict equality, so a NaN key matches no answer. */
  predicate IsCorrect(q: MCQ, answer: int) {
    q.correctIndex == Key(answer)
  }

  /** The `score` that `evaluateQuiz` accumulates. */
  function Score(qs: seq<MCQ>, checked: seq<Option<nat>>): (r: nat)
    ensures r <= |qs|
  {
    if qs == [] then 0
    else Score(qs[..|qs| - 1], checked) + if IsCorrect(qs[|qs| - 1], UserAnswer(checked, |qs| - 1)) then 1 else 0
  }

  /** The indexes of the questions answered correctly. */
  function CorrectSet(qs: seq<MCQ>, checked: seq<Option<nat>>): set<nat> {
    set i: nat | i < |qs| && IsCorrect(qs[i], UserAnswer(checked, i))
  }

  /** The score counts exactly the correctly answered questions. */
  lemma {:induction false} ScoreCountsCorrect(qs: seq<MCQ>, checked: seq<Option<nat>>)
    ensures Score(qs, checked) == |CorrectSet(qs, checked)|
    decreases |qs|
  {
    if qs != [] {
      var n := |qs| - 1;
      var init := qs[..n];
      ScoreCountsCorrect(init, checked);
      var s := CorrectSet(init, checked);
      if IsCorrect(qs[n], UserAnswer(checked, n)) {
        assert CorrectSet(qs, checked) == s + {n};
        assert n !in s;
      } else {
        assert CorrectSet(qs, checked) == s;
      }
    }
  }

  /** Full marks exactly when every question is answered correctly. */
  lemma {:induction false} PerfectScore(qs: seq<MCQ>, checked: seq<Option<nat>>)
    ensures Score(qs, checked) == |qs| <==> forall i :: 0 <= i < |qs| ==> IsCorrect(qs[i], UserAnswer(checked, i))
    decreases |qs|
  {
    if qs != [] {
      var n := |qs| - 1;
      PerfectScore(qs[..n], checked);
      assert forall i :: 0 <= i < n ==> qs[..n][i] == qs[i];
    }
  }

  /** An unanswered question counts as correct exactly when its block had no `Answer:`
      line (its key is still -1). A NaN key is never matched. */
  lemma UnansweredQuestion(q: MCQ, checked: seq<Option<nat>>, i: nat)
    requires i >= |checked| || checked[i].None?
    ensures IsCorrect(q, UserAnswer(checked, i)) <==> q.correctIndex == Unanswered
    ensures q.correctIndex.NotANumber? ==> forall a :: !IsCorrect(q, a)
  {
  }

  /** What the review shows for one question: its number and text, whether the answer was
      right, the chosen option (`Not answered` for none), and whether the `Correct answer`
      line is added. */
  datatype Review = Review(number: nat, question: string, isCorrect: bool, answer: Option<nat>, showsCorrectAnswer: bool)

  function ReviewOf(q: MCQ, checked: seq<Option<nat>>, i: nat): (r: Review)
    ensures r.number == i + 1 && r.question == q.question
    ensures r.showsCorrectAnswer <==> !r.isCorrect
    ensures r.answer.Some? ==> i < |checked| && checked[i] == r.answer
  {
    var a := UserAnswer(checked, i);
    var ok := IsCorrect(q, a);
    Review(i + 1, q.question, ok, if a >= 0 then Some(a as nat) else None, !ok)
  }

  /** The `forEach` over the questions that builds `score` and the review. */
  method Evaluate(qs: seq<MCQ>, checked: seq<Option<nat>>) returns (score: nat, reviews: seq<Review>)
    ensures score == Score(qs, checked)
    ensures |reviews| == |qs|
    ensures forall i :: 0 <= i < |qs| ==> reviews[i] == ReviewOf(qs[i], checked, i)
  {
    score := 0;
    reviews := [];
    for i := 0 to |qs|
      invariant score == Score(qs[..i], checked)
      invariant |reviews| == i
      invariant forall j :: 0 <= j < i ==> reviews[j] == ReviewOf(qs[j], checked, j)
    {
      assert qs[..i + 1][..i] == qs[..i];
      var q := qs[i];
      var userAnswer := UserAnswer(checked, i);
      var isCorrect := q.correctIndex == Key(userAnswer);
      if isCorrect {
        score := score + 1;
      }
      reviews := reviews + [ReviewOf(q, checked, i)];
    }
    assert qs[..|qs|] == qs;
  }

  /** The review marks a question correct exactly when it is counted, and shows the
      correct answer exactly for the others. */
  lemma ReviewsAgreeWithScore(qs: seq<MCQ>, checked: seq<Option<nat>>, i: nat)
    requires i < |qs|
    ensures ReviewOf(qs[i], checked, i).isCorrect <==> i in CorrectSet(qs, checked)
    ensures ReviewOf(qs[i], checked, i).showsCorrectAnswer <==> i !in CorrectSet(qs, checked)
    ensures ReviewOf(qs[i], checked, i).answer.None? <==> UserAnswer(checked, i) == -1
  {
  }

  // ---------------------------------------------------------------------------
  // The message after grading

  datatype Verdict = Excellent | GoodJob | KeepPracticing

  /** `(score / total) * 100` compared with 80 and 60, in integers. With no questions the
      percentage is NaN, which passes neither comparison. */
  function VerdictOf(score: nat, total: nat): (v: Verdict)
    ensures 0 < total <= score ==> v == Excellent
    ensures score == 0 ==> v == KeepPracticing
  {
    if total > 0 && score * 100 >= 80 * total then Excellent
    else if total > 0 && score * 100 >= 60 * total then GoodJob
    else KeepPracticing
  }

  function VerdictMessage(v: Verdict): string {
    match v
    case Excellent => "Excellent work!"
    case GoodJob => "Good job!"
    case KeepPracticing => "Keep practicing!"
  }

  /** The percentage the page computes, in exact arithmetic. */
  ghost function Percentage(score: nat, total: nat): real
    requires total > 0
  {
    (score as real / total as real) * 100.0
  }

  /** The integer comparisons agree with the percentage thresholds. */
  lemma VerdictByPercentage(score: nat, total: nat)
    requires total > 0
    ensures VerdictOf(score, total) == Excellent <==> Percentage(score, total) >= 80.0
    ensures VerdictOf(score, total) == GoodJob <==> 60.0 <= Percentage(score, total) < 80.0
    ensures VerdictOf(score, total) == KeepPracticing <==> Percentage(score, total) < 60.0
  {
    var p := Percentage(score, total);
    var t := total as real;
    assert p * t == (score * 100) as real by {
      var q := score as real / t;
      assert q * t == score as real;
      assert p * t == (q * t) * 100.0;
    }
    Threshold(p, 80.0, t, score * 100, 80 * total);
    Threshold(p, 60.0, t, score * 100, 60 * total);
  }

  /** Comparing the percentage with a bound is comparing the scaled score with the bound
      times the total. */
  lemma Threshold(p: real, bound: real, t: real, scaled: int, limit: int)
    requires t > 0.0 && p * t == scaled as real && bound * t == limit as real
    ensures p >= bound <==> scaled >= limit
  {
    ScaleByTotal(p, bound, t);
  }

  /** Multiplying both sides by a positive total keeps a comparison. */
  lemma ScaleByTotal(p: real, bound: real, t: real)
    requires t > 0.0
    ensures p >= bound <==> p * t >= bound * t
  {
    if p >= bound {
      assert p * t - bound * t == (p - bound) * t;
    } else {
      assert bound * t - p * t == (bound - p) * t;
    }
  }

  /** A quiz without questions always ends in `Keep practicing!`. */
  lemma EmptyQuizVerdict(score: nat)
    ensures VerdictOf(score, 0) == KeepPracticing
  {
  }

  function Rank(v: Verdict): nat {
    match v
    case KeepPracticing => 0
    case GoodJob => 1
    case Excellent => 2
  }

  /** A higher score never gets a lesser message. */
  lemma VerdictMonotone(s1: nat, s2: nat, total: nat)
    requires s1 <= s2
    ensures Rank(VerdictOf(s1, total)) <= Rank(VerdictOf(s2, total))
  {
  }

  /** The decimal digits of `n`, as a template string shows a number. */
  function Decimal(n: nat): (s: string)
    ensures |s| >= 1
    ensures forall k :: 0 <= k < |s| ==> '0' <= s[k] <= '9'
  {
    if n < 10 then [Digit(n)] else Decimal(n / 10) + [Digit(n % 10)]
  }

  function Digit(d: nat): char
    requires d < 10
  {
    ('0' as int + d) as char
  }

  /** The value of a string of decimal digits. */
  function DigitsValue(s: string): nat
    requires forall k :: 0 <= k < |s| ==> '0' <= s[k] <= '9'
  {
    if s == [] then 0 else DigitsValue(s[..|s| - 1]) * 10 + (s[|s| - 1] as int - '0' as int)
  }

  /** Reading the decimal digits back gives the number, and only `0` starts with `0`. */
  lemma {:induction false} DecimalValue(n: nat)
    ensures DigitsValue(Decimal(n)) == n
    ensures Decimal(n)[0] == '0' <==> n == 0
  {
    if n >= 10 {
      DecimalValue(n / 10);
      var s := Decimal(n);
      assert s[..|s| - 1] == Decimal(n / 10);
    }
  }

  /** `You scored ${score}/${mcqQuestions.length}. ${message}`. */
  function ScoreMessage(score: nat, total: nat): (m: string)
    ensures |m| > 11 && m[..11] == "You scored "
    ensures var verdict := VerdictMessage(VerdictOf(score, total));
      |verdict| < |m| && m[|m| - |verdict|..] == verdict
  {
    "You scored " + Decimal(score) + "/" + Decimal(total) + ". " + VerdictMessage(VerdictOf(score, total))
  }

  // ---------------------------------------------------------------------------
  // The page

  /** What `mcqContainer` shows. */
  datatype QuizArea =
    | Blank
    | NoMCQsNotice           // "No MCQs could be generated from the content."
    | QuestionList(questions: seq<MCQ>)
    | ParseErrorNotice       // "Error generating MCQs. Please try again."


  /** `data.mcqs` as it reaches `processMCQs`: a string, or anything without a `split`
      method (the server sends `null` when generation failed). */
  datatype Payload = Text(text: string) | NotText

  /** `renderMCQs`: the questions, or the notice when there are none. */
  function Rendered(qs: seq<MCQ>): (area: QuizArea)
    ensures area == NoMCQsNotice <==> qs == []
  {
    if qs == [] then NoMCQsNotice else QuestionList(qs)
  }

  /** The quiz part of the page: the stored questions and the elements the quiz functions
      update. */
  class QuizPage {
    var mcqQuestions: seq<MCQ>
    var area: QuizArea
    var submitVisible: bool
    var scoreVisible: bool
    var scoreShown: nat
    var totalShown: nat
    var reviews: seq<Review>
    var notification: Option<Notification>

    constructor()
      ensures mcqQuestions == [] && area == Blank && reviews == [] && notification == None
      ensures !submitVisible && !scoreVisible && scoreShown == 0 && totalShown == 0
    {
      mcqQuestions := [];
      area := Blank;
      submitVisible := false;
      scoreVisible := false;
      scoreShown := 0;
      totalShown := 0;
      reviews := [];
      notification := None;
    }

    /** `processMCQs`: a string payload replaces the stored questions by its parse and
        renders them; any other payload fails at `split`, before the questions are reset,
        so they are kept and the error notice is shown. Either way the submit button is
        shown and the score hidden. */
    method ProcessMCQs(payload: Payload)
      modifies this
      ensures payload.Text? ==> mcqQuestions == ParseText(payload.text) && area == Rendered(mcqQuestions)
      ensures payload.NotText? ==> mcqQuestions == old(mcqQuestions) && area == ParseErrorNotice
      ensures submitVisible && !scoreVisible
      ensures scoreShown == old(scoreShown) && totalShown == old(totalShown)
      ensures reviews == old(reviews) && notification == old(notification)
    {
      var qs, shown := mcqQuestions, ParseErrorNotice;
      if payload.Text? {
        qs := ParseMCQText(payload.text);
        shown := Rendered(qs);
      }
      mcqQuestions, area, submitVisible, scoreVisible := qs, shown, true, false;
    }

    /** `evaluateQuiz` against the radio buttons checked on the page. */
    method EvaluateQuiz(checked: seq<Option<nat>>)
      modifies this
      ensures mcqQuestions == old(mcqQuestions) && area == old(area)
      ensures scoreShown == Score(mcqQuestions, checked) && totalShown == |mcqQuestions|
      ensures |reviews| == |mcqQuestions|
      ensures forall i :: 0 <= i < |mcqQuestions| ==> reviews[i] == ReviewOf(mcqQuestions[i], checked, i)
      ensures scoreVisible && !submitVisible
      ensures notification == Some(Notification("Quiz Completed", ScoreMessage(scoreShown, totalShown), true))
    {
      var score, review := Evaluate(mcqQuestions, checked);
      scoreShown := score;
      totalShown := |mcqQuestions|;
      reviews := review;
      scoreVisible := true;
      submitVisible := false;
      notification := Some(Notification("Quiz Completed", ScoreMessage(score, |mcqQuestions|), true));
    }
  }

  /** Submitting the same selections twice shows the same score. */
  method EvaluateTwice(page: QuizPage, checked: seq<Option<nat>>) returns (first: nat, second: nat)
    modifies page
    ensures first == second == Score(old(page.mcqQuestions), checked)
  {
    page.EvaluateQuiz(checked);
    first := page.scoreShown;
    page.EvaluateQuiz(checked);
    second := page.scoreShown;
  }
}
