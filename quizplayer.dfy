/** QuizPlayer.tsx: the flashcard cursor of `FlashcardViewer` and the
    question-by-question state of `QuizPlayer`, with the scoring fold of
    `finishQuiz`. The 150 ms card-change delay and the elapsed-time ticker
    are not modelled; clock readings are parameters. */
module QuizPlayer {
  import opened Types
  import opened JsMath

  // ---------------------------------------------------------------------
  // Flashcards
  // ---------------------------------------------------------------------

  /** The viewer is only shown for a quiz with at least one flashcard. */
  class FlashcardViewer {
    const flashcards: seq<Flashcard>
    var index: int
    var isFlipped: bool
    var direction: int

    ghost predicate Valid()
      reads this`index
    {
      0 <= index < |flashcards|
    }

    constructor (cards: seq<Flashcard>)
      requires |cards| > 0
      ensures Valid()
      ensures flashcards == cards && index == 0 && !isFlipped && direction == 0
    {
      flashcards := cards;
      index, isFlipped, direction := 0, false, 0;
    }

    /** The card on display. */
    function CurrentCard(): (c: Flashcard)
      reads this`index
      requires Valid()
      ensures c in flashcards
    {
      flashcards[index]
    }

    /** Clicking the card turns it over. */
    method Flip()
      modifies this`isFlipped
      ensures isFlipped == !old(isFlipped)
    {
      isFlipped := !isFlipped;
    }

    /** `handleNext`: moves on only while there is a next card. */
    method HandleNext()
      requires Valid()
      modifies this`index, this`isFlipped, this`direction
      ensures Valid()
      ensures old(index) < |flashcards| - 1 ==> index == old(index) + 1 && !isFlipped && direction == 1
      ensures old(index) >= |flashcards| - 1 ==>
                index == old(index) && isFlipped == old(isFlipped) && direction == old(direction)
    {
      if index < |flashcards| - 1 {
        isFlipped := false;
        direction := 1;
        index := index + 1;
      }
    }

    /** `handlePrev`: moves back only while there is a previous card. */
    method HandlePrev()
      requires Valid()
      modifies this`index, this`isFlipped, this`direction
      ensures Valid()
      ensures old(index) > 0 ==> index == old(index) - 1 && !isFlipped && direction == -1
      ensures old(index) <= 0 ==>
                index == old(index) && isFlipped == old(isFlipped) && direction == old(direction)
    {
      if index > 0 {
        isFlipped := false;
        direction := -1;
        index := index - 1;
      }
    }
  }

  // ---------------------------------------------------------------------
  // Scoring
  // ---------------------------------------------------------------------

  /** Whether the k-th answer picks the k-th question's correct option. */
  predicate CorrectAt(qs: seq<Question>, answers: seq<Answer>, k: int)
    requires 0 <= k < |answers| && k < |qs|
  {
    answers[k].selectedIndex == qs[k].correctAnswerIndex
  }

  /** The run of correct answers at the end of `answers`, which is what
      `answerStreak` counts. */
  function TrailingCorrect(qs: seq<Question>, answers: seq<Answer>): (r: nat)
    requires |answers| <= |qs|
    ensures r <= |answers|
    ensures forall k :: |answers| - r <= k < |answers| ==> CorrectAt(qs, answers, k)
    ensures r < |answers| ==> !CorrectAt(qs, answers, |answers| - 1 - r)
  {
    if answers == [] then 0
    else if CorrectAt(qs, answers, |answers| - 1) then
      var prev := answers[..|answers| - 1];
      assert forall k :: 0 <= k < |prev| ==> CorrectAt(qs, prev, k) == CorrectAt(qs, answers, k);
      TrailingCorrect(qs, prev) + 1
    else 0
  }

  /** One more answer extends the trailing run when it is correct and
      ends it otherwise. */
  lemma TrailingCorrectAppend(qs: seq<Question>, answers: seq<Answer>, a: Answer)
    requires |answers| < |qs|
    ensures TrailingCorrect(qs, answers + [a]) ==
              if a.selectedIndex == qs[|answers|].correctAnswerIndex then TrailingCorrect(qs, answers) + 1 else 0
  {
    var next := answers + [a];
    assert next[..|next| - 1] == answers;
  }

  /** Each answer is recorded for the question at its position. */
  ghost predicate AnsweredInOrder(qs: seq<Question>, answers: seq<Answer>)
  {
    |answers| <= |qs| && forall i :: 0 <= i < |answers| ==> answers[i].questionId == qs[i].id
  }

  /** Recording an answer for the next question keeps the answers in
      question order. */
  lemma AnsweredInOrderAppend(qs: seq<Question>, answers: seq<Answer>, a: Answer)
    requires |answers| < |qs| && a.questionId == qs[|answers|].id
    requires AnsweredInOrder(qs, answers)
    ensures AnsweredInOrder(qs, answers + [a])
  {
    var next := answers + [a];
    forall i | 0 <= i < |next| ensures next[i].questionId == qs[i].id {
      if i < |answers| { assert next[i] == answers[i]; }
    }
  }

  /** `quiz.questions.find(q => q.id === id)`: the first question with that id. */
  function FindQuestion(qs: seq<Question>, id: string): (r: Option<Question>)
    ensures r.None? <==> forall i :: 0 <= i < |qs| ==> qs[i].id != id
    ensures r.Some? ==> r.value in qs && r.value.id == id
    ensures r.Some? ==> exists i :: 0 <= i < |qs| && qs[i] == r.value && forall j :: 0 <= j < i ==> qs[j].id != id
    ensures r.Some? && qs != [] && qs[0].id == id ==> r.value == qs[0]
  {
    if qs == [] then None
    else if qs[0].id == id then Some(qs[0])
    else
      var r := FindQuestion(qs[1..], id);
      assert r.Some? ==> exists i :: 0 <= i < |qs[1..]| && qs[1..][i] == r.value &&
                          forall j :: 0 <= j < i ==> qs[1..][j].id != id;
      assert r.Some? ==> exists i :: 1 <= i < |qs| && qs[i] == r.value &&
                          forall j :: 1 <= j < i ==> qs[j].id != id;
      r
  }

  /** The question an answer is scored against: found by id, else by position. */
  function QuestionFor(qs: seq<Question>, a: Answer, idx: int): Question
    requires 0 <= idx < |qs|
  {
    match FindQuestion(qs, a.questionId)
    case Some(q) => q
    case None => qs[idx]
  }

  /** The fold of `finishQuiz` over the answers, left to right. */
  function CorrectCount(qs: seq<Question>, answers: seq<Answer>): (r: nat)
    requires |answers| <= |qs|
    ensures r <= |answers|
  {
    if answers == [] then 0
    else
      var last := |answers| - 1;
      CorrectCount(qs, answers[..last])
        + (if answers[last].selectedIndex == QuestionFor(qs, answers[last], last).correctAnswerIndex then 1 else 0)
  }

  ghost predicate UniqueQuestionIds(qs: seq<Question>)
  {
    forall i, j :: 0 <= i < j < |qs| ==> qs[i].id != qs[j].id
  }

  /** The number of answers that are correct for the question at their own position. */
  function PositionalCorrect(qs: seq<Question>, answers: seq<Answer>): nat
    requires |answers| <= |qs|
  {
    if answers == [] then 0
    else
      var last := |answers| - 1;
      PositionalCorrect(qs, answers[..last]) + (if CorrectAt(qs, answers, last) then 1 else 0)
  }

  /** With unique question ids and each answer recorded for the question at
      its position, looking questions up by id is scoring by position. */
  lemma {:induction false} CorrectCountIsPositional(qs: seq<Question>, answers: seq<Answer>)
    requires |answers| <= |qs| && UniqueQuestionIds(qs)
    requires forall i :: 0 <= i < |answers| ==> answers[i].questionId == qs[i].id
    ensures CorrectCount(qs, answers) == PositionalCorrect(qs, answers)
    decreases |answers|
  {
    if answers != [] {
      var last := |answers| - 1;
      CorrectCountIsPositional(qs, answers[..last]);
      var found := FindQuestion(qs, answers[last].questionId);
      var j :| 0 <= j < |qs| && qs[j] == found.value;
      assert j == last;
    }
  }

  /** Every answer correct by position makes every answer count. */
  lemma {:induction false} AllCorrectCountsAll(qs: seq<Question>, answers: seq<Answer>)
    requires |answers| <= |qs|
    requires forall k :: 0 <= k < |answers| ==> CorrectAt(qs, answers, k)
    ensures PositionalCorrect(qs, answers) == |answers|
    decreases |answers|
  {
    if answers != [] {
      var prev := answers[..|answers| - 1];
      assert forall k :: 0 <= k < |prev| ==> CorrectAt(qs, prev, k) == CorrectAt(qs, answers, k);
      AllCorrectCountsAll(qs, prev);
    }
  }

  /** `Math.round((correctCount / total) * 100)` */
  function ScorePercent(correct: int, total: int): (r: int)
    requires total > 0
    ensures total * (2 * r - 1) <= 200 * correct < total * (2 * r + 1)
  {
    RoundDiv(100 * correct, total)
  }

  /** A score is a percentage; all correct is 100 and none correct is 0. */
  lemma ScorePercentRange(correct: int, total: int)
    requires total > 0 && 0 <= correct <= total
    ensures 0 <= ScorePercent(correct, total) <= 100
    ensures correct == total ==> ScorePercent(correct, total) == 100
    ensures correct == 0 ==> ScorePercent(correct, total) == 0
  {
    RoundDivBounds(100 * correct, total, 100);
    if correct == total {
      RoundDivExact(100, total);
    }
    if correct == 0 {
      RoundDivExact(0, total);
    }
  }

  /** The result `finishQuiz` hands to the store; `finishMs` is the
      `Date.now()` reading and `elapsedMs` the time since the quiz started. */
  function FinishQuiz(quiz: Quiz, answers: seq<Answer>, elapsedMs: int, finishMs: int): (r: QuizResult)
    requires 0 < |quiz.questions| && |answers| <= |quiz.questions|
    ensures r.quizId == quiz.id && r.quizTitle == quiz.title
    ensures r.totalQuestions == |quiz.questions| && r.answers == answers && r.completedAt == finishMs
    ensures r.correctCount == CorrectCount(quiz.questions, answers) <= |answers|
    ensures r.score == ScorePercent(r.correctCount, |quiz.questions|)
    ensures 0 <= r.score <= 100
    ensures r.correctCount == |quiz.questions| ==> r.score == 100
    ensures r.timeSpentSeconds == RoundDiv(elapsedMs, 1000)
  {
    var correct := CorrectCount(quiz.questions, answers);
    ScorePercentRange(correct, |quiz.questions|);
    QuizResult(
      quizId := quiz.id,
      quizTitle := quiz.title,
      score := ScorePercent(correct, |quiz.questions|),
      totalQuestions := |quiz.questions|,
      correctCount := correct,
      timeSpentSeconds := RoundDiv(elapsedMs, 1000),
      completedAt := finishMs,
      answers := answers)
  }

  // ---------------------------------------------------------------------
  // The question-by-question session
  // ---------------------------------------------------------------------

  /** The page redirects away when there is no quiz, and a quiz without
      questions cannot render its first question, so the session holds a
      quiz with at least one question. */
  class QuizSession {
    const quiz: Quiz
    var currentQuestionIndex: int
    var selectedOption: Option<int>
    var isAnswered: bool
    var showExplanation: bool
    var answers: seq<Answer>
    var answerStreak: int
    var direction: int

    /** Submit is offered only before answering and Next only after, so one
        answer is recorded per question reached, each for the question at
        its position, and the streak is the trailing run of correct ones. */
    ghost predicate Valid()
      reads this
    {
      && 0 < |quiz.questions|
      && 0 <= currentQuestionIndex < |quiz.questions|
      && |answers| == currentQuestionIndex + (if isAnswered then 1 else 0)
      && showExplanation == isAnswered
      && (isAnswered ==> selectedOption.Some?)
      && AnsweredInOrder(quiz.questions, answers)
      && answerStreak == TrailingCorrect(quiz.questions, answers)
    }

    constructor (q: Quiz)
      requires 0 < |q.questions|
      ensures Valid()
      ensures quiz == q && currentQuestionIndex == 0 && selectedOption.None?
      ensures !isAnswered && answers == [] && answerStreak == 0
    {
      quiz := q;
      currentQuestionIndex, selectedOption, isAnswered, showExplanation := 0, None, false, false;
      answers, answerStreak, direction := [], 0, 1;
    }

    /** `handleOptionSelect`: ignored once the question is answered. */
    method HandleOptionSelect(index: int)
      requires Valid()
      modifies this`selectedOption
      ensures Valid()
      ensures isAnswered ==> selectedOption == old(selectedOption)
      ensures !isAnswered ==> selectedOption == Some(index)
    {
      if isAnswered {
        return;
      }
      selectedOption := Some(index);
    }

    /** `handleSubmitAnswer`, reachable only while the question is unanswered. */
    method HandleSubmitAnswer()
      requires Valid() && !isAnswered
      modifies this`isAnswered, this`showExplanation, this`answerStreak, this`answers
      ensures Valid()
      ensures old(selectedOption).None? ==>
                !isAnswered && answers == old(answers) && answerStreak == old(answerStreak)
      ensures old(selectedOption).Some? ==>
                && isAnswered
                && answers == old(answers) + [Answer(quiz.questions[currentQuestionIndex].id, selectedOption.value)]
                && answerStreak == (if selectedOption.value == quiz.questions[currentQuestionIndex].correctAnswerIndex
                                    then old(answerStreak) + 1 else 0)
    {
      if selectedOption.None? {
        return;
      }
      var current := quiz.questions[currentQuestionIndex];
      var answer := Answer(current.id, selectedOption.value);
      var isCorrect := selectedOption.value == current.correctAnswerIndex;
      var streak := if isCorrect then answerStreak + 1 else 0;
      var recorded := answers + [answer];
      AnsweredInOrderAppend(quiz.questions, answers, answer);
      TrailingCorrectAppend(quiz.questions, answers, answer);
      isAnswered := true;
      showExplanation := true;
      answerStreak := streak;
      answers := recorded;
    }

    /** `handleNext`, reachable only once the question is answered: moves to
        the next question, or on the last one returns the finished result,
        which the page hands to the store's `addResult`. */
    method HandleNext(elapsedMs: int, finishMs: int) returns (finished: Option<QuizResult>)
      requires Valid() && isAnswered
      modifies this`currentQuestionIndex, this`selectedOption, this`isAnswered,
               this`showExplanation, this`direction
      ensures Valid()
      ensures old(currentQuestionIndex) < |quiz.questions| - 1 ==>
                && currentQuestionIndex == old(currentQuestionIndex) + 1
                && selectedOption.None? && !isAnswered && !showExplanation
                && finished.None?
      ensures old(currentQuestionIndex) == |quiz.questions| - 1 ==>
                && currentQuestionIndex == old(currentQuestionIndex) && isAnswered
                && |answers| == |quiz.questions|
                && finished == Some(FinishQuiz(quiz, answers, elapsedMs, finishMs))
    {
      if currentQuestionIndex < |quiz.questions| - 1 {
        direction := 1;
        currentQuestionIndex := currentQuestionIndex + 1;
        selectedOption := None;
        isAnswered := false;
        showExplanation := false;
        finished := None;
      } else {
        finished := Some(FinishQuiz(quiz, answers, elapsedMs, finishMs));
      }
    }
  }

  /** A session in which every question was answered correctly scores 100,
      provided question ids are unique. */
  lemma PerfectRunScoresHundred(quiz: Quiz, answers: seq<Answer>, elapsedMs: int, finishMs: int)
    requires 0 < |quiz.questions| && |answers| == |quiz.questions| && UniqueQuestionIds(quiz.questions)
    requires forall i :: 0 <= i < |answers| ==> answers[i].questionId == quiz.questions[i].id
    requires forall k :: 0 <= k < |answers| ==> CorrectAt(quiz.questions, answers, k)
    ensures FinishQuiz(quiz, answers, elapsedMs, finishMs).score == 100
    ensures FinishQuiz(quiz, answers, elapsedMs, finishMs).correctCount == |answers|
  {
    CorrectCountIsPositional(quiz.questions, answers);
    AllCorrectCountsAll(quiz.questions, answers);
  }
}
