/*
 * The question wizard: one question at a time from the server's list, a star rating from
 * 1 to 5 per question, written into the session under the question's number, then the
 * preview once the index has run past the last question.
 */
module QuestionWizard {
  import opened KotlinStd
  import opened Remote
  import opened Session

  datatype Question = Question(id: Option<int>, questionNumber: int, questionText: string)

  /** The screen's remembered state: the list, the index of the question shown, the rating tapped. */
  datatype Wizard = Wizard(questions: seq<Question>, currentQuestionIndex: nat, selectedRating: int)

  /** The screen before anything was loaded. */
  const Start: Wizard := Wizard([], 0, 0)

  /** A rating is 0 (none tapped yet) or one of the five stars. */
  predicate WizardValid(w: Wizard) {
    0 <= w.selectedRating <= 5
  }

  /** What the screen shows: a spinner, the question at an index, or (past the end) the preview. */
  datatype Phase = Loading | Asking(index: nat) | Complete

  function PhaseOf(w: Wizard): (p: Phase)
    ensures p.Loading? <==> |w.questions| == 0
    ensures p.Asking? <==> 0 <= w.currentQuestionIndex < |w.questions|
    ensures p.Asking? ==> p.index == w.currentQuestionIndex
    ensures p.Complete? <==> 0 < |w.questions| <= w.currentQuestionIndex
  {
    if |w.questions| == 0 then Loading
    else if w.currentQuestionIndex >= |w.questions| then Complete
    else Asking(w.currentQuestionIndex)
  }

  /** The screen starts the preview activity exactly when it is past the last question. */
  predicate NavigatesToPreview(w: Wizard) {
    PhaseOf(w).Complete?
  }

  /** The Next button is composed only while a question is shown, and enabled once a star is tapped. */
  predicate NextEnabled(w: Wizard) {
    PhaseOf(w).Asking? && w.selectedRating > 0
  }

  /** The question the screen reads, which exists only while a question is shown. */
  function CurrentQuestion(w: Wizard): (q: Question)
    requires PhaseOf(w).Asking?
    ensures q in w.questions
  {
    w.questions[w.currentQuestionIndex]
  }

  /** Tapping star `rating` (the row offers 1 to 5) selects it. */
  function Tap(w: Wizard, rating: int): (r: Wizard)
    requires 1 <= rating <= 5
    ensures r.selectedRating == rating
    ensures WizardValid(r) && NextEnabled(r) == PhaseOf(w).Asking?
    ensures r.questions == w.questions && r.currentQuestionIndex == w.currentQuestionIndex
  {
    w.(selectedRating := rating)
  }

  /**
   * Next: store the selected rating under the current question's number, clear the
   * selection and advance by one. The second component is the session's new answers.
   */
  function Next(w: Wizard, answers: map<int, int>): (r: (Wizard, map<int, int>))
    requires NextEnabled(w)
    ensures r.0.questions == w.questions
    ensures r.0.currentQuestionIndex == w.currentQuestionIndex + 1
    ensures r.0.selectedRating == 0 && WizardValid(r.0)
    ensures r.1.Keys == answers.Keys + {CurrentQuestion(w).questionNumber}
    ensures r.1[CurrentQuestion(w).questionNumber] == w.selectedRating
    ensures forall q :: q in answers && q != CurrentQuestion(w).questionNumber ==> r.1[q] == answers[q]
    ensures WizardValid(w) && RatingsInRange(answers) ==> RatingsInRange(r.1)
  {
    var q := CurrentQuestion(w);
    (w.(selectedRating := 0, currentQuestionIndex := w.currentQuestionIndex + 1),
     RecordOne(answers, q.questionNumber, w.selectedRating))
  }

  /** The label of the Next button while a question is shown. */
  function NextLabel(w: Wizard): (caption: string)
    requires PhaseOf(w).Asking?
    ensures caption == "Preview Feedback" <==> w.currentQuestionIndex == |w.questions| - 1
    ensures caption == "Next" <==> w.currentQuestionIndex < |w.questions| - 1
  {
    if w.currentQuestionIndex < |w.questions| - 1 then "Next" else "Preview Feedback"
  }

  /** With no questions the screen is stuck loading: no Next, no navigation. */
  lemma EmptyListStaysLoading(w: Wizard)
    requires |w.questions| == 0
    ensures PhaseOf(w) == Loading && !NextEnabled(w) && !NavigatesToPreview(w)
  {
  }

  // ---------------------------------------------------------------------------
  // Answering a run of questions
  // ---------------------------------------------------------------------------

  predicate AllStars(ratings: seq<int>) {
    forall i :: 0 <= i < |ratings| ==> 1 <= ratings[i] <= 5
  }

  /** Tap `ratings[i]` then press Next, for each i in turn. */
  function AnswerEach(w: Wizard, answers: map<int, int>, ratings: seq<int>): (Wizard, map<int, int>)
    requires AllStars(ratings)
    requires |ratings| > 0 ==> w.currentQuestionIndex + |ratings| <= |w.questions|
    decreases |ratings|
  {
    if |ratings| == 0 then (w, answers)
    else
      var step := Next(Tap(w, ratings[0]), answers);
      AnswerEach(step.0, step.1, ratings[1..])
  }

  /** The writes into the session made by answering questions start.. in order with `ratings`. */
  function Writes(questions: seq<Question>, start: nat, ratings: seq<int>): (ws: seq<(int, int)>)
    requires start + |ratings| <= |questions|
    ensures |ws| == |ratings|
    ensures forall i :: 0 <= i < |ratings| ==> ws[i] == (questions[start + i].questionNumber, ratings[i])
  {
    seq(|ratings|, i requires 0 <= i < |ratings| => (questions[start + i].questionNumber, ratings[i]))
  }

  /** A run of k taps-and-Nexts advances the index by k and performs the k writes in order. */
  lemma {:induction false} AnswerEachEffect(w: Wizard, answers: map<int, int>, ratings: seq<int>)
    requires AllStars(ratings)
    requires w.currentQuestionIndex + |ratings| <= |w.questions|
    ensures AnswerEach(w, answers, ratings).0.questions == w.questions
    ensures AnswerEach(w, answers, ratings).0.currentQuestionIndex == w.currentQuestionIndex + |ratings|
    ensures |ratings| > 0 ==> AnswerEach(w, answers, ratings).0.selectedRating == 0
    ensures AnswerEach(w, answers, ratings).1
         == RecordAll(answers, Writes(w.questions, w.currentQuestionIndex, ratings))
    decreases |ratings|
  {
    var ws := Writes(w.questions, w.currentQuestionIndex, ratings);
    if |ratings| > 0 {
      var step := Next(Tap(w, ratings[0]), answers);
      AnswerEachEffect(step.0, step.1, ratings[1..]);
      assert Writes(step.0.questions, step.0.currentQuestionIndex, ratings[1..]) == ws[1..];
    }
  }

  /**
   * With N >= 1 questions, the screen shows question k after k presses of Next for every
   * k < N, and moves to the preview after exactly N presses.
   */
  lemma PreviewAfterExactlyN(questions: seq<Question>, answers: map<int, int>, ratings: seq<int>)
    requires |questions| >= 1 && |ratings| == |questions| && AllStars(ratings)
    ensures forall k :: 0 <= k < |questions| ==>
      PhaseOf(AnswerEach(Start.(questions := questions), answers, ratings[..k]).0) == Asking(k)
    ensures NavigatesToPreview(AnswerEach(Start.(questions := questions), answers, ratings).0)
  {
    var w := Start.(questions := questions);
    forall k | 0 <= k < |questions|
      ensures PhaseOf(AnswerEach(w, answers, ratings[..k]).0) == Asking(k)
    {
      assert AllStars(ratings[..k]);
      AnswerEachEffect(w, answers, ratings[..k]);
    }
    AnswerEachEffect(w, answers, ratings);
  }

  lemma {:induction false} LastWriteOfUnique(ws: seq<(int, int)>, j: nat)
    requires j < |ws|
    requires forall i :: 0 <= i < |ws| && i != j ==> ws[i].0 != ws[j].0
    ensures LastWrite(ws, ws[j].0) == Some(ws[j].1)
    decreases |ws|
  {
    if j != |ws| - 1 {
      LastWriteOfUnique(ws[..|ws| - 1], j);
    }
  }

  predicate DistinctNumbers(questions: seq<Question>) {
    forall i, j :: 0 <= i < j < |questions| ==> questions[i].questionNumber != questions[j].questionNumber
  }

  /**
   * Answering every question of a list with distinct numbers records exactly the given
   * rating under each number, and leaves every other recorded answer as it was.
   */
  lemma AnswerAllRecordsEachRating(questions: seq<Question>, answers: map<int, int>, ratings: seq<int>)
    requires |ratings| == |questions| && AllStars(ratings) && DistinctNumbers(questions)
    ensures var result := AnswerEach(Start.(questions := questions), answers, ratings).1;
      && (forall i :: 0 <= i < |questions| ==>
            questions[i].questionNumber in result && result[questions[i].questionNumber] == ratings[i])
      && (forall q :: q in answers && (forall i :: 0 <= i < |questions| ==> questions[i].questionNumber != q)
            ==> q in result && result[q] == answers[q])
  {
    var w := Start.(questions := questions);
    var ws := Writes(questions, 0, ratings);
    AnswerEachEffect(w, answers, ratings);
    var result := AnswerEach(w, answers, ratings).1;
    forall i | 0 <= i < |questions|
      ensures questions[i].questionNumber in result && result[questions[i].questionNumber] == ratings[i]
    {
      LastWriteOfUnique(ws, i);
      LastWriteWins(answers, ws, questions[i].questionNumber);
    }
    forall q | q in answers && (forall i :: 0 <= i < |questions| ==> questions[i].questionNumber != q)
      ensures q in result && result[q] == answers[q]
    {
      LastWriteWins(answers, ws, q);
    }
  }

  /**
   * Three questions numbered 1, 2 and 3 answered with 4, 5 and 2 from an empty session: the
   * preview opens after the third Next and the session holds exactly {1: 4, 2: 5, 3: 2}.
   */
  lemma ThreeQuestionRound()
    ensures var questions := [Question(Some(10), 1, "Pace"), Question(Some(11), 2, "Clarity"),
                              Question(Some(12), 3, "Material")];
      var result := AnswerEach(Start.(questions := questions), map[], [4, 5, 2]);
      && NavigatesToPreview(result.0)
      && result.1 == map[1 := 4, 2 := 5, 3 := 2]
  {
    var questions := [Question(Some(10), 1, "Pace"), Question(Some(11), 2, "Clarity"),
                      Question(Some(12), 3, "Material")];
    var ratings := [4, 5, 2];
    PreviewAfterExactlyN(questions, map[], ratings);
    AnswerAllRecordsEachRating(questions, map[], ratings);
    var result := AnswerEach(Start.(questions := questions), map[], ratings).1;
    AnswerEachEffect(Start.(questions := questions), map[], ratings);
    forall q | q !in {1, 2, 3} ensures q !in result {
      LastWriteWins(map[], Writes(questions, 0, ratings), q);
    }
    assert result.Keys == {1, 2, 3};
  }

  // ---------------------------------------------------------------------------
  // The screen
  // ---------------------------------------------------------------------------

  class QuestionScreen {
    var questions: seq<Question>
    var currentQuestionIndex: nat
    var selectedRating: int
    const session: FeedbackSession

    function State(): Wizard
      reads this
    {
      Wizard(questions, currentQuestionIndex, selectedRating)
    }

    constructor (session: FeedbackSession)
      ensures State() == Start && this.session == session
    {
      questions := [];
      currentQuestionIndex := 0;
      selectedRating := 0;
      this.session := session;
    }

    /** The list fetch: a 2xx response replaces the list (an absent body with the empty list). */
    method OnQuestionsLoaded(outcome: Outcome<seq<Question>>)
      modifies this
      ensures outcome.Success? ==> State() == old(State()).(questions := outcome.body.GetOr([]))
      ensures !outcome.Success? ==> State() == old(State())
    {
      if outcome.Success? {
        questions := outcome.body.GetOr([]);
      }
    }

    /** A tap on one of the five stars. */
    method TapRating(rating: int)
      requires 1 <= rating <= 5
      modifies this
      ensures State() == Tap(old(State()), rating)
    {
      selectedRating := rating;
    }

    /** The Next / Preview Feedback button, which can be pressed only while enabled. */
    method ClickNext()
      requires NextEnabled(State())
      modifies this, session
      ensures (State(), session.questionAnswers) == Next(old(State()), old(session.questionAnswers))
      ensures session.State() == old(session.State()).(questionAnswers := session.questionAnswers)
    {
      var current := questions[currentQuestionIndex];
      session.RecordAnswer(current.questionNumber, selectedRating);
      selectedRating := 0;
      currentQuestionIndex := currentQuestionIndex + 1;
    }
  }
}
