/*
 * Submission of the collected feedback: the "Unknown" placeholder guard, the flat payload
 * with question1..question10, and the reset of the session once the server accepts it.
 */
module SubmitFeedback {
  import opened KotlinStd
  import opened Remote
  import opened Session

  /** The placeholder the submit screen passes for an absent name. */
  const Placeholder: string := "Unknown"

  /** The three names of a submission: username, trainer name, module. */
  datatype Names = Names(username: string, trainerName: string, moduleName: string)

  /** FeedbackSubmitActivity reads the session and passes "Unknown" for each absent name. */
  function NamesOf(s: SessionState): (n: Names)
    ensures s.currentUsername.Some? ==> n.username == s.currentUsername.value
    ensures s.currentUsername.None? ==> n.username == Placeholder
    ensures s.selectedTrainerName.Some? ==> n.trainerName == s.selectedTrainerName.value
    ensures s.selectedTrainerName.None? ==> n.trainerName == Placeholder
    ensures s.selectedModuleName.Some? ==> n.moduleName == s.selectedModuleName.value
    ensures s.selectedModuleName.None? ==> n.moduleName == Placeholder
  {
    Names(s.currentUsername.GetOr(Placeholder), s.selectedTrainerName.GetOr(Placeholder),
          s.selectedModuleName.GetOr(Placeholder))
  }

  /** The guard of SubmitAllFeedback: any name equal to the literal "Unknown" aborts. */
  predicate MissingData(n: Names) {
    n.username == Placeholder || n.trainerName == Placeholder || n.moduleName == Placeholder
  }

  /**
   * Submission from a session is refused exactly when one of the three names is absent or
   * is literally "Unknown"; any other value, the empty string and "N/A" included, passes.
   */
  lemma MissingDataOfSession(s: SessionState)
    ensures MissingData(NamesOf(s)) <==>
      || s.currentUsername.None? || s.currentUsername == Some(Placeholder)
      || s.selectedTrainerName.None? || s.selectedTrainerName == Some(Placeholder)
      || s.selectedModuleName.None? || s.selectedModuleName == Some(Placeholder)
  {
  }

  /** Only the literal "Unknown" is refused: an empty username and "N/A" both pass. */
  lemma OtherPlaceholdersPass()
    ensures !MissingData(Names("", "N/A", "N/A"))
  {
  }

  // ---------------------------------------------------------------------------
  // The payload
  // ---------------------------------------------------------------------------

  const FixedKeys: set<string> := {"username", "trainerName", "module"}

  /** `"question$i"`. */
  function QuestionKey(i: int): string
    requires 1 <= i <= 10
  {
    "question" + IntToString(i)
  }

  function QuestionKeys(): set<string> {
    set i | 1 <= i <= 10 :: QuestionKey(i)
  }

  /** `questionAnswers[i] ?: 0`. */
  function RatingOrZero(answers: map<int, int>, i: int): int {
    if i in answers then answers[i] else 0
  }

  /** The question keys never collide with the name keys nor with one another. */
  lemma {:induction false} QuestionKeyDistinct(i: int, j: int)
    requires 1 <= i <= 10 && 1 <= j <= 10
    ensures QuestionKey(i) !in FixedKeys
    ensures QuestionKey(i) == QuestionKey(j) ==> i == j
  {
    assert QuestionKey(i)[0] == 'q';
    if QuestionKey(i) == QuestionKey(j) {
      assert QuestionKey(i)[8..] == IntToString(i);
      assert QuestionKey(j)[8..] == IntToString(j);
      IntToStringInjective(i, j);
    }
  }

  /** The keys question1 .. question{upTo - 1}. */
  function KeysBelow(upTo: int): set<string>
    requires upTo <= 11
  {
    set j | 1 <= j < upTo :: QuestionKey(j)
  }

  /** The payload after the names and the first upTo - 1 ratings have been put in. */
  predicate BuiltBelow(submission: map<string, BodyValue>, n: Names, answers: map<int, int>, upTo: int)
    requires upTo <= 11
  {
    && submission.Keys == FixedKeys + KeysBelow(upTo)
    && submission["username"] == Text(n.username)
    && submission["trainerName"] == Text(n.trainerName)
    && submission["module"] == Text(n.moduleName)
    && forall j :: 1 <= j < upTo ==> submission[QuestionKey(j)] == Number(RatingOrZero(answers, j))
  }

  /** Putting in question{i} extends the payload by exactly that key. */
  lemma BuiltStep(submission: map<string, BodyValue>, n: Names, answers: map<int, int>, i: int)
    requires 1 <= i <= 10 && BuiltBelow(submission, n, answers, i)
    ensures BuiltBelow(submission[QuestionKey(i) := Number(RatingOrZero(answers, i))], n, answers, i + 1)
  {
    var next := submission[QuestionKey(i) := Number(RatingOrZero(answers, i))];
    QuestionKeyDistinct(i, i);
    assert KeysBelow(i + 1) == KeysBelow(i) + {QuestionKey(i)};
    forall j | 1 <= j < i ensures next[QuestionKey(j)] == Number(RatingOrZero(answers, j)) {
      QuestionKeyDistinct(i, j);
    }
  }

  /**
   * The payload: the three names as text and, for i in 1..10, `question{i}` holding the
   * rating recorded under question number i or 0. Nothing else is sent; answers under any
   * other question number are dropped.
   */
  method BuildSubmission(n: Names, answers: map<int, int>) returns (submission: map<string, BodyValue>)
    ensures submission.Keys == FixedKeys + QuestionKeys()
    ensures submission["username"] == Text(n.username)
    ensures submission["trainerName"] == Text(n.trainerName)
    ensures submission["module"] == Text(n.moduleName)
    ensures forall i :: 1 <= i <= 10 ==> submission[QuestionKey(i)] == Number(RatingOrZero(answers, i))
  {
    submission := map["username" := Text(n.username), "trainerName" := Text(n.trainerName),
                      "module" := Text(n.moduleName)];
    assert KeysBelow(1) == {};
    for i := 1 to 11
      invariant BuiltBelow(submission, n, answers, i)
    {
      BuiltStep(submission, n, answers, i);
      var rating := if i in answers then answers[i] else 0;
      submission := submission[QuestionKey(i) := Number(rating)];
    }
    assert KeysBelow(11) == QuestionKeys();
  }

  /** alice rates Bob's Kotlin101 with 5 for questions 1 and 2 and leaves the rest unanswered. */
  method AliceSubmission() returns (submission: map<string, BodyValue>)
    ensures submission.Keys == FixedKeys + QuestionKeys()
    ensures submission["username"] == Text("alice") && submission["trainerName"] == Text("Bob")
    ensures submission["module"] == Text("Kotlin101")
    ensures submission[QuestionKey(1)] == Number(5) && submission[QuestionKey(2)] == Number(5)
    ensures forall i :: 3 <= i <= 10 ==> submission[QuestionKey(i)] == Number(0)
  {
    submission := BuildSubmission(Names("alice", "Bob", "Kotlin101"), map[1 := 5, 2 := 5]);
  }

  // ---------------------------------------------------------------------------
  // Sending
  // ---------------------------------------------------------------------------

  datatype SubmitResult =
    | MissingRequiredData                                        // toast, nothing sent
    | Sent(submission: map<string, BodyValue>, done: bool)        // done: onDone() was called

  /**
   * SubmitAllFeedback: guard, build, send; on a 2xx answer reset the session and call
   * onDone, otherwise leave the session as it was.
   */
  method SubmitAllFeedback(session: FeedbackSession, n: Names, outcome: Outcome<Json>)
    returns (result: SubmitResult)
    modifies session
    ensures MissingData(n) ==> result == MissingRequiredData && session.State() == old(session.State())
    ensures !MissingData(n) ==> result.Sent?
    ensures result.Sent? ==> result.submission.Keys == FixedKeys + QuestionKeys()
    ensures result.Sent? ==>
      && result.submission["username"] == Text(n.username)
      && result.submission["trainerName"] == Text(n.trainerName)
      && result.submission["module"] == Text(n.moduleName)
    ensures result.Sent? ==> forall i :: 1 <= i <= 10 ==>
      result.submission[QuestionKey(i)] == Number(RatingOrZero(old(session.questionAnswers), i))
    ensures result.Sent? && outcome.Success? ==> result.done && session.State() == EmptySession
    ensures result.Sent? && !outcome.Success? ==> !result.done && session.State() == old(session.State())
  {
    if MissingData(n) {
      return MissingRequiredData;
    }
    var submission := BuildSubmission(n, session.questionAnswers);
    if outcome.Success? {
      session.Reset();
      result := Sent(submission, true);
    } else {
      result := Sent(submission, false);
    }
  }

  /**
   * FeedbackSubmitActivity: the names come from the session, "Unknown" when absent. Nothing
   * is sent exactly when a name is absent or is literally "Unknown"; otherwise the session's
   * names and ratings go out.
   */
  method SubmitFromSession(session: FeedbackSession, outcome: Outcome<Json>) returns (result: SubmitResult)
    modifies session
    ensures result == MissingRequiredData <==>
      || old(session.currentUsername).None? || old(session.currentUsername) == Some(Placeholder)
      || old(session.selectedTrainerName).None? || old(session.selectedTrainerName) == Some(Placeholder)
      || old(session.selectedModuleName).None? || old(session.selectedModuleName) == Some(Placeholder)
    ensures result == MissingRequiredData ==> session.State() == old(session.State())
    ensures result.Sent? ==>
      && old(session.currentUsername).Some?
      && old(session.selectedTrainerName).Some?
      && old(session.selectedModuleName).Some?
      && result.submission.Keys == FixedKeys + QuestionKeys()
      && result.submission["username"] == Text(old(session.currentUsername).value)
      && result.submission["trainerName"] == Text(old(session.selectedTrainerName).value)
      && result.submission["module"] == Text(old(session.selectedModuleName).value)
    ensures result.Sent? ==> forall i :: 1 <= i <= 10 ==>
      result.submission[QuestionKey(i)] == Number(RatingOrZero(old(session.questionAnswers), i))
    ensures result.Sent? && outcome.Success? ==> result.done && session.State() == EmptySession
    ensures result.Sent? && !outcome.Success? ==> !result.done && session.State() == old(session.State())
  {
    MissingDataOfSession(session.State());
    result := SubmitAllFeedback(session, NamesOf(session.State()), outcome);
  }
}
