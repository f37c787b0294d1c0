/*
 * The process-wide session record: who is logged in, with which role, which trainer and
 * module the feedback is about, and the rating recorded for each question number.
 */
module Session {
  import opened KotlinStd

  /** A snapshot of every field of the session. */
  datatype SessionState = SessionState(
    currentUsername: Option<string>,
    userRole: Option<int>,            // 0 = user, 1 = admin
    selectedTrainerName: Option<string>,
    selectedModuleName: Option<string>,
    questionAnswers: map<int, int>)   // question number -> rating

  /** The state at process start, and after every reset. */
  const EmptySession := SessionState(None, None, None, None, map[])

  /** Every recorded rating is a star rating from 1 to 5. */
  predicate RatingsInRange(answers: map<int, int>) {
    forall q :: q in answers ==> 1 <= answers[q] <= 5
  }

  class FeedbackSession {
    var currentUsername: Option<string>
    var userRole: Option<int>
    var selectedTrainerName: Option<string>
    var selectedModuleName: Option<string>
    var questionAnswers: map<int, int>

    function State(): SessionState
      reads this
    {
      SessionState(currentUsername, userRole, selectedTrainerName, selectedModuleName, questionAnswers)
    }

    /** The singleton as first touched: every field absent, no answers. */
    constructor ()
      ensures State() == EmptySession
    {
      currentUsername := None;
      userRole := None;
      selectedTrainerName := None;
      selectedModuleName := None;
      questionAnswers := map[];
    }

    /** Clears identity, role, selections and every recorded answer. */
    method Reset()
      modifies this
      ensures State() == EmptySession
    {
      currentUsername := None;
      userRole := None;
      selectedTrainerName := None;
      selectedModuleName := None;
      questionAnswers := map[];
    }

    /** `questionAnswers[questionNumber] = rating`: insert or overwrite one entry, nothing else. */
    method RecordAnswer(questionNumber: int, rating: int)
      modifies this
      ensures State() == old(State()).(questionAnswers := RecordOne(old(questionAnswers), questionNumber, rating))
    {
      questionAnswers := questionAnswers[questionNumber := rating];
    }
  }

  /** The map after one write of `rating` under `questionNumber`. */
  function RecordOne(answers: map<int, int>, questionNumber: int, rating: int): (r: map<int, int>)
    ensures r.Keys == answers.Keys + {questionNumber}
    ensures r[questionNumber] == rating
    ensures forall q :: q in answers && q != questionNumber ==> r[q] == answers[q]
  {
    answers[questionNumber := rating]
  }

  /** Resetting twice leaves the same state as resetting once. */
  method ResetTwice(session: FeedbackSession)
    modifies session
    ensures session.State() == EmptySession
  {
    session.Reset();
    var once := session.State();
    session.Reset();
    assert session.State() == once;
  }

  /** A logout button: reset the session, then go to the login screen. */
  datatype Destination = LoginScreenDestination

  method Logout(session: FeedbackSession) returns (destination: Destination)
    modifies session
    ensures session.State() == EmptySession
    ensures destination == LoginScreenDestination
  {
    session.Reset();
    destination := LoginScreenDestination;
  }

  // ---------------------------------------------------------------------------
  // Last write wins
  // ---------------------------------------------------------------------------

  /** The answers after a sequence of writes, performed in order. */
  function RecordAll(answers: map<int, int>, writes: seq<(int, int)>): map<int, int>
    decreases |writes|
  {
    if |writes| == 0 then answers
    else RecordAll(RecordOne(answers, writes[0].0, writes[0].1), writes[1..])
  }

  /** The rating of the last write for question `q`, if any. */
  function LastWrite(writes: seq<(int, int)>, q: int): (r: Option<int>)
    ensures r.Some? <==> exists i :: 0 <= i < |writes| && writes[i].0 == q
  {
    if |writes| == 0 then None
    else if writes[|writes| - 1].0 == q then Some(writes[|writes| - 1].1)
    else LastWrite(writes[..|writes| - 1], q)
  }

  lemma {:induction false} RecordAllSnoc(answers: map<int, int>, writes: seq<(int, int)>, w: (int, int))
    ensures RecordAll(answers, writes + [w]) == RecordOne(RecordAll(answers, writes), w.0, w.1)
    decreases |writes|
  {
    if |writes| > 0 {
      assert (writes + [w])[1..] == writes[1..] + [w];
      RecordAllSnoc(RecordOne(answers, writes[0].0, writes[0].1), writes[1..], w);
    }
  }

  /**
   * After any sequence of writes, a question holds the rating of the last write for it,
   * and a question never written keeps what it had (or stays absent).
   */
  lemma {:induction false} LastWriteWins(answers: map<int, int>, writes: seq<(int, int)>, q: int)
    ensures LastWrite(writes, q).Some? ==>
      q in RecordAll(answers, writes) && RecordAll(answers, writes)[q] == LastWrite(writes, q).value
    ensures LastWrite(writes, q).None? ==>
      (q in RecordAll(answers, writes) <==> q in answers) &&
      (q in answers ==> RecordAll(answers, writes)[q] == answers[q])
    decreases |writes|
  {
    if |writes| > 0 {
      var init, last := writes[..|writes| - 1], writes[|writes| - 1];
      assert writes == init + [last];
      RecordAllSnoc(answers, init, last);
      LastWriteWins(answers, init, q);
    }
  }

  /** Writes of ratings from 1 to 5 keep every recorded rating in that range. */
  lemma {:induction false} RecordAllKeepsRatingsInRange(answers: map<int, int>, writes: seq<(int, int)>)
    requires RatingsInRange(answers)
    requires forall i :: 0 <= i < |writes| ==> 1 <= writes[i].1 <= 5
    ensures RatingsInRange(RecordAll(answers, writes))
    decreases |writes|
  {
    if |writes| > 0 {
      RecordAllKeepsRatingsInRange(RecordOne(answers, writes[0].0, writes[0].1), writes[1..]);
    }
  }
}
