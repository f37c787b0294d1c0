/*
 * The administrator's question screens: the list with its fetch-with-fallback and its
 * delete dialog, and the add/edit form with its number check, its choice of endpoint and
 * its mapping of failures to messages.
 */
module QuestionsAdmin {
  import opened KotlinStd
  import opened Remote
  import opened QuestionWizard

  // ---------------------------------------------------------------------------
  // The list
  // ---------------------------------------------------------------------------

  /** `questions.filter { it.id != id }`. */
  function RemoveQuestion(questions: seq<Question>, id: int): (r: seq<Question>)
    ensures |r| <= |questions|
    ensures forall q :: q in r <==> q in questions && q.id != Some(id)
  {
    Filter(questions, (q: Question) => q.id != Some(id))
  }

  /** Every question without that id stays, as often as it was listed; none with it stays. */
  lemma RemoveQuestionCounts(questions: seq<Question>, id: int, q: Question)
    ensures multiset(RemoveQuestion(questions, id))[q] ==
      if q.id == Some(id) then 0 else multiset(questions)[q]
  {
    FilterMultiset(questions, (q: Question) => q.id != Some(id), q);
  }

  /** Removal keeps the order of the rest: it works piecewise on any split of the list. */
  lemma RemoveQuestionSplits(front: seq<Question>, back: seq<Question>, id: int)
    ensures RemoveQuestion(front + back, id) == RemoveQuestion(front, id) + RemoveQuestion(back, id)
  {
    FilterAppend(front, back, (q: Question) => q.id != Some(id));
  }

  /** The list fetch, reduced to the list it leaves. */
  function FetchedQuestions(current: seq<Question>, primary: Outcome<seq<Question>>,
                            fallback: Outcome<seq<Question>>): (r: seq<Question>)
    ensures primary.Success? ==> r == primary.body.GetOr([])
    ensures primary.NonSuccess? && fallback.Success? ==> r == fallback.body.GetOr([])
    ensures primary.NonSuccess? && !fallback.Success? ==> r == current
    ensures primary.Failure? ==> r == current
  {
    match primary
    case Success(body) => body.GetOr([])
    case NonSuccess(_, _) => if fallback.Success? then fallback.body.GetOr([]) else current
    case Failure(_) => current
  }

  class QuestionsListScreen {
    var questions: seq<Question>
    var isLoading: bool
    var showDeleteDialog: bool
    var selectedQuestion: Option<Question>

    constructor ()
      ensures questions == [] && isLoading && !showDeleteDialog && selectedQuestion.None?
    {
      questions := [];
      isLoading := true;
      showDeleteDialog := false;
      selectedQuestion := None;
    }

    /**
     * The fetch at launch: the full list on a 2xx answer; on any other status the list of
     * the fallback request, if that one answers 2xx; on an exception nothing. Every path ends
     * the loading.
     */
    method OnQuestionsFetched(primary: Outcome<seq<Question>>, fallback: Outcome<seq<Question>>)
      modifies this
      ensures questions == FetchedQuestions(old(questions), primary, fallback)
      ensures !isLoading
      ensures showDeleteDialog == old(showDeleteDialog) && selectedQuestion == old(selectedQuestion)
    {
      if primary.Success? {
        questions := primary.body.GetOr([]);
      } else if primary.NonSuccess? {
        if fallback.Success? {
          questions := fallback.body.GetOr([]);
        }
      }
      isLoading := false;
    }

    /** The edit icon: opens the form for the question's id, and does nothing without one. */
    method ClickEdit(q: Question) returns (editId: Option<int>)
      ensures editId.Some? <==> q.id.Some?
      ensures editId.Some? ==> editId.value == q.id.value
    {
      editId := if q.id.Some? then Some(q.id.value) else None;
    }

    /** The delete icon: selects the question and opens the dialog, only when it has an id. */
    method ClickDelete(q: Question)
      modifies this
      ensures q.id.Some? ==> selectedQuestion == Some(q) && showDeleteDialog
      ensures q.id.None? ==> selectedQuestion == old(selectedQuestion) && showDeleteDialog == old(showDeleteDialog)
      ensures questions == old(questions) && isLoading == old(isLoading)
    {
      if q.id.Some? {
        selectedQuestion := Some(q);
        showDeleteDialog := true;
      }
    }

    /**
     * The dialog's Delete button: the delete request goes out only for a selected question
     * with an id; a 2xx answer removes every question with that id. The dialog always closes.
     */
    method ConfirmDelete(outcome: Outcome<()>) returns (deletedId: Option<int>)
      modifies this
      ensures deletedId == (if old(selectedQuestion).Some? then old(selectedQuestion).value.id else None)
      ensures deletedId.Some? && outcome.Success? ==> questions == RemoveQuestion(old(questions), deletedId.value)
      ensures deletedId.None? || !outcome.Success? ==> questions == old(questions)
      ensures !showDeleteDialog
      ensures selectedQuestion == old(selectedQuestion) && isLoading == old(isLoading)
    {
      deletedId := None;
      if selectedQuestion.Some? && selectedQuestion.value.id.Some? {
        var id := selectedQuestion.value.id.value;
        deletedId := Some(id);
        if outcome.Success? {
          questions := RemoveQuestion(questions, id);
        }
      }
      showDeleteDialog := false;
    }

    /** Cancel, or a tap outside the dialog: closes it and nothing else. */
    method DismissDelete()
      modifies this
      ensures !showDeleteDialog
      ensures questions == old(questions) && isLoading == old(isLoading) && selectedQuestion == old(selectedQuestion)
    {
      showDeleteDialog := false;
    }
  }

  // ---------------------------------------------------------------------------
  // The add/edit form
  // ---------------------------------------------------------------------------

  /** The id in the `editQuestion/{questionId}` route: `getString(..)?.toIntOrNull()`. */
  function RouteId(argument: Option<string>): (id: Option<int>)
    ensures id.Some? ==> argument.Some? && ParseInt(argument.value) == id
    ensures argument.Some? && ParseInt(argument.value).Some? ==> id.Some?
  {
    match argument
    case None => None
    case Some(s) => ParseInt(s)
  }

  datatype QuestionEndpoint = UpdateQuestion(id: int) | CreateQuestion

  /** Update needs both the edit mode and an id; anything else creates. */
  function EndpointFor(isEditMode: bool, questionId: Option<int>): (e: QuestionEndpoint)
    ensures e.UpdateQuestion? <==> isEditMode && questionId.Some?
    ensures e.UpdateQuestion? ==> e.id == questionId.value
  {
    if isEditMode && questionId.Some? then UpdateQuestion(questionId.value) else CreateQuestion
  }

  /** An edit route whose id does not parse as an Int saves through the create endpoint. */
  lemma UnparsableRouteIdCreates(argument: string)
    requires ParseInt(argument).None?
    ensures EndpointFor(true, RouteId(Some(argument))) == CreateQuestion
  {
  }

  /** The request body: the text and the parsed number. */
  function QuestionBody(questionText: string, questionNumber: int): (body: map<string, BodyValue>)
    ensures body.Keys == {"questionText", "questionNumber"}
    ensures body["questionText"] == Text(questionText) && body["questionNumber"] == Number(questionNumber)
  {
    map["questionText" := Text(questionText), "questionNumber" := Number(questionNumber)]
  }

  /** What a press of Save decides before anything is sent. */
  datatype SaveDecision =
    | Rejected(message: string)
    | Send(endpoint: QuestionEndpoint, body: map<string, BodyValue>)

  function DecideSave(isEditMode: bool, questionId: Option<int>, questionText: string, questionNumber: string)
    : (d: SaveDecision)
    ensures d.Rejected? <==> ParseInt(questionNumber).None?
    ensures d.Rejected? ==> d.message == "Please enter a valid question number"
    ensures d.Send? ==>
      && d.endpoint == EndpointFor(isEditMode, questionId)
      && d.body == QuestionBody(questionText, ParseInt(questionNumber).value)
      && IsInt32(ParseInt(questionNumber).value)
  {
    match ParseInt(questionNumber)
    case None => Rejected("Please enter a valid question number")
    case Some(n) => Send(EndpointFor(isEditMode, questionId), QuestionBody(questionText, n))
  }

  /** `enabled = questionText.isNotBlank() && questionNumber.isNotBlank() && !isLoading`. */
  predicate SaveEnabled(questionText: string, questionNumber: string, isLoading: bool) {
    !IsBlank(questionText) && !IsBlank(questionNumber) && !isLoading
  }

  /** A number that parses is never blank, so the number check only rejects what the button lets through. */
  lemma ParsedNumberIsNotBlank(questionNumber: string)
    requires ParseInt(questionNumber).Some?
    ensures !IsBlank(questionNumber)
  {
  }

  /** An enabled button can still be rejected: a non-blank number need not parse. */
  lemma EnabledSaveCanBeRejected()
    ensures SaveEnabled("How clear was the session?", "1.5", false)
    ensures DecideSave(false, None, "How clear was the session?", "1.5").Rejected?
  {
    var text, number := "How clear was the session?", "1.5";
    assert !IsWhitespace(text[0]);
    assert !IsWhitespace(number[0]);
    assert !IsDigit(number[1]);
  }

  /**
   * A question loaded for editing and saved unchanged goes back to the update endpoint with
   * its own text and number: `toString()` and `toIntOrNull()` are inverse on Int.
   */
  lemma LoadedQuestionSavesUnchanged(q: Question, id: int)
    requires IsInt32(q.questionNumber)
    ensures DecideSave(true, Some(id), q.questionText, IntToString(q.questionNumber))
         == Send(UpdateQuestion(id), QuestionBody(q.questionText, q.questionNumber))
  {
    ParseIntOfIntToString(q.questionNumber);
  }

  /** The message for a thrown exception, the most specific class first. */
  function ExceptionMessage(e: Exception): (message: string)
    ensures e.SocketTimeout? ==> message == "Connection timeout. Please check your network."
    ensures e.Connect? ==> message == "Cannot connect to server. Check if server is running."
    ensures e.SslHandshake? ==> message == "SSL error. Try using HTTPS or check certificate."
    ensures e.OtherIo? ==> message == "Network error: " + e.message.GetOr("Unknown IO error")
    ensures e.Other? ==> message == "Unexpected error: " + ShowNullable(e.message)
  {
    match e
    case SocketTimeout(_) => "Connection timeout. Please check your network."
    case Connect(_) => "Cannot connect to server. Check if server is running."
    case SslHandshake(_) => "SSL error. Try using HTTPS or check certificate."
    case OtherIo(m) => "Network error: " + m.GetOr("Unknown IO error")
    case Other(m) => "Unexpected error: " + ShowNullable(m)
  }

  /** The error shown after a save that did not answer 2xx; None after a 2xx answer. */
  function SaveError<T>(outcome: Outcome<T>): (message: Option<string>)
    ensures message.None? <==> outcome.Success?
    ensures outcome.NonSuccess? ==> message == Some("Server error: " + IntToString(outcome.code) + " - "
                                                     + outcome.errorBody.GetOr("No error body"))
    ensures outcome.Failure? ==> message == Some(ExceptionMessage(outcome.error))
  {
    match outcome
    case Success(_) => None
    case NonSuccess(code, errorBody) => Some("Server error: " + IntToString(code) + " - " + errorBody.GetOr("No error body"))
    case Failure(e) => Some(ExceptionMessage(e))
  }

  class AddEditQuestionScreen {
    const isEditMode: bool
    const questionId: Option<int>
    var questionText: string
    var questionNumber: string
    var isLoading: bool
    var errorMessage: Option<string>

    constructor (isEditMode: bool, questionId: Option<int>)
      ensures this.isEditMode == isEditMode && this.questionId == questionId
      ensures questionText == "" && questionNumber == "" && !isLoading && errorMessage.None?
    {
      this.isEditMode := isEditMode;
      this.questionId := questionId;
      questionText := "";
      questionNumber := "";
      isLoading := false;
      errorMessage := None;
    }

    /** The form asks for the question to edit only in edit mode with an id. */
    predicate LoadsOnStart()
    {
      isEditMode && questionId.Some?
    }

    /**
     * The answer to the load request: a 2xx answer with a question fills the form (the
     * number as its decimal text); any other answer or exception sets the matching error.
     */
    method OnQuestionLoaded(outcome: Outcome<Question>)
      requires LoadsOnStart()
      modifies this
      ensures outcome.Success? && outcome.body.Some? ==>
        questionText == outcome.body.value.questionText
        && questionNumber == IntToString(outcome.body.value.questionNumber)
        && errorMessage == old(errorMessage)
      ensures outcome == Success(None) ==>
        questionText == old(questionText) && questionNumber == old(questionNumber) && errorMessage == old(errorMessage)
      ensures outcome.NonSuccess? ==>
        questionText == old(questionText) && questionNumber == old(questionNumber)
        && errorMessage == Some("Failed to load question: " + IntToString(outcome.code))
      ensures outcome.Failure? ==>
        questionText == old(questionText) && questionNumber == old(questionNumber)
        && errorMessage == Some("Error loading question: " + ShowNullable(outcome.error.message))
      ensures isLoading == old(isLoading)
    {
      match outcome
      case Success(Some(q)) =>
        questionText := q.questionText;
        questionNumber := IntToString(q.questionNumber);
      case Success(None) =>
      case NonSuccess(code, _) =>
        errorMessage := Some("Failed to load question: " + IntToString(code));
      case Failure(e) =>
        errorMessage := Some("Error loading question: " + ShowNullable(e.message));
    }

    /**
     * Save: a number that is not an Int shows the error and sends nothing; otherwise the
     * error is cleared, the spinner shown, and the body sent to the chosen endpoint.
     */
    method ClickSave() returns (decision: SaveDecision)
      modifies this
      ensures decision == DecideSave(isEditMode, questionId, questionText, questionNumber)
      ensures questionText == old(questionText) && questionNumber == old(questionNumber)
      ensures decision.Rejected? ==> errorMessage == Some(decision.message) && isLoading == old(isLoading)
      ensures decision.Send? ==> errorMessage.None? && isLoading
    {
      var parsed := ParseInt(questionNumber);
      if parsed.None? {
        errorMessage := Some("Please enter a valid question number");
        return Rejected("Please enter a valid question number");
      }
      isLoading := true;
      errorMessage := None;
      decision := Send(EndpointFor(isEditMode, questionId), QuestionBody(questionText, parsed.value));
    }

    /** The end of a save: back to the list on a 2xx answer, else the error; the spinner always stops. */
    method OnSaveFinished(outcome: Outcome<()>) returns (goBack: bool)
      modifies this
      ensures goBack <==> outcome.Success?
      ensures outcome.Success? ==> errorMessage == old(errorMessage)
      ensures !outcome.Success? ==> errorMessage == SaveError(outcome)
      ensures !isLoading && questionText == old(questionText) && questionNumber == old(questionNumber)
    {
      if outcome.Success? {
        goBack := true;
      } else {
        goBack := false;
        errorMessage := SaveError(outcome);
      }
      isLoading := false;
    }
  }
}
