/*
 * The forgot-password screen: a blank-field check, the verification request, and the
 * choice between opening the reset screen with the returned `userId` and showing a message.
 */
module ForgotPassword {
  import opened KotlinStd
  import opened Remote

  /** What the screen does with an answer: open the reset screen, or show a message. */
  datatype Reaction = OpenResetScreen(userId: int) | ShowMessage(text: string)

  predicate FieldsFilled(username: string, email: string) {
    !IsBlank(username) && !IsBlank(email)
  }

  /** The request body: exactly the two typed fields. */
  function VerifyBody(username: string, email: string): (body: map<string, string>)
    ensures body.Keys == {"username", "email"}
    ensures body["username"] == username && body["email"] == email
  {
    map["username" := username, "email" := email]
  }

  /** The reaction to every possible outcome of the verification request. */
  function ForgotReaction(outcome: Outcome<map<string, Json>>): (r: Reaction)
    ensures r.OpenResetScreen? <==>
      outcome.Success? && outcome.body.Some? && "userId" in outcome.body.value
      && outcome.body.value["userId"].JNumber?
    ensures r.OpenResetScreen? ==>
      r.userId == DoubleToInt(outcome.body.value["userId"].n) && IsInt32(r.userId)
    ensures outcome.Success? && outcome.body.Some? && !r.OpenResetScreen? ==>
      var body := outcome.body.value;
      r == ShowMessage(if "message" in body && body["message"].JString? then body["message"].s
                       else "Invalid credentials")
    ensures outcome == Success(None) ==> r == ShowMessage("Unknown error")
    ensures outcome.NonSuccess? ==> r == ShowMessage("Invalid username or email")
    ensures outcome.Failure? ==> r == ShowMessage("Error: " + ShowNullable(outcome.error.message))
  {
    match outcome
    case Success(Some(body)) =>
      (match AsInt(body, "userId")
       case Some(userId) => OpenResetScreen(userId)
       case None => ShowMessage(AsString(body, "message").GetOr("Invalid credentials")))
    // the error body of a 2xx response is always null
    case Success(None) => ShowMessage("Unknown error")
    case NonSuccess(_, _) => ShowMessage("Invalid username or email")
    case Failure(e) => ShowMessage("Error: " + ShowNullable(e.message))
  }

  /** Only a 2xx answer can open the reset screen. */
  lemma OnlySuccessNavigates(outcome: Outcome<map<string, Json>>)
    requires !outcome.Success?
    ensures ForgotReaction(outcome).ShowMessage?
  {
  }

  class ForgotPasswordScreen {
    var username: string
    var email: string
    var isLoading: bool

    constructor ()
      ensures username == "" && email == "" && !isLoading
    {
      username := "";
      email := "";
      isLoading := false;
    }

    /**
     * The Verify button, composed only while no request is outstanding: with a blank field
     * nothing is sent; otherwise the request is sent and the screen shows the spinner.
     */
    method ClickVerify() returns (request: Option<map<string, string>>)
      requires !isLoading
      modifies this
      ensures username == old(username) && email == old(email)
      ensures !FieldsFilled(username, email) ==> request.None? && !isLoading
      ensures FieldsFilled(username, email) ==> request == Some(VerifyBody(username, email)) && isLoading
    {
      if IsBlank(username) || IsBlank(email) {
        return None;
      }
      isLoading := true;
      request := Some(VerifyBody(username, email));
    }

    /** Any answer or failure clears the spinner; the reaction depends on the outcome alone. */
    method OnVerifyResponse(outcome: Outcome<map<string, Json>>) returns (reaction: Reaction)
      modifies this
      ensures username == old(username) && email == old(email) && !isLoading
      ensures reaction == ForgotReaction(outcome)
    {
      isLoading := false;
      reaction := ForgotReaction(outcome);
    }
  }
}
