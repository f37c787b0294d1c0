/*
 * The reset-password screen: the user id handed over by the forgot-password screen, the
 * ordered validation of the two typed passwords, the request body and the loading flag.
 */
module ResetPassword {
  import opened KotlinStd
  import opened Remote

  /** `getIntExtra("USER_ID", -1)`. */
  function UserIdFromExtra(extra: Option<int>): (userId: int)
    ensures extra.Some? ==> userId == extra.value
    ensures extra.None? ==> userId == -1
  {
    extra.GetOr(-1)
  }

  const MinPasswordLength: nat := 6

  /**
   * The validation chain: the message of the first failing check (both fields filled, then
   * equal, then at least six UTF-16 units), or None when all pass.
   */
  function ValidateReset(newPassword: string, confirmPassword: string): (message: Option<string>)
    ensures (IsBlank(newPassword) || IsBlank(confirmPassword)) ==> message == Some("Please fill all fields")
    ensures !IsBlank(newPassword) && !IsBlank(confirmPassword) && newPassword != confirmPassword
      ==> message == Some("Passwords don't match")
    ensures !IsBlank(newPassword) && !IsBlank(confirmPassword) && newPassword == confirmPassword
      && Utf16Length(newPassword) < MinPasswordLength
      ==> message == Some("Password must be at least 6 characters")
    ensures message.None? <==>
      !IsBlank(newPassword) && !IsBlank(confirmPassword) && newPassword == confirmPassword
      && Utf16Length(newPassword) >= MinPasswordLength
  {
    if IsBlank(newPassword) || IsBlank(confirmPassword) then Some("Please fill all fields")
    else if newPassword != confirmPassword then Some("Passwords don't match")
    else if Utf16Length(newPassword) < MinPasswordLength then Some("Password must be at least 6 characters")
    else None
  }

  /** A password that passes is at least three characters long even in the worst case of surrogate pairs. */
  lemma AcceptedPasswordLength(newPassword: string, confirmPassword: string)
    requires ValidateReset(newPassword, confirmPassword).None?
    ensures |newPassword| >= MinPasswordLength / 2 && newPassword == confirmPassword
  {
  }

  /** The request body: the user id and the new password; the confirmation is not sent. */
  function ResetBody(userId: int, newPassword: string): (body: map<string, BodyValue>)
    ensures body.Keys == {"userId", "newPassword"}
    ensures body["userId"] == Number(userId) && body["newPassword"] == Text(newPassword)
  {
    map["userId" := Number(userId), "newPassword" := Text(newPassword)]
  }

  datatype Reaction = GoToLogin | ShowMessage(text: string)

  function ResetReaction<T>(outcome: Outcome<T>): (r: Reaction)
    ensures r == GoToLogin <==> outcome.Success?
    ensures outcome.NonSuccess? ==> r == ShowMessage("Failed to reset password")
    ensures outcome.Failure? ==> r == ShowMessage("Error: " + ShowNullable(outcome.error.message))
  {
    match outcome
    case Success(_) => GoToLogin
    case NonSuccess(_, _) => ShowMessage("Failed to reset password")
    case Failure(e) => ShowMessage("Error: " + ShowNullable(e.message))
  }

  class ResetPasswordScreen {
    const userId: int
    var newPassword: string
    var confirmPassword: string
    var isLoading: bool

    constructor (extra: Option<int>)
      ensures userId == UserIdFromExtra(extra)
      ensures newPassword == "" && confirmPassword == "" && !isLoading
    {
      userId := extra.GetOr(-1);
      newPassword := "";
      confirmPassword := "";
      isLoading := false;
    }

    /**
     * The Reset button, composed only while no request is outstanding: a failing check shows
     * its message and sends nothing; otherwise the request is sent and the spinner shown.
     */
    method ClickReset() returns (request: Option<map<string, BodyValue>>, message: Option<string>)
      requires !isLoading
      modifies this
      ensures newPassword == old(newPassword) && confirmPassword == old(confirmPassword)
      ensures message == ValidateReset(newPassword, confirmPassword)
      ensures message.Some? ==> request.None? && !isLoading
      ensures message.None? ==> request == Some(ResetBody(userId, newPassword)) && isLoading
    {
      if IsBlank(newPassword) || IsBlank(confirmPassword) {
        return None, Some("Please fill all fields");
      }
      if newPassword != confirmPassword {
        return None, Some("Passwords don't match");
      }
      if Utf16Length(newPassword) < MinPasswordLength {
        return None, Some("Password must be at least 6 characters");
      }
      isLoading := true;
      request := Some(ResetBody(userId, newPassword));
      message := None;
    }

    /** Any answer or failure clears the spinner; only a 2xx answer leaves for the login screen. */
    method OnResetResponse<T>(outcome: Outcome<T>) returns (reaction: Reaction)
      modifies this
      ensures newPassword == old(newPassword) && confirmPassword == old(confirmPassword) && !isLoading
      ensures reaction == ResetReaction(outcome)
    {
      isLoading := false;
      reaction := ResetReaction(outcome);
    }
  }
}
