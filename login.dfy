/*
 * The login screen: the request body, the decoding of the `user` object in a 2xx answer,
 * the two session writes it makes, and the routing by role.
 */
module Login {
  import opened KotlinStd
  import opened Remote
  import opened Session

  /** Role 1 is an administrator; any other role is an ordinary user. */
  const AdminRole: int := 1

  datatype Route = AdminDashboard | UserDashboard

  /** What the screen does with the answer to a login request. */
  datatype LoginResult =
    | LoggedIn(username: string, role: int, route: Route)
    | UserDataNotFound          // 2xx with a body but no `user` object
    | EmptyResponseBody         // 2xx without a body
    | InvalidCredentials(code: int)
    | Error(message: string)    // transport failure

  /** The request body: exactly the two typed fields. */
  function LoginBody(email: string, password: string): (body: map<string, string>)
    ensures body.Keys == {"email", "password"}
    ensures body["email"] == email && body["password"] == password
  {
    map["email" := email, "password" := password]
  }

  /**
   * `responseBody["user"] as? Map`, then `username` (a string, else "") and `role` (a
   * number truncated to Int, else 0).
   */
  function DecodeUser(body: map<string, Json>): (user: Option<(string, int)>)
    ensures user.Some? <==> "user" in body && body["user"].JObject?
    ensures user.Some? ==> var fields := body["user"].fields;
      && (if "username" in fields && fields["username"].JString?
          then user.value.0 == fields["username"].s
          else user.value.0 == "")
      && (if "role" in fields && fields["role"].JNumber?
          then user.value.1 == DoubleToInt(fields["role"].n)
          else user.value.1 == 0)
      && IsInt32(user.value.1)
  {
    if "user" in body && body["user"].JObject? then
      var fields := body["user"].fields;
      Some((AsString(fields, "username").GetOr(""), AsInt(fields, "role").GetOr(0)))
    else None
  }

  function RouteFor(role: int): (route: Route)
    ensures route == AdminDashboard <==> role == AdminRole
    ensures route == UserDashboard <==> role != AdminRole
  {
    if role == AdminRole then AdminDashboard else UserDashboard
  }

  /** The reaction to every possible outcome of the login request. */
  function LoginReaction(outcome: Outcome<map<string, Json>>): (r: LoginResult)
    ensures r.LoggedIn? <==> outcome.Success? && outcome.body.Some? && DecodeUser(outcome.body.value).Some?
    ensures r.LoggedIn? ==> (r.username, r.role) == DecodeUser(outcome.body.value).value
    ensures r.LoggedIn? ==> r.route == RouteFor(r.role)
    ensures r == EmptyResponseBody <==> outcome == Success(None)
    ensures r.InvalidCredentials? <==> outcome.NonSuccess?
    ensures r.Error? <==> outcome.Failure?
    ensures r.Error? ==> r.message == "Error: " + ShowNullable(outcome.error.message)
  {
    match outcome
    case Success(None) => EmptyResponseBody
    case Success(Some(body)) =>
      (match DecodeUser(body)
       case Some((username, role)) => LoggedIn(username, role, RouteFor(role))
       case None => UserDataNotFound)
    case NonSuccess(code, _) => InvalidCredentials(code)
    case Failure(e) => Error("Error: " + ShowNullable(e.message))
  }

  /** A user object with a numeric role of exactly 1.0 routes to the admin dashboard. */
  lemma AdminRoleRoutesToAdmin(body: map<string, Json>)
    requires "user" in body && body["user"].JObject?
    requires "role" in body["user"].fields && body["user"].fields["role"] == JNumber(1.0)
    ensures LoginReaction(Success(Some(body))).LoggedIn?
    ensures LoginReaction(Success(Some(body))).route == AdminDashboard
  {
    assert DoubleToInt(1.0) == 1;
  }

  /** A user object without a usable role logs in as an ordinary user. */
  lemma MissingRoleRoutesToUser(body: map<string, Json>)
    requires "user" in body && body["user"].JObject?
    requires "role" !in body["user"].fields || !body["user"].fields["role"].JNumber?
    ensures LoginReaction(Success(Some(body))).LoggedIn?
    ensures LoginReaction(Success(Some(body))).role == 0
    ensures LoginReaction(Success(Some(body))).route == UserDashboard
  {
  }

  class LoginScreen {
    var email: string
    var password: string
    const session: FeedbackSession

    constructor (session: FeedbackSession)
      ensures email == "" && password == "" && this.session == session
    {
      email := "";
      password := "";
      this.session := session;
    }

    /** The Login button: the body sent with the login request. */
    method ClickLogin() returns (body: map<string, string>)
      ensures body == LoginBody(email, password)
    {
      body := LoginBody(email, password);
    }

    /**
     * The answer to the login request: only a 2xx answer carrying a `user` object writes the
     * session, and then only the username and the role.
     */
    method OnLoginResponse(outcome: Outcome<map<string, Json>>) returns (result: LoginResult)
      modifies session
      ensures result == LoginReaction(outcome)
      ensures result.LoggedIn? ==>
        session.State() == old(session.State()).(currentUsername := Some(result.username),
                                                 userRole := Some(result.role))
      ensures !result.LoggedIn? ==> session.State() == old(session.State())
    {
      result := LoginReaction(outcome);
      if result.LoggedIn? {
        session.currentUsername := Some(result.username);
        session.userRole := Some(result.role);
      }
    }
  }
}
