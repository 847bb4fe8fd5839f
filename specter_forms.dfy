/** The jokes board: the sign-in, sign-up and joke forms with their error
    maps, the cookie session that records who is signed in, and the
    middleware that guards the routes needing a signed-in user. */
module SpecterForms {
  import opened Text
  import opened Wrappers

  /** Passwords need at least this many bytes (`len` counts UTF-8 bytes). */
  const MinPasswordBytes := 6

  const EmptyLogin := "Empty login "
  const EmptyPassword := "Empty password "
  const PasswordTooShort := "Password too short "
  const RepeatMismatch := "Repeat password not match "
  const NotCorrect := "Login or Password is not correct"
  const EmptyName := "Empty Name "
  const EmptyContent := "Empty Content "

  // ---------------------------------------------------------------------
  // Session

  /** A value stored in the cookie session; the type assertions of the
      handlers tell booleans and strings apart from anything else. */
  datatype SessionValue = BoolValue(b: bool) | StringValue(s: string) | OtherValue

  const AuthenticatedKey := "authenticated"
  const LoginKey := "login"

  /** The session of one request ("cookie-name"), whose values the handlers
      update before saving it. */
  class Session {
    var values: map<string, SessionValue>

    constructor (values: map<string, SessionValue>)
      ensures this.values == values
    {
      this.values := values;
    }
  }

  /** isSignIn: the "authenticated" value is the boolean true. */
  predicate IsSignIn(values: map<string, SessionValue>)
  {
    AuthenticatedKey in values && values[AuthenticatedKey] == BoolValue(true)
  }

  /** getLogin: the stored login when it is a non-empty string, else "". */
  function GetLogin(values: map<string, SessionValue>): (login: string)
    ensures login != "" <==>
      LoginKey in values && values[LoginKey].StringValue? && values[LoginKey].s != ""
    ensures login != "" ==> values[LoginKey] == StringValue(login)
  {
    if LoginKey in values && values[LoginKey].StringValue? && values[LoginKey].s != "" then
      values[LoginKey].s
    else
      ""
  }

  /** The session values after a successful sign-in or sign-up. */
  function SignedInValues(values: map<string, SessionValue>, login: string): (r: map<string, SessionValue>)
    ensures IsSignIn(r) && LoginKey in r && r[LoginKey] == StringValue(login)
    ensures r.Keys == values.Keys + {AuthenticatedKey, LoginKey}
    ensures forall k :: k in values && k != AuthenticatedKey && k != LoginKey ==> r[k] == values[k]
  {
    values[AuthenticatedKey := BoolValue(true)][LoginKey := StringValue(login)]
  }

  /** The session values after signing out: only "authenticated" changes. */
  function SignedOutValues(values: map<string, SessionValue>): (r: map<string, SessionValue>)
    ensures !IsSignIn(r)
    ensures r.Keys == values.Keys + {AuthenticatedKey}
    ensures forall k :: k in values && k != AuthenticatedKey ==> r[k] == values[k]
  {
    values[AuthenticatedKey := BoolValue(false)]
  }

  /** After signing in with a login, the session is signed in as that login. */
  lemma SignInIsRemembered(values: map<string, SessionValue>, login: string)
    requires login != ""
    ensures IsSignIn(SignedInValues(values, login))
    ensures GetLogin(SignedInValues(values, login)) == login
  {
    assert AuthenticatedKey != LoginKey;
  }

  /** Signing out ends the signed-in state but leaves the stored login in the
      session, so `getLogin` still returns it. */
  lemma SignOutKeepsLogin(values: map<string, SessionValue>)
    ensures !IsSignIn(SignedOutValues(values))
    ensures GetLogin(SignedOutValues(values)) == GetLogin(values)
  {
    assert AuthenticatedKey != LoginKey;
    assert LoginKey in SignedOutValues(values) <==> LoginKey in values;
    if LoginKey in values {
      assert SignedOutValues(values)[LoginKey] == values[LoginKey];
    }
  }

  /** signOutHandler's session update (the page it renders is left out). */
  method SignOut(session: Session)
    modifies session
    ensures session.values == SignedOutValues(old(session.values))
  {
    session.values := session.values[AuthenticatedKey := BoolValue(false)];
  }

  // ---------------------------------------------------------------------
  // Responses

  datatype Response =
    | Rendered(errors: map<string, string>, success: bool) // the form page, with its error map
    | ServerError(message: string)                         // 500 Internal Server Error
    | HxRedirect(location: string)                         // an HX-Redirect header for htmx
    | Found(location: string)                              // 302 Found

  /** The redirect a successful sign-in sends: htmx follows a header, a plain
      browser a 302. */
  function RedirectFor(hx: bool, location: string): (r: Response)
    ensures r.HxRedirect? <==> hx
    ensures r.HxRedirect? || r.Found?
    ensures (r.HxRedirect? && r.location == location) || (r.Found? && r.location == location)
  {
    if hx then HxRedirect(location) else Found(location)
  }

  // ---------------------------------------------------------------------
  // Sign in

  predicate SignInAccepted(login: string, password: string)
  {
    login != "" && Utf8Length(password) >= MinPasswordBytes
  }

  /** What the sign-in error map holds: a login error exactly when the login
      is empty, a password error exactly when the password is short. */
  predicate SignInReport(errors: map<string, string>, login: string, password: string)
  {
    && errors.Keys <= {"login", "password"}
    && ("login" in errors <==> login == "")
    && ("password" in errors <==> Utf8Length(password) < MinPasswordBytes)
    && ("login" in errors ==> errors["login"] == EmptyLogin)
    && ("password" in errors ==> errors["password"] == PasswordTooShort)
  }

  /** The validation branch of signInHandler.  The "Empty password " message
      is always overwritten, since an empty password is also too short. */
  method SignInErrors(login: string, password: string) returns (errors: map<string, string>)
    ensures SignInReport(errors, login, password)
    ensures EmptyPassword !in errors.Values
  {
    errors := map[];
    if login == "" || password == "" || Utf8Length(password) < MinPasswordBytes {
      if login == "" {
        errors := errors["login" := EmptyLogin];
      }
      if password == "" {
        errors := errors["password" := EmptyPassword];
      }
      if Utf8Length(password) < MinPasswordBytes {
        errors := errors["password" := PasswordTooShort];
      }
    }
  }

  /** The form is refused, and some error shown, exactly when the login is
      empty or the password is under six bytes. */
  lemma SignInReportEmptyIff(errors: map<string, string>, login: string, password: string)
    requires SignInReport(errors, login, password)
    ensures errors == map[] <==> SignInAccepted(login, password)
  {
    if !SignInAccepted(login, password) {
      assert "login" in errors || "password" in errors;
    }
  }

  /** Six bytes, not six runes: three two-byte runes make a long enough
      password, five ASCII runes do not. */
  lemma PasswordLengthInBytes()
    ensures SignInAccepted("u", "ééé")
    ensures !SignInAccepted("u", "abcde")
  {
    assert "ééé"[1..] == "éé";
    assert "éé"[1..] == "é";
    assert "abcde"[1..] == "bcde";
    assert "bcde"[1..] == "cde";
    assert "cde"[1..] == "de";
    assert "de"[1..] == "e";
  }

  /** The user lookup `First(&user, "login = ?", login)`. */
  datatype Lookup = Lookup(err: Option<string>, rowsAffected: int, passwordHash: string)

  /** signInHandler without the template rendering.  `users` is the lookup by
      login and `compare` bcrypt's hash comparison (an error on mismatch). */
  method SignIn(session: Session, isPost: bool, login: string, password: string, hx: bool,
                users: string -> Lookup, compare: (string, string) -> Option<string>)
    returns (resp: Response)
    modifies session
    ensures !isPost ==> resp == Rendered(map[], false) && session.values == old(session.values)
    ensures isPost && !SignInAccepted(login, password) ==>
      resp.Rendered? && !resp.success && SignInReport(resp.errors, login, password) &&
      session.values == old(session.values)
    ensures isPost && SignInAccepted(login, password) ==> (
      var found := users(login);
      if found.err.Some? && found.rowsAffected != 0 then
        resp == ServerError(found.err.value) && session.values == old(session.values)
      else if found.rowsAffected <= 0 then
        resp == Rendered(map["recordNotFound" := NotCorrect], false) && session.values == old(session.values)
      else if compare(found.passwordHash, password).Some? then
        resp == ServerError(compare(found.passwordHash, password).value) &&
        session.values == old(session.values)
      else
        resp == RedirectFor(hx, "/jokes") && session.values == SignedInValues(old(session.values), login))
  {
    var errors: map<string, string> := map[];
    if !isPost {
      return Rendered(errors, false);
    }
    if login == "" || password == "" || Utf8Length(password) < MinPasswordBytes {
      errors := SignInErrors(login, password);
      return Rendered(errors, false);
    }
    var found := users(login);
    if found.err.Some? {
      if found.rowsAffected != 0 {
        return ServerError(found.err.value);
      }
    }
    if found.rowsAffected > 0 {
      var mismatch := compare(found.passwordHash, password);
      if mismatch.Some? {
        return ServerError(mismatch.value);
      }
      session.values := session.values[AuthenticatedKey := BoolValue(true)];
      session.values := session.values[LoginKey := StringValue(login)];
      if hx {
        resp := HxRedirect("/jokes");
      } else {
        resp := Found("/jokes");
      }
      return;
    }
    errors := errors["recordNotFound" := NotCorrect];
    resp := Rendered(errors, false);
  }

  // ---------------------------------------------------------------------
  // Sign up

  predicate SignUpAccepted(login: string, password: string, repeatPassword: string)
  {
    login != "" && password == repeatPassword && Utf8Length(password) >= MinPasswordBytes
  }

  /** One key per failed rule, each with its message. */
  predicate SignUpReport(errors: map<string, string>, login: string, password: string, repeatPassword: string)
  {
    && errors.Keys <= {"login", "password", "repeatPassword"}
    && ("login" in errors <==> login == "")
    && ("password" in errors <==> Utf8Length(password) < MinPasswordBytes)
    && ("repeatPassword" in errors <==> repeatPassword != password)
    && ("login" in errors ==> errors["login"] == EmptyLogin)
    && ("password" in errors ==> errors["password"] == PasswordTooShort)
    && ("repeatPassword" in errors ==> errors["repeatPassword"] == RepeatMismatch)
  }

  /** The validation branch of signUpHandler. */
  method SignUpErrors(login: string, password: string, repeatPassword: string)
    returns (errors: map<string, string>)
    ensures SignUpReport(errors, login, password, repeatPassword)
    ensures EmptyPassword !in errors.Values
  {
    errors := map[];
    if login == "" || password != repeatPassword || Utf8Length(password) < MinPasswordBytes {
      if login == "" {
        errors := errors["login" := EmptyLogin];
      }
      if password == "" {
        errors := errors["password" := EmptyPassword];
      }
      if Utf8Length(password) < MinPasswordBytes {
        errors := errors["password" := PasswordTooShort];
      }
      if repeatPassword != password {
        errors := errors["repeatPassword" := RepeatMismatch];
      }
    }
  }

  lemma SignUpReportEmptyIff(errors: map<string, string>, login: string, password: string, repeatPassword: string)
    requires SignUpReport(errors, login, password, repeatPassword)
    ensures errors == map[] <==> SignUpAccepted(login, password, repeatPassword)
  {
    if !SignUpAccepted(login, password, repeatPassword) {
      assert "login" in errors || "password" in errors || "repeatPassword" in errors;
    }
  }

  /** A sign-up that passes validation also passes sign-in validation. */
  lemma SignUpStricter(login: string, password: string, repeatPassword: string)
    requires SignUpAccepted(login, password, repeatPassword)
    ensures SignInAccepted(login, password)
  {
  }

  /** The row handed to `DB.Create`. */
  datatype User = User(login: string, passwordHash: string)

  /** signUpHandler without the template rendering.  `hash` is bcrypt's
      hashing at cost 8; its error and the insert's error are only printed, so
      the user is created (with an empty hash if hashing failed) and signed in
      regardless.  Nothing checks whether the login is taken. */
  method SignUp(session: Session, httpMethod: string, login: string, password: string,
                repeatPassword: string, hx: bool, hash: string -> Result<string, string>)
    returns (resp: Response, created: Option<User>)
    modifies session
    ensures created.Some? <==> httpMethod == "POST" && SignUpAccepted(login, password, repeatPassword)
    ensures created.Some? ==>
      created.value == User(login, if hash(password).Success? then hash(password).value else "") &&
      session.values == SignedInValues(old(session.values), login)
    ensures created.None? ==> session.values == old(session.values)
    // htmx requests other than GET are redirected once nothing went wrong
    ensures hx && httpMethod != "GET" && (httpMethod != "POST" || SignUpAccepted(login, password, repeatPassword)) ==>
      resp == HxRedirect("/jokes")
    ensures !(hx && httpMethod != "GET" && (httpMethod != "POST" || SignUpAccepted(login, password, repeatPassword))) ==>
      resp.Rendered? && resp.success == created.Some? &&
      (httpMethod == "POST" ==> SignUpReport(resp.errors, login, password, repeatPassword)) &&
      (httpMethod != "POST" ==> resp.errors == map[])
  {
    var errors: map<string, string> := map[];
    var success := false;
    created := None;
    if httpMethod == "POST" {
      if login == "" || password != repeatPassword || Utf8Length(password) < MinPasswordBytes {
        errors := SignUpErrors(login, password, repeatPassword);
        SignUpReportEmptyIff(errors, login, password, repeatPassword);
      } else {
        var hashed := hash(password);
        var passwordHash := if hashed.Success? then hashed.value else "";
        created := Some(User(login, passwordHash));
        success := true;
        session.values := session.values[AuthenticatedKey := BoolValue(true)];
        session.values := session.values[LoginKey := StringValue(login)];
        assert SignUpReport(errors, login, password, repeatPassword);
      }
    }
    if hx && httpMethod != "GET" && errors == map[] {
      return HxRedirect("/jokes"), created;
    }
    resp := Rendered(errors, success);
  }

  // ---------------------------------------------------------------------
  // Posting a joke

  predicate JokeReport(errors: map<string, string>, name: string, content: string)
  {
    && errors.Keys <= {"name", "content"}
    && ("name" in errors <==> name == "")
    && ("content" in errors <==> content == "")
    && ("name" in errors ==> errors["name"] == EmptyName)
    && ("content" in errors ==> errors["content"] == EmptyContent)
  }

  datatype Joke = Joke(name: string, content: string)

  /** jokePostHandler without the template rendering: the joke handed to
      `DB.Create` and the HX-Trigger event, both only for a complete form. */
  method JokePost(name: string, content: string)
    returns (resp: Response, created: Option<Joke>, trigger: Option<string>)
    ensures created.Some? <==> name != "" && content != ""
    ensures created.Some? ==> created.value == Joke(name, content)
    ensures trigger.Some? <==> created.Some?
    ensures trigger.Some? ==> trigger.value == "newJoke"
    ensures resp.Rendered? && resp.success == created.Some?
    ensures JokeReport(resp.errors, name, content)
  {
    var errors: map<string, string> := map[];
    if name == "" {
      errors := errors["name" := EmptyName];
    }
    if content == "" {
      errors := errors["content" := EmptyContent];
    }
    assert JokeReport(errors, name, content);
    JokeReportEmptyIff(errors, name, content);
    if errors != map[] {
      return Rendered(errors, false), None, None;
    }
    created := Some(Joke(name, content));
    trigger := Some("newJoke");
    resp := Rendered(errors, true);
  }

  /** The error map of the joke form is empty exactly when a joke is made. */
  lemma JokeReportEmptyIff(errors: map<string, string>, name: string, content: string)
    requires JokeReport(errors, name, content)
    ensures errors == map[] <==> name != "" && content != ""
  {
    if name == "" { assert "name" in errors; }
    if content == "" { assert "content" in errors; }
  }

  // ---------------------------------------------------------------------
  // Guarding routes

  /** What the middleware does with a request: the response it writes first,
      if any, and whether the wrapped handler runs after it. */
  datatype Guard = Guard(written: Option<Response>, runsHandler: bool)

  /** authMiddleware as written: an htmx request that is not signed in gets an
      HX-Redirect and stops, but a plain request gets a 302 and then falls
      through to the handler, because nothing returns after the redirect. */
  function AuthMiddleware(values: map<string, SessionValue>, hx: bool): (g: Guard)
    ensures g.runsHandler <==> IsSignIn(values) || !hx
    ensures g.written.Some? <==> !IsSignIn(values)
    ensures g.written.Some? ==> g.written.value == RedirectFor(hx, "/signout")
  {
    if !IsSignIn(values) then
      if hx then Guard(Some(HxRedirect("/signout")), false)
      else Guard(Some(Found("/signout")), true)
    else Guard(None, true)
  }

  /** The evidently intended middleware: the routes "need authentication",
      so the handler runs only for a signed-in session. */
  function AuthMiddlewareIntended(values: map<string, SessionValue>, hx: bool): (g: Guard)
    ensures g.runsHandler <==> IsSignIn(values)
    ensures g.written.Some? <==> !IsSignIn(values)
    ensures g.written.Some? ==> g.written.value == RedirectFor(hx, "/signout")
  {
    if !IsSignIn(values) then Guard(Some(RedirectFor(hx, "/signout")), false)
    else Guard(None, true)
  }

  /** A plain browser request with an empty session runs the guarded handler:
      posting the joke form this way creates a joke without signing in. */
  lemma UnauthenticatedRequestReachesHandler()
    ensures !IsSignIn(map[])
    ensures AuthMiddleware(map[], false).runsHandler
    ensures !AuthMiddlewareIntended(map[], false).runsHandler
  {
  }

  /** The two agree on every signed-in session and on every htmx request. */
  lemma MiddlewaresAgree(values: map<string, SessionValue>, hx: bool)
    requires IsSignIn(values) || hx
    ensures AuthMiddleware(values, hx) == AuthMiddlewareIntended(values, hx)
  {
  }

  /** After signing out, the intended middleware refuses the next request. */
  lemma SignedOutIsLockedOut(values: map<string, SessionValue>, hx: bool)
    ensures !AuthMiddlewareIntended(SignedOutValues(values), hx).runsHandler
  {
    SignOutKeepsLogin(values);
  }
}
