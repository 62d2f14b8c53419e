/** The Joi request validators that run before the signup and login controllers. Joi checks the
    schema's keys in order and stops at the first error; within a string key it reports an absent
    value, then an empty one, then the length bounds (or, for the email, the address grammar,
    which is left to the `isEmail` predicate a caller supplies). */
module Validation {
  import opened Options
  import opened Protocol

  /** The first error Joi reports: `error.details[0].path[0]` and `error.details[0].message`. */
  datatype FieldError = FieldError(field: string, message: string)

  /** A request body; a key the client did not send is None. */
  datatype SignUpBody = SignUpBody(username: Option<string>, email: Option<string>, password: Option<string>)
  datatype LogInBody = LogInBody(username: Option<string>, password: Option<string>)

  /** What a validator does: the reply it sends, if any, and whether it calls `next()`. */
  datatype Middleware = Middleware(reply: Option<Reply<()>>, callsNext: bool)

  const UsernameMin := 3
  const UsernameMax := 20
  const PasswordMin := 6
  const PasswordMax := 12

  /** `Joi.string().min(3).max(20).required()` on `username`. The message for a too-short name
      says "at least 4" while the bound is 3. */
  function CheckUsername(v: Option<string>): (r: Option<FieldError>)
    ensures r.None? <==> v.Some? && UsernameMin <= |v.value| <= UsernameMax
    ensures r.Some? ==> r.value.field == "username"
    ensures v.Some? && 0 < |v.value| < UsernameMin ==>
      r == Some(FieldError("username", "Username must be at least 4 characters!"))
  {
    match v
    case None => Some(FieldError("username", "\"username\" is required"))
    case Some(s) =>
      if s == [] then Some(FieldError("username", "Username is required!"))
      else if |s| < UsernameMin then Some(FieldError("username", "Username must be at least 4 characters!"))
      else if |s| > UsernameMax then Some(FieldError("username", "Username must not exceed 20 characters!"))
      else None
  }

  /** `Joi.string().email().required()` on `email`. */
  function CheckEmail(v: Option<string>, isEmail: string -> bool): (r: Option<FieldError>)
    ensures r.None? <==> v.Some? && v.value != [] && isEmail(v.value)
    ensures r.Some? ==> r.value.field == "email"
  {
    match v
    case None => Some(FieldError("email", "\"email\" is required"))
    case Some(s) =>
      if s == [] then Some(FieldError("email", "Email must be required!"))
      else if !isEmail(s) then Some(FieldError("email", "Please enter a valid email address!"))
      else None
  }

  /** `Joi.string().min(6).max(12).required()` on `password`. */
  function CheckPassword(v: Option<string>): (r: Option<FieldError>)
    ensures r.None? <==> v.Some? && PasswordMin <= |v.value| <= PasswordMax
    ensures r.Some? ==> r.value.field == "password"
  {
    match v
    case None => Some(FieldError("password", "\"password\" is required"))
    case Some(s) =>
      if s == [] then Some(FieldError("password", "Password is required"))
      else if |s| < PasswordMin then Some(FieldError("password", "Password must be at least 6 characters"))
      else if |s| > PasswordMax then Some(FieldError("password", "Password must not exceed 12 characters"))
      else None
  }

  /** The first error among checks made in order (`abortEarly`). */
  function FirstError(checks: seq<Option<FieldError>>): (r: Option<FieldError>)
    ensures r.None? <==> forall i :: 0 <= i < |checks| ==> checks[i].None?
    ensures r.Some? ==> exists i :: 0 <= i < |checks| && checks[i] == r
                          && forall j :: 0 <= j < i ==> checks[j].None?
  {
    if checks == [] then None
    else if checks[0].Some? then checks[0]
    else
      var r := FirstError(checks[1..]);
      if r.Some? then
        var i :| 0 <= i < |checks[1..]| && checks[1..][i] == r && forall j :: 0 <= j < i ==> checks[1..][j].None?;
        assert checks[i + 1] == r;
        assert forall j :: 0 < j <= i ==> checks[j] == checks[1..][j - 1];
        r
      else r
  }

  /** The signup schema: username, then email, then password. */
  function ValidateSignUp(body: SignUpBody, isEmail: string -> bool): (r: Option<FieldError>)
    ensures r.None? <==>
      && body.username.Some? && UsernameMin <= |body.username.value| <= UsernameMax
      && body.email.Some? && body.email.value != [] && isEmail(body.email.value)
      && body.password.Some? && PasswordMin <= |body.password.value| <= PasswordMax
    ensures CheckUsername(body.username).Some? ==> r == CheckUsername(body.username)
    ensures CheckUsername(body.username).None? && CheckEmail(body.email, isEmail).Some? ==>
      r == CheckEmail(body.email, isEmail)
    ensures CheckUsername(body.username).None? && CheckEmail(body.email, isEmail).None? ==>
      r == CheckPassword(body.password)
    ensures r.Some? ==> r.value.field in {"username", "email", "password"}
  {
    var checks := [CheckUsername(body.username), CheckEmail(body.email, isEmail), CheckPassword(body.password)];
    assert checks[0] == CheckUsername(body.username);
    assert checks[1] == CheckEmail(body.email, isEmail);
    assert checks[2] == CheckPassword(body.password);
    FirstError(checks)
  }

  /** The login schema: username, then password, with the signup bounds. */
  function ValidateLogIn(body: LogInBody): (r: Option<FieldError>)
    ensures r.None? <==>
      && body.username.Some? && UsernameMin <= |body.username.value| <= UsernameMax
      && body.password.Some? && PasswordMin <= |body.password.value| <= PasswordMax
    ensures CheckUsername(body.username).Some? ==> r == CheckUsername(body.username)
    ensures CheckUsername(body.username).None? ==> r == CheckPassword(body.password)
    ensures r.Some? ==> r.value.field in {"username", "password"}
  {
    var checks := [CheckUsername(body.username), CheckPassword(body.password)];
    assert checks[0] == CheckUsername(body.username);
    assert checks[1] == CheckPassword(body.password);
    FirstError(checks)
  }

  /** The reply a validator sends for its first error. */
  function Rejection(e: FieldError): Reply<()> {
    Failure(401, Some(e.field), e.message)
  }

  /** `signUpValidation`: on an error it replies 401 with the first error, and it calls `next()`
      whether or not it replied. */
  function SignUpValidation(body: SignUpBody, isEmail: string -> bool): (r: Middleware)
    ensures r.callsNext
    ensures r.reply.None? <==> ValidateSignUp(body, isEmail).None?
    ensures r.reply.Some? ==>
      r.reply.value == Failure(401, Some(ValidateSignUp(body, isEmail).value.field),
                                    ValidateSignUp(body, isEmail).value.message)
  {
    match ValidateSignUp(body, isEmail)
    case Some(e) => Middleware(Some(Rejection(e)), true)
    case None => Middleware(None, true)
  }

  /** `logInValidation`: the same control flow over the login schema. */
  function LogInValidation(body: LogInBody): (r: Middleware)
    ensures r.callsNext
    ensures r.reply.None? <==> ValidateLogIn(body).None?
    ensures r.reply.Some? ==>
      r.reply.value == Failure(401, Some(ValidateLogIn(body).value.field), ValidateLogIn(body).value.message)
  {
    match ValidateLogIn(body)
    case Some(e) => Middleware(Some(Rejection(e)), true)
    case None => Middleware(None, true)
  }

  /** Login validation is signup validation without the email: given any acceptable email, the
      two report the same first error for the same username and password. */
  lemma LogInMatchesSignUp(username: Option<string>, email: Option<string>, password: Option<string>,
                           isEmail: string -> bool)
    requires CheckEmail(email, isEmail).None?
    ensures ValidateLogIn(LogInBody(username, password)) == ValidateSignUp(SignUpBody(username, email, password), isEmail)
  {
    var s := [CheckUsername(username), CheckEmail(email, isEmail), CheckPassword(password)];
    assert s[1..][1..] == [CheckPassword(password)];
    var l := [CheckUsername(username), CheckPassword(password)];
    assert l[1..] == [CheckPassword(password)];
  }
}
