/** The two account routes, `POST /signup` and `POST /login`: a validator followed by a
    controller. The first reply sent is the one the client receives. A later reply from the same
    request throws inside the controller because the headers are already sent; whatever the
    controller saved before that stays saved. The rest of that failure is not modelled. */
module Routes {
  import opened Options
  import opened Protocol
  import opened Controllers
  import opened Validation

  /** A signup request whose three fields were all sent as strings. */
  datatype SignUpRequest = SignUpRequest(username: string, email: string, password: string)

  function SignUpFields(req: SignUpRequest): SignUpBody {
    SignUpBody(Some(req.username), Some(req.email), Some(req.password))
  }

  /** The validator's 401 reply, retyped as the route's reply. */
  function Rejected(e: FieldError): Reply<User> {
    Failure(401, Some(e.field), e.message)
  }

  /** Every stored account would pass the signup rules on username length and email form. */
  ghost predicate AcceptedUsers(db: Store, isEmail: string -> bool) {
    forall i :: 0 <= i < |db.users| ==>
      && UsernameMin <= |db.users[i].username| <= UsernameMax
      && db.users[i].email != [] && isEmail(db.users[i].email)
  }

  /** `POST /signup` as written: `signUpValidation` calls `next()` even after replying 401, so
      `signUp` always runs and its save always happens. */
  function SignUpRouteAsWritten(db: Store, req: SignUpRequest, isEmail: string -> bool,
                                hash: string -> Digest, newId: UserId): (r: (Store, Reply<User>))
    ensures r.0 == SignUp(db, req.username, req.email, req.password, hash, newId).0
    ensures ValidateSignUp(SignUpFields(req), isEmail).Some? ==>
      r.1 == Rejected(ValidateSignUp(SignUpFields(req), isEmail).value)
    ensures ValidateSignUp(SignUpFields(req), isEmail).None? ==>
      r == SignUp(db, req.username, req.email, req.password, hash, newId)
  {
    var validation := SignUpValidation(SignUpFields(req), isEmail);
    var (db', reply) := SignUp(db, req.username, req.email, req.password, hash, newId);
    match validation.reply
    case Some(v) => (db', Failure(v.status, v.field, v.message))
    case None => (db', reply)
  }

  /** The defect in general: a request the validator rejects, for a free username and email,
      still creates the account while the client is told it failed. */
  lemma RejectedSignUpStillSaved(db: Store, req: SignUpRequest, isEmail: string -> bool,
                                 hash: string -> Digest, newId: UserId)
    requires ValidateSignUp(SignUpFields(req), isEmail).Some?
    requires !UsernameTaken(db, req.username) && !EmailTaken(db, req.email)
    requires req.username != [] && req.email != []
    ensures var r := SignUpRouteAsWritten(db, req, isEmail, hash, newId);
      && r.1.Failure?
      && r.0.users == db.users + [User(newId, req.username, req.email, hash(req.password))]
  {
  }

  /** A concrete instance: a three-character password is refused with a 401, yet the account
      "bob" is created, so the store no longer satisfies the signup rules' intent and the name
      "bob" is taken from then on. */
  lemma ShortPasswordAccountCreated()
    ensures var r := SignUpRouteAsWritten(Store([], []), SignUpRequest("bob", "bob@mail.test", "abc"),
                                          (e: string) => true, (p: string) => Digest("digest"), "u1");
      && r.1 == Failure(401, Some("password"), "Password must be at least 6 characters")
      && r.0.users == [User("u1", "bob", "bob@mail.test", Digest("digest"))]
  {
    var body := SignUpFields(SignUpRequest("bob", "bob@mail.test", "abc"));
    assert CheckUsername(body.username).None?;
    assert CheckEmail(body.email, (e: string) => true).None?;
  }

  /** The as-written route lets an account with a malformed username into a store whose
      accounts all satisfied the rules. */
  lemma AsWrittenAdmitsMalformedAccount()
    ensures var r := SignUpRouteAsWritten(Store([], []), SignUpRequest("al", "al@mail.test", "secret1"),
                                          (e: string) => true, (p: string) => Digest("digest"), "u1");
      AcceptedUsers(Store([], []), (e: string) => true) && !AcceptedUsers(r.0, (e: string) => true)
  {
    var r := SignUpRouteAsWritten(Store([], []), SignUpRequest("al", "al@mail.test", "secret1"),
                                  (e: string) => true, (p: string) => Digest("digest"), "u1");
    assert r.0.users[0].username == "al";
  }

  /** `POST /signup` as evidently intended: the validator's rejection ends the request, so the
      controller runs only on a valid body, and every account in the store keeps satisfying the
      signup rules. */
  function SignUpRoute(db: Store, req: SignUpRequest, isEmail: string -> bool,
                       hash: string -> Digest, newId: UserId): (r: (Store, Reply<User>))
    ensures ValidateSignUp(SignUpFields(req), isEmail).Some? ==>
      r == (db, Rejected(ValidateSignUp(SignUpFields(req), isEmail).value))
    ensures r.0 != db ==> ValidateSignUp(SignUpFields(req), isEmail).None? && r.1.Success?
    ensures ValidateSignUp(SignUpFields(req), isEmail).None? ==>
      r == SignUp(db, req.username, req.email, req.password, hash, newId)
    ensures AcceptedUsers(db, isEmail) ==> AcceptedUsers(r.0, isEmail)
  {
    match ValidateSignUp(SignUpFields(req), isEmail)
    case Some(e) => (db, Rejected(e))
    case None =>
      SignUp(db, req.username, req.email, req.password, hash, newId)
  }

  /** A login request whose two fields were sent as strings. */
  datatype LogInRequest = LogInRequest(username: string, password: string)

  /** `POST /login` as written: `logIn` also runs after a validation error. It saves nothing,
      and its own attempt to reply throws because the headers are already sent, so the reply the
      client receives is the validator's. */
  function LogInRoute(db: Store, req: LogInRequest, compare: (string, Digest) -> bool): (r: Reply<Session>)
    ensures ValidateLogIn(LogInBody(Some(req.username), Some(req.password))).Some? ==>
      var e := ValidateLogIn(LogInBody(Some(req.username), Some(req.password))).value;
      r == Failure(401, Some(e.field), e.message)
    ensures ValidateLogIn(LogInBody(Some(req.username), Some(req.password))).None? ==>
      r == LogIn(db, req.username, req.password, compare)
  {
    var validation := LogInValidation(LogInBody(Some(req.username), Some(req.password)));
    var reply := LogIn(db, req.username, req.password, compare);
    match validation.reply
    case Some(v) => Failure(v.status, v.field, v.message)
    case None => reply
  }
}
