/** The Express controllers for accounts and messages, over an in-memory store standing in for
    the MongoDB collections. bcrypt is represented by the functions a caller passes in. */
module Controllers {
  import opened Options
  import opened Strings
  import opened Seqs
  import opened Protocol

  const DefaultServerUrl := "http://localhost:5000"

  /** `process.env.SERVER_URL || "http://localhost:5000"`: an unset or empty variable falls back
      to the default. */
  function ServerUrl(env: Option<string>): (r: string)
    ensures env.Some? && env.value != [] ==> r == env.value
    ensures env.None? || env.value == [] ==> r == DefaultServerUrl
  {
    if env.Some? && env.value != [] then env.value else DefaultServerUrl
  }

  /** A bcrypt digest. Being its own type, a stored password can never be a plaintext one. */
  datatype Digest = Digest(text: string)

  /** A document of the `User` collection. */
  datatype User = User(id: UserId, username: string, email: string, password: Digest)

  /** A document of the `Message` collection; `createdAt` is the Mongoose timestamp. */
  datatype Message = Message(
    id: string,
    message: string,
    senderId: UserId,
    receiverId: UserId,
    fileUrl: Option<string>,
    fileType: Option<string>,
    fileName: Option<string>,
    time: string,
    createdAt: nat)

  datatype Store = Store(users: seq<User>, messages: seq<Message>)

  /** The unique indexes of the `User` schema (username, email) and of `_id`. */
  ghost predicate ValidStore(db: Store) {
    forall i, j :: 0 <= i < j < |db.users| ==>
      && db.users[i].username != db.users[j].username
      && db.users[i].email != db.users[j].email
      && db.users[i].id != db.users[j].id
  }

  predicate UsernameTaken(db: Store, username: string) {
    exists i :: 0 <= i < |db.users| && db.users[i].username == username
  }

  predicate EmailTaken(db: Store, email: string) {
    exists i :: 0 <= i < |db.users| && db.users[i].email == email
  }

  predicate IdTaken(db: Store, id: UserId) {
    exists i :: 0 <= i < |db.users| && db.users[i].id == id
  }

  /** `userModel.findOne({ username })` */
  function FindByUsername(db: Store, username: string): (r: Option<User>)
    ensures r.None? <==> !UsernameTaken(db, username)
    ensures r.Some? ==> r.value in db.users && r.value.username == username
  {
    FindFirst((u: User) => u.username == username, db.users)
  }

  /** `userModel.findOne({ email })` */
  function FindByEmail(db: Store, email: string): (r: Option<User>)
    ensures r.None? <==> !EmailTaken(db, email)
  {
    FindFirst((u: User) => u.email == email, db.users)
  }

  /** The `User` schema's `required` check on `username` and `email`, which Mongoose applies
      when saving: an empty string fails it. */
  predicate PassesUserSchema(username: string, email: string) {
    username != [] && email != []
  }

  /** The reply of `signUp`'s `catch` when `save()` throws a validation error. The model does
      not reproduce Mongoose's exact error text. */
  const SaveRejectedMessage := "User validation failed"

  /** `signUp`: a taken username is refused first, without looking at the email; then a taken
      email. Otherwise `save()` runs: an empty username or email fails the schema, `save()`
      throws and the `catch` replies 404 with nothing stored; else one new user is saved,
      holding the digest of the password. `hash` is `bcrypt.hash(·, 10)` and `newId` the `_id`
      MongoDB assigns. */
  function SignUp(db: Store, username: string, email: string, password: string,
                  hash: string -> Digest, newId: UserId): (r: (Store, Reply<User>))
    ensures UsernameTaken(db, username) ==>
      r == (db, Failure(401, Some("username"), "Username already exist!"))
    ensures !UsernameTaken(db, username) && EmailTaken(db, email) ==>
      r == (db, Failure(401, Some("email"), "User email already exist!"))
    ensures !UsernameTaken(db, username) && !EmailTaken(db, email) && !PassesUserSchema(username, email) ==>
      r == (db, Failure(404, None, SaveRejectedMessage))
    ensures r.1.Failure? ==> r.0 == db
    ensures r.1.Success? <==>
      !UsernameTaken(db, username) && !EmailTaken(db, email) && PassesUserSchema(username, email)
    ensures r.1.Success? ==>
      && r.0 == Store(db.users + [r.1.data], db.messages)
      && r.1.data == User(newId, username, email, hash(password))
    ensures ValidStore(db) && !IdTaken(db, newId) ==> ValidStore(r.0)
  {
    if FindByUsername(db, username).Some? then
      (db, Failure(401, Some("username"), "Username already exist!"))
    else if FindByEmail(db, email).Some? then
      (db, Failure(401, Some("email"), "User email already exist!"))
    else if !PassesUserSchema(username, email) then
      (db, Failure(404, None, SaveRejectedMessage))
    else
      var user := User(newId, username, email, hash(password));
      (Store(db.users + [user], db.messages), Success(200, "signup successfully!", user))
  }

  /** The `data` of a successful `logIn`. */
  datatype Session = Session(username: string, email: string, password: Digest, userId: UserId)

  /** `logIn`: an unknown username is refused, then a password that does not match the stored
      digest (`compare` is `bcrypt.compare`); otherwise the stored user's id is returned. */
  function LogIn(db: Store, username: string, password: string,
                 compare: (string, Digest) -> bool): (r: Reply<Session>)
    ensures !UsernameTaken(db, username) ==>
      r == Failure(401, Some("username"), "Username not exist!")
    ensures r.Failure? && r.field == Some("password") ==>
      exists u :: u in db.users && u.username == username && !compare(password, u.password)
    ensures r.Success? ==>
      exists u :: u in db.users && u.username == username && compare(password, u.password)
        && r.data == Session(u.username, u.email, u.password, u.id)
    ensures r.Failure? ==> r.field.Some?
    ensures ValidStore(db) ==> forall u :: u in db.users && u.username == username ==>
      && (r.Success? <==> compare(password, u.password))
      && (!compare(password, u.password) ==> r == Failure(404, Some("password"), "Invalid password!"))
  {
    UsernamesIdentify(db);
    match FindByUsername(db, username)
    case None => Failure(401, Some("username"), "Username not exist!")
    case Some(u) =>
      if !compare(password, u.password) then Failure(404, Some("password"), "Invalid password!")
      else Success(200, "User logged successfully!", Session(u.username, u.email, u.password, u.id))
  }

  /** Under the unique index on `username`, a name picks out at most one stored user. */
  lemma UsernamesIdentify(db: Store)
    ensures ValidStore(db) ==>
      forall u, v :: u in db.users && v in db.users && u.username == v.username ==> u == v
  {
    if ValidStore(db) {
      forall u, v | u in db.users && v in db.users && u.username == v.username
        ensures u == v
      {
        var i :| 0 <= i < |db.users| && db.users[i] == u;
        var j :| 0 <= j < |db.users| && db.users[j] == v;
        assert !(i < j) && !(j < i);
      }
    }
  }

  /** A message belongs to the conversation between `a` and `b`, in either direction. */
  predicate Between(m: Message, a: UserId, b: UserId) {
    (m.senderId == a && m.receiverId == b) || (m.senderId == b && m.receiverId == a)
  }

  predicate SortedByCreation(ms: seq<Message>) {
    forall i, j :: 0 <= i < j < |ms| ==> ms[i].createdAt <= ms[j].createdAt
  }

  /** Places `m` after every message of `ms` created no later than it. */
  function InsertByCreation(ms: seq<Message>, m: Message): (r: seq<Message>)
    requires SortedByCreation(ms)
    ensures SortedByCreation(r)
    ensures multiset(r) == multiset(ms) + multiset{m}
  {
    if ms == [] then [m]
    else if ms[|ms| - 1].createdAt <= m.createdAt then ms + [m]
    else
      var front := ms[..|ms| - 1];
      var last := ms[|ms| - 1];
      assert ms == front + [last];
      var r := InsertByCreation(front, m);
      NoneLaterThanLast(ms, m, r);
      AppendLatest(r, last);
      r + [last]
  }

  /** After inserting `m` into all but the last message of a sorted `ms`, where `m` is older
      than that last message, nothing in the result is newer than it. */
  lemma NoneLaterThanLast(ms: seq<Message>, m: Message, r: seq<Message>)
    requires SortedByCreation(ms) && ms != []
    requires m.createdAt < ms[|ms| - 1].createdAt
    requires multiset(r) == multiset(ms[..|ms| - 1]) + multiset{m}
    ensures forall i :: 0 <= i < |r| ==> r[i].createdAt <= ms[|ms| - 1].createdAt
  {
    forall i | 0 <= i < |r| ensures r[i].createdAt <= ms[|ms| - 1].createdAt {
      assert r[i] in multiset(r);
      if r[i] != m {
        assert r[i] in multiset(ms[..|ms| - 1]);
        var k :| 0 <= k < |ms| - 1 && ms[..|ms| - 1][k] == r[i];
        assert ms[k] == r[i];
      }
    }
  }

  lemma AppendLatest(r: seq<Message>, last: Message)
    requires SortedByCreation(r)
    requires forall i :: 0 <= i < |r| ==> r[i].createdAt <= last.createdAt
    ensures SortedByCreation(r + [last])
  {
  }

  /** `.sort({ createdAt: 1 })`, stable: messages created at the same instant keep their order. */
  function SortByCreation(ms: seq<Message>): (r: seq<Message>)
    ensures SortedByCreation(r)
    ensures multiset(r) == multiset(ms)
  {
    if ms == [] then []
    else
      assert ms == ms[..|ms| - 1] + [ms[|ms| - 1]];
      InsertByCreation(SortByCreation(ms[..|ms| - 1]), ms[|ms| - 1])
  }

  /** The raw result of the `showMessage` query: the messages between `a` and `b`, oldest first. */
  function Conversation(ms: seq<Message>, a: UserId, b: UserId): (r: seq<Message>)
    ensures SortedByCreation(r)
    ensures forall m :: multiset(r)[m] == if Between(m, a, b) then multiset(ms)[m] else 0
    ensures multiset(r) == multiset(Filter((m: Message) => Between(m, a, b), ms))
  {
    SortByCreation(Filter((m: Message) => Between(m, a, b), ms))
  }

  /** The rewrite of `showMessage`'s `map`: each stored `/uploads...` file URL gets the server's
      base URL in front; nothing else in any message changes. */
  function WithServerUrl(serverUrl: string, ms: seq<Message>): (r: seq<Message>)
    ensures |r| == |ms|
    ensures forall i :: 0 <= i < |r| ==> r[i].(fileUrl := ms[i].fileUrl) == ms[i]
    ensures forall i :: 0 <= i < |r| && IsUploadPath(ms[i].fileUrl) ==>
              r[i].fileUrl == Some(serverUrl + ms[i].fileUrl.value)
    ensures forall i :: 0 <= i < |r| && !IsUploadPath(ms[i].fileUrl) ==> r[i] == ms[i]
  {
    seq(|ms|, i requires 0 <= i < |ms| => ms[i].(fileUrl := AbsoluteFileUrl(serverUrl, ms[i].fileUrl)))
  }

  /** `showMessage`: exactly the messages between `a` and `b`, in both directions, oldest first,
      each one unchanged except for its file URL. */
  function ShowMessage(db: Store, a: UserId, b: UserId, serverUrl: string): (r: seq<Message>)
    ensures var h := Conversation(db.messages, a, b);
      |r| == |h| && forall i :: 0 <= i < |r| ==> r[i].(fileUrl := h[i].fileUrl) == h[i]
    ensures |r| == |Filter((m: Message) => Between(m, a, b), db.messages)|
    ensures var h := Conversation(db.messages, a, b);
      forall i :: 0 <= i < |r| ==> r[i].fileUrl == AbsoluteFileUrl(serverUrl, h[i].fileUrl)
    ensures SortedByCreation(r)
    ensures forall i :: 0 <= i < |r| ==> Between(r[i], a, b)
  {
    var h := Conversation(db.messages, a, b);
    ConversationMembers(db.messages, a, b);
    assert |multiset(h)| == |multiset(Filter((m: Message) => Between(m, a, b), db.messages))|;
    WithServerUrl(serverUrl, h)
  }

  /** Every message of a conversation is between its two participants. */
  lemma ConversationMembers(ms: seq<Message>, a: UserId, b: UserId)
    ensures forall i :: 0 <= i < |Conversation(ms, a, b)| ==> Between(Conversation(ms, a, b)[i], a, b)
  {
    var h := Conversation(ms, a, b);
    forall i | 0 <= i < |h| ensures Between(h[i], a, b) {
      assert h[i] in multiset(h);
    }
  }

  /** The upload's `fileType`, chosen by the prefix of its MIME type. */
  function FileTypeOf(mimetype: string): (r: string)
    ensures r == "image" <==> StartsWith(mimetype, "image/")
    ensures r == "video" <==> StartsWith(mimetype, "video/")
    ensures r == "audio" <==> StartsWith(mimetype, "audio/")
    ensures r == "document" <==>
      !StartsWith(mimetype, "image/") && !StartsWith(mimetype, "video/") && !StartsWith(mimetype, "audio/")
    ensures r != "other"
  {
    if StartsWith(mimetype, "image/") then "image"
    else if StartsWith(mimetype, "video/") then "video"
    else if StartsWith(mimetype, "audio/") then "audio"
    else "document"
  }

  /** What multer leaves in `req.file`. */
  datatype UploadedFile = UploadedFile(filename: string, originalname: string, mimetype: string)

  /** A multipart field that JavaScript treats as false: absent or empty. */
  predicate Falsy(v: Option<string>) {
    v.None? || v.value == []
  }

  /** `uploadFile`: a missing file is refused first, then a missing sender or receiver; neither
      refusal saves anything. Otherwise one file message is saved with an empty text and the
      relative URL `/uploads/<stored name>`, and the reply shows that URL made absolute.
      `time`, `now` and `newId` are the clock reading and id the database supplies. */
  function UploadFile(db: Store, file: Option<UploadedFile>, senderId: Option<string>,
                      receiverId: Option<string>, time: string, now: nat, newId: string,
                      serverUrl: string): (r: (Store, Reply<Message>))
    ensures file.None? ==> r == (db, Failure(400, None, "No file uploaded"))
    ensures file.Some? && (Falsy(senderId) || Falsy(receiverId)) ==>
      r == (db, Failure(400, None, "Missing senderId or receiverId"))
    ensures r.1.Failure? ==> r.0 == db
    ensures r.1.Success? <==> file.Some? && !Falsy(senderId) && !Falsy(receiverId)
    ensures r.1.Success? ==> |r.0.messages| == |db.messages| + 1
    ensures r.1.Success? && |r.0.messages| == |db.messages| + 1 ==>
      var saved := r.0.messages[|db.messages|];
      && r.0 == Store(db.users, db.messages + [saved])
      && saved.message == []
      && saved.senderId == senderId.value && saved.receiverId == receiverId.value
      && saved.fileUrl == Some(UploadsPath + "/" + file.value.filename)
      && saved.fileType == Some(FileTypeOf(file.value.mimetype))
      && saved.fileName == Some(file.value.originalname)
      && r.1.data == saved.(fileUrl := Some(serverUrl + saved.fileUrl.value))
  {
    match file
    case None => (db, Failure(400, None, "No file uploaded"))
    case Some(f) =>
      if Falsy(senderId) || Falsy(receiverId) then
        (db, Failure(400, None, "Missing senderId or receiverId"))
      else
        var fileUrl := UploadsPath + "/" + f.filename;
        var saved := Message(newId, "", senderId.value, receiverId.value, Some(fileUrl),
                             Some(FileTypeOf(f.mimetype)), Some(f.originalname), time, now);
        (Store(db.users, db.messages + [saved]),
         Success(200, "File uploaded and message saved!", saved.(fileUrl := Some(serverUrl + fileUrl))))
  }
}
