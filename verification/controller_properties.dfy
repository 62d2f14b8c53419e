/** Properties that tie the account and message controllers to each other. */
module ControllerProperties {
  import opened Options
  import opened Strings
  import opened Seqs
  import opened Protocol
  import opened Controllers

  /** Signing up and then logging in with the same password succeeds, and the session carries
      the id of the user just created, provided bcrypt accepts a password against its own digest. */
  lemma LogInAfterSignUp(db: Store, username: string, email: string, password: string,
                         hash: string -> Digest, compare: (string, Digest) -> bool, newId: UserId)
    requires SignUp(db, username, email, password, hash, newId).1.Success?
    requires compare(password, hash(password))
    ensures LogIn(SignUp(db, username, email, password, hash, newId).0, username, password, compare)
         == Success(200, "User logged successfully!", Session(username, email, hash(password), newId))
  {
    var db' := SignUp(db, username, email, password, hash, newId).0;
    var user := User(newId, username, email, hash(password));
    assert db'.users == db.users + [user];
    var found := FindByUsername(db', username);
    assert db'.users[|db.users|] == user;
    assert found.Some?;
    var i :| 0 <= i < |db'.users| && db'.users[i] == found.value && db'.users[i].username == username;
    assert forall k :: 0 <= k < |db.users| ==> db'.users[k] == db.users[k];
    assert i == |db.users|;
  }

  /** Once a username has signed up, signing up with it again is refused for the username. */
  lemma UsernameTakenAfterSignUp(db: Store, username: string, email: string, email2: string,
                                 password: string, password2: string,
                                 hash: string -> Digest, newId: UserId, newId2: UserId)
    requires SignUp(db, username, email, password, hash, newId).1.Success?
    ensures SignUp(SignUp(db, username, email, password, hash, newId).0, username, email2, password2, hash, newId2)
         == (SignUp(db, username, email, password, hash, newId).0,
             Failure(401, Some("username"), "Username already exist!"))
  {
    var db' := SignUp(db, username, email, password, hash, newId).0;
    assert db'.users[|db.users|].username == username;
  }

  /** Both participants of a conversation are shown the same messages in the same order. */
  lemma ConversationSymmetric(ms: seq<Message>, a: UserId, b: UserId)
    ensures Conversation(ms, a, b) == Conversation(ms, b, a)
  {
    FilterAgree((m: Message) => Between(m, a, b), (m: Message) => Between(m, b, a), ms);
  }

  /** A message newer than every stored one lands at the end of its conversation, after the
      conversation as it was before. */
  lemma NewestMessageComesLast(ms: seq<Message>, m: Message, a: UserId, b: UserId)
    requires Between(m, a, b)
    requires forall i :: 0 <= i < |ms| ==> ms[i].createdAt <= m.createdAt
    ensures Conversation(ms + [m], a, b) == Conversation(ms, a, b) + [m]
  {
    var p := (x: Message) => Between(x, a, b);
    var f := Filter(p, ms);
    FilterAppendOne(p, ms, m);
    assert forall x :: x in multiset(f) ==> x in ms;
    SortAppendNewest(f, m);
  }

  lemma FilterAppendOne(p: Message -> bool, ms: seq<Message>, m: Message)
    requires p(m)
    ensures Filter(p, ms + [m]) == Filter(p, ms) + [m]
  {
    FilterAppend(p, ms, [m]);
    assert [m][1..] == [];
  }

  /** Sorting a sequence extended by a message no older than any of its elements leaves that
      message last. */
  lemma SortAppendNewest(f: seq<Message>, m: Message)
    requires forall x :: x in multiset(f) ==> x.createdAt <= m.createdAt
    ensures SortByCreation(f + [m]) == SortByCreation(f) + [m]
  {
    assert (f + [m])[..|f|] == f;
    var t := SortByCreation(f);
    if t != [] {
      assert t[|t| - 1] in multiset(t);
    }
  }

  /** The reply to a successful upload shows the file message exactly as the history endpoint
      will later serve it to the sender. */
  lemma UploadShownInHistory(db: Store, file: Option<UploadedFile>, senderId: Option<string>,
                             receiverId: Option<string>, time: string, now: nat, newId: string,
                             serverUrl: string)
    requires UploadFile(db, file, senderId, receiverId, time, now, newId, serverUrl).1.Success?
    ensures var (db', reply) := UploadFile(db, file, senderId, receiverId, time, now, newId, serverUrl);
      reply.data in ShowMessage(db', senderId.value, receiverId.value, serverUrl)
  {
    var (db', reply) := UploadFile(db, file, senderId, receiverId, time, now, newId, serverUrl);
    var saved := db'.messages[|db.messages|];
    var a, b := senderId.value, receiverId.value;
    assert Between(saved, a, b);
    var h := Conversation(db'.messages, a, b);
    assert saved in multiset(db'.messages);
    assert saved in multiset(h);
    var i :| 0 <= i < |h| && h[i] == saved;
    StartsWithPrefix(UploadsPath, "/" + file.value.filename);
    assert IsUploadPath(saved.fileUrl);
    var r := ShowMessage(db', a, b, serverUrl);
    assert r[i] == reply.data;
  }
}
