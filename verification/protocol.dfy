/** The values exchanged between the browser client and the server: identities, the chat-message
    payload, the Socket.IO events in both directions, and the upload URL convention. */
module Protocol {
  import opened Options
  import opened Strings

  /** A user's database id, as a string. */
  type UserId = string

  /** A Socket.IO connection id. The transport never hands out an empty id, so a registry entry
      holding one is always truthy in JavaScript. */
  type SocketId = s: string | s != [] witness "0"

  /** An opaque WebRTC session description or ICE candidate, routed without being read. */
  type Blob = string

  /** The `sendMsg` / `shareMsg` payload. Text messages carry only the first three fields; file
      messages also carry the attachment fields. */
  datatype ChatPayload = ChatPayload(
    senderId: UserId,
    receiverId: UserId,
    message: string,
    fileUrl: Option<string>,
    fileType: Option<string>,
    fileName: Option<string>,
    time: Option<string>)

  /** Events a client sends to the server. `Unhandled` stands for any event name the server has
      no handler for (the client's stray `userId` emit among them). */
  datatype Inbound =
    | AddUser(userId: UserId)
    | SendMsg(data: ChatPayload)
    | CallUser(fromUserId: UserId, toUserId: UserId, offer: Blob)
    | AnswerCall(fromUserId: UserId, toUserId: UserId, answer: Blob)
    | IceCandidate(fromUserId: UserId, toUserId: UserId, candidate: Blob)
    | EndCall(fromUserId: UserId, toUserId: UserId)
    | Disconnect
    | Unhandled(name: string)

  /** Events the server sends to clients. */
  datatype Outbound =
    | OnlineUsers(userIds: set<UserId>)
    | ShareMsg(data: ChatPayload)
    | IncomingCall(fromUserId: UserId, offer: Blob)
    | CallAnswered(fromUserId: UserId, answer: Blob)
    | IceCandidate(fromUserId: UserId, candidate: Blob)
    | CallEnded(fromUserId: UserId)
    | CallUnavailable(toUserId: UserId, message: string)

  /** The JSON body of an HTTP reply: `{success: true, message, data}` or
      `{success: false, field?, message}`, with the status code sent alongside. */
  datatype Reply<T> =
    | Success(status: nat, message: string, data: T)
    | Failure(status: nat, field: Option<string>, message: string)

  /** Uploaded files are served under this path of the HTTP server. */
  const UploadsPath := "/uploads"

  /** A stored file URL that points into the server's upload directory. */
  predicate IsUploadPath(url: Option<string>) {
    url.Some? && StartsWith(url.value, UploadsPath)
  }

  /** The rewrite both the server's history endpoint and the client apply to a stored file URL:
      a relative `/uploads...` URL gets the server's base URL in front; anything else, including
      no URL at all, is left alone. */
  function AbsoluteFileUrl(base: string, url: Option<string>): (r: Option<string>)
    ensures url.None? ==> r.None?
    ensures IsUploadPath(url) ==> r == Some(base + url.value)
    ensures !IsUploadPath(url) ==> r == url
  {
    match url
    case Some(u) => if u != [] && StartsWith(u, UploadsPath) then Some(base + u) else url
    case None => None
  }

  /** Once rewritten against a base URL that does not itself look like an upload path, a file
      URL no longer looks relative, so a second rewrite (by the client, say, with its own base)
      leaves it alone. */
  lemma RewrittenIsAbsolute(base: string, url: Option<string>)
    requires !StartsWith(base + UploadsPath, UploadsPath)
    ensures !IsUploadPath(AbsoluteFileUrl(base, url)) || AbsoluteFileUrl(base, url) == url
    ensures IsUploadPath(url) ==> !IsUploadPath(AbsoluteFileUrl(base, url))
  {
    if IsUploadPath(url) {
      var u := url.value;
      assert u == UploadsPath + u[|UploadsPath|..];
      assert base + u == (base + UploadsPath) + u[|UploadsPath|..];
      if |base| >= |UploadsPath| {
        StartsWithLongHead(base, u, UploadsPath);
        StartsWithLongHead(base, UploadsPath, UploadsPath);
      } else {
        StartsWithLongHead(base + UploadsPath, u[|UploadsPath|..], UploadsPath);
      }
    }
  }

  /** Rewriting twice with the same base is rewriting once. */
  lemma AbsoluteFileUrlIdempotent(base: string, url: Option<string>)
    requires !StartsWith(base + UploadsPath, UploadsPath)
    ensures AbsoluteFileUrl(base, AbsoluteFileUrl(base, url)) == AbsoluteFileUrl(base, url)
  {
    RewrittenIsAbsolute(base, url);
  }

  /** Every `http...` base URL qualifies for the two lemmas above. */
  lemma HttpBaseIsAbsolute(base: string)
    requires StartsWith(base, "http")
    ensures !StartsWith(base + UploadsPath, UploadsPath)
  {
    assert (base + UploadsPath)[0] == base[0] == 'h';
  }
}
