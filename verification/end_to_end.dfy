/** Properties that follow a value through more than one component: a client action through the
    socket hub, or a stored message through the server and back into the client. */
module EndToEnd {
  import opened Options
  import opened Strings
  import opened Protocol
  import opened Server
  import Controllers
  import opened ChatDashboard

  /** The `endCall` that Chat's `endCall` handler emits reaches the peer's current socket as one
      `callEnded` naming this user, if the peer is online; otherwise it is dropped. */
  lemma HangUpReachesPeer(reg: Registry, socket: SocketId, s: CallState, me: UserId)
    requires s.remoteUser.Some?
    ensures var peer := s.remoteUser.value.id;
      Step(reg, socket, HangUp(s, me).sent[0]).emits
        == if peer in reg then [Emit(Socket(reg[peer]), CallEnded(me))] else []
  {
  }

  /** A text message the client sends is relayed, unchanged, to the receiver's socket whenever
      the receiver is online. */
  lemma TextReachesReceiver(reg: Registry, socket: SocketId, me: UserId, to: UserId, text: string)
    requires to in reg
    ensures Emit(Socket(reg[to]), ShareMsg(TextPayload(me, to, text))) in Step(reg, socket, SendMsg(TextPayload(me, to, text))).emits
  {
    var r := Step(reg, socket, SendMsg(TextPayload(me, to, text)));
    assert CountTo(r.emits, Socket(reg[to])) >= 1;
    CountedIsPresent(r.emits, Socket(reg[to]));
  }

  lemma CountedIsPresent(emits: seq<Emit>, t: Target)
    requires CountTo(emits, t) > 0
    ensures exists e :: e in emits && e.target == t
  {
    if emits[0].target != t {
      CountedIsPresent(emits[1..], t);
      var e :| e in emits[1..] && e.target == t;
      assert e in emits;
    }
  }

  /** With a server base URL beginning `http`, the client keeps the upload reply's URL as it is,
      so the message it relays points at the same file the server stored. */
  lemma UploadUrlKeptByClient(db: Controllers.Store, file: Option<Controllers.UploadedFile>,
                              senderId: Option<string>, receiverId: Option<string>, time: string,
                              now: nat, newId: string, serverUrl: string, me: UserId, to: UserId)
    requires StartsWith(serverUrl, "http")
    requires Controllers.UploadFile(db, file, senderId, receiverId, time, now, newId, serverUrl).1.Success?
    ensures var reply := Controllers.UploadFile(db, file, senderId, receiverId, time, now, newId, serverUrl).1;
      var sent := UploadedPayload(me, to, reply.data);
      sent.Some? && sent.value.fileUrl == reply.data.fileUrl
  {
    var (db', reply) := Controllers.UploadFile(db, file, senderId, receiverId, time, now, newId, serverUrl);
    var saved := db'.messages[|db.messages|];
    StartsWithPrefix(serverUrl, saved.fileUrl.value);
    assert StartsWith(serverUrl, "http") ==> StartsWith(serverUrl + saved.fileUrl.value, "http") by {
      StartsWithLongHead(serverUrl, saved.fileUrl.value, "http");
    }
  }

  /** A relayed upload is shown by the receiving client exactly as it was sent. */
  lemma ReceivedUploadUnchanged(me: UserId, to: UserId, data: Controllers.Message)
    ensures var sent := UploadedPayload(me, to, data);
      sent.Some? ==> Received(sent.value) == sent.value
  {
    if data.fileUrl.Some? {
      var u := data.fileUrl.value;
      if !StartsWith(u, "http") {
        StartsWithLongHead(ClientServerUrl, u, UploadsPath);
        assert ClientServerUrl[..|UploadsPath|][0] == 'h';
      } else {
        assert u[0] == u[..4][0] == "http"[0];
      }
    }
  }

  /** With a server base URL beginning `http`, the client's second rewrite of the fetched
      history changes nothing: no file URL gets the base URL twice. */
  lemma HistoryRewriteStable(db: Controllers.Store, a: UserId, b: UserId, serverUrl: string)
    requires StartsWith(serverUrl, "http")
    ensures History(Controllers.ShowMessage(db, a, b, serverUrl)) == Controllers.ShowMessage(db, a, b, serverUrl)
  {
    var h := Controllers.Conversation(db.messages, a, b);
    var r := Controllers.ShowMessage(db, a, b, serverUrl);
    HttpBaseIsAbsolute(serverUrl);
    forall i | 0 <= i < |r| ensures !IsUploadPath(r[i].fileUrl) {
      RewrittenIsAbsolute(serverUrl, h[i].fileUrl);
    }
  }
}
