/** The browser side of the chat dashboard: the call-state record and the handlers that move
    it, the guard in front of sending, the contact search, and the rewriting of file URLs in
    messages the client shows. Rendering, local storage and window globals are not modelled. */
module ChatDashboard {
  import opened Options
  import opened Strings
  import opened Seqs
  import opened Protocol
  import Controllers

  /** The client's fixed `SERVER_URL`. */
  const ClientServerUrl := "http://localhost:5000"

  /** An entry of the contact list fetched from `/auth/getAllUsers`. */
  datatype Contact = Contact(id: UserId, username: string)

  /** `callState.incoming`: who is ringing and with what offer. */
  datatype IncomingOffer = IncomingOffer(fromUserId: UserId, offer: Blob)

  /** `callState` */
  datatype CallState = CallState(
    inCall: bool,
    isCaller: bool,
    remoteUser: Option<Contact>,
    incoming: Option<IncomingOffer>)

  /** The initial and the reset value of `callState`. */
  const Idle := CallState(false, false, None, None)

  /** A new call state together with the socket events the handler emitted. */
  datatype Transition = Transition(state: CallState, sent: seq<Inbound>)

  /** `contacts.find((c) => c._id === id) || null` */
  function FindContact(contacts: seq<Contact>, id: UserId): (r: Option<Contact>)
    ensures r.None? <==> forall i :: 0 <= i < |contacts| ==> contacts[i].id != id
    ensures r.Some? ==> r.value in contacts && r.value.id == id
  {
    FindFirst((c: Contact) => c.id == id, contacts)
  }

  /** The `incomingCall` listener: records the offer and looks the caller up among the contacts;
      whether a call is in progress, and who placed it, is left as it was. */
  function OnIncomingCall(s: CallState, contacts: seq<Contact>, from: UserId, offer: Blob): (r: CallState)
    ensures r.inCall == s.inCall && r.isCaller == s.isCaller
    ensures r.incoming == Some(IncomingOffer(from, offer))
    ensures r.remoteUser.Some? ==> r.remoteUser.value in contacts && r.remoteUser.value.id == from
    ensures r.remoteUser.None? <==> forall i :: 0 <= i < |contacts| ==> contacts[i].id != from
  {
    s.(incoming := Some(IncomingOffer(from, offer)), remoteUser := FindContact(contacts, from))
  }

  /** `startCall`: without a contact nothing happens; otherwise this client becomes the caller. */
  function StartCall(s: CallState, toUser: Option<Contact>): (r: CallState)
    ensures toUser.None? ==> r == s
    ensures toUser.Some? ==> r.inCall && r.isCaller && r.remoteUser == toUser && r.incoming.None?
  {
    match toUser
    case None => s
    case Some(_) => s.(inCall := true, isCaller := true, remoteUser := toUser, incoming := None)
  }

  /** `acceptIncomingCall`: without a ringing offer nothing happens; otherwise this client joins
      the call as the callee, keeping the offer. */
  function AcceptIncomingCall(s: CallState, contacts: seq<Contact>): (r: CallState)
    ensures s.incoming.None? ==> r == s
    ensures s.incoming.Some? ==>
      && r.inCall && !r.isCaller && r.incoming == s.incoming
      && r.remoteUser == FindContact(contacts, s.incoming.value.fromUserId)
  {
    match s.incoming
    case None => s
    case Some(inc) =>
      s.(inCall := true, isCaller := false, remoteUser := FindContact(contacts, inc.fromUserId), incoming := s.incoming)
  }

  /** `rejectIncomingCall`: without a ringing offer nothing happens; otherwise the caller is told
      the call ended and the state is reset. */
  function RejectIncomingCall(s: CallState, me: UserId): (r: Transition)
    ensures s.incoming.None? ==> r == Transition(s, [])
    ensures s.incoming.Some? ==> r.state == Idle && r.sent == [EndCall(me, s.incoming.value.fromUserId)]
  {
    match s.incoming
    case None => Transition(s, [])
    case Some(inc) => Transition(Idle, [EndCall(me, inc.fromUserId)])
  }

  /** Chat's `endCall` handler: the state is always reset; the peer is told only when one is
      recorded. The call screen's own emit, made before it invokes this handler, is not part of
      this model. */
  function HangUp(s: CallState, me: UserId): (r: Transition)
    ensures r.state == Idle
    ensures s.remoteUser.Some? ==> r.sent == [EndCall(me, s.remoteUser.value.id)]
    ensures s.remoteUser.None? ==> r.sent == []
  {
    match s.remoteUser
    case Some(peer) => Transition(Idle, [EndCall(me, peer.id)])
    case None => Transition(Idle, [])
  }

  /** What pressing the Call button leads to. */
  datatype ClickOutcome = Alert(message: string) | Calling(state: CallState)

  /** `handleClickCall`: a call starts only for a selected contact listed in `onlineUsers`. */
  function HandleClickCall(s: CallState, selected: Option<Contact>, onlineUsers: seq<UserId>): (r: ClickOutcome)
    ensures selected.None? ==> r == Alert("Select a contact first")
    ensures selected.Some? && selected.value.id !in onlineUsers ==> r == Alert("User is offline/unavailable")
    ensures r.Calling? <==> selected.Some? && selected.value.id in onlineUsers
    ensures r.Calling? ==> r.state == StartCall(s, selected) && r.state.remoteUser == selected
  {
    match selected
    case None => Alert("Select a contact first")
    case Some(c) =>
      if c.id !in onlineUsers then Alert("User is offline/unavailable")
      else Calling(StartCall(s, selected))
  }

  /** The branch `handleSendMessage` takes. */
  datatype SendAction = Ignore | UploadFile | PostText

  /** `handleSendMessage`: nothing happens for white-space-only text with no file pending; a
      pending file always goes through the upload, whatever the text. */
  function HandleSendMessage(text: string, filePending: bool): (r: SendAction)
    ensures r == Ignore <==> Blank(text) && !filePending
    ensures filePending ==> r == UploadFile
    ensures r == PostText <==> !Blank(text) && !filePending
  {
    TrimEmptyIffBlank(text);
    if Trim(text) == [] && !filePending then Ignore
    else if filePending then UploadFile
    else PostText
  }

  /** The `sendMsg` payload after a successful text post: the text exactly as typed. */
  function TextPayload(me: UserId, to: UserId, text: string): (r: ChatPayload)
    ensures r.senderId == me && r.receiverId == to && r.message == text
    ensures r.fileUrl.None? && r.fileType.None? && r.fileName.None?
  {
    ChatPayload(me, to, text, None, None, None, None)
  }

  /** The `sendMsg` payload after a successful upload: no text, and the reply's file URL, which
      is kept when it already starts with `http` and otherwise gets the client's base URL. A reply
      without a file URL makes `startsWith` throw; the handler's `catch` only logs, so nothing is
      emitted. */
  function UploadedPayload(me: UserId, to: UserId, data: Controllers.Message): (r: Option<ChatPayload>)
    ensures r.None? <==> data.fileUrl.None?
    ensures r.Some? ==> r.value.senderId == me && r.value.receiverId == to && r.value.message == []
    ensures r.Some? ==> var u := data.fileUrl.value;
      r.value.fileUrl == Some(if StartsWith(u, "http") then u else ClientServerUrl + u)
    ensures r.Some? ==>
      r.value.fileType == data.fileType && r.value.fileName == data.fileName && r.value.time == Some(data.time)
  {
    match data.fileUrl
    case None => None
    case Some(u) =>
      var fileUrl := if StartsWith(u, "http") then u else ClientServerUrl + u;
      Some(ChatPayload(me, to, [], Some(fileUrl), data.fileType, data.fileName, Some(data.time)))
  }

  /** The `shareMsg` listener's rewrite of a relayed message. */
  function Received(p: ChatPayload): (r: ChatPayload)
    ensures r.(fileUrl := p.fileUrl) == p
    ensures IsUploadPath(p.fileUrl) ==> r.fileUrl == Some(ClientServerUrl + p.fileUrl.value)
    ensures !IsUploadPath(p.fileUrl) ==> r == p
  {
    p.(fileUrl := AbsoluteFileUrl(ClientServerUrl, p.fileUrl))
  }

  /** `showAllMessages`' rewrite of the history it fetched: the same rule as the server's. */
  function History(ms: seq<Controllers.Message>): (r: seq<Controllers.Message>)
    ensures |r| == |ms|
    ensures forall i :: 0 <= i < |r| && !IsUploadPath(ms[i].fileUrl) ==> r[i] == ms[i]
    ensures forall i :: 0 <= i < |r| && IsUploadPath(ms[i].fileUrl) ==>
              r[i] == ms[i].(fileUrl := Some(ClientServerUrl + ms[i].fileUrl.value))
  {
    Controllers.WithServerUrl(ClientServerUrl, ms)
  }

  /** The contact-list filter: never the signed-in user, and only names containing the search
      text, compared in lower case. */
  predicate Shown(c: Contact, me: Option<string>, search: string) {
    (me.None? || c.username != me.value) && Contains(ToLower(c.username), ToLower(search))
  }

  function VisibleContacts(contacts: seq<Contact>, me: Option<string>, search: string): (r: seq<Contact>)
    ensures forall c :: c in r <==> c in contacts && (me.None? || c.username != me.value)
                                    && exists i :: OccursAt(ToLower(c.username), ToLower(search), i)
    ensures forall c :: multiset(r)[c] == if Shown(c, me, search) then multiset(contacts)[c] else 0
  {
    Filter((c: Contact) => Shown(c, me, search), contacts)
  }
}
