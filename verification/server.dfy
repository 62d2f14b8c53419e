/** The Socket.IO hub of the chat server: the registry `users` from user id to the socket that
    last registered it, and the seven handlers that read or change it. Each handler runs to
    completion before the next event, so one event is one pure step from a registry to a new
    registry and the list of events sent out. */
module Server {
  import opened Options
  import opened Protocol
  import opened Seqs

  /** `users`: which socket currently speaks for each user. */
  type Registry = map<UserId, SocketId>

  /** `io.emit(...)` reaches every connected socket; `io.to(id).emit(...)` reaches one. */
  datatype Target = Everyone | Socket(id: SocketId)

  datatype Emit = Emit(target: Target, event: Outbound)

  datatype StepResult = StepResult(registry: Registry, emits: seq<Emit>)

  /** A socket event as it arrives: the socket it came from and what it says. */
  datatype Arrival = Arrival(socket: SocketId, event: Inbound)

  const NotOnlineMessage := "User is not online"

  /** `users[u]`, with absence as None. */
  function Resolve(reg: Registry, u: UserId): Option<SocketId> {
    if u in reg then Some(reg[u]) else None
  }

  /** The presence announcement sent after every change to the registry. */
  function Presence(reg: Registry): Emit {
    Emit(Everyone, OnlineUsers(reg.Keys))
  }

  /** How many of `emits` are addressed to the target `t`. */
  function CountTo(emits: seq<Emit>, t: Target): nat {
    if emits == [] then 0
    else (if emits[0].target == t then 1 else 0) + CountTo(emits[1..], t)
  }

  lemma CountToAppend(a: seq<Emit>, b: seq<Emit>, t: Target)
    ensures CountTo(a + b, t) == CountTo(a, t) + CountTo(b, t)
  {
    if a == [] {
      assert a + b == b;
    } else {
      assert (a + b)[1..] == a[1..] + b;
      CountToAppend(a[1..], b, t);
    }
  }

  lemma CountToOne(e: Emit, t: Target)
    ensures CountTo([e], t) == if e.target == t then 1 else 0
  {
    assert [e][1..] == [];
  }

  /** `users[userId] = socket.id`: the last registration wins and no other entry moves. */
  function Register(reg: Registry, u: UserId, s: SocketId): (r: Registry)
    ensures Resolve(r, u) == Some(s)
    ensures r.Keys == reg.Keys + {u}
    ensures forall v :: v != u ==> Resolve(r, v) == Resolve(reg, v)
  {
    reg[u := s]
  }

  /** The result of the `disconnect` handler's loop: every entry held by socket `s` removed. */
  function Unregister(reg: Registry, s: SocketId): (r: Registry)
    ensures forall u :: u in r <==> u in reg && reg[u] != s
    ensures forall u :: u in r ==> r[u] == reg[u]
    ensures s !in r.Values
  {
    map u | u in reg && reg[u] != s :: reg[u]
  }

  /** The `disconnect` handler's `Object.keys(users).forEach(...)` loop, which deletes an entry
      when it still names the closing socket. */
  method RemoveSocket(reg: Registry, s: SocketId) returns (r: Registry)
    ensures forall u :: u in r <==> u in reg && reg[u] != s
    ensures forall u :: u in r ==> r[u] == reg[u]
    ensures r == Unregister(reg, s)
  {
    r := reg;
    var keys := reg.Keys;
    while keys != {}
      invariant keys <= reg.Keys
      invariant forall u :: u in r <==> u in reg && (u in keys || reg[u] != s)
      invariant forall u :: u in r ==> r[u] == reg[u]
      decreases keys
    {
      var u :| u in keys;
      if r[u] == s {
        r := r - {u};
      }
      keys := keys - {u};
    }
    assert r.Keys == Unregister(reg, s).Keys;
  }

  /** `addUser`: register, then announce the new online set to everyone. */
  function OnAddUser(reg: Registry, socket: SocketId, u: UserId): (r: StepResult)
    ensures Resolve(r.registry, u) == Some(socket)
    ensures forall v :: v != u ==> Resolve(r.registry, v) == Resolve(reg, v)
    ensures r.emits == [Emit(Everyone, OnlineUsers(reg.Keys + {u}))]
  {
    var next := Register(reg, u, socket);
    StepResult(next, [Presence(next)])
  }

  /** `disconnect`: drop the closing socket's entries, then announce the new online set. No
      `callEnded` is sent to anyone the closing socket was in a call with. */
  function OnDisconnect(reg: Registry, socket: SocketId): (r: StepResult)
    ensures forall u :: Resolve(r.registry, u) == (if Resolve(reg, u) == Some(socket) then None else Resolve(reg, u))
    ensures r.emits == [Emit(Everyone, OnlineUsers(set u | u in reg && reg[u] != socket))]
  {
    var next := Unregister(reg, socket);
    StepResult(next, [Presence(next)])
  }

  /** `sendMsg`: relay the payload, unchanged, to the receiver's socket and to the sender's socket
      when that is not the socket the message came from. */
  function OnSendMsg(reg: Registry, socket: SocketId, data: ChatPayload): (r: StepResult)
    ensures r.registry == reg
    ensures |r.emits| <= 2
    ensures forall e :: e in r.emits ==> e.target.Socket? && e.event == ShareMsg(data)
    ensures forall t: SocketId ::
      CountTo(r.emits, Socket(t))
        == (if Resolve(reg, data.receiverId) == Some(t) then 1 else 0)
         + (if Resolve(reg, data.senderId) == Some(t) && t != socket then 1 else 0)
    ensures CountTo(r.emits, Everyone) == 0
  {
    var toReceiver :=
      if data.receiverId in reg then [Emit(Socket(reg[data.receiverId]), ShareMsg(data))] else [];
    var toSender :=
      if data.senderId in reg && reg[data.senderId] != socket
      then [Emit(Socket(reg[data.senderId]), ShareMsg(data))] else [];
    forall t: Target
      ensures CountTo(toReceiver + toSender, t)
           == (if data.receiverId in reg && t == Socket(reg[data.receiverId]) then 1 else 0)
            + (if data.senderId in reg && reg[data.senderId] != socket && t == Socket(reg[data.senderId]) then 1 else 0)
    {
      CountToAppend(toReceiver, toSender, t);
      if data.receiverId in reg { CountToOne(toReceiver[0], t); }
      if data.senderId in reg && reg[data.senderId] != socket { CountToOne(toSender[0], t); }
    }
    StepResult(reg, toReceiver + toSender)
  }

  /** `callUser`: ring the callee if online; otherwise tell the caller, if the caller is online,
      that the callee is not. */
  function OnCallUser(reg: Registry, from: UserId, to: UserId, offer: Blob): (r: StepResult)
    ensures r.registry == reg
    ensures to in reg ==> r.emits == [Emit(Socket(reg[to]), IncomingCall(from, offer))]
    ensures to !in reg ==> forall e :: e in r.emits ==> !e.event.IncomingCall?
    ensures to !in reg && from in reg ==>
      r.emits == [Emit(Socket(reg[from]), CallUnavailable(to, NotOnlineMessage))]
    ensures to !in reg && from !in reg ==> r.emits == []
  {
    match Resolve(reg, to)
    case Some(toSocket) => StepResult(reg, [Emit(Socket(toSocket), IncomingCall(from, offer))])
    case None =>
      match Resolve(reg, from)
      case Some(fromSocket) =>
        StepResult(reg, [Emit(Socket(fromSocket), CallUnavailable(to, NotOnlineMessage))])
      case None => StepResult(reg, [])
  }

  /** `answerCall`, `iceCandidate` and `endCall`: deliver one event to the addressee's socket if
      the addressee is online, and nothing otherwise. */
  function Forward(reg: Registry, to: UserId, event: Outbound): (r: StepResult)
    ensures r.registry == reg
    ensures |r.emits| == if to in reg then 1 else 0
    ensures forall e :: e in r.emits ==> e == Emit(Socket(reg[to]), event)
  {
    match Resolve(reg, to)
    case Some(toSocket) => StepResult(reg, [Emit(Socket(toSocket), event)])
    case None => StepResult(reg, [])
  }

  /** One event handled by the hub, dispatched by kind. Events with no handler change nothing. */
  function Step(reg: Registry, socket: SocketId, event: Inbound): (r: StepResult)
    ensures !(event.AddUser? || event.Disconnect?) ==> r.registry == reg
    ensures event.AddUser? || event.Disconnect? ==> r.emits == [Presence(r.registry)]
    ensures forall e :: e in r.emits ==> (e.target == Everyone <==> e.event.OnlineUsers?)
    ensures event.Unhandled? ==> r.emits == []
    ensures event.SendMsg? ==>
      && (forall e :: e in r.emits ==> e.target.Socket? && e.event == ShareMsg(event.data))
      && forall t: SocketId ::
           CountTo(r.emits, Socket(t))
             == (if Resolve(reg, event.data.receiverId) == Some(t) then 1 else 0)
              + (if Resolve(reg, event.data.senderId) == Some(t) && t != socket then 1 else 0)
    ensures event.CallUser? && event.toUserId in reg ==>
      r.emits == [Emit(Socket(reg[event.toUserId]), IncomingCall(event.fromUserId, event.offer))]
    ensures event.CallUser? && event.toUserId !in reg && event.fromUserId in reg ==>
      r.emits == [Emit(Socket(reg[event.fromUserId]), CallUnavailable(event.toUserId, NotOnlineMessage))]
    ensures event.CallUser? && event.toUserId !in reg && event.fromUserId !in reg ==>
      r.emits == []
    ensures event.AnswerCall? ==>
      r.emits == (if event.toUserId in reg
                  then [Emit(Socket(reg[event.toUserId]), CallAnswered(event.fromUserId, event.answer))]
                  else [])
    ensures event.IceCandidate? ==>
      r.emits == (if event.toUserId in reg
                  then [Emit(Socket(reg[event.toUserId]), Outbound.IceCandidate(event.fromUserId, event.candidate))]
                  else [])
    ensures event.EndCall? ==>
      r.emits == (if event.toUserId in reg
                  then [Emit(Socket(reg[event.toUserId]), CallEnded(event.fromUserId))]
                  else [])
  {
    match event
    case AddUser(u) => OnAddUser(reg, socket, u)
    case SendMsg(data) => OnSendMsg(reg, socket, data)
    case CallUser(from, to, offer) => OnCallUser(reg, from, to, offer)
    case AnswerCall(from, to, answer) => Forward(reg, to, CallAnswered(from, answer))
    case IceCandidate(from, to, candidate) => Forward(reg, to, Outbound.IceCandidate(from, candidate))
    case EndCall(from, to) => Forward(reg, to, CallEnded(from))
    case Disconnect => OnDisconnect(reg, socket)
    case Unhandled(_) => StepResult(reg, [])
  }

  /** A run of the hub over a sequence of arrivals, collecting everything sent. */
  function Run(reg: Registry, trace: seq<Arrival>): StepResult
    decreases |trace|
  {
    if trace == [] then StepResult(reg, [])
    else
      var first := Step(reg, trace[0].socket, trace[0].event);
      var rest := Run(first.registry, trace[1..]);
      StepResult(rest.registry, first.emits + rest.emits)
  }

  /** The hub carries nothing from one event to the next but the registry: running two batches
      of events one after the other is running them as one trace. */
  lemma {:induction false} RunAppend(reg: Registry, p: seq<Arrival>, q: seq<Arrival>)
    ensures var first := Run(reg, p);
      var second := Run(first.registry, q);
      Run(reg, p + q) == StepResult(second.registry, first.emits + second.emits)
    decreases |p|
  {
    SplitFirst(p, q);
    if p != [] {
      var head := Step(reg, p[0].socket, p[0].event);
      var middle := Run(head.registry, p[1..]);
      var second := Run(middle.registry, q);
      RunAppend(head.registry, p[1..], q);
      ConcatRegroup(head.emits, middle.emits, second.emits);
    }
  }

  lemma SplitFirst(p: seq<Arrival>, q: seq<Arrival>)
    ensures p == [] ==> p + q == q
    ensures p != [] ==> (p + q)[0] == p[0] && (p + q)[1..] == p[1..] + q
  {
    if p != [] {
      assert (p + q)[1..] == p[1..] + q;
    }
  }

  /** One more event extends the run by that event's step. */
  lemma RunLast(reg: Registry, t: seq<Arrival>, a: Arrival, extended: seq<Arrival>)
    requires extended == t + [a]
    ensures var before := Run(reg, t);
      var last := Step(before.registry, a.socket, a.event);
      Run(reg, extended) == StepResult(last.registry, before.emits + last.emits)
  {
    RunAppend(reg, t, [a]);
    var last := Step(Run(reg, t).registry, a.socket, a.event);
    assert [a][1..] == [];
    assert last.emits + [] == last.emits;
  }
}
