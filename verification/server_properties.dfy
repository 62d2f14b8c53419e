/** Properties of the hub over whole runs: what the registry means after any sequence of events,
    the reconnect race, and the order of a call handshake. */
module ServerProperties {
  import opened Options
  import opened Protocol
  import opened Server

  /** Arrival `a` ends a registration of user `u` by socket `s`: either `u` registers again (from
      any socket) or socket `s` closes. */
  ghost predicate Supersedes(a: Arrival, u: UserId, s: SocketId) {
    a.event == AddUser(u) || a == Arrival(s, Disconnect)
  }

  ghost predicate NotSupersededAfter(trace: seq<Arrival>, i: int, u: UserId, s: SocketId) {
    forall j :: 0 <= j < |trace| && i < j ==> !Supersedes(trace[j], u, s)
  }

  /** Somewhere in `trace` socket `s` registered user `u`, and nothing later superseded it. */
  ghost predicate LiveRegistration(trace: seq<Arrival>, u: UserId, s: SocketId) {
    exists i :: 0 <= i < |trace| && trace[i] == Arrival(s, AddUser(u)) && NotSupersededAfter(trace, i, u, s)
  }

  /** How one more arrival changes which registrations are live. */
  lemma LiveRegistrationStep(p: seq<Arrival>, a: Arrival, u: UserId, s: SocketId)
    ensures LiveRegistration(p + [a], u, s) <==>
      if a.event == AddUser(u) then s == a.socket
      else LiveRegistration(p, u, s) && a != Arrival(s, Disconnect)
  {
    var t := p + [a];
    assert t[|p|] == a;
    if a.event == AddUser(u) {
      if s == a.socket {
        assert NotSupersededAfter(t, |p|, u, s);
      } else {
        forall i | 0 <= i < |t| && t[i] == Arrival(s, AddUser(u))
          ensures !NotSupersededAfter(t, i, u, s)
        {
          assert i != |p|;
          assert Supersedes(t[|p|], u, s);
        }
      }
    } else {
      if LiveRegistration(t, u, s) {
        var i :| 0 <= i < |t| && t[i] == Arrival(s, AddUser(u)) && NotSupersededAfter(t, i, u, s);
        assert i < |p|;
        assert !Supersedes(t[|p|], u, s);
        assert p[i] == t[i];
        forall j | i < j < |p| ensures !Supersedes(p[j], u, s) {
          assert p[j] == t[j];
        }
        assert NotSupersededAfter(p, i, u, s);
      }
      if LiveRegistration(p, u, s) && a != Arrival(s, Disconnect) {
        var i :| 0 <= i < |p| && p[i] == Arrival(s, AddUser(u)) && NotSupersededAfter(p, i, u, s);
        assert t[i] == p[i];
        forall j | i < j < |t| ensures !Supersedes(t[j], u, s) {
          if j < |p| { assert t[j] == p[j]; }
        }
        assert NotSupersededAfter(t, i, u, s);
      }
    }
  }

  /** Starting from the empty `users` object, after any sequence of events a user resolves to
      socket `s` exactly when `s` registered that user and neither a newer registration of the
      user nor the closing of `s` came later; otherwise the user is absent. */
  lemma {:induction false} RegistryReflectsLatestRegistration(trace: seq<Arrival>)
    ensures forall u, s :: Resolve(Run(map[], trace).registry, u) == Some(s) <==> LiveRegistration(trace, u, s)
  {
    if trace != [] {
      var p := trace[..|trace| - 1];
      var a := trace[|trace| - 1];
      assert trace == p + [a];
      RegistryReflectsLatestRegistration(p);
      RunLast(map[], p, a, trace);
      var before := Run(map[], p).registry;
      var after := Run(map[], trace).registry;
      assert after == Step(before, a.socket, a.event).registry;
      forall u, s
        ensures Resolve(after, u) == Some(s) <==> LiveRegistration(trace, u, s)
      {
        LiveRegistrationStep(p, a, u, s);
      }
    }
  }

  /** The reconnect race: a user who registered again from a newer socket keeps that socket
      when the older socket closes afterwards. */
  lemma StaleDisconnectKeepsNewerSocket(reg: Registry, u: UserId, stale: SocketId, newer: SocketId)
    requires stale != newer
    ensures
      var r1 := Step(reg, stale, AddUser(u)).registry;
      var r2 := Step(r1, newer, AddUser(u)).registry;
      Resolve(Step(r2, stale, Disconnect).registry, u) == Some(newer)
  {
  }

  /** The handshake of a call between two online users: the callee is rung, then the caller
      receives the answer, and nothing else is sent. */
  lemma CallHandshakeOrder(reg: Registry, callerSocket: SocketId, calleeSocket: SocketId,
                           caller: UserId, callee: UserId, offer: Blob, answer: Blob)
    requires caller in reg && callee in reg
    ensures Run(reg, [Arrival(callerSocket, CallUser(caller, callee, offer)),
                      Arrival(calleeSocket, AnswerCall(callee, caller, answer))]).emits
         == [Emit(Socket(reg[callee]), IncomingCall(caller, offer)),
             Emit(Socket(reg[caller]), CallAnswered(callee, answer))]
  {
    var call := Arrival(callerSocket, CallUser(caller, callee, offer));
    var answerArrival := Arrival(calleeSocket, AnswerCall(callee, caller, answer));
    RunLast(reg, [], call, [call]);
    RunLast(reg, [call], answerArrival, [call, answerArrival]);
  }
}
