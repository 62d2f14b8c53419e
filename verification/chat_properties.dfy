/** Properties of the client's call-state handlers and contact filter. */
module ChatProperties {
  import opened Options
  import opened Strings
  import opened Seqs
  import opened Protocol
  import opened ChatDashboard

  /** The contact filter keeps the list's order: filtering a concatenation is concatenating the
      filtered parts. */
  lemma VisibleContactsKeepOrder(a: seq<Contact>, b: seq<Contact>, me: Option<string>, search: string)
    ensures VisibleContacts(a + b, me, search) == VisibleContacts(a, me, search) + VisibleContacts(b, me, search)
  {
    FilterAppend((c: Contact) => Shown(c, me, search), a, b);
  }

  /** With an empty search box, the list is every contact except the signed-in user. */
  lemma EmptySearchHidesOnlyMe(contacts: seq<Contact>, me: Option<string>)
    ensures VisibleContacts(contacts, me, "")
         == Filter((c: Contact) => me.None? || c.username != me.value, contacts)
  {
    forall c: Contact ensures Contains(ToLower(c.username), ToLower("")) {
      assert OccursAt(ToLower(c.username), ToLower(""), 0);
    }
    FilterAgree((c: Contact) => Shown(c, me, ""), (c: Contact) => me.None? || c.username != me.value, contacts);
  }

  /** After accepting a call, Chat's `endCall` handler tells the caller the call ended exactly
      when the caller is among the loaded contacts; otherwise the handler sends nothing. */
  lemma AcceptThenHangUpNotifiesCaller(s: CallState, contacts: seq<Contact>, from: UserId, offer: Blob, me: UserId)
    ensures
      var ringing := OnIncomingCall(s, contacts, from, offer);
      var talking := AcceptIncomingCall(ringing, contacts);
      HangUp(talking, me).sent
        == if exists i :: 0 <= i < |contacts| && contacts[i].id == from then [EndCall(me, from)] else []
  {
    var ringing := OnIncomingCall(s, contacts, from, offer);
    var talking := AcceptIncomingCall(ringing, contacts);
    if talking.remoteUser.Some? {
      assert talking.remoteUser.value.id == from;
      var k :| 0 <= k < |contacts| && contacts[k] == talking.remoteUser.value;
    }
  }

  /** Rejecting a ringing call tells that caller, and only that caller, that it ended. */
  lemma RejectNotifiesCaller(s: CallState, contacts: seq<Contact>, from: UserId, offer: Blob, me: UserId)
    ensures RejectIncomingCall(OnIncomingCall(s, contacts, from, offer), me)
         == Transition(Idle, [EndCall(me, from)])
  {
  }

  /** An incoming call that arrives during a call replaces the recorded peer: Chat's `endCall`
      handler then notifies the new caller instead of the user the call is with. */
  lemma IncomingCallDuringCallRetargetsHangUp(s: CallState, contacts: seq<Contact>, other: Contact,
                                             offer: Blob, me: UserId)
    requires s.inCall && s.remoteUser.Some?
    requires other in contacts && other.id != s.remoteUser.value.id
    ensures var after := OnIncomingCall(s, contacts, other.id, offer);
      after.inCall && HangUp(after, me).sent == [EndCall(me, other.id)]
  {
    var k :| 0 <= k < |contacts| && contacts[k] == other;
  }
}
