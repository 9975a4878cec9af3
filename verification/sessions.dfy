/**
  Sessions: a client running through a sequence of events (received
  messages and update ticks, delivered one at a time), and what holds of
  every such sequence.
*/
module Sessions {
  import opened Wrappers
  import opened AuthDew

  datatype Event = Message(e: Received, ctx: MessageContext) | Tick(t: TickContext)

  function Step(st: ClientState, ev: Event): StepResult {
    match ev
    case Message(e, ctx) => OnMessage(st, e, ctx)
    case Tick(t) => OnTick(st, t)
  }

  function AsSeq<T>(o: Option<T>): (s: seq<T>)
    ensures |s| <= 1
  {
    match o
    case Some(x) => [x]
    case None => []
  }

  /** Where a session ends, everything it sent in order, and the one-shot
      log lines it wrote in order. */
  datatype Trace = Trace(final: ClientState, sent: seq<Outgoing>, notices: seq<Notice>)

  function Run(st: ClientState, evs: seq<Event>): (r: Trace)
    // a session sends no more messages, and writes no more one-shot lines, than it has events
    ensures |r.sent| <= |evs| && |r.notices| <= |evs|
    decreases |evs|
  {
    if evs == [] then Trace(st, [], [])
    else
      var s := Step(st, evs[0]);
      var rest := Run(s.next, evs[1..]);
      Trace(rest.final, AsSeq(s.sent) + rest.sent, AsSeq(s.notice) + rest.notices)
  }

  /** The message passed every gate and was dispatched. */
  predicate IsAccepted(ev: Event) {
    ev.Message? && Screen(ev.e, ev.ctx) == Accepted
  }

  /** An accepted createNewAuth whose requester is not the empty-slot key 0. */
  predicate Creates(ev: Event) {
    IsAccepted(ev) && ev.e.msgType == CreateNewAuth && ev.e.fromPlayerId != 0
  }

  /** The servers for which some event of the session asked for a new code. */
  function CreatedServers(evs: seq<Event>): set<string> {
    set i | 0 <= i < |evs| && Creates(evs[i]) :: evs[i].e.message.senderId
  }

  /** The server of the pending creation, when the slot is not empty. */
  function PendingServers(st: ClientState): set<string> {
    if IsEmptySlot(st.pending) then {} else {st.pending.serverId}
  }

  lemma CreatedServersCons(evs: seq<Event>)
    requires evs != []
    ensures CreatedServers(evs) ==
      (if Creates(evs[0]) then {evs[0].e.message.senderId} else {}) + CreatedServers(evs[1..])
  {
  }

  // ---------------------------------------------------------------------

  /** No session ever writes the invite table or changes the identity. */
  lemma {:induction false} RunKeepsInvitesAndIdentity(st: ClientState, evs: seq<Event>)
    ensures Run(st, evs).final.inviteCodeTable == st.inviteCodeTable
    ensures Run(st, evs).final.senderId == st.senderId
    decreases |evs|
  {
    if evs != [] {
      RunKeepsInvitesAndIdentity(Step(st, evs[0]).next, evs[1..]);
    }
  }

  /** An outgoing message as this client builds every one: addressed to the
      server mod, version 1.0.0, carrying the installation identity `id`. */
  predicate SentByClient(o: Outgoing, id: string) {
    o.receiverModId == ServerModId && o.message == NewMessage(id, o.message.body)
  }

  /** Everything a session sends goes to the server mod, as a version 1.0.0
      message carrying this installation's identity. */
  lemma {:induction false} RunSendsWellFormed(st: ClientState, evs: seq<Event>)
    ensures forall o :: o in Run(st, evs).sent ==> SentByClient(o, st.senderId)
    decreases |evs|
  {
    if evs != [] {
      var s := Step(st, evs[0]);
      RunSendsWellFormed(s.next, evs[1..]);
      assert s.next.senderId == st.senderId;
      assert Run(st, evs).sent == AsSeq(s.sent) + Run(s.next, evs[1..]).sent;
      match evs[0]
      case Message(e, ctx) =>
        assert s == OnMessage(st, e, ctx);
      case Tick(t) =>
        assert s == OnTick(st, t);
    }
  }

  /** A server key appears in the auth table only if it was there already,
      was the pending creation's server, or an accepted createNewAuth from a
      non-zero player asked for it. */
  lemma {:induction false} RunAuthKeysOrigin(st: ClientState, evs: seq<Event>)
    ensures Run(st, evs).final.clientAuthTable.Keys <=
      st.clientAuthTable.Keys + PendingServers(st) + CreatedServers(evs)
    decreases |evs|
  {
    if evs != [] {
      var s := Step(st, evs[0]);
      RunAuthKeysOrigin(s.next, evs[1..]);
      CreatedServersCons(evs);
      assert s.next.clientAuthTable.Keys <= st.clientAuthTable.Keys + PendingServers(st);
      assert PendingServers(s.next) <= PendingServers(st) +
        (if Creates(evs[0]) then {evs[0].e.message.senderId} else {});
    }
  }

  /** With the slot empty and no createNewAuth from a non-zero player, the
      auth table never changes and no creation is ever confirmed: in
      particular a createNewAuth from player 0 is stored but never
      committed. */
  lemma {:induction false} RunWithoutCreationKeepsAuthTable(st: ClientState, evs: seq<Event>)
    requires IsEmptySlot(st.pending)
    requires forall i :: 0 <= i < |evs| ==> !Creates(evs[i])
    ensures var r := Run(st, evs);
      && r.final.clientAuthTable == st.clientAuthTable
      && IsEmptySlot(r.final.pending)
      && forall i :: 0 <= i < |r.sent| ==> r.sent[i].msgType != ConfirmNewAuth
    decreases |evs|
  {
    if evs != [] {
      var s := Step(st, evs[0]);
      assert !Creates(evs[0]);
      assert s.next.clientAuthTable == st.clientAuthTable && IsEmptySlot(s.next.pending);
      assert forall m :: m in AsSeq(s.sent) ==> m.msgType != ConfirmNewAuth;
      RunWithoutCreationKeepsAuthTable(s.next, evs[1..]);
    }
  }

  /** The two one-shot log lines: as long as no message is accepted, the
      incompatible-API error is written at most once (and not at all when an
      episode is already under way), and so is the main-player warning. */
  lemma {:induction false} RunNoticesOneShot(st: ClientState, evs: seq<Event>)
    requires forall i :: 0 <= i < |evs| ==> !IsAccepted(evs[i])
    ensures var n := multiset(Run(st, evs).notices);
      && n[IncompatibleApi] <= (if st.apiCompatible then 1 else 0)
      && n[MainPlayerDisabled] <= (if st.isServer then 0 else 1)
    decreases |evs|
  {
    if evs != [] {
      var s := Step(st, evs[0]);
      assert !IsAccepted(evs[0]);
      assert s.next.apiCompatible ==> st.apiCompatible;
      assert st.isServer ==> s.next.isServer;
      assert s.notice == Some(IncompatibleApi) ==> !s.next.apiCompatible;
      assert s.notice == Some(MainPlayerDisabled) ==> !st.isServer;
      RunNoticesOneShot(s.next, evs[1..]);
      var rest := Run(s.next, evs[1..]);
      assert Run(st, evs).notices == AsSeq(s.notice) + rest.notices;
    }
  }

  /** Unlike the log line, the ApiIncompatible reply goes out for every
      incompatible message that passes the other gates. */
  lemma {:induction false} RunIncompatibleRepliesEveryTime(st: ClientState, evs: seq<Event>)
    requires forall i :: 0 <= i < |evs| ==> evs[i].Message? && Screen(evs[i].e, evs[i].ctx) == Incompatible
    ensures var r := Run(st, evs);
      && |r.sent| == |evs|
      && (forall i :: 0 <= i < |evs| ==>
            r.sent[i] == Outgoing(NewMessage(st.senderId, ""), ApiIncompatible, ServerModId, evs[i].e.fromPlayerId))
      && r.final == (if evs == [] then st else st.(apiCompatible := false))
    decreases |evs|
  {
    if evs != [] {
      var s := Step(st, evs[0]);
      assert s.next == st.(apiCompatible := false);
      RunIncompatibleRepliesEveryTime(s.next, evs[1..]);
      var rest := Run(s.next, evs[1..]);
      assert Run(st, evs).sent == [s.sent.value] + rest.sent;
      forall i | 1 <= i < |evs|
        ensures Run(st, evs).sent[i] ==
          Outgoing(NewMessage(st.senderId, ""), ApiIncompatible, ServerModId, evs[i].e.fromPlayerId)
      {
        assert evs[1..][i - 1] == evs[i];
      }
    }
  }

  // ---------------------------------------------------------------------
  // Whole exchanges.

  /** A createNewAuth from server `s` followed by a ready tick stores the code
      under the farmer's current name and confirms to the requester; a later
      authRequest from `s` is then answered with that code. */
  lemma CreateTickAuthRoundTrip(st: ClientState, create: Received, tick: TickContext,
                                request: Received, mctx: MessageContext)
    requires Screen(create, mctx) == Accepted && create.msgType == CreateNewAuth && create.fromPlayerId != 0
    requires tick.isPlayerFree && tick.isOneSecond
    requires Screen(request, mctx) == Accepted && request.msgType == AuthRequest
    requires request.message.senderId == create.message.senderId
    requires mctx.playerName == tick.playerName
    ensures var r := Run(st, [Message(create, mctx), Tick(tick), Message(request, mctx)]);
      var s := create.message.senderId;
      && r.final.clientAuthTable == st.clientAuthTable[s := map[tick.playerName := create.message.body]]
      && IsEmptySlot(r.final.pending)
      && r.sent == [
           Outgoing(NewMessage(st.senderId, tick.playerName), ConfirmNewAuth, ServerModId, create.fromPlayerId),
           Outgoing(NewMessage(st.senderId, create.message.body), AuthResponse, ServerModId, request.fromPlayerId)]
  {
    var evs := [Message(create, mctx), Tick(tick), Message(request, mctx)];
    var s1 := Step(st, evs[0]);
    var s2 := Step(s1.next, evs[1]);
    var s3 := Step(s2.next, evs[2]);
    assert evs[1..][1..] == [evs[2]];
    assert Run(s2.next, [evs[2]]).sent == AsSeq(s3.sent);
  }

  /** Two createNewAuth messages before a tick: only the later is committed,
      and only its requester receives the confirmation. */
  lemma LastCreateWins(st: ClientState, first: Received, second: Received, mctx: MessageContext,
                       tick: TickContext)
    requires Screen(first, mctx) == Accepted && first.msgType == CreateNewAuth
    requires Screen(second, mctx) == Accepted && second.msgType == CreateNewAuth && second.fromPlayerId != 0
    requires tick.isPlayerFree && tick.isOneSecond
    ensures var r := Run(st, [Message(first, mctx), Message(second, mctx), Tick(tick)]);
      && r.final.clientAuthTable == st.clientAuthTable[second.message.senderId := map[tick.playerName := second.message.body]]
      && r.sent == [Outgoing(NewMessage(st.senderId, tick.playerName), ConfirmNewAuth, ServerModId, second.fromPlayerId)]
  {
    var evs := [Message(first, mctx), Message(second, mctx), Tick(tick)];
    var s1 := Step(st, evs[0]);
    var s2 := Step(s1.next, evs[1]);
    var s3 := Step(s2.next, evs[2]);
    assert evs[1..][1..] == [evs[2]];
    assert s2.next.pending == Pending(second.fromPlayerId, second.message.senderId, mctx.playerName, second.message.body);
    assert Run(s2.next, [evs[2]]).sent == AsSeq(s3.sent);
  }

  /** Incompatible, incompatible, compatible, incompatible: every incompatible
      message is answered, and the error line is written at the first and,
      after the compatible message ended the episode, at the last. */
  lemma IncompatibleEpisodes(st: ClientState, bad: Received, good: Received, mctx: MessageContext)
    requires st.apiCompatible
    requires Screen(bad, mctx) == Incompatible
    requires Screen(good, mctx) == Accepted
    requires good.msgType != AuthRequest && good.msgType != InviteCodeRequest && good.msgType != CreateNewAuth
    ensures var r := Run(st, [Message(bad, mctx), Message(bad, mctx), Message(good, mctx), Message(bad, mctx)]);
      var reply := Outgoing(NewMessage(st.senderId, ""), ApiIncompatible, ServerModId, bad.fromPlayerId);
      && r.sent == [reply, reply, reply]
      && r.notices == [IncompatibleApi, IncompatibleApi]
      && !r.final.apiCompatible
  {
    var evs := [Message(bad, mctx), Message(bad, mctx), Message(good, mctx), Message(bad, mctx)];
    var s1 := Step(st, evs[0]);
    var s2 := Step(s1.next, evs[1]);
    var s3 := Step(s2.next, evs[2]);
    var s4 := Step(s3.next, evs[3]);
    assert s3.next.apiCompatible;
    var r4 := Run(s3.next, [evs[3]]);
    assert r4.sent == AsSeq(s4.sent) && r4.notices == AsSeq(s4.notice);
    assert evs[1..][1..][1..] == [evs[3]];
    var r3 := Run(s2.next, evs[1..][1..]);
    assert r3.sent == r4.sent && r3.notices == r4.notices;
    var r2 := Run(s1.next, evs[1..]);
    assert r2.sent == AsSeq(s2.sent) + r3.sent && r2.notices == r3.notices;
    var r1 := Run(st, evs);
    assert r1.sent == AsSeq(s1.sent) + r2.sent;
    assert r1.notices == AsSeq(s1.notice) + r2.notices;
    assert r1.final == r4.final;
    var reply := Outgoing(NewMessage(st.senderId, ""), ApiIncompatible, ServerModId, bad.fromPlayerId);
    assert [evs[3]][1..] == [];
    assert Run(s4.next, []) == Trace(s4.next, [], []);
    assert r4.final == s4.next;
    assert s1.sent == Some(reply);
    assert s2.sent == Some(reply);
    assert s3.sent == None;
    assert s4.sent == Some(reply);
    assert s1.notice == Some(IncompatibleApi);
    assert s2.notice == None;
    assert s3.notice == None;
    assert s4.notice == Some(IncompatibleApi);
  }
}
