/**
  The client side of the AuthDew authentication protocol, as values.

  A client keeps, per server installation, the authorization code of each of
  its farmers, and per server an invite code.  A server (the host of the game
  session, running the counterpart mod "thfr.AuthDew-server") asks for those
  codes and hands out new ones.  This module holds the wire shapes, the state
  of one client and the two steps that change it: receiving a mod message and
  the periodic update tick.  Each step is a function from the old state to the
  new one plus at most one outgoing message; the class in module Client runs
  the same steps by assigning its fields.
*/
module AuthDew {
  import opened Wrappers

  /** A C# `int`. */
  type Int32 = x: int | -0x8000_0000 <= x < 0x8000_0000

  /** A C# `long`: the multiplayer id of a player. */
  type PlayerId = x: int | -0x8000_0000_0000_0000 <= x < 0x8000_0000_0000_0000

  /** The only mod this client talks to and accepts messages from. */
  const ServerModId := "thfr.AuthDew-server"

  // Message types the client receives and acts on.
  const AuthRequest := "authRequest"
  const InviteCodeRequest := "inviteCodeRequest"
  const CreateNewAuth := "createNewAuth"

  // Message types the client sends.
  const AuthResponse := "authResponse"
  const NoAuthAvailable := "noAuthAvailable"
  const InviteCodeResponse := "inviteCodeResponse"
  const NoInviteCodeAvailable := "noInviteCodeAvailable"
  const ConfirmNewAuth := "confirmNewAuth"
  const ApiIncompatible := "ApiIncompatible"

  /** The payload of every mod message: the sender's protocol version, the
      sending installation's identity and an opaque body. */
  datatype AuthDewMessage = AuthDewMessage(
    apiMajor: Int32,
    apiMinor: Int32,
    apiPatch: Int32,
    senderId: string,
    body: string)

  /** A message as this client builds it: API version 1.0.0 (the property
      initialisers) and the given identity and body. */
  function NewMessage(senderId: string, body: string): AuthDewMessage {
    AuthDewMessage(1, 0, 0, senderId, body)
  }

  /** A received mod message with the event's metadata: the type tag, the mod
      that sent it and the player it came from. */
  datatype Received = Received(
    msgType: string,
    fromModId: string,
    fromPlayerId: PlayerId,
    message: AuthDewMessage)

  /** What the game answers at the moment a message is handled: whether this
      player hosts the session, whether the sending player is the host, and
      the local farmer's name. */
  datatype MessageContext = MessageContext(
    isMainPlayer: bool,
    senderIsHost: bool,
    playerName: string)

  /** What the game answers at an update tick: whether the player is free,
      whether this tick is a one-second tick, and the local farmer's name. */
  datatype TickContext = TickContext(
    isPlayerFree: bool,
    isOneSecond: bool,
    playerName: string)

  /** A message handed to the multiplayer API: payload, type tag, the one
      target mod and the one target player. */
  datatype Outgoing = Outgoing(
    message: AuthDewMessage,
    msgType: string,
    receiverModId: string,
    receiverId: PlayerId)

  /** The two log lines that are written once per episode rather than once
      per message. */
  datatype Notice = MainPlayerDisabled | IncompatibleApi

  /** The outgoing message a send builds: a fresh payload carrying the local
      identity, with `text` as body, addressed to one mod and one player. */
  function SendModMessage(senderId: string, text: string, msgType: string,
                          receiverModId: string, receiverId: PlayerId): (o: Outgoing)
    ensures o.message == NewMessage(senderId, text)
    ensures o.msgType == msgType && o.receiverModId == receiverModId && o.receiverId == receiverId
    ensures IsApiCompatible(o.message)
  {
    Outgoing(NewMessage(senderId, text), msgType, receiverModId, receiverId)
  }

  /** A message is accepted when its major version is at least 1 and its minor
      and patch versions are not negative. */
  predicate IsApiCompatible(m: AuthDewMessage) {
    m.apiMajor >= 1 && m.apiMinor >= 0 && m.apiPatch >= 0
  }

  lemma ApiCompatibleExactly(m: AuthDewMessage)
    ensures IsApiCompatible(m) <==> (m.apiMajor >= 1 && m.apiMinor >= 0 && m.apiPatch >= 0)
    // the minor and patch checks reject something that the major check lets through
    ensures !IsApiCompatible(AuthDewMessage(1, -1, 0, m.senderId, m.body))
    ensures !IsApiCompatible(AuthDewMessage(1, 0, -1, m.senderId, m.body))
    ensures !IsApiCompatible(AuthDewMessage(0, 0, 0, m.senderId, m.body))
    ensures IsApiCompatible(NewMessage(m.senderId, m.body))
  {
  }

  /** The single pending-creation slot: the player that asked for the new
      code, the server installation it belongs to, the farmer name at the time
      of the request and the code itself.  Requester 0 means "empty". */
  datatype Pending = Pending(
    requester: PlayerId,
    serverId: string,
    farmerName: string,
    authCode: string)

  /** The slot's empty value: the default key/value pair, with key 0. */
  const NoPending := Pending(0, "", "", "")

  predicate IsEmptySlot(p: Pending) {
    p.requester == 0
  }

  /** serverId -> (farmerName -> authCode) */
  type AuthTable = map<string, map<string, string>>

  /** serverId -> inviteCode */
  type InviteTable = map<string, string>

  /** Everything a client remembers between events. */
  datatype ClientState = ClientState(
    clientAuthTable: AuthTable,
    inviteCodeTable: InviteTable,
    senderId: string,
    isServer: bool,
    apiCompatible: bool,
    pending: Pending)

  /** What one step produces: the new state, at most one sent message and at
      most one of the one-shot log lines. */
  datatype StepResult = StepResult(next: ClientState, sent: Option<Outgoing>, notice: Option<Notice>)

  /** A reply to the player a message came from, addressed to the server mod. */
  function Reply(st: ClientState, e: Received, text: string, msgType: string): Outgoing {
    SendModMessage(st.senderId, text, msgType, ServerModId, e.fromPlayerId)
  }

  /** The outcome of the chain of gates every received message goes through,
      in the order they are applied. */
  datatype Verdict = FromMainPlayer | NotFromHost | ForeignMod | Incompatible | Accepted

  function Screen(e: Received, ctx: MessageContext): (v: Verdict)
    ensures v == FromMainPlayer <==> ctx.isMainPlayer
    ensures v == NotFromHost <==> !ctx.isMainPlayer && !ctx.senderIsHost
    ensures v == ForeignMod <==> !ctx.isMainPlayer && ctx.senderIsHost && e.fromModId != ServerModId
    ensures v == Accepted <==>
      !ctx.isMainPlayer && ctx.senderIsHost && e.fromModId == ServerModId && IsApiCompatible(e.message)
  {
    if ctx.isMainPlayer then FromMainPlayer
    else if !ctx.senderIsHost then NotFromHost
    else if e.fromModId != ServerModId then ForeignMod
    else if !IsApiCompatible(e.message) then Incompatible
    else Accepted
  }

  /** The state every accepted message is dispatched in: the client role is
      confirmed and the incompatibility episode is over. */
  function AcceptedState(st: ClientState): ClientState {
    st.(isServer := false, apiCompatible := true)
  }

  /** Receiving one mod message. */
  function OnMessage(st: ClientState, e: Received, ctx: MessageContext): (r: StepResult)
    // no message ever writes the invite table, the auth table or the identity
    ensures r.next.inviteCodeTable == st.inviteCodeTable
    ensures r.next.clientAuthTable == st.clientAuthTable
    ensures r.next.senderId == st.senderId
    // every reply goes back to the sending player's server mod, as version 1.0.0
    ensures r.sent.Some? ==>
      && r.sent.value.receiverId == e.fromPlayerId
      && r.sent.value.receiverModId == ServerModId
      && r.sent.value.message == NewMessage(st.senderId, r.sent.value.message.body)
    // only an accepted createNewAuth touches the pending slot
    ensures r.next.pending != st.pending ==> Screen(e, ctx) == Accepted && e.msgType == CreateNewAuth
    // a one-shot line is written only on the transition into its episode
    ensures r.notice == Some(MainPlayerDisabled) <==> ctx.isMainPlayer && !st.isServer
    ensures r.notice == Some(IncompatibleApi) <==> Screen(e, ctx) == Incompatible && st.apiCompatible
  {
    match Screen(e, ctx)
    case FromMainPlayer =>
      StepResult(st.(isServer := true), None, if st.isServer then None else Some(MainPlayerDisabled))
    case NotFromHost => StepResult(st, None, None)
    case ForeignMod => StepResult(st, None, None)
    case Incompatible =>
      StepResult(st.(apiCompatible := false), Some(Reply(st, e, "", ApiIncompatible)),
                 if st.apiCompatible then Some(IncompatibleApi) else None)
    case Accepted => Dispatch(AcceptedState(st), e, ctx.playerName)
  }

  /** Acting on an accepted message according to its type. */
  function Dispatch(st: ClientState, e: Received, playerName: string): StepResult {
    var server := e.message.senderId;
    if e.msgType == AuthRequest then
      if server in st.clientAuthTable then
        if playerName !in st.clientAuthTable[server] then
          StepResult(st, None, None)  // an error is logged, nothing is sent
        else
          StepResult(st, Some(Reply(st, e, st.clientAuthTable[server][playerName], AuthResponse)), None)
      else
        StepResult(st, Some(Reply(st, e, "", NoAuthAvailable)), None)
    else if e.msgType == InviteCodeRequest then
      if server in st.inviteCodeTable then
        StepResult(st, Some(Reply(st, e, st.inviteCodeTable[server], InviteCodeResponse)), None)
      else
        StepResult(st, Some(Reply(st, e, "", NoInviteCodeAvailable)), None)
    else if e.msgType == CreateNewAuth then
      StepResult(st.(pending := Pending(e.fromPlayerId, server, playerName, e.message.body)), None, None)
    else
      StepResult(st, None, None)  // unknown type, ApiIncompatible included: logged only
  }

  /** The periodic update tick: commit the pending creation, if any. */
  function OnTick(st: ClientState, t: TickContext): (r: StepResult)
    ensures r.notice == None
    ensures r.next.inviteCodeTable == st.inviteCodeTable
    ensures r.next.senderId == st.senderId
    ensures r.next.isServer == st.isServer && r.next.apiCompatible == st.apiCompatible
    // a tick either does nothing at all, or commits and empties the slot
    ensures (r.next == st && r.sent == None)
         || (!IsEmptySlot(st.pending) && IsEmptySlot(r.next.pending) && r.sent.Some?)
    // the one message a tick sends confirms to the requester of the creation
    ensures r.sent.Some? ==>
      && r.sent.value.msgType == ConfirmNewAuth
      && r.sent.value.receiverId == st.pending.requester
      && r.sent.value.receiverModId == ServerModId
      && r.sent.value.message == NewMessage(st.senderId, t.playerName)
    // only the pending server's entry can change
    ensures r.next.clientAuthTable.Keys == st.clientAuthTable.Keys + (r.next.clientAuthTable.Keys * {st.pending.serverId})
    ensures forall s :: s in st.clientAuthTable && s != st.pending.serverId ==>
      r.next.clientAuthTable[s] == st.clientAuthTable[s]
  {
    if !t.isPlayerFree || !t.isOneSecond || IsEmptySlot(st.pending) then
      StepResult(st, None, None)
    else
      var p := st.pending;
      StepResult(
        st.(clientAuthTable := st.clientAuthTable[p.serverId := map[t.playerName := p.authCode]],
            pending := NoPending),
        Some(SendModMessage(st.senderId, t.playerName, ConfirmNewAuth, ServerModId, p.requester)),
        None)
  }

  // ---------------------------------------------------------------------
  // The behaviour of one message, gate by gate and type by type.

  lemma MainPlayerIgnoresMessages(st: ClientState, e: Received, ctx: MessageContext)
    requires ctx.isMainPlayer
    ensures var r := OnMessage(st, e, ctx);
      && r.next == st.(isServer := true)
      && r.sent == None
  {
  }

  lemma NonHostOrForeignModIgnored(st: ClientState, e: Received, ctx: MessageContext)
    requires !ctx.isMainPlayer
    requires !ctx.senderIsHost || e.fromModId != ServerModId
    ensures OnMessage(st, e, ctx) == StepResult(st, None, None)
  {
  }

  lemma IncompatibleRepliedEveryTime(st: ClientState, e: Received, ctx: MessageContext)
    requires !ctx.isMainPlayer && ctx.senderIsHost && e.fromModId == ServerModId
    requires !IsApiCompatible(e.message)
    ensures var r := OnMessage(st, e, ctx);
      && r.next == st.(apiCompatible := false)
      && r.sent == Some(Outgoing(NewMessage(st.senderId, ""), ApiIncompatible, ServerModId, e.fromPlayerId))
  {
  }

  lemma AuthRequestOutcomes(st: ClientState, e: Received, ctx: MessageContext)
    requires Screen(e, ctx) == Accepted && e.msgType == AuthRequest
    ensures var r := OnMessage(st, e, ctx);
      var s, p := e.message.senderId, ctx.playerName;
      && r.next == AcceptedState(st)
      && (s !in st.clientAuthTable ==> r.sent == Some(Reply(st, e, "", NoAuthAvailable)))
      && (s in st.clientAuthTable && p in st.clientAuthTable[s] ==>
            r.sent == Some(Reply(st, e, st.clientAuthTable[s][p], AuthResponse)))
      && (s in st.clientAuthTable && p !in st.clientAuthTable[s] ==> r.sent == None)
  {
  }

  lemma InviteCodeRequestOutcomes(st: ClientState, e: Received, ctx: MessageContext)
    requires Screen(e, ctx) == Accepted && e.msgType == InviteCodeRequest
    ensures var r := OnMessage(st, e, ctx);
      var s := e.message.senderId;
      && r.next == AcceptedState(st)
      && (s in st.inviteCodeTable ==> r.sent == Some(Reply(st, e, st.inviteCodeTable[s], InviteCodeResponse)))
      && (s !in st.inviteCodeTable ==> r.sent == Some(Reply(st, e, "", NoInviteCodeAvailable)))
  {
  }

  lemma CreateNewAuthOverwritesSlot(st: ClientState, e: Received, ctx: MessageContext)
    requires Screen(e, ctx) == Accepted && e.msgType == CreateNewAuth
    ensures var r := OnMessage(st, e, ctx);
      && r.next == AcceptedState(st).(pending := Pending(e.fromPlayerId, e.message.senderId, ctx.playerName, e.message.body))
      && r.sent == None
  {
  }

  lemma UnknownTypeIgnored(st: ClientState, e: Received, ctx: MessageContext)
    requires Screen(e, ctx) == Accepted
    requires e.msgType != AuthRequest && e.msgType != InviteCodeRequest && e.msgType != CreateNewAuth
    ensures OnMessage(st, e, ctx) == StepResult(AcceptedState(st), None, None)
  {
  }

  lemma TickIdle(st: ClientState, t: TickContext)
    requires !t.isPlayerFree || !t.isOneSecond || IsEmptySlot(st.pending)
    ensures OnTick(st, t) == StepResult(st, None, None)
  {
  }

  lemma TickCommits(st: ClientState, t: TickContext)
    requires t.isPlayerFree && t.isOneSecond && !IsEmptySlot(st.pending)
    ensures var r := OnTick(st, t);
      var p := st.pending;
      // the whole inner map is replaced, under the name the farmer has now
      && p.serverId in r.next.clientAuthTable
      && r.next.clientAuthTable[p.serverId] == map[t.playerName := p.authCode]
      && r.next.clientAuthTable.Keys == st.clientAuthTable.Keys + {p.serverId}
      && r.next.pending == NoPending
      && r.sent == Some(Outgoing(NewMessage(st.senderId, t.playerName), ConfirmNewAuth, ServerModId, p.requester))
  {
  }

  // ---------------------------------------------------------------------
  // The installation identity.

  /** Which sender id the client uses and what it writes to the identity
      document. */
  datatype IdentityChoice = IdentityChoice(id: string, written: Option<string>)

  /** Get-or-create of the installation identity: the stored one when the
      document exists, otherwise a freshly generated one that is then
      written.  `generated` stands for the random generator's output. */
  function SenderIdentity(stored: Option<string>, generated: string): (c: IdentityChoice)
    ensures stored.Some? ==> c.id == stored.value && c.written == None
    ensures stored.None? ==> c.id == generated && c.written == Some(generated)
  {
    match stored
    case Some(id) => IdentityChoice(id, None)
    case None => IdentityChoice(generated, Some(generated))
  }

  /** The document after get-or-create holds the chosen id. */
  function StoredAfter(stored: Option<string>, c: IdentityChoice): Option<string> {
    if c.written.Some? then c.written else stored
  }

  /** Once created, the identity is the same at every later start, whatever
      the generator produces then. */
  lemma SenderIdentityStable(stored: Option<string>, g1: string, g2: string)
    ensures var first := SenderIdentity(stored, g1);
      var again := SenderIdentity(StoredAfter(stored, first), g2);
      && StoredAfter(stored, first) == Some(first.id)
      && again.id == first.id
      && again.written == None
  {
  }
}
