/**
  The mod object of the AuthDew client.  Its fields are the client's state;
  the event handlers update them in place.  Each handler is proved to do
  exactly what the corresponding step of module AuthDew describes, so every
  property proved there about a step holds of the handler.
*/
module Client {
  import opened Wrappers
  import opened AuthDew

  class ModEntry {
    var clientAuthTable: AuthTable
    var inviteCodeTable: InviteTable
    var senderId: string
    var isServer: bool
    var apiCompatibleBool: bool
    var pendingAuthCreationServer: Pending

    /** The object's fields as one value. */
    function State(): ClientState
      reads this
    {
      ClientState(clientAuthTable, inviteCodeTable, senderId, isServer, apiCompatibleBool,
                  pendingAuthCreationServer)
    }

    /** Start-up.  The three documents are passed in as read (None when a
        document does not exist); `generatedId` is the random generator's
        output, used only when no identity is stored. */
    constructor (storedAuthTable: Option<AuthTable>, storedInviteTable: Option<InviteTable>,
                 storedSenderId: Option<string>, generatedId: string)
      ensures clientAuthTable == storedAuthTable.GetOr(map[])
      ensures inviteCodeTable == storedInviteTable.GetOr(map[])
      ensures senderId == SenderIdentity(storedSenderId, generatedId).id
      ensures !isServer && apiCompatibleBool
      ensures IsEmptySlot(pendingAuthCreationServer)
    {
      clientAuthTable := storedAuthTable.GetOr(map[]);
      inviteCodeTable := storedInviteTable.GetOr(map[]);
      senderId := SenderIdentity(storedSenderId, generatedId).id;
      isServer := false;
      apiCompatibleBool := true;
      pendingAuthCreationServer := NoPending;
    }

    /** The message handler: the gates, then the dispatch on the type. */
    method HandleMessage(e: Received, ctx: MessageContext) returns (out: Option<Outgoing>, notice: Option<Notice>)
      modifies this
      ensures var r := OnMessage(old(State()), e, ctx);
        State() == r.next && out == r.sent && notice == r.notice
    {
      out, notice := None, None;

      if ctx.isMainPlayer {
        if !isServer {
          notice := Some(MainPlayerDisabled);
          isServer := true;
        }
        return;
      }

      if !ctx.senderIsHost {
        return;
      }

      if e.fromModId != ServerModId {
        return;
      }

      if !IsApiCompatible(e.message) {
        if apiCompatibleBool {
          notice := Some(IncompatibleApi);
          apiCompatibleBool := false;
        }
        out := Some(SendModMessage(senderId, "", ApiIncompatible, ServerModId, e.fromPlayerId));
        return;
      }

      isServer := false;
      apiCompatibleBool := true;

      var server := e.message.senderId;
      if e.msgType == AuthRequest {
        if server in clientAuthTable {
          if ctx.playerName !in clientAuthTable[server] {
            // no entry for this farmer: an error is logged
          } else {
            out := Some(SendModMessage(senderId, clientAuthTable[server][ctx.playerName], AuthResponse,
                                       ServerModId, e.fromPlayerId));
          }
        } else {
          out := Some(SendModMessage(senderId, "", NoAuthAvailable, ServerModId, e.fromPlayerId));
        }
      } else if e.msgType == InviteCodeRequest {
        if server in inviteCodeTable {
          out := Some(SendModMessage(senderId, inviteCodeTable[server], InviteCodeResponse,
                                     ServerModId, e.fromPlayerId));
        } else {
          out := Some(SendModMessage(senderId, "", NoInviteCodeAvailable, ServerModId, e.fromPlayerId));
        }
      } else if e.msgType == CreateNewAuth {
        pendingAuthCreationServer := Pending(e.fromPlayerId, server, ctx.playerName, e.message.body);
      } else {
        // unknown type: logged only
      }
    }

    /** The update-tick handler: commit the pending creation. */
    method Tick(t: TickContext) returns (out: Option<Outgoing>)
      modifies this
      ensures var r := OnTick(old(State()), t);
        State() == r.next && out == r.sent
    {
      if !t.isPlayerFree || !t.isOneSecond || pendingAuthCreationServer.requester == 0 {
        return None;
      }
      var server := pendingAuthCreationServer.serverId;
      clientAuthTable := clientAuthTable[server := map[]];
      clientAuthTable := clientAuthTable[server := clientAuthTable[server][t.playerName := pendingAuthCreationServer.authCode]];
      out := Some(SendModMessage(senderId, t.playerName, ConfirmNewAuth, ServerModId,
                                 pendingAuthCreationServer.requester));
      pendingAuthCreationServer := NoPending;
    }

    /** The save handler: the document it writes is the auth table, and only
        the auth table. */
    method Saved() returns (authTableDocument: AuthTable)
      ensures authTableDocument == clientAuthTable
    {
      authTableDocument := clientAuthTable;
    }
  }
}
