# AuthDew client — a Dafny model

AuthDew is a Stardew Valley mod pair that lets a multiplayer server recognise
returning farmers. The server side (mod `thfr.AuthDew-server`) hands out
authorization codes. The client side, modelled here, stores the codes and
presents them again on request. The client keeps four pieces of state:

- `clientAuthTable`: server installation id ↦ (farmer name ↦ auth code);
- `inviteCodeTable`: server installation id ↦ invite code;
- two mode flags, `isServer` and `ApiCompatibleBool`;
- a single pending-creation slot. Requester id 0 means the slot is empty.

Three things act on that state:

- the mod-message handler, which applies four gates in order and then dispatches on the message type;
- the update-tick handler, which commits the pending creation;
- the pure version check.

Files:

- `wrappers.dfy`: module `Wrappers`, the `Option` type.
- `auth_dew.dfy`: module `AuthDew`. It holds the wire shapes, the client state as a value, and the steps `OnMessage` and `OnTick` as functions from the old state to the new one plus at most one outgoing message. It also has lemmas for the gates (one for the main-player gate, one for the host and mod-id gates, one for the version gate) and one per message type, and the get-or-create of the installation identity.
- `mod_entry.dfy`: module `Client`, the class `ModEntry`. Its fields are those of the C# object. Its handlers assign them in place, and each handler is proved to do exactly what the matching step in `AuthDew` does.
- `sessions.dfy`: module `Sessions`. It runs a client through any sequence of messages and ticks and proves what holds of every such sequence, plus whole exchanges such as create → tick → authRequest.

Every host fact is a parameter of the step that reads it. These are whether
the local player is the main player, whether the sender is the host, the
sending mod and player, the message type, the farmer's current name, whether
the player is free, and whether the tick is a one-second tick. Player ids are
C# `long`s and version numbers are C# `int`s, both as bounded subset types of
`int`.

What the code does, and the model with it:

- The version check rejects negative minor and patch numbers. The check is `major >= 1 && minor >= 0 && patch >= 0` on signed integers, so those two clauses are not vacuous.
- The `ApiIncompatible` reply is sent for every incompatible message. Only the error log line is one-shot.
- A tick commits under the farmer's name at tick time, not the name saved in the slot. It also replaces the server's whole inner map instead of adding one entry.
- Requester id 0 doubles as "empty slot". So a `createNewAuth` from player 0 is stored but never committed.

## Model

| member | source | states |
|---|---|---|
| `AuthDew.SendModMessage` | AuthDew/ModEntry.cs:180-187 | an outgoing message is a fresh version 1.0.0 payload with the local sender id and the given body, sent with exactly the given type to exactly the given mod and player; its version passes the client's own version check |
| `AuthDew.ApiCompatibleExactly` | AuthDew/ModEntry.cs:168-178 | a message is compatible exactly when major ≥ 1, minor ≥ 0 and patch ≥ 0; versions 1.-1.0, 1.0.-1 and 0.0.0 are rejected, and 1.0.0 is accepted |
| `AuthDew.Screen` | AuthDew/ModEntry.cs:67-93 | the gates apply in the order main player, host sender, mod id, version; a message is accepted exactly when it is not from the main player's own session, comes from the host, comes from `thfr.AuthDew-server` and is compatible |
| `AuthDew.OnMessage` | AuthDew/ModEntry.cs:52-166 | no message writes either table or the identity; every reply goes to the sending player's server mod as a 1.0.0 message with the local id; only an accepted `createNewAuth` changes the slot; the main-player warning is written exactly when `isServer` was false, and the version error exactly when the message is incompatible and `ApiCompatibleBool` was true |
| `AuthDew.MainPlayerIgnoresMessages` | AuthDew/ModEntry.cs:67-76 | on the main player, a message only sets `isServer` and sends nothing |
| `AuthDew.NonHostOrForeignModIgnored` | AuthDew/ModEntry.cs:78-91 | a message from a non-host player or from another mod changes nothing and sends nothing |
| `AuthDew.IncompatibleRepliedEveryTime` | AuthDew/ModEntry.cs:93-107 | an incompatible message that passes the other gates clears `ApiCompatibleBool`, leaves everything else as it was and is answered with one empty `ApiIncompatible` to the sender, whatever the flag was |
| `AuthDew.AuthRequestOutcomes` | AuthDew/ModEntry.cs:109-136 | an accepted `authRequest` sets `isServer := false` and `ApiCompatibleBool := true`; it replies `noAuthAvailable` with "" for an unknown server, `authResponse` with the stored code when the farmer is known, and nothing when the server is known but the farmer is not |
| `AuthDew.InviteCodeRequestOutcomes` | AuthDew/ModEntry.cs:137-146 | an accepted `inviteCodeRequest` replies `inviteCodeResponse` with the stored invite code, or `noInviteCodeAvailable` with "" when the server has none |
| `AuthDew.CreateNewAuthOverwritesSlot` | AuthDew/ModEntry.cs:147-160 | an accepted `createNewAuth` overwrites the slot with (sender player, sender id, current farmer name, body), discarding what was there; it sends nothing and changes no table |
| `AuthDew.UnknownTypeIgnored` | AuthDew/ModEntry.cs:161-164 | an accepted message of any other type, `ApiIncompatible` included, only resets the two flags and sends nothing |
| `AuthDew.OnTick` | AuthDew/ModEntry.cs:212-229 | a tick never touches the invite table, the identity or the flags; either it changes nothing and sends nothing, or it empties a non-empty slot and sends one `confirmNewAuth` with the farmer's name to the slot's requester; only the pending server's entry of the auth table can change |
| `AuthDew.TickIdle` | AuthDew/ModEntry.cs:214-216 | when the player is not free, the tick is not a one-second tick, or the slot's key is 0, nothing changes and nothing is sent |
| `AuthDew.TickCommits` | AuthDew/ModEntry.cs:217-228 | otherwise the pending server's entry becomes exactly {current name ↦ code}, no other key appears, the slot is reset to key 0, and exactly one `confirmNewAuth` goes to the requester |
| `AuthDew.SenderIdentity` | AuthDew/ModEntry.cs:37-46 | the stored identity is used when the document exists and nothing is written; otherwise the generated one is used and written |
| `AuthDew.SenderIdentityStable` | AuthDew/ModEntry.cs:37-46 | after the first start the document holds the identity, and every later start returns it and writes nothing, whatever the generator yields |
| `Client.ModEntry.constructor` | AuthDew/ModEntry.cs:29-50 | start-up loads each table or starts it empty, picks the identity by get-or-create, clears `isServer`, sets `ApiCompatibleBool`, and leaves the slot empty |
| `Client.ModEntry.HandleMessage` | AuthDew/ModEntry.cs:52-166 | the in-place handler leaves the fields, the sent message and the one-shot line exactly as `OnMessage` describes |
| `Client.ModEntry.Tick` | AuthDew/ModEntry.cs:212-229 | the in-place tick leaves the fields and the sent message exactly as `OnTick` describes |
| `Client.ModEntry.Saved` | AuthDew/ModEntry.cs:207-210 | the saved document is the current auth table; the invite table and the slot are not saved |
| `Sessions.Run` | AuthDew/ModEntry.cs:31-32 | events are handled one at a time, in order; a session of n events sends at most n messages and writes at most n one-shot lines |
| `Sessions.RunKeepsInvitesAndIdentity` | AuthDew/ModEntry.cs:52-229 | no sequence of messages and ticks ever changes the invite table or the sender id |
| `Sessions.RunSendsWellFormed` | AuthDew/ModEntry.cs:180-187 | every message a session sends is addressed to `thfr.AuthDew-server` and is a 1.0.0 message with the installation's id |
| `Sessions.RunAuthKeysOrigin` | AuthDew/ModEntry.cs:147-229 | a server key is in the auth table at the end only if it was there at the start, was the pending server, or was named by an accepted `createNewAuth` from a non-zero player |
| `Sessions.RunWithoutCreationKeepsAuthTable` | AuthDew/ModEntry.cs:214-216 | from an empty slot, with no `createNewAuth` from a non-zero player, the auth table never changes, the slot stays empty and no `confirmNewAuth` is sent; so a creation from player 0 is never committed |
| `Sessions.RunNoticesOneShot` | AuthDew/ModEntry.cs:67-110 | until a message is accepted, the version error line is written at most once (not at all if `ApiCompatibleBool` is already false), and the main-player warning at most once (not at all if `isServer` is already true) |
| `Sessions.RunIncompatibleRepliesEveryTime` | AuthDew/ModEntry.cs:93-107 | n incompatible messages get n `ApiIncompatible` replies, the i-th to the i-th sender, and leave only `ApiCompatibleBool` changed |
| `Sessions.CreateTickAuthRoundTrip` | AuthDew/ModEntry.cs:115-229 | `createNewAuth(s, code)` and then a ready tick store {name ↦ code} under s, empty the slot and confirm to the requester; a following `authRequest` from s is answered with code |
| `Sessions.LastCreateWins` | AuthDew/ModEntry.cs:147-229 | of two `createNewAuth` messages before a tick, only the later is committed and confirmed |
| `Sessions.IncompatibleEpisodes` | AuthDew/ModEntry.cs:93-110 | for the sequence bad, bad, good, bad: three replies, and the error line at the first and the last message only |

## Left out

- SMAPI event wiring and host queries: the subscriptions, `Context`, `Game1.player` and `GetConnectedPlayer` are replaced by the parameters of each step. `GetConnectedPlayer` returning null for a sender that is not connected would throw; that case is not modelled.
- JSON persistence is I/O. The constructor takes the three documents as read (`None` when absent). `SenderIdentity` says what the identity document receives. `Saved` returns the auth-table document. `Entry` reads `senderId.json` twice and the model reads it once.
- `createNewRandomString` is a cryptographic RNG plus `BitConverter` formatting. It is the parameter `generatedId`.
- `SendDirectMessage` is never called.
- Logging: only the two one-shot lines (main player, incompatible version) are modelled, as `Notice`. The model's `HandleMessage` returns them; the other `Monitor.Log` lines are not modelled.
- Deserialisation `e.ReadAs<AuthDewMessage>()` is a library call. The parsed record is the input. Null strings in it are not modelled. A null server id would throw in the dictionary lookups of `authRequest` and `inviteCodeRequest`. In a `createNewAuth` it would be stored in the slot, and every later ready tick would then throw at the table write (AuthDew/ModEntry.cs:220) before the slot is cleared, so the slot would never empty. Neither case is modelled.
- The emptied slot is the default `KeyValuePair`: key 0 and null strings. The model uses key 0 and empty strings. Only the key is read while the slot is empty.
- Concurrency: events arrive one at a time from the game loop, which is what `Sessions.Run` assumes.
