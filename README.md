# Chat relay: user store, message log and relay

A model of the logic in `chat/server.js` of a two-party chat relay. Clients
register or log in by username over HTTP, fetch the contact list, and
exchange messages over a socket connection. The server keeps two in-memory
arrays. `users` holds `{username, id}` records and is rewritten to a users
file after every registration. `messages` holds every chat message
`{fromId, toId, text, timestamp}` received since start-up.

The model has four modules:

- `ChatTypes` (`chat_types.dfy`): users, messages, the three error replies
  with their texts, and the option/result wrappers.
- `UserStore` (`user_store.dfy`): the `users.find` lookup by username as a
  first-match function, the uniqueness of usernames, and `Date.now().toString()`
  as the decimal text of a clock reading.
- `MessageLog` (`message_log.dfy`): the `join` history filter, its
  characterisation as the in-order subsequence of the log that involves the
  user, and the two-room fan-out of a relayed message.
- `ChatServer` (`chat_server.dfy`): class `Server`, whose fields `users`,
  `persisted` (the users file) and `messages` are updated in place by the
  handlers, and class `Connection`, whose `userId` and joined `rooms` are
  set by `join`. Each handler is a method. The clock reading (`Date.now()`)
  is a parameter. What a handler sends back or emits is returned: the reply,
  the history, or the stamped message with the ordered list of rooms it is
  emitted to.

Three points where a reader might expect otherwise:

- One might expect a message addressed to `u1` to reach a connection in room
  `u1` exactly once. The code emits once to the receiver's
  room and then once to the sender's room. A connection in both rooms gets
  two copies, and so does the sender of a message to itself.
  `RelayDeliveries` states the count the code gives.
- One might expect user ids to be unique. An id is the clock reading in
  decimal, so two registrations in the same millisecond get the same id.
  Only usernames are kept distinct.
- A users file read at start-up is taken as it is, so `Server.Load` gives
  distinct usernames only when the file had them.

## Model

| member | source | states |
|---|---|---|
| `UserStore.FirstIndex` | chat/server.js:57 | the lookup stops at the first user with exactly that username, and finds none iff no user has it |
| `UserStore.Find` | chat/server.js:44 | the lookup returns a user iff one has that username, and the one it returns is the first such user in the array |
| `UserStore.FindUnique` | chat/server.js:57-58 | when usernames are distinct, looking up any stored user's name returns that very user |
| `UserStore.AppendKeepsUnique` | chat/server.js:44-49 | appending a user whose name is not yet present keeps all usernames pairwise distinct |
| `UserStore.FindAfterAppend` | chat/server.js:48-58 | after a registration appends a new name, a login with that name finds the new user, and every other login gives the same answer as before |
| `UserStore.Decimal` | chat/server.js:48 | the id text of a clock reading is a non-empty string of decimal digits with no leading zero |
| `UserStore.DecimalValue` | chat/server.js:48 | the id text read back as a decimal number is the clock reading itself |
| `UserStore.DecimalInjective` | chat/server.js:48 | two registrations get the same id exactly when they read the same clock value |
| `MessageLog.History` | chat/server.js:84-86 | the history holds only messages of the log that the user sends or receives, and every such message of the log is in it |
| `MessageLog.Indices` | chat/server.js:84-86 | the positions of the messages that involve the user, strictly increasing, covering every such position |
| `MessageLog.HistoryIsSubsequence` | chat/server.js:84-87 | the history is exactly the log's messages at those positions, in log order: the in-order subsequence of the messages where the user is sender or receiver |
| `MessageLog.HistoryAppend` | chat/server.js:84-94 | logging a message adds it to the end of the history of its sender and its receiver and leaves every other user's history as it was |
| `MessageLog.Deliveries` | chat/server.js:97-100 | a connection receives at most one copy per emit, none iff it is in none of the target rooms, one per emit iff it is in all of them |
| `MessageLog.DeliveriesSingle` | chat/server.js:97 | one emit to a room reaches a connection once if it joined that room and not at all otherwise |
| `MessageLog.DeliveriesConcat` | chat/server.js:97-100 | the copies received from successive emits add up: one per emit to a room the connection joined |
| `MessageLog.RelayDeliveries` | chat/server.js:96-100 | a relayed message reaches a connection once per participant room it has joined: zero, one, or two copies when it joined both or the sender wrote to itself |
| `ChatServer.Connection.constructor` | chat/server.js:74-79 | a new connection has no user id until `join` and is in no user room |
| `ChatServer.Server.constructor` | chat/server.js:26-32 | with no users file, the server starts with no users, an empty file and an empty log |
| `ChatServer.Server.Load` | chat/server.js:27-28 | with a users file, its contents become the user list unchecked, and the invariant holds iff the file's usernames are distinct |
| `ChatServer.Server.Register` | chat/server.js:40-51 | an empty username fails with "Username required" and a present one with "Username exists", both leaving users and the file unchanged; otherwise exactly one user with that name and the clock's decimal id is appended, earlier entries untouched, the file is rewritten to the new list, and distinct usernames are preserved |
| `ChatServer.Server.Login` | chat/server.js:55-59 | succeeds iff some user has exactly that username and returns the first such user; otherwise fails with "User not found"; nothing is modified; with distinct usernames, it returns the one user with that name |
| `ChatServer.Server.ListUsers` | chat/server.js:63-65 | returns every user in registration order without changing anything |
| `ChatServer.Server.Join` | chat/server.js:78-88 | records the user id on the connection, adds its room, and returns the user's history; the log is not changed, so repeated joins return the same history |
| `ChatServer.Server.Relay` | chat/server.js:91-101 | appends exactly one message, the input with its timestamp set to the clock reading, earlier messages untouched; emits to the receiver's room and then the sender's, both even when equal; the new message ends both participants' histories and no other history changes |

## Left out

- HTTP routing, JSON parsing, static files, status codes and response
  encoding are framework plumbing. Replies are modelled as `Result` values.
- Writing the users file is modelled only as the `persisted` snapshot, which
  is replaced by the whole user list after each successful registration. File
  system errors and the directory creation at start-up are not modelled.
- The transport library's internals are not modelled. That covers the
  connection lifecycle, the room each socket joins under its own socket id,
  and delivery to other connections. Emits are returned as values, and
  `Deliveries` counts what one connection receives.
- The `disconnect` handler only logs, so it is left out with the other
  `console.log` tracing and the CORS settings.
- `Date.now()` is a parameter (`now`) of `Register` and `Relay`.
- UserStore.Decimal: gives plain digits for every reading, while JavaScript
  switches to exponent form from 1e21 up; clock readings stay far below that.
- Usernames and payload fields are strings. The JavaScript falsiness of
  `!username` for non-string or absent payloads is reduced to the empty
  string. Extra fields a client adds to a chat message are dropped.
- The port and environment settings do not affect the logic.
