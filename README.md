# ECWS session and dispatch layer in Dafny

This project models the session and dispatch layer of the ECWS WebSocket RPC
library. A peer sends `{cmd, meta, payload}` messages. The receiving side runs
each one through a gate chain: text, JSON parse, envelope-shape check, command
lookup, payload-shape check, and a duplicate request-id check against the
socket's `openRequests` list. A message that passes reaches the command's
handler. When the handler resolves, its response is stamped with the request
and a `meta` carrying the request id. It is sent as `{request, response: {meta,
payload}}` and the id is released. When the handler rejects, the id is kept.

The listening side keeps a registry of sockets and a table of commands. A new
connection gets a socket id that is not a key of the registry. The socket
enters the registry only when an authorization handler is configured and its
promise resolves. The close event and `removeSocket*` evict it.

The error builder `ECWSError` starts out as a generic internal error (500,
"Internal server error."). `getJSON` shows the real status and message only
once `passthrough()` has been called.

The source has near-duplicate drafts of the same logic, and each is modelled
against its own lines:

- `ECWSErrors` (src/shared/ECWSError.ts) holds the error fields as a value, the
  fluent calls as steps over it, and the `ECWSError` class whose methods
  update those fields in place.
- `Messages` holds the inbound message and its envelope check, commands, the
  request (`Request`), the response (`Response`, a class because the dispatch
  code assigns its fields), the reply envelope, and what one `send` does.
- `Dispatch` holds the gate chain (`Admit`) shared by all drafts, the
  `openRequests` list operations, and the lemmas about them.
- `ECWSSocketModel` (src/shared/ECWSSocket.ts) and `ECWSServerModel`
  (src/server/ECWSServer.ts) are the packaged server.
- `DraftServer` (src/Server.ts) is the single-file draft of the server.
- `SocketClient` (src/client/ECWSSocketClient.ts) is the connecting side.

Outside collaborators are parameters:

- `parse: string -> Option<Json>` stands for `JSON.parse`. None means it threw.
- `encode: ReplyEnvelope -> Option<Bytes>` stands for `JSON.stringify` plus
  UTF-8 encoding. None means it threw.
- `utf8: Bytes -> string` stands for `Buffer.toString("utf8")`.
- `conforms(types, payload)` stands for a command's typit payload validator.
- `random(n)` is the id returned by the n-th `ECGenerator.randomId()` call.
- `now` stands for `Date.now()`.

`ws.send` appends to the `outbox` of a `Transport.WebSocket` object. Events
(`connection`, `message`, `close`, and the settling of promises) are explicit
method calls. An async handler becomes two steps: `HandleMessage` starts it,
and later `HandlerResolved` or `HandlerRejected` settles it. The gate outcome
returned by `HandleMessage` stands for what was handed to the diagnostic sink.

Each socket keeps a ghost set `pending` of the requests whose handler has
started and not yet settled. A settle step applies only to a pending request
and removes it, so each dispatch settles at most once, and a reply is sent only
for a dispatched request.

The files src/shared/ECWSRequest.ts, src/shared/ECWSResponse.ts and
src/shared/ECWSCommand.ts are not part of this model. The model assumes that
the ECWS drafts' request, response and command classes behave like the
`Request`, `Response` and `Command` of src/Server.ts, which are defined once in
`Messages`.

## Model

| member | source | states |
|---|---|---|
| ECWSErrors.Initial | src/shared/ECWSError.ts:32-34 | a fresh error has status 500, message "Internal server error." and pass-through off |
| ECWSErrors.CodeSetsStatusOnly | src/shared/ECWSError.ts:36-41 | `code(v)` sets the status to v and leaves the message and the flag alone |
| ECWSErrors.MsgSetsMessageOnly | src/shared/ECWSError.ts:43-48 | `msg(s)` sets the message to s and leaves the status and the flag alone |
| ECWSErrors.PassthroughIdempotent | src/shared/ECWSError.ts:50-55 | `passthrough()` turns the flag on, leaves status and message alone, and a second call changes nothing |
| ECWSErrors.ChainFields | src/shared/ECWSError.ts:36-55 | after any chain of fluent calls, the status and message are those of the last `code`/`msg` call, and the flag is on iff `passthrough` was called or it was already on |
| ECWSErrors.OrderIrrelevant | src/shared/ECWSError.ts:36-62 | two chains that agree on the last status, the last message and the use of `passthrough` reach the same fields and the same `getJSON`, whatever the order of calls |
| ECWSErrors.NoLeakWithoutPassthrough | src/shared/ECWSError.ts:57-62 | without `passthrough`, `getJSON` of a fresh error is {500, "Internal server error."} whatever `code`/`msg` set |
| ECWSErrors.PassthroughShowsFields | src/shared/ECWSError.ts:57-62 | with `passthrough`, `getJSON` shows exactly the last status and message set |
| ECWSErrors.ECWSError.constructor | src/shared/ECWSError.ts:32-34 | a new error object is in the initial state |
| ECWSErrors.ECWSError.Init | src/shared/ECWSError.ts:70-74 | `init()` returns a new object in the initial state |
| ECWSErrors.ECWSError.Code | src/shared/ECWSError.ts:36-41 | returns the same object; the new fields are one `code` step from the old ones |
| ECWSErrors.ECWSError.Msg | src/shared/ECWSError.ts:43-48 | returns the same object; the new fields are one `msg` step from the old ones |
| ECWSErrors.ECWSError.Passthrough | src/shared/ECWSError.ts:50-55 | returns the same object; the new fields are one `passthrough` step from the old ones |
| ECWSErrors.ECWSError.GetJSON | src/shared/ECWSError.ts:57-62 | reads the fields without changing them; {status, message} with pass-through on, {500, "Internal server error."} with it off |
| Transport.WebSocket.Send | src/shared/ECWSSocket.ts:75 | `ws.send` appends exactly the given frame to what the transport has sent |
| Messages.MessageText | src/server/ECWSServer.ts:61-66 | a Buffer is decoded as UTF-8, a string is taken as is, and any other data becomes "{}" |
| Messages.CheckMessage | src/server/ECWSServer.ts:77-84 | a parsed value passes the envelope check iff it is an object with a string `cmd`, an object `meta` and an object `payload`, and the message it yields carries exactly those three |
| Messages.CheckMessageRoundTrip | src/server/ECWSServer.ts:77-84 | every message written as its own JSON object passes the check and comes back unchanged |
| Messages.Request.Id | src/server/ECWSServer.ts:94 | the request id is the value at `meta.id`, or undefined when the key is absent |
| Messages.NewRequest | src/Server.ts:78-92 | a request takes its name from the matched command and its meta and payload unchanged from the message |
| Messages.Response.constructor | src/Server.ts:94-104 | a response starts with only its payload; request and meta are undefined |
| Messages.Envelope | src/shared/ECWSSocket.ts:51-61 | no envelope without a request or a meta; otherwise `request`, `response.meta` and `response.payload` are copied from the response, and `error` is never set |
| Messages.Transmit | src/shared/ECWSSocket.ts:49-77 | the outcome of `send`: missing request, then missing meta, then encoding failure, each sending nothing; otherwise exactly one frame, the encoding of the envelope |
| Dispatch.RemoveValue | src/server/ECWSServer.ts:108 | `removeValue` removes one occurrence of the id, if present, and keeps every other entry |
| Dispatch.RemoveValueNoDuplicates | src/server/ECWSServer.ts:96-108 | on a duplicate-free list, `removeValue` leaves the id absent, keeps every other id, and keeps the list duplicate-free |
| Dispatch.RemoveAppended | src/server/ECWSServer.ts:97-108 | removing an id just appended to a list that lacked it gives back the list |
| Dispatch.Admit | src/server/ECWSServer.ts:68-97 | each gate outcome (parse failure, invalid envelope, unknown command, invalid payload, duplicate id, dispatch) happens exactly when the earlier gates pass and that one fails; a dispatched or duplicate request is built from the message and the matched command; dispatch happens iff its id is not open |
| Dispatch.AdmitKeepsNoDuplicates | src/server/ECWSServer.ts:96-97 | adding the id only after the duplicate check keeps `openRequests` duplicate-free |
| Dispatch.RejectionsChangeNothing | src/server/ECWSServer.ts:84-96 | a message stopped at any gate leaves `openRequests` unchanged; all stops are reported except an unknown command, which returns silently |
| Dispatch.DispatchedRequestMatchesMessage | src/server/ECWSServer.ts:86-93 | the handler receives the message's payload and meta unchanged, and its `cmd` when commands are filed under their own names |
| Dispatch.OpenIdBlocksResend | src/server/ECWSServer.ts:96-114 | while a dispatched id stays open (pending, or after a rejection that never releases it), the same message is rejected as a duplicate |
| Dispatch.CompletionReleasesId | src/server/ECWSServer.ts:96-108 | dispatch followed by successful completion restores `openRequests`, so the same message is dispatched again |
| ECWSSocketModel.ECWSSocket.constructor | src/shared/ECWSSocket.ts:40-47 | a new socket stores the given id, transport and request and starts with no open requests |
| ECWSSocketModel.ECWSSocket.Send | src/shared/ECWSSocket.ts:49-77 | the outcome is `Transmit` of the response's fields, and the transport gets that outcome's frame and nothing else |
| ECWSServerModel.ECWSServer.constructor | src/server/ECWSServer.ts:44-52 | a new server has no sockets, no commands and no authorization handler |
| ECWSServerModel.ECWSServer.HandleNewConnection | src/server/ECWSServer.ts:54-145 | the new socket has an id that is not a registry key and no open requests; the registry is untouched; it awaits authorization only if a handler is configured |
| ECWSServerModel.ECWSServer.AuthorizationResolved | src/server/ECWSServer.ts:133-135 | a resolved authorization inserts the socket under its id, the only insertion into the registry |
| ECWSServerModel.ECWSServer.AuthorizationRejected | src/server/ECWSServer.ts:137-141 | a rejected authorization leaves the registry untouched |
| ECWSServerModel.ECWSServer.HandleMessage | src/server/ECWSServer.ts:59-97 | the outcome is `Admit` on the message text; `openRequests` gains the id and `pending` gains the request only on dispatch; the socket invariant (no duplicate ids, every pending id open) is kept; registry membership plays no part |
| ECWSServerModel.ECWSServer.HandlerResolved | src/server/ECWSServer.ts:99-108 | applies only to a pending request, which it removes; the response gets the original request and meta {now, requestId}, is sent once if it encodes, and the id is released |
| ECWSServerModel.ECWSServer.HandlerRejected | src/server/ECWSServer.ts:110-114 | applies only to a pending request, which it removes; `openRequests` is left as it was, so the id stays open |
| ECWSServerModel.ECWSServer.HandleClose | src/server/ECWSServer.ts:124-129 | the close event evicts the socket's id from the registry |
| ECWSServerModel.ECWSServer.GenerateNewSocketId | src/server/ECWSServer.ts:147-154 | the id returned is the first draw that is not a registry key |
| ECWSServerModel.ECWSServer.SetAuthorizationHandler | src/server/ECWSServer.ts:156-160 | the handler is configured |
| ECWSServerModel.ECWSServer.RemoveSocket | src/server/ECWSServer.ts:162-166 | the socket's id is no longer a key, other bindings are unchanged, and removing an absent id is a no-op |
| ECWSServerModel.ECWSServer.RemoveSocketById | src/server/ECWSServer.ts:168-172 | the id is no longer a key, other bindings are unchanged, and removing an absent id is a no-op |
| ECWSServerModel.ECWSServer.AddCommand | src/server/ECWSServer.ts:174-178 | the command replaces any binding of its name, and other commands are unchanged |
| ECWSServerModel.ECWSServer.Register | src/server/ECWSServer.ts:180-184 | a command built from the parts replaces any binding of that name, and other commands are unchanged |
| ECWSServerModel.ECWSServer.GetSocket | src/server/ECWSServer.ts:186-190 | returns the registered socket iff the id is a key, and that socket carries the id |
| DraftServer.Socket.constructor | src/Server.ts:113-120 | a new socket stores the given id, transport and request and starts with no open requests |
| DraftServer.Socket.Send | src/Server.ts:122-150 | the outcome is `Transmit` of the response's fields, and the transport gets that outcome's frame and nothing else |
| DraftServer.Server.constructor | src/Server.ts:162-170 | a new server has no sockets, no commands and no authorization handler |
| DraftServer.Server.HandleNewConnection | src/Server.ts:172-263 | the new socket has an id that is not a registry key and no open requests; the registry is untouched; it awaits authorization only if a handler is configured |
| DraftServer.Server.AuthorizationResolved | src/Server.ts:251-253 | a resolved authorization inserts the socket under its id, the only insertion into the registry |
| DraftServer.Server.AuthorizationRejected | src/Server.ts:255-259 | a rejected authorization leaves the registry untouched |
| DraftServer.Server.HandleMessage | src/Server.ts:177-215 | the outcome is `Admit` on the message text; `openRequests` gains the id and `pending` gains the request only on dispatch; the socket invariant (no duplicate ids, every pending id open) is kept; registry membership plays no part |
| DraftServer.Server.HandlerResolved | src/Server.ts:217-226 | applies only to a pending request, which it removes; the response gets the original request and meta {now, requestId}, is sent once if it encodes, and the id is released |
| DraftServer.Server.HandlerRejected | src/Server.ts:228-232 | applies only to a pending request, which it removes; `openRequests` is left as it was, so the id stays open |
| DraftServer.Server.HandleClose | src/Server.ts:242-247 | the close event evicts the socket's id from the registry |
| DraftServer.Server.GenerateNewSocketId | src/Server.ts:265-272 | the id returned is the first draw that is not a registry key |
| DraftServer.Server.SetAuthorizationHandler | src/Server.ts:274-278 | the handler is configured |
| DraftServer.Server.RemoveSocket | src/Server.ts:280-284 | the socket's id is no longer a key, other bindings are unchanged, and removing an absent id is a no-op |
| DraftServer.Server.RemoveSocketById | src/Server.ts:286-290 | the id is no longer a key, other bindings are unchanged, and removing an absent id is a no-op |
| DraftServer.Server.Register | src/Server.ts:292-296 | the command replaces any binding of its name, and other commands are unchanged |
| DraftServer.Server.GetSocket | src/Server.ts:298-302 | returns the registered socket iff the id is a key, and that socket carries the id |
| SocketClient.ECWSSocketClient.constructor | src/client/ECWSSocketClient.ts:44-51 | a new client stores the given id, transport and request and starts with no open requests |
| SocketClient.ECWSSocketClient.HandleIncomingMessage | src/client/ECWSSocketClient.ts:53-85 | the outcome is `Admit` on the decoded Buffer; only a parse failure throws, and the thrown error is pass-through with status 400 and message "The payload was not valid JSON.", which `getJSON` shows; `openRequests` gains the id and `pending` gains the request only on dispatch, and the socket invariant is kept |
| SocketClient.ECWSSocketClient.HandlerResolved | src/client/ECWSSocketClient.ts:87-96 | applies only to a pending request, which it removes; the response gets the original request and meta {now, requestId}, is sent once if it encodes, and the id is released |
| SocketClient.ECWSSocketClient.HandlerRejected | src/client/ECWSSocketClient.ts:98-102 | applies only to a pending request, which it removes; `openRequests` is left as it was, so the id stays open |
| SocketClient.ECWSSocketClient.Send | src/client/ECWSSocketClient.ts:106-134 | the outcome is `Transmit` of the response's fields, and the transport gets that outcome's frame and nothing else |

## Left out

- ECWSServerModel.ECWSServer.GenerateNewSocketId: requires that some draw eventually yields a free id. The source loops for ever otherwise, and that non-termination is not modelled.
- DraftServer.Server.GenerateNewSocketId: the same assumption that some draw eventually yields a free id.
- ECWSServerModel.ECWSServer.HandleNewConnection and DraftServer.Server.HandleNewConnection inherit that precondition.
- Messages.CheckMessage: typit's `ObjectType` conformity for the fixed envelope shape is written out as "an object with a string `cmd`, an object `meta` and an object `payload`, extra keys allowed, arrays not objects". typit's exact rules are not part of this model. The payload validators of commands stay opaque (`conforms`).
- Dispatch.RemoveValue: `ECArrayList.removeValue` is taken to remove the first occurrence. The collections library is not part of this model; on the duplicate-free lists the dispatch code keeps, this equals removing every occurrence.
- Request ids are compared by value. If `meta.id` were itself an object or an array, the source's list would compare it by reference.
- JSON values carry integers only; floating-point numbers are not modelled.
- JSON text, `JSON.parse`, `JSON.stringify` and UTF-8 conversion are function parameters, not implementations. So is `Date.now()`.
- The WebSocket transport, `start()` (creating the `WebSocket.Server` and wiring the `connection` event) and the `ws.on` event registration are I/O. Events are explicit method calls instead.
- Promises and concurrency are not modelled. Each handler and each authorization hook settles in a later explicit call. Any interleaving of such calls is allowed, but two calls never overlap.
- `handleError`, `console.*` and `ECWSError.print` are diagnostic output. Only the kind of gate outcome is kept, and the log texts are not.
- src/shared/ECWSRequest.ts, src/shared/ECWSResponse.ts and src/shared/ECWSCommand.ts are assumed to behave like the `Request`, `Response` and `Command` classes of src/Server.ts (src/Server.ts:62-104). The model does not capture any difference between them.
- The handler and authorization functions themselves are opaque references. Their results arrive as arguments of the settle methods.
- SocketClient.ECWSSocketClient: its `commands` field is never initialised in the source, so reading it would fail. The command table is a parameter of `HandleIncomingMessage` instead, and that crash is not modelled.
- src/index.ts does not compile and its message handler is only comments. src/shared/ECWSInterfaces.ts holds type declarations only. Their shapes inform `Messages`.
- The empty `Error` class of src/Server.ts has no behaviour.
- No file implements outbound `invoke`, a pending-call table, call timeouts or error replies on handler failure, so none is modelled.
