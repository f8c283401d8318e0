/**
 * src/server/ECWSServer.ts: the listening endpoint. It owns the registry of
 * admitted sockets and the command table, and runs the inbound gate chain
 * for every message a connection delivers.
 *
 * Events are explicit method calls: a new connection, a message on it, its
 * close, and the settling of an authorization or a handler promise.
 */
module ECWSServerModel {

  import opened Wrappers
  import opened Json
  import opened Transport
  import opened Messages
  import opened Dispatch
  import opened ECWSSocketModel

  class ECWSServer {
    var sockets: map<string, ECWSSocket>
    var commands: map<string, Command>
    var authorizationHandler: Option<HandlerRef>
    /** Sockets whose authorization promise has not settled yet. */
    ghost var admitting: set<ECWSSocket>

    /** Every command is filed under its own name and every socket under its own id. */
    ghost predicate Valid()
      reads this
    {
      && (forall name :: name in commands ==> commands[name].cmd == name)
      && (forall id :: id in sockets ==> sockets[id].id == id)
    }

    constructor ()
      ensures Valid()
      ensures sockets == map[] && commands == map[] && authorizationHandler == None && admitting == {}
    {
      sockets := map[];
      commands := map[];
      authorizationHandler := None;
      admitting := {};
    }

    /**
     * A new connection: a fresh socket id and a socket with no open requests.
     * The registry is not touched here; with an authorization handler the
     * socket waits for it, and without one it is never inserted at all.
     */
    method HandleNewConnection(ws: WebSocket, req: IncomingMessage, random: nat -> string)
      returns (socket: ECWSSocket)
      requires exists k: nat :: random(k) !in sockets
      modifies this`admitting
      ensures fresh(socket) && socket.Valid()
      ensures socket.id !in sockets && socket.ws == ws && socket.request == req && socket.openRequests == []
      ensures admitting == if authorizationHandler.Some? then old(admitting) + {socket} else old(admitting)
    {
      var id := GenerateNewSocketId(random);
      socket := new ECWSSocket(id, ws, req);
      if authorizationHandler.Some? {
        admitting := admitting + {socket};
      }
    }

    /** The authorization promise resolved: the only place a socket enters the registry. */
    method AuthorizationResolved(socket: ECWSSocket)
      requires Valid() && socket in admitting
      modifies this`sockets, this`admitting
      ensures Valid()
      ensures sockets == old(sockets)[socket.id := socket]
      ensures admitting == old(admitting) - {socket}
    {
      sockets := sockets[socket.id := socket];
      admitting := admitting - {socket};
    }

    /** The authorization promise rejected: the socket is never registered. */
    method AuthorizationRejected(socket: ECWSSocket)
      requires socket in admitting
      modifies this`admitting
      ensures admitting == old(admitting) - {socket}
    {
      admitting := admitting - {socket};
    }

    /**
     * A message on `socket`, through the gate chain. Only a dispatched request
     * adds its id to `openRequests`; nothing here depends on whether the socket
     * is in the registry.
     */
    method HandleMessage(socket: ECWSSocket, message: WsData, utf8: Bytes -> string,
                         parse: string -> Option<Json>, conforms: (Json, Json) -> bool)
      returns (g: Gate)
      requires socket.Valid()
      modifies socket
      ensures g == Admit(MessageText(message, utf8), parse, conforms, commands, old(socket.openRequests))
      ensures socket.openRequests == OpenAfter(old(socket.openRequests), g)
      ensures socket.pending == if g.Dispatched? then old(socket.pending) + {g.request} else old(socket.pending)
      ensures socket.Valid()
    {
      var messageString := "{}";
      match message {
        case BufferData(b) => messageString := utf8(b);
        case TextData(t) => messageString := t;
        case OtherData =>
      }
      var parsed := parse(messageString);
      if parsed.None? {
        return ParseFailed;
      }
      var checked := CheckMessage(parsed.value);
      if checked.None? {
        return InvalidMessage;
      }
      var messageObject := checked.value;
      if messageObject.cmd !in commands {
        return UnknownCommand(messageObject.cmd);
      }
      var command := commands[messageObject.cmd];
      if !conforms(command.types, JObject(messageObject.payload)) {
        return InvalidPayload(messageObject.cmd);
      }
      var request := NewRequest(messageObject, command);
      var requestId := request.Id();
      if requestId in socket.openRequests {
        return DuplicateRequest(request);
      }
      AdmitKeepsNoDuplicates(messageString, parse, conforms, commands, socket.openRequests);
      socket.openRequests := socket.openRequests + [requestId];
      socket.pending := socket.pending + {request};
      g := Dispatched(request, command);
    }

    /**
     * The handler resolved with `response`: the request and a meta carrying
     * the request id are attached, the response is sent, and the id is released.
     */
    method HandlerResolved(socket: ECWSSocket, request: Request, response: Response, now: int,
                           encode: ReplyEnvelope -> Option<Bytes>)
      returns (outcome: SendOutcome)
      requires socket.Valid() && request in socket.pending
      modifies socket, socket.ws, response
      ensures response.request == Some(request) && response.meta == Some(ReplyMeta(now, request.Id()))
      ensures response.payload == old(response.payload)
      ensures outcome == Transmit(Some(request), Some(ReplyMeta(now, request.Id())), response.payload, encode)
      ensures outcome.Sent? || outcome.EncodeFailed?
      ensures socket.ws.outbox == old(socket.ws.outbox) + Frames(outcome)
      ensures socket.openRequests == RemoveValue(old(socket.openRequests), request.Id())
      ensures socket.pending == old(socket.pending) - {request}
      ensures request.Id() !in socket.openRequests && socket.Valid()
    {
      var requestId := request.Id();
      response.request := Some(request);
      response.meta := Some(ReplyMeta(now, requestId));
      outcome := socket.Send(response, encode);
      RemoveValueNoDuplicates(socket.openRequests, requestId);
      socket.openRequests := RemoveValue(socket.openRequests, requestId);
      socket.pending := socket.pending - {request};
    }

    /** The handler rejected: the error is only reported, and the id is not released. */
    method HandlerRejected(socket: ECWSSocket, request: Request)
      requires socket.Valid() && request in socket.pending
      modifies socket`pending
      ensures socket.openRequests == old(socket.openRequests)
      ensures socket.pending == old(socket.pending) - {request}
      ensures request.Id() in socket.openRequests && socket.Valid()
    {
      socket.pending := socket.pending - {request};
    }

    /** The connection closed: its socket is evicted from the registry. */
    method HandleClose(socket: ECWSSocket)
      requires Valid()
      modifies this`sockets
      ensures Valid()
      ensures sockets == old(sockets) - {socket.id}
    {
      RemoveSocket(socket);
    }

    /**
     * Draws random ids until one is not a key of `sockets`. `random(n)` is the
     * id the n-th draw yields; the precondition says the generator eventually
     * draws a free one.
     */
    method GenerateNewSocketId(random: nat -> string) returns (id: string)
      requires exists k: nat :: random(k) !in sockets
      ensures id !in sockets
      ensures exists n: nat :: id == random(n) && forall j :: 0 <= j < n ==> random(j) in sockets
    {
      ghost var k: nat :| random(k) !in sockets;
      var n := 0;
      id := random(0);
      while id in sockets
        invariant n <= k && id == random(n)
        invariant forall j :: 0 <= j < n ==> random(j) in sockets
        decreases k - n
      {
        n := n + 1;
        id := random(n);
      }
    }

    method SetAuthorizationHandler(handler: HandlerRef)
      modifies this`authorizationHandler
      ensures authorizationHandler == Some(handler)
    {
      authorizationHandler := Some(handler);
    }

    /** Evicts the socket's id; removing an absent id changes nothing, so a second call is a no-op. */
    method RemoveSocket(socket: ECWSSocket)
      requires Valid()
      modifies this`sockets
      ensures Valid()
      ensures sockets == old(sockets) - {socket.id}
      ensures socket.id !in sockets
      ensures socket.id !in old(sockets) ==> sockets == old(sockets)
    {
      sockets := sockets - {socket.id};
    }

    /** Evicts `id`; removing an absent id changes nothing, so a second call is a no-op. */
    method RemoveSocketById(id: string)
      requires Valid()
      modifies this`sockets
      ensures Valid()
      ensures sockets == old(sockets) - {id}
      ensures id !in sockets
      ensures id !in old(sockets) ==> sockets == old(sockets)
    {
      sockets := sockets - {id};
    }

    /** Files `command` under its name, replacing any command of that name. */
    method AddCommand(command: Command)
      requires Valid()
      modifies this`commands
      ensures Valid()
      ensures commands == old(commands)[command.cmd := command]
      ensures forall name :: name in old(commands) && name != command.cmd ==>
                name in commands && commands[name] == old(commands)[name]
    {
      commands := commands[command.cmd := command];
    }

    /** Builds a command from its parts and files it under `cmd`, replacing any command of that name. */
    method Register(cmd: string, types: Json, handler: HandlerRef)
      requires Valid()
      modifies this`commands
      ensures Valid()
      ensures commands == old(commands)[cmd := Command(cmd, types, handler)]
      ensures forall name :: name in old(commands) && name != cmd ==>
                name in commands && commands[name] == old(commands)[name]
    {
      commands := commands[cmd := Command(cmd, types, handler)];
    }

    /** The registered socket with that id, if any. */
    function GetSocket(id: string): (r: Option<ECWSSocket>)
      requires Valid()
      reads this
      ensures r.Some? <==> id in sockets
      ensures r.Some? ==> r.value == sockets[id] && r.value.id == id
    {
      if id in sockets then Some(sockets[id]) else None
    }
  }
}
