/**
 * src/Server.ts: the single-file draft of the listening endpoint, with its
 * own Socket and Server classes (the same behaviour as the ECWSServer draft).
 * Events are explicit method calls: a new connection, a message on it, its
 * close, and the settling of an authorization or a handler promise.
 */
module DraftServer {

  import opened Wrappers
  import opened Json
  import opened Transport
  import opened Messages
  import opened Dispatch

  class Socket {
    const ws: WebSocket
    const id: string
    const request: IncomingMessage
    var openRequests: seq<RequestId>
    /** Requests whose handler promise has not settled yet. */
    ghost var pending: set<Request>

    /**
     * `openRequests` is free of duplicates and holds the id of every request
     * whose handler has not settled; no two such requests share an id.
     */
    ghost predicate Valid()
      reads this
    {
      && NoDuplicates(openRequests)
      && (forall r :: r in pending ==> r.Id() in openRequests)
      && (forall r1, r2 :: r1 in pending && r2 in pending && r1.Id() == r2.Id() ==> r1 == r2)
    }

    constructor (id: string, ws: WebSocket, req: IncomingMessage)
      ensures this.id == id && this.ws == ws && this.request == req
      ensures openRequests == [] && pending == {} && Valid()
    {
      this.id := id;
      this.ws := ws;
      this.request := req;
      this.openRequests := [];
      this.pending := {};
    }

    /**
     * Sends `value` as `{request, response: {meta, payload}}`: nothing when the
     * response carries no request or no meta or the envelope does not encode,
     * exactly one frame otherwise.
     */
    method Send(value: Response, encode: ReplyEnvelope -> Option<Bytes>) returns (outcome: SendOutcome)
      modifies ws
      ensures outcome == Transmit(value.request, value.meta, value.payload, encode)
      ensures ws.outbox == old(ws.outbox) + Frames(outcome)
    {
      var request := value.request;
      if request.None? {
        return MissingRequest;
      }
      if value.meta.None? {
        return MissingMeta;
      }
      var obj := ReplyEnvelope(request.value, ReplyBody(value.meta.value, Some(value.payload), None));
      match encode(obj)
      case None =>
        outcome := EncodeFailed;
      case Some(data) =>
        ws.Send(data);
        outcome := Sent(data);
    }
  }

  class Server {
    var sockets: map<string, Socket>
    var commands: map<string, Command>
    var authorizationHandler: Option<HandlerRef>
    /** Sockets whose authorization promise has not settled yet. */
    ghost var admitting: set<Socket>

    /** Every command is filed under its own name and every socket under its own id. */
    ghost predicate Valid()
      reads this
    {
      && (forall name :: name in commands ==> commands[name].cmd == name)
      && (forall id :: id in sockets ==> sockets[id].id == id)
    }

    constructor ()
      ensures Valid()
      ensures sockets == map[] && commands == map[] && authorizationHandler == None && admitting == {}
    {
      sockets := map[];
      commands := map[];
      authorizationHandler := None;
      admitting := {};
    }

    /**
     * A new connection: a fresh socket id and a socket with no open requests.
     * The registry is not touched here; with an authorization handler the
     * socket waits for it, and without one it is never inserted at all.
     */
    method HandleNewConnection(ws: WebSocket, req: IncomingMessage, random: nat -> string)
      returns (socket: Socket)
      requires exists k: nat :: random(k) !in sockets
      modifies this`admitting
      ensures fresh(socket) && socket.Valid()
      ensures socket.id !in sockets && socket.ws == ws && socket.request == req && socket.openRequests == []
      ensures admitting == if authorizationHandler.Some? then old(admitting) + {socket} else old(admitting)
    {
      var id := GenerateNewSocketId(random);
      socket := new Socket(id, ws, req);
      if authorizationHandler.Some? {
        admitting := admitting + {socket};
      }
    }

    /** The authorization promise resolved: the only place a socket enters the registry. */
    method AuthorizationResolved(socket: Socket)
      requires Valid() && socket in admitting
      modifies this`sockets, this`admitting
      ensures Valid()
      ensures sockets == old(sockets)[socket.id := socket]
      ensures admitting == old(admitting) - {socket}
    {
      sockets := sockets[socket.id := socket];
      admitting := admitting - {socket};
    }

    /** The authorization promise rejected: the socket is never registered. */
    method AuthorizationRejected(socket: Socket)
      requires socket in admitting
      modifies this`admitting
      ensures admitting == old(admitting) - {socket}
    {
      admitting := admitting - {socket};
    }

    /**
     * A message on `socket`, through the gate chain. Only a dispatched request
     * adds its id to `openRequests`; nothing here depends on whether the socket
     * is in the registry.
     */
    method HandleMessage(socket: Socket, message: WsData, utf8: Bytes -> string,
                         parse: string -> Option<Json>, conforms: (Json, Json) -> bool)
      returns (g: Gate)
      requires socket.Valid()
      modifies socket
      ensures g == Admit(MessageText(message, utf8), parse, conforms, commands, old(socket.openRequests))
      ensures socket.openRequests == OpenAfter(old(socket.openRequests), g)
      ensures socket.pending == if g.Dispatched? then old(socket.pending) + {g.request} else old(socket.pending)
      ensures socket.Valid()
    {
      var messageString := "{}";
      match message {
        case BufferData(b) => messageString := utf8(b);
        case TextData(t) => messageString := t;
        case OtherData =>
      }
      var parsed := parse(messageString);
      if parsed.None? {
        return ParseFailed;
      }
      var checked := CheckMessage(parsed.value);
      if checked.None? {
        return InvalidMessage;
      }
      var messageObject := checked.value;
      if messageObject.cmd !in commands {
        return UnknownCommand(messageObject.cmd);
      }
      var command := commands[messageObject.cmd];
      if !conforms(command.types, JObject(messageObject.payload)) {
        return InvalidPayload(messageObject.cmd);
      }
      var request := NewRequest(messageObject, command);
      var requestId := request.Id();
      if requestId in socket.openRequests {
        return DuplicateRequest(request);
      }
      AdmitKeepsNoDuplicates(messageString, parse, conforms, commands, socket.openRequests);
      socket.openRequests := socket.openRequests + [requestId];
      socket.pending := socket.pending + {request};
      g := Dispatched(request, command);
    }

    /**
     * The handler resolved with `response`: the request and a meta carrying
     * the request id are attached, the response is sent, and the id is released.
     */
    method HandlerResolved(socket: Socket, request: Request, response: Response, now: int,
                           encode: ReplyEnvelope -> Option<Bytes>)
      returns (outcome: SendOutcome)
      requires socket.Valid() && request in socket.pending
      modifies socket, socket.ws, response
      ensures response.request == Some(request) && response.meta == Some(ReplyMeta(now, request.Id()))
      ensures response.payload == old(response.payload)
      ensures outcome == Transmit(Some(request), Some(ReplyMeta(now, request.Id())), response.payload, encode)
      ensures outcome.Sent? || outcome.EncodeFailed?
      ensures socket.ws.outbox == old(socket.ws.outbox) + Frames(outcome)
      ensures socket.openRequests == RemoveValue(old(socket.openRequests), request.Id())
      ensures socket.pending == old(socket.pending) - {request}
      ensures request.Id() !in socket.openRequests && socket.Valid()
    {
      var requestId := request.Id();
      response.request := Some(request);
      response.meta := Some(ReplyMeta(now, requestId));
      outcome := socket.Send(response, encode);
      RemoveValueNoDuplicates(socket.openRequests, requestId);
      socket.openRequests := RemoveValue(socket.openRequests, requestId);
      socket.pending := socket.pending - {request};
    }

    /** The handler rejected: the error is only reported, and the id is not released. */
    method HandlerRejected(socket: Socket, request: Request)
      requires socket.Valid() && request in socket.pending
      modifies socket`pending
      ensures socket.openRequests == old(socket.openRequests)
      ensures socket.pending == old(socket.pending) - {request}
      ensures request.Id() in socket.openRequests && socket.Valid()
    {
      socket.pending := socket.pending - {request};
    }

    /** The connection closed: its socket is evicted from the registry. */
    method HandleClose(socket: Socket)
      requires Valid()
      modifies this`sockets
      ensures Valid()
      ensures sockets == old(sockets) - {socket.id}
    {
      RemoveSocket(socket);
    }

    /**
     * Draws random ids until one is not a key of `sockets`. `random(n)` is the
     * id the n-th draw yields; the precondition says the generator eventually
     * draws a free one.
     */
    method GenerateNewSocketId(random: nat -> string) returns (id: string)
      requires exists k: nat :: random(k) !in sockets
      ensures id !in sockets
      ensures exists n: nat :: id == random(n) && forall j :: 0 <= j < n ==> random(j) in sockets
    {
      ghost var k: nat :| random(k) !in sockets;
      var n := 0;
      id := random(0);
      while id in sockets
        invariant n <= k && id == random(n)
        invariant forall j :: 0 <= j < n ==> random(j) in sockets
        decreases k - n
      {
        n := n + 1;
        id := random(n);
      }
    }

    method SetAuthorizationHandler(handler: HandlerRef)
      modifies this`authorizationHandler
      ensures authorizationHandler == Some(handler)
    {
      authorizationHandler := Some(handler);
    }

    /** Evicts the socket's id; removing an absent id changes nothing, so a second call is a no-op. */
    method RemoveSocket(socket: Socket)
      requires Valid()
      modifies this`sockets
      ensures Valid()
      ensures sockets == old(sockets) - {socket.id}
      ensures socket.id !in sockets
      ensures socket.id !in old(sockets) ==> sockets == old(sockets)
    {
      sockets := sockets - {socket.id};
    }

    /** Evicts `id`; removing an absent id changes nothing, so a second call is a no-op. */
    method RemoveSocketById(id: string)
      requires Valid()
      modifies this`sockets
      ensures Valid()
      ensures sockets == old(sockets) - {id}
      ensures id !in sockets
      ensures id !in old(sockets) ==> sockets == old(sockets)
    {
      sockets := sockets - {id};
    }

    /** Files `command` under its name, replacing any command of that name. */
    method Register(command: Command)
      requires Valid()
      modifies this`commands
      ensures Valid()
      ensures commands == old(commands)[command.cmd := command]
      ensures forall name :: name in old(commands) && name != command.cmd ==>
                name in commands && commands[name] == old(commands)[name]
    {
      commands := commands[command.cmd := command];
    }

    /** The registered socket with that id, if any. */
    function GetSocket(id: string): (r: Option<Socket>)
      requires Valid()
      reads this
      ensures r.Some? <==> id in sockets
      ensures r.Some? ==> r.value == sockets[id] && r.value.id == id
    {
      if id in sockets then Some(sockets[id]) else None
    }
  }
}
