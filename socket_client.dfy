/**
 * src/client/ECWSSocketClient.ts: the connecting side. It runs the same gate
 * chain as the servers on every incoming Buffer, except that a message that
 * is not valid JSON throws a pass-through ECWSError with status 400.
 *
 * The class never initialises its command table, so the table is a
 * parameter of the operations that read it.
 */
module SocketClient {

  import opened Wrappers
  import opened Json
  import opened Transport
  import opened Messages
  import opened Dispatch
  import opened ECWSErrors

  const InvalidJsonMessage: string := "The payload was not valid JSON."

  /** How `handleIncomingMessage` ends: a gate outcome, and the error it throws, if any. */
  datatype Incoming = Incoming(gate: Gate, thrown: Option<ECWSError>)

  class ECWSSocketClient {
    const ws: WebSocket
    const id: string
    const request: IncomingMessage
    var openRequests: seq<RequestId>
    /** Requests whose handler promise has not settled yet. */
    ghost var pending: set<Request>

    /**
     * `openRequests` is free of duplicates and holds the id of every request
     * whose handler has not settled; no two such requests share an id.
     */
    ghost predicate Valid()
      reads this
    {
      && NoDuplicates(openRequests)
      && (forall r :: r in pending ==> r.Id() in openRequests)
      && (forall r1, r2 :: r1 in pending && r2 in pending && r1.Id() == r2.Id() ==> r1 == r2)
    }

    constructor (id: string, ws: WebSocket, req: IncomingMessage)
      ensures this.id == id && this.ws == ws && this.request == req
      ensures openRequests == [] && pending == {} && Valid()
    {
      this.id := id;
      this.ws := ws;
      this.request := req;
      this.openRequests := [];
      this.pending := {};
    }

    /**
     * An incoming Buffer through the gate chain. A parse failure throws a fresh
     * pass-through error whose JSON shows status 400; every other outcome
     * throws nothing, and only a dispatched request adds its id.
     */
    method HandleIncomingMessage(message: Bytes, commands: map<string, Command>, utf8: Bytes -> string,
                                 parse: string -> Option<Json>, conforms: (Json, Json) -> bool)
      returns (result: Incoming)
      requires Valid()
      modifies this
      ensures result.gate == Admit(utf8(message), parse, conforms, commands, old(openRequests))
      ensures openRequests == OpenAfter(old(openRequests), result.gate)
      ensures pending == if result.gate.Dispatched? then old(pending) + {result.gate.request} else old(pending)
      ensures Valid()
      ensures result.thrown.Some? <==> result.gate.ParseFailed?
      ensures result.thrown.Some? ==>
        && fresh(result.thrown.value)
        && result.thrown.value.State() == ErrorState(400, "The payload was not valid JSON.", true)
        && result.thrown.value.GetJSON() == ErrorJSON(400, "The payload was not valid JSON.")
    {
      var messageDecoded := utf8(message);
      var parsed := parse(messageDecoded);
      if parsed.None? {
        var e := ECWSError.Init();
        e := e.Msg(InvalidJsonMessage);
        e := e.Code(400);
        e := e.Passthrough();
        return Incoming(ParseFailed, Some(e));
      }
      var checked := CheckMessage(parsed.value);
      if checked.None? {
        return Incoming(InvalidMessage, None);
      }
      var messageObject := checked.value;
      if messageObject.cmd !in commands {
        return Incoming(UnknownCommand(messageObject.cmd), None);
      }
      var command := commands[messageObject.cmd];
      if !conforms(command.types, JObject(messageObject.payload)) {
        return Incoming(InvalidPayload(messageObject.cmd), None);
      }
      var request := NewRequest(messageObject, command);
      var requestId := request.Id();
      if requestId in openRequests {
        return Incoming(DuplicateRequest(request), None);
      }
      AdmitKeepsNoDuplicates(messageDecoded, parse, conforms, commands, openRequests);
      openRequests := openRequests + [requestId];
      pending := pending + {request};
      result := Incoming(Dispatched(request, command), None);
    }

    /**
     * The handler resolved with `response`: the request and a meta carrying
     * the request id are attached, the response is sent, and the id is released.
     */
    method HandlerResolved(request: Request, response: Response, now: int, encode: ReplyEnvelope -> Option<Bytes>)
      returns (outcome: SendOutcome)
      requires Valid() && request in pending
      modifies this, ws, response
      ensures response.request == Some(request) && response.meta == Some(ReplyMeta(now, request.Id()))
      ensures response.payload == old(response.payload)
      ensures outcome == Transmit(Some(request), Some(ReplyMeta(now, request.Id())), response.payload, encode)
      ensures outcome.Sent? || outcome.EncodeFailed?
      ensures ws.outbox == old(ws.outbox) + Frames(outcome)
      ensures openRequests == RemoveValue(old(openRequests), request.Id())
      ensures pending == old(pending) - {request}
      ensures request.Id() !in openRequests && Valid()
    {
      var requestId := request.Id();
      response.request := Some(request);
      response.meta := Some(ReplyMeta(now, requestId));
      outcome := Send(response, encode);
      RemoveValueNoDuplicates(openRequests, requestId);
      openRequests := RemoveValue(openRequests, requestId);
      pending := pending - {request};
    }

    /** The handler rejected: the error is only reported, and the id is not released. */
    method HandlerRejected(request: Request)
      requires Valid() && request in pending
      modifies this`pending
      ensures openRequests == old(openRequests)
      ensures pending == old(pending) - {request}
      ensures request.Id() in openRequests && Valid()
    {
      pending := pending - {request};
    }

    /**
     * Sends `value` as `{request, response: {meta, payload}}`: nothing when the
     * response carries no request or no meta or the envelope does not encode,
     * exactly one frame otherwise.
     */
    method Send(value: Response, encode: ReplyEnvelope -> Option<Bytes>) returns (outcome: SendOutcome)
      modifies ws
      ensures outcome == Transmit(value.request, value.meta, value.payload, encode)
      ensures ws.outbox == old(ws.outbox) + Frames(outcome)
    {
      var request := value.request;
      if request.None? {
        return MissingRequest;
      }
      if value.meta.None? {
        return MissingMeta;
      }
      var obj := ReplyEnvelope(request.value, ReplyBody(value.meta.value, Some(value.payload), None));
      match encode(obj)
      case None =>
        outcome := EncodeFailed;
      case Some(data) =>
        ws.Send(data);
        outcome := Sent(data);
    }
  }
}
