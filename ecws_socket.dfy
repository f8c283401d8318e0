/**
 * src/shared/ECWSSocket.ts: one accepted connection as the ECWSServer draft
 * sees it, with the ids of the requests whose handlers are still open.
 */
module ECWSSocketModel {

  import opened Wrappers
  import opened Json
  import opened Transport
  import opened Messages
  import opened Dispatch

  class ECWSSocket {
    const ws: WebSocket
    const id: string
    const request: IncomingMessage
    var openRequests: seq<RequestId>
    /** Requests whose handler promise has not settled yet. */
    ghost var pending: set<Request>

    /**
     * `openRequests` is free of duplicates and holds the id of every request
     * whose handler has not settled; no two such requests share an id.
     */
    ghost predicate Valid()
      reads this
    {
      && NoDuplicates(openRequests)
      && (forall r :: r in pending ==> r.Id() in openRequests)
      && (forall r1, r2 :: r1 in pending && r2 in pending && r1.Id() == r2.Id() ==> r1 == r2)
    }

    constructor (id: string, ws: WebSocket, req: IncomingMessage)
      ensures this.id == id && this.ws == ws && this.request == req
      ensures openRequests == [] && pending == {} && Valid()
    {
      this.id := id;
      this.ws := ws;
      this.request := req;
      this.openRequests := [];
      this.pending := {};
    }

    /**
     * Sends `value` as `{request, response: {meta, payload}}`: nothing when the
     * response carries no request or no meta or the envelope does not encode,
     * exactly one frame otherwise.
     */
    method Send(value: Response, encode: ReplyEnvelope -> Option<Bytes>) returns (outcome: SendOutcome)
      modifies ws
      ensures outcome == Transmit(value.request, value.meta, value.payload, encode)
      ensures ws.outbox == old(ws.outbox) + Frames(outcome)
    {
      var request := value.request;
      if request.None? {
        return MissingRequest;
      }
      if value.meta.None? {
        return MissingMeta;
      }
      var obj := ReplyEnvelope(request.value, ReplyBody(value.meta.value, Some(value.payload), None));
      match encode(obj)
      case None =>
        outcome := EncodeFailed;
      case Some(data) =>
        ws.Send(data);
        outcome := Sent(data);
    }
  }
}
