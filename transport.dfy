/**
 * The `ws` WebSocket a socket object holds. Only its `send` is used by the
 * modelled code; the frames it has been asked to send are recorded in order.
 */
module Transport {

  import opened Json

  /** The HTTP upgrade request a connection arrived with, as an opaque handle. */
  datatype IncomingMessage = IncomingMessage(handle: nat)

  class WebSocket {
    /** Every frame passed to `send`, oldest first. */
    var outbox: seq<Bytes>

    constructor ()
      ensures outbox == []
    {
      outbox := [];
    }

    method Send(data: Bytes)
      modifies this
      ensures outbox == old(outbox) + [data]
    {
      outbox := outbox + [data];
    }
  }
}
