/**
 * The values that travel through the dispatch layer: the inbound message
 * envelope, commands, the handler-facing request, the handler's response
 * object and the reply envelope that `send` builds from it.
 */
module Messages {

  import opened Wrappers
  import opened Json

  /** The value found at `meta.id`; None when the key is absent (`undefined`). */
  type RequestId = Option<Json>

  /** An opaque reference to a JavaScript function value (a command handler or an authorization hook). */
  type HandlerRef = nat

  /** What `ws.on("message")` delivers: a Buffer, a string, or another kind of data. */
  datatype WsData = BufferData(bytes: Bytes) | TextData(text: string) | OtherData

  /**
   * The text the server parses: a Buffer decoded as UTF-8, a string as it is,
   * and "{}" for any other kind of data. Buffer decoding never fails (invalid
   * sequences become replacement characters), so it is a total function here.
   */
  function MessageText(message: WsData, utf8: Bytes -> string): (text: string)
    ensures message.OtherData? ==> text == "{}"
    ensures message.TextData? ==> text == message.text
    ensures message.BufferData? ==> text == utf8(message.bytes)
  {
    match message
    case BufferData(b) => utf8(b)
    case TextData(t) => t
    case OtherData => "{}"
  }

  /** A parsed message that conforms to `{cmd: string, meta: object, payload: object}`. */
  datatype Message = Message(cmd: string, meta: map<string, Json>, payload: map<string, Json>)

  /** The JSON object a message is written as. */
  function MessageJson(m: Message): Json
  {
    JObject(map["cmd" := JString(m.cmd), "meta" := JObject(m.meta), "payload" := JObject(m.payload)])
  }

  /** The envelope-shape check, and the message it lets through. */
  function CheckMessage(v: Json): (r: Option<Message>)
    ensures r.Some? <==>
      && v.JObject?
      && "cmd" in v.fields && v.fields["cmd"].JString?
      && "meta" in v.fields && v.fields["meta"].JObject?
      && "payload" in v.fields && v.fields["payload"].JObject?
    ensures r.Some? ==>
      && r.value.cmd == v.fields["cmd"].s
      && r.value.meta == v.fields["meta"].fields
      && r.value.payload == v.fields["payload"].fields
  {
    if v.JObject? && "cmd" in v.fields && "meta" in v.fields && "payload" in v.fields then
      var cmd, meta, payload := v.fields["cmd"], v.fields["meta"], v.fields["payload"];
      if cmd.JString? && meta.JObject? && payload.JObject? then
        Some(Message(cmd.s, meta.fields, payload.fields))
      else
        None
    else
      None
  }

  /** Every message passes the check when written as its own JSON object, and comes back unchanged. */
  lemma CheckMessageRoundTrip(m: Message)
    ensures CheckMessage(MessageJson(m)) == Some(m)
  {
  }

  /** A registered command: its name, the shape definition of its payload and its handler. */
  datatype Command = Command(cmd: string, types: Json, handler: HandlerRef)

  /** The handler-facing view of an inbound message; immutable once built. */
  datatype Request = Request(cmd: string, meta: map<string, Json>, payload: map<string, Json>) {
    /** `request.meta.id` */
    function Id(): (id: RequestId)
      ensures id.Some? <==> "id" in meta
      ensures id.Some? ==> id.value == meta["id"]
    {
      Get(meta, "id")
    }
  }

  /** `new Request(message, command)`: the name comes from the command, meta and payload from the message. */
  function NewRequest(message: Message, command: Command): (r: Request)
    ensures r.cmd == command.cmd && r.meta == message.meta && r.payload == message.payload
    ensures r.Id() == Get(message.meta, "id")
  {
    Request(command.cmd, message.meta, message.payload)
  }

  /** The `meta` the dispatch code attaches to a response. */
  datatype ReplyMeta = ReplyMeta(timestamp: int, id: RequestId)

  /** The `error` member of a reply body (never set by the modelled code). */
  datatype WireError = WireError(msg: string, code: int)

  datatype ReplyBody = ReplyBody(meta: ReplyMeta, payload: Option<Json>, error: Option<WireError>)

  /** `{request, response: {meta, payload, error}}` as it is handed to JSON.stringify. */
  datatype ReplyEnvelope = ReplyEnvelope(request: Request, response: ReplyBody)

  /**
   * What a handler resolves with. It starts with only a payload; the dispatch
   * code attaches the request and the meta before sending it.
   */
  class Response {
    var request: Option<Request>
    var meta: Option<ReplyMeta>
    var payload: Json

    constructor (value: Json)
      ensures payload == value && request == None && meta == None
    {
      payload := value;
      request := None;
      meta := None;
    }
  }

  /** The envelope `send` builds, or None when the response has no request or no meta. */
  function Envelope(request: Option<Request>, meta: Option<ReplyMeta>, payload: Json): (r: Option<ReplyEnvelope>)
    ensures r.None? <==> request.None? || meta.None?
    ensures r.Some? ==>
      && r.value.request == request.value
      && r.value.response.meta == meta.value
      && r.value.response.payload == Some(payload)
      && r.value.response.error == None
  {
    if request.None? then None
    else if meta.None? then None
    else Some(ReplyEnvelope(request.value, ReplyBody(meta.value, Some(payload), None)))
  }

  /** How one call of `send` ends. */
  datatype SendOutcome = MissingRequest | MissingMeta | EncodeFailed | Sent(frame: Bytes)

  /** The frames one call of `send` hands to the transport. */
  function Frames(o: SendOutcome): seq<Bytes>
  {
    if o.Sent? then [o.frame] else []
  }

  /**
   * `send`: check the request, then the meta, then encode the envelope; only
   * an envelope that encodes is transmitted, as exactly one frame.
   */
  function Transmit(request: Option<Request>, meta: Option<ReplyMeta>, payload: Json,
                    encode: ReplyEnvelope -> Option<Bytes>): (o: SendOutcome)
    ensures o.MissingRequest? <==> request.None?
    ensures o.MissingMeta? <==> request.Some? && meta.None?
    ensures o.EncodeFailed? <==> request.Some? && meta.Some? && encode(Envelope(request, meta, payload).value).None?
    ensures o.Sent? ==>
      && Envelope(request, meta, payload).Some?
      && encode(Envelope(request, meta, payload).value) == Some(o.frame)
  {
    if request.None? then MissingRequest
    else if meta.None? then MissingMeta
    else
      match encode(ReplyEnvelope(request.value, ReplyBody(meta.value, Some(payload), None)))
      case None => EncodeFailed
      case Some(data) => Sent(data)
  }
}
