/**
 * The HTTP gateway's handler package: what a handler writes back, and the one shape
 * shared by every handler that makes a single backend call.
 */
module Handler {
  import opened Results

  const StatusOK := 200
  const StatusBadRequest := 400
  const StatusInternalServerError := 500

  /** The message a handler sends when gin cannot bind the request. */
  const InvalidInput := "Invalid input"

  /** What a handler passes to `ctx.JSON` as the body of its reply. */
  datatype Body<+T> =
    | Resp(resp: T)              // the backend's reply, forwarded unchanged
    | Message(message: string)   // a response struct whose only set field is Message
    | ErrorField(error: string)  // a `gin.H{"error": ...}` object
    | Empty                      // a zero-valued response struct
    | Text(text: string)         // a bare JSON string

  /** The status code and body written with `ctx.JSON`. */
  datatype Reply<+T> = Reply(status: int, body: Body<T>)

  /** The outcome of gin's binding step (`ShouldBindJSON`, `ShouldBindQuery`, `ShouldBindUri`). */
  datatype Binding<+R> = Bound(req: R) | BindFailed

  /** How a handler answers a request that does not bind. */
  datatype OnBadInput = InvalidInputMessage | EmptyOnBadInput

  /** How a handler answers an error returned by its backend. */
  datatype OnError = EchoMessage | EmptyOnError | FixedError(text: string)

  function BadInputBody<T>(style: OnBadInput): Body<T>
  {
    match style
    case InvalidInputMessage => Message(InvalidInput)
    case EmptyOnBadInput => Empty
  }

  function ErrorBody<T>(style: OnError, msg: string): Body<T>
  {
    match style
    case EchoMessage => Message(msg)
    case EmptyOnError => Empty
    case FixedError(text) => ErrorField(text)
  }

  /**
   * The single-call handler: bind (or build) the request, call the backend once,
   * answer 500 on a backend error and 200 with the backend's reply otherwise.
   * `sent` records the requests the backend received.
   */
  method Forward<Req, Resp>(binding: Binding<Req>, onBad: OnBadInput,
                            backend: Req -> Result<Resp>, onError: OnError)
    returns (reply: Reply<Resp>, ghost sent: seq<Req>)
    ensures reply.status == StatusBadRequest <==> binding.BindFailed?
    ensures binding.BindFailed? ==> reply.body == BadInputBody(onBad) && sent == []
    ensures binding.Bound? ==> sent == [binding.req]
    ensures binding.Bound? && backend(binding.req).Err? ==>
              reply == Reply(StatusInternalServerError, ErrorBody(onError, backend(binding.req).msg))
    ensures reply.status == StatusOK <==> binding.Bound? && backend(binding.req).Ok?
    ensures reply.status == StatusOK ==> reply.body == Resp(backend(binding.req).value)
  {
    if binding.BindFailed? {
      reply, sent := Reply(StatusBadRequest, BadInputBody(onBad)), [];
      return;
    }
    var res := backend(binding.req);
    sent := [binding.req];
    if res.Err? {
      reply := Reply(StatusInternalServerError, ErrorBody(onError, res.msg));
      return;
    }
    reply := Reply(StatusOK, Resp(res.value));
  }
}
