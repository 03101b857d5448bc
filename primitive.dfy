/** The parts of the `primitive` package the core relies on: a primitive's
    type name, the session handle each facade embeds (`primitive.Client`)
    and the options passed when a primitive is opened. The package itself is
    not part of this model; only the shapes the core reads are. */
module Primitive {
  import opened Errors

  /** `primitive.Type`, a string type; `t.String()` is the string itself. */
  type Type = string

  /** What `primitive.NewClient(Type, name, response.SessionID)` records. */
  datatype Handle = Handle(primitiveType: Type, name: string, sessionID: nat)

  /** `api.CloseSessionRequest{SessionID: ...}`. */
  datatype CloseSessionRequest = CloseSessionRequest(sessionID: nat)

  /** A `primitive.Option`: the session-ID option built by
      `primitive.WithSessionID`, or any other option, told apart by a tag. */
  datatype PrimitiveOption = WithSessionID(clientID: string) | OtherOption(tag: string)

  datatype CloseReply = CloseReply(request: CloseSessionRequest, err: Option<ErrorKind>)

  /** `Close(ctx)` of the set and value facades, which share one body: the
      request names the handle's own session; the outcome's failure,
      translated, is returned. */
  function Close(h: Handle, rpc: RpcOutcome<()>): (r: CloseReply)
    ensures r.request.sessionID == h.sessionID
    ensures r.err.None? <==> rpc.Success?
    ensures rpc.Failure? ==> r.err == Some(rpc.kind)
  {
    CloseReply(CloseSessionRequest(h.sessionID),
               match rpc case Success(_) => None case Failure(k) => Some(k))
  }
}
