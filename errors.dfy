/** Error kinds surfaced by the client and the outcome of a remote call.
    `errors.From` and the `errors.Is*` predicates are foreign code; they are
    represented here by the closed enumeration they decide between. */
module Errors {

  datatype Option<+T> = None | Some(value: T)

  /** The kinds a translated transport failure can carry. */
  datatype ErrorKind = Canceled | Timeout | AlreadyExists | NotFound | Other

  /** The outcome of one unary or stream-opening RPC, its failure already
      translated by `errors.From`. */
  datatype RpcOutcome<+T> = Success(response: T) | Failure(kind: ErrorKind)

  /** `errors.IsCanceled(err) || errors.IsTimeout(err)`: an expected teardown
      of a stream, which the stream loops do not log. */
  predicate IsTeardown(k: ErrorKind)
  {
    k == Canceled || k == Timeout
  }

  /** Why a context ended: what `ctx.Err()` returns once `ctx.Done()` is closed. */
  datatype ContextCause = ContextCanceled | DeadlineExceeded

  /** The error a Watch call can return: a translated RPC failure, or the
      caller's context error when the context ends before the stream opens. */
  datatype CallError = RpcError(kind: ErrorKind) | ContextError(cause: ContextCause)
}
