/** What a call to sigil-core gives the SDK, whatever the network does. */
module Http {
  import opened Wrappers

  /** No answer at all, or a status code with a body that may fail to parse. */
  datatype Reply<+T> = NoReply | Response(code: nat, body: Option<T>)

  /** The value a client method returns, or the exception it raises. */
  datatype Result<+T> = Returned(value: T) | TransportError | ApiError(code: nat)

  /** The checks every client method makes on its reply. */
  function Expect<T>(reply: Reply<T>, code: nat): Result<T> {
    match reply
    case NoReply => TransportError
    case Response(c, body) =>
      if c != code then ApiError(c)
      else if body.None? then ApiError(c)
      else Returned(body.value)
  }
}
