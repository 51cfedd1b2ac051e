/** What the admin screens get back from the API, and the toast each outcome shows. */
module Responses {
  import opened Wrappers

  /** How a request ends: an OK response (with the `data.id` of its body, for the callers that
      read one), a response that is not OK with the `message` of its JSON body (None when the
      body has none or does not parse), or an Error thrown inside the handler's `try`, with
      its message. `Thrown` is an Error of `fetch` itself, and also an OK reply whose body
      does not parse as JSON or, for a caller that reads `data.id`, has no `data`: reading it
      throws inside the same `try`. */
  datatype Response = Ok(id: int) | Rejected(message: Option<string>) | Thrown(error: string)

  datatype Toast = ToastError(text: string) | ToastSuccess(text: string)

  /** The message of the error a failed request ends in: `err.message ?? fallback` for a
      response that is not OK, the thrown Error's own message otherwise. */
  function FailureText(res: Response, fallback: string): (r: string)
    requires !res.Ok?
    ensures res.Rejected? && res.message.None? ==> r == fallback
    ensures res.Rejected? && res.message.Some? ==> r == res.message.value
    ensures res.Thrown? ==> r == res.error
  {
    match res
    case Rejected(m) => m.GetOr(fallback)
    case Thrown(m) => m
  }
}
