/** How a `fetch` ends, as the screens that read a JSON body see it. */
module Http {
  import opened Wrappers

  /** A response with its HTTP status and its body parsed as JSON (None when the body is not
      JSON, so that `res.json()` rejects), a request cancelled through its AbortController,
      or any other exception such as a network error. */
  datatype Reply<T> = Reply(status: int, body: Option<T>) | Aborted | NetworkError

  /** `res.ok`: a status in the 200 range. */
  predicate IsOk(status: int) {
    200 <= status <= 299
  }
}
