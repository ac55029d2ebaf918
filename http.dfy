/** Upstream calls and handler replies, as far as the service's decisions depend on them.
    The network itself is a parameter `upstream`: a function from URL to response. */
module Http {

  /** What `fetch` resolves to, with the body already parsed by `response.json()`. */
  datatype Response<B> = Response(status: int, body: B)
  {
    /** `response.ok`: the status is in the range 200-299. */
    predicate Ok()
    {
      200 <= status <= 299
    }
  }

  /** What an async helper settles to: a value, or the `HTTP error! status: <n>` it throws. */
  datatype Outcome<T> = Returned(value: T) | Threw(status: int)

  /** The URLs a helper fetched, in order, and what it settled to. */
  datatype Run<T> = Run(fetches: seq<string>, outcome: Outcome<T>)

  /** What a route handler does with the request: `res.status(400).send`, `res.status(404).send`,
      `res.send` with the default status, or `next(error)` to the framework's error handler. */
  datatype Reply<T> =
    | BadRequest(msg: string)
    | NotFound(msg: string)
    | Sent(body: T)
    | Forwarded(status: int)

  /** The upstream URLs a request caused to be fetched, and the reply. */
  datatype Exchange<T> = Exchange(fetches: seq<string>, reply: Reply<T>)

  /** One `fetch(url)`, the `response.ok` check and, on success, a normaliser applied to
      the parsed body. */
  function FetchThen<B, T>(upstream: string -> Response<B>, url: string, process: B -> T): (r: Run<T>)
    ensures r.fetches == [url]
    ensures r.outcome.Threw? <==> !upstream(url).Ok()
    ensures r.outcome.Threw? ==> r.outcome.status == upstream(url).status
    ensures r.outcome.Returned? ==> r.outcome.value == process(upstream(url).body)
  {
    var response := upstream(url);
    if !response.Ok() then Run([url], Threw(response.status))
    else Run([url], Returned(process(response.body)))
  }
}
