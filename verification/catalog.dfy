/** The records exchanged between the page and the recommendation server. */
module Catalog {
  import opened Values

  /** A movie or game object, reduced to the fields the core inspects. */
  datatype Item = Item(id: int, title: string, posterPath: Option<string>)

  /** The JSON body of a recommendation reply: `{mood, recommendations, error}`,
      each field possibly missing. */
  datatype RecBody = RecBody(mood: Option<string>, recommendations: Option<seq<Item>>, error: Option<string>)

  /** What the server answers: a JSON body with status 200, or an unhandled
      exception, which the server framework's outermost error handler turns
      into a status-500 reply outside the CORS middleware, so the reply
      carries no `Access-Control-Allow-Origin` header. */
  datatype HttpReply = Json(body: RecBody) | InternalServerError

  /** How a `fetch` call ends for the page: a response whose `ok` is false,
      a decoded JSON body, or a rejection (network failure, bad JSON). */
  datatype HttpOutcome =
    | NotOk(status: int, statusText: string)
    | Delivered(body: RecBody)
    | Failed(reason: string)

  /** The page treats a fetch as failed when the response is not ok, the
      request rejected, or the body carries a truthy `error` field: a fetch
      succeeds exactly when it delivers a body whose `error` is missing or
      empty. */
  predicate Fails(outcome: HttpOutcome): (failed: bool)
    ensures !failed <==> outcome.Delivered? && (outcome.body.error.None? || outcome.body.error.value == "")
  {
    outcome.NotOk? || outcome.Failed? || (outcome.Delivered? && Truthy(outcome.body.error))
  }

  /** What the page's cross-origin `fetch` observes for a server reply: a
      JSON reply is delivered; the header-less status-500 reply is refused
      by the browser's CORS check, so `fetch` rejects with the browser's own
      `TypeError` message, `rejection` (for example "Failed to fetch"). */
  function Observe(reply: HttpReply, rejection: string): (outcome: HttpOutcome)
    ensures outcome.Delivered? <==> reply.Json?
    ensures reply.Json? ==> outcome.body == reply.body
    ensures reply.InternalServerError? ==> outcome == Failed(rejection) && Fails(outcome)
  {
    match reply
    case Json(body) => Delivered(body)
    case InternalServerError => Failed(rejection)
  }
}
