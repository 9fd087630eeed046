/**
 * What the page sees of the network: the outcome of one `fetch` call, and
 * the parsed JSON reply body reduced to the fields the page reads.
 */
module Http {
  import opened Wrappers

  /** A thrown JavaScript error: its `name` and its `message`. */
  datatype JsError = JsError(name: string, message: string)

  /** What `fetch` throws when its request's abort signal has fired. */
  const AbortErrorName := "AbortError"

  predicate IsAbort(e: JsError) {
    e.name == AbortErrorName
  }

  /** An element of a reply candidate's `parts`: an object `{ text }`, or `null`. */
  datatype ReplyPart = ReplyPart(text: Option<string>) | NullPart

  /** `{ parts }` of a reply candidate. */
  datatype ReplyContent = ReplyContent(parts: Option<seq<ReplyPart>>)

  /** An element of `candidates`: an object `{ content }`, or `null`. */
  datatype Candidate = Candidate(content: Option<ReplyContent>) | NullCandidate

  /**
   * The result of `response.json()`: an object carrying (or not) the hosted
   * provider's `candidates` and the local provider's `response`, or the error
   * `json()` throws on a body that is not JSON.
   */
  datatype ResponseBody =
    | JsonObject(candidates: Option<seq<Candidate>>, response: Option<string>)
    | NotJson(parseError: JsError)

  datatype HttpResponse = HttpResponse(status: nat, body: ResponseBody)

  /** `response.ok`: a status in the range 200-299. */
  predicate IsOk(r: HttpResponse) {
    200 <= r.status <= 299
  }

  /** One `fetch` call: it resolves with a response or it throws. */
  datatype FetchOutcome = Respond(response: HttpResponse) | Throw(error: JsError)
}
