/**
 * The part of `handleSubmit` between the transport and the conversation: the
 * `response.ok` check, the reading of the reply text, and the `catch` block
 * that turns a thrown error into a cancellation or a visible error text.
 */
module Reply {
  import opened Wrappers
  import opened JsStrings
  import opened Http
  import opened Backoff

  const InvalidGeminiFormat := "Invalid response format from Gemini API."
  const DefaultErrorText := "An error occurred while processing your request."

  const ErrorName := "Error"
  const TypeErrorName := "TypeError"

  /** The engine's error when `.ok` is read on the `undefined` the wrapper falls through with. */
  const UndefinedResponse := JsError(TypeErrorName, "Cannot read properties of undefined (reading 'ok')")

  /** `new Error("HTTP error! status: " + status)`. */
  function HttpError(status: nat): JsError {
    JsError(ErrorName, "HTTP error! status: " + Decimal(status))
  }

  /** The engine's error when `.content` is read on a `null` first candidate. */
  const NullCandidateError := JsError(TypeErrorName, "Cannot read properties of null (reading 'content')")

  /** The engine's error when `.text` is read on a `null` first part. */
  const NullPartError := JsError(TypeErrorName, "Cannot read properties of null (reading 'text')")

  /** `candidates` is a non-empty list whose first element is a `null`. */
  predicate NullFirstCandidate(candidates: Option<seq<Candidate>>) {
    candidates.Some? && |candidates.value| > 0 && candidates.value[0].NullCandidate?
  }

  /**
   * The truthiness chain of the hosted-provider check: `candidates` is a non-empty
   * list whose first element has a `content` with a non-empty `parts` list.
   */
  predicate ShapeOk(candidates: Option<seq<Candidate>>) {
    && candidates.Some? && |candidates.value| > 0
    && candidates.value[0].Candidate?
    && candidates.value[0].content.Some?
    && candidates.value[0].content.value.parts.Some?
    && |candidates.value[0].content.value.parts.value| > 0
  }

  /**
   * The hosted-provider check: the reply is `candidates[0].content.parts[0].text`
   * when the shape check passes and that first part is an object. A failed shape
   * check is the invalid-format error; a `null` first candidate or first part makes
   * the property read itself throw a TypeError. The text itself may be missing
   * (`undefined`).
   */
  function GeminiText(candidates: Option<seq<Candidate>>): (r: Result<Option<string>, JsError>)
    ensures r.Success? <==> ShapeOk(candidates) && candidates.value[0].content.value.parts.value[0].ReplyPart?
    ensures r.Success? ==> r.value == candidates.value[0].content.value.parts.value[0].text
    ensures NullFirstCandidate(candidates) ==> r == Failure(NullCandidateError)
    ensures ShapeOk(candidates) && candidates.value[0].content.value.parts.value[0].NullPart? ==>
      r == Failure(NullPartError)
    ensures !ShapeOk(candidates) && !NullFirstCandidate(candidates) ==>
      r == Failure(JsError(ErrorName, InvalidGeminiFormat))
  {
    if NullFirstCandidate(candidates) then Failure(NullCandidateError)
    else if !ShapeOk(candidates) then Failure(JsError(ErrorName, InvalidGeminiFormat))
    else match candidates.value[0].content.value.parts.value[0]
      case NullPart => Failure(NullPartError)
      case ReplyPart(text) => Success(text)
  }

  /** A well-formed hosted reply yields the text of its first part, whatever follows it. */
  lemma GeminiTextOfWellFormed(t: string, moreParts: seq<ReplyPart>, moreCandidates: seq<Candidate>)
    ensures GeminiText(Some([Candidate(Some(ReplyContent(Some([ReplyPart(Some(t))] + moreParts))))] + moreCandidates))
         == Success(Some(t))
  {
  }

  /** Which provider a request went to. */
  datatype Provider = Hosted | Local

  /**
   * The rest of the `try` block once the wrapper has finished: a non-ok response
   * throws an HTTP error; then the body is read, and the reply text taken from it
   * (`candidates` for the hosted provider, `response` for the local one). A missing
   * reply text becomes the empty string.
   */
  function AfterFetch(provider: Provider, result: RetryResult): (r: Result<string, JsError>)
    ensures result.FellThrough? ==> r == Failure(UndefinedResponse)
    ensures result.Rethrown? ==> r == Failure(result.error)
    ensures result.Returned? && !IsOk(result.response) ==> r == Failure(HttpError(result.response.status))
    ensures result.Returned? && IsOk(result.response) && result.response.body.NotJson? ==>
      r == Failure(result.response.body.parseError)
    ensures r.Success? <==>
      && result.Returned? && IsOk(result.response) && result.response.body.JsonObject?
      && (provider == Local || GeminiText(result.response.body.candidates).Success?)
    ensures r.Success? && provider == Local ==> r.value == result.response.body.response.GetOr("")
    ensures r.Success? && provider == Hosted ==>
      var text := GeminiText(result.response.body.candidates);
      text.Success? && r.value == text.value.GetOr("")
    ensures (&& result.Returned? && IsOk(result.response) && result.response.body.JsonObject? && provider == Hosted
             && GeminiText(result.response.body.candidates).Failure?)
        ==> r == Failure(GeminiText(result.response.body.candidates).error)
  {
    match result
    case FellThrough => Failure(UndefinedResponse)
    case Rethrown(e) => Failure(e)
    case Returned(response) =>
      if !IsOk(response) then Failure(HttpError(response.status))
      else match response.body
        case NotJson(e) => Failure(e)
        case JsonObject(candidates, reply) =>
          if provider == Local then Success(reply.GetOr(""))
          else match GeminiText(candidates)
            case Failure(e) => Failure(e)
            case Success(text) => Success(text.GetOr(""))
  }

  /** How a request ends for the conversation. */
  datatype Settlement = Fulfilled(reply: string) | Failed(text: string) | Aborted

  /** `error.message || "An error occurred while processing your request."`. */
  function ErrorText(message: string): (t: string)
    ensures |t| > 0
    ensures |message| > 0 ==> t == message
    ensures |message| == 0 ==> t == DefaultErrorText
  {
    if |message| > 0 then message else DefaultErrorText
  }

  /**
   * The `catch` block: an `AbortError` means the user stopped the request; any other
   * error becomes a visible error text; a completed `try` block delivers its reply.
   */
  function Catch(r: Result<string, JsError>): (s: Settlement)
    ensures s.Fulfilled? <==> r.Success?
    ensures s.Aborted? <==> r.Failure? && IsAbort(r.error)
    ensures s.Fulfilled? ==> s.reply == r.value
    ensures s.Failed? ==> r.Failure? && !IsAbort(r.error)
    ensures s.Failed? ==> |s.text| > 0 && s.text == ErrorText(r.error.message)
    ensures s.Failed? && |r.error.message| > 0 ==> s.text == r.error.message
    ensures s.Failed? && |r.error.message| == 0 ==> s.text == DefaultErrorText
  {
    match r
    case Success(reply) => Fulfilled(reply)
    case Failure(e) => if IsAbort(e) then Aborted else Failed(ErrorText(e.message))
  }

  /**
   * A rate limit that never lifts is not an exception of the wrapper: the last 429
   * response comes back, and it is the `response.ok` check that turns it into an
   * HTTP error. A network failure that never lifts is rethrown as it is.
   */
  lemma PersistentFailures(provider: Provider, outcomes: seq<FetchOutcome>)
    requires |outcomes| >= DefaultMaxRetries
    requires forall j :: 0 <= j < DefaultMaxRetries ==> Retryable(outcomes[j])
    ensures var last := outcomes[DefaultMaxRetries - 1];
      var r := AfterFetch(provider, Retry(outcomes, DefaultMaxRetries, DefaultRetryDelay).result);
      && (last.Respond? ==> r == Failure(HttpError(TooManyRequests)))
      && (last.Throw? ==> r == Failure(last.error))
  {
  }

  /**
   * An OK hosted reply whose first candidate is `null` passes no shape check: reading
   * `.content` on it throws, and the bot message shows the engine's TypeError text.
   */
  lemma NullCandidateShowsTypeError(status: nat, more: seq<Candidate>)
    requires 200 <= status <= 299
    ensures Catch(AfterFetch(Hosted, Returned(HttpResponse(status, JsonObject(Some([NullCandidate] + more), None)))))
         == Failed(NullCandidateError.message)
  {
  }
}
