/**
 * The conversation side of `handleSubmit` and `handleStop`: the submit guard,
 * the user message and empty bot placeholder appended on submission, and the
 * placeholder's resolution by id once the request ends: filled in on success,
 * marked as an error on failure, removed on cancellation.
 */
module Conversation {
  import opened Wrappers
  import opened JsStrings
  import ById
  import opened Attachments
  import opened Payload
  import opened Http
  import opened Backoff
  import opened Reply

  datatype Role = UserRole | BotRole

  /**
   * A chat message. `files` is only set on user messages, `runtime` (elapsed
   * milliseconds) and `isError` only on bot messages; the display timestamp is not
   * modelled.
   */
  datatype Message = Message(
    id: int, role: Role, content: string, files: seq<FileObj>,
    runtime: Option<real>, model: string, isError: bool)

  function MessageKey(m: Message): int {
    m.id
  }

  /** An entry of the model catalog; `kind` is `"ollama"` (local) or `"gemini"` (hosted). */
  datatype ModelDescriptor = ModelDescriptor(id: string, name: string, description: string, kind: string)

  const Models: seq<ModelDescriptor> := [
    ModelDescriptor("llama3.2:latest", "Llama 3.2 Latest (Local)", "Most capable local model", "ollama"),
    ModelDescriptor("deepseek-r1:1.5b", "DeepSeek R1 1.5B (Local)", "Fast and efficient local model", "ollama"),
    ModelDescriptor("smollm:135m", "SmolLM 135M (Local)", "Lightweight local model", "ollama"),
    ModelDescriptor("gemini-2.5-flash-preview-05-20", "Gemini 2.5 Flash (API)", "Google's fast, multi-modal model", "gemini")
  ]

  /** `MODELS.find(m => m.id === id)`: the first catalog entry with that id, if any. */
  function FindModel(catalog: seq<ModelDescriptor>, id: string): (r: Option<ModelDescriptor>)
    ensures r.None? <==> forall k :: 0 <= k < |catalog| ==> catalog[k].id != id
    ensures r.Some? ==> exists k :: 0 <= k < |catalog| && catalog[k] == r.value && r.value.id == id
                                    && forall j :: 0 <= j < k ==> catalog[j].id != id
  {
    if catalog == [] then None
    else if catalog[0].id == id then Some(catalog[0])
    else
      var r := FindModel(catalog[1..], id);
      if r.Some? then
        var k :| 0 <= k < |catalog[1..]| && catalog[1..][k] == r.value && r.value.id == id
                 && forall j :: 0 <= j < k ==> catalog[1..][j].id != id;
        assert catalog[k + 1] == r.value;
        r
      else r
  }

  /** The page state the submission touches. */
  datatype ChatState = ChatState(
    prompt: string, conversations: seq<Message>, attached: seq<FileObj>,
    selectedModel: string, loading: bool)

  /** The submit guard: a trimmed prompt shorter than 3 UTF-16 code units with nothing attached. */
  predicate SubmitIgnored(prompt: string, attached: seq<FileObj>) {
    Utf16Length(Trim(prompt)) < 3 && |attached| == 0
  }

  /** What the `try` block sends, decided by the selected model's catalog entry. */
  datatype Request =
    | HostedRequest(gemini: GeminiPayload)
    | LocalRequest(ollama: OllamaPayload)
    | NoRequest(error: JsError)

  const InvalidModelType := JsError(ErrorName, "Invalid model type selected.")

  /** The engine's error when the selected id is not in the catalog and `.type` is read on `undefined`. */
  const UnknownModel := JsError(TypeErrorName, "Cannot read properties of undefined (reading 'type')")

  /**
   * The payload for the selected model, built from the prompt as typed (not trimmed)
   * and the files attached when the prompt was submitted.
   */
  function RequestFor(selectedModel: string, prompt: string, files: seq<FileObj>): (r: Request)
    ensures r.HostedRequest? <==> FindModel(Models, selectedModel).Some? && FindModel(Models, selectedModel).value.kind == "gemini"
    ensures r.LocalRequest? <==> FindModel(Models, selectedModel).Some? && FindModel(Models, selectedModel).value.kind == "ollama"
    ensures r.HostedRequest? ==> r.gemini == CreateGeminiPayload(prompt, files)
    ensures r.LocalRequest? ==> r.ollama == CreateOllamaPayload(selectedModel, prompt, files)
    ensures r.NoRequest? && FindModel(Models, selectedModel).None? ==> r.error == UnknownModel
  {
    match FindModel(Models, selectedModel)
    case None => NoRequest(UnknownModel)
    case Some(m) =>
      if m.kind == "gemini" then HostedRequest(CreateGeminiPayload(prompt, files))
      else if m.kind == "ollama" then LocalRequest(CreateOllamaPayload(selectedModel, prompt, files))
      else NoRequest(InvalidModelType)
  }

  /** Every catalog id leads to a request; none falls into the invalid-type branch. */
  lemma CatalogAlwaysSends(k: nat, prompt: string, files: seq<FileObj>)
    requires k < |Models|
    ensures !RequestFor(Models[k].id, prompt, files).NoRequest?
  {
  }

  function UserMessage(s: ChatState, userId: int): Message {
    Message(userId, UserRole, Trim(s.prompt), s.attached, None, s.selectedModel, false)
  }

  function BotPlaceholder(s: ChatState, botId: int): Message {
    Message(botId, BotRole, "", [], None, s.selectedModel, false)
  }

  datatype Submission = Ignored | Started(state: ChatState, request: Request)

  /**
   * Submitting: ignored when the guard says so; otherwise the user message (trimmed
   * prompt, attached files) and then an empty bot placeholder are appended, the prompt
   * and the attachments are cleared, and the request is built from the untrimmed prompt
   * and the files that were attached.
   */
  function Submit(s: ChatState, userId: int, botId: int): (r: Submission)
    ensures r.Ignored? <==> SubmitIgnored(s.prompt, s.attached)
    ensures r.Started? ==> |r.state.conversations| == |s.conversations| + 2
    ensures r.Started? ==> r.state.conversations[..|s.conversations|] == s.conversations
    ensures r.Started? && |r.state.conversations| == |s.conversations| + 2 ==>
      var m := r.state.conversations[|s.conversations|];
      m.id == userId && m.role == UserRole && m.content == Trim(s.prompt) && m.files == s.attached
    ensures r.Started? && |r.state.conversations| == |s.conversations| + 2 ==>
      var m := r.state.conversations[|s.conversations| + 1];
      m.id == botId && m.role == BotRole && m.content == "" && m.runtime.None? && !m.isError
    ensures r.Started? ==> r.state.attached == [] && r.state.prompt == "" && r.state.loading
    ensures r.Started? ==> r.state.selectedModel == s.selectedModel
    ensures r.Started? ==> r.request == RequestFor(s.selectedModel, s.prompt, s.attached)
  {
    if SubmitIgnored(s.prompt, s.attached) then Ignored
    else
      var withUser := s.conversations + [UserMessage(s, userId)];
      var state := ChatState("", withUser + [BotPlaceholder(s, botId)], [], s.selectedModel, true);
      Started(state, RequestFor(s.selectedModel, s.prompt, s.attached))
  }

  /** A prompt of blanks with nothing attached never reaches the conversation. */
  lemma BlankPromptIgnored(s: ChatState, userId: int, botId: int)
    requires forall i :: 0 <= i < |s.prompt| ==> IsTrimmable(s.prompt[i])
    requires s.attached == []
    ensures Submit(s, userId, botId) == Ignored
  {
  }

  /** Any attachment makes a submission go through, whatever the prompt. */
  lemma AttachmentForcesSubmit(s: ChatState, userId: int, botId: int)
    requires |s.attached| > 0
    ensures Submit(s, userId, botId).Started?
  {
  }

  /**
   * Resolves the placeholder with id `botId`: on success its content and runtime are
   * set, on failure its content becomes `Error: <text>` and it is flagged; every other
   * message stays as it is and the length does not change. On cancellation the
   * placeholder is removed and nothing else.
   */
  function Settle(conv: seq<Message>, botId: int, s: Settlement, runtime: real): (r: seq<Message>)
    ensures !s.Aborted? ==> |r| == |conv|
    ensures !s.Aborted? ==> forall i :: 0 <= i < |conv| && conv[i].id != botId ==> r[i] == conv[i]
    ensures s.Fulfilled? ==> forall i :: 0 <= i < |conv| && conv[i].id == botId ==>
      r[i] == conv[i].(content := s.reply, runtime := Some(runtime))
    ensures s.Failed? ==> forall i :: 0 <= i < |conv| && conv[i].id == botId ==>
      r[i] == conv[i].(content := "Error: " + s.text, isError := true)
    ensures s.Aborted? ==> forall i :: 0 <= i < |r| ==> r[i] in conv && r[i].id != botId
    ensures s.Aborted? ==> forall i :: 0 <= i < |conv| && conv[i].id != botId ==> conv[i] in r
  {
    match s
    case Fulfilled(reply) =>
      ById.Update(conv, MessageKey, botId, (m: Message) => m.(content := reply, runtime := Some(runtime)))
    case Failed(text) =>
      ById.Update(conv, MessageKey, botId, (m: Message) => m.(content := "Error: " + text, isError := true))
    case Aborted =>
      ById.Remove(conv, MessageKey, botId)
  }

  /** With distinct ids, cancelling deletes exactly the placeholder and keeps the others in order. */
  lemma AbortRemovesPlaceholder(conv: seq<Message>, k: nat, runtime: real)
    requires k < |conv| && ById.UniqueKeys(conv, MessageKey)
    ensures Settle(conv, conv[k].id, Aborted, runtime) == conv[..k] + conv[k + 1..]
  {
    ById.RemoveOne(conv, MessageKey, conv[k].id, k);
  }

  /** The settled form of a placeholder (cancellation aside). */
  function Resolved(m: Message, s: Settlement, runtime: real): Message {
    match s
    case Fulfilled(reply) => m.(content := reply, runtime := Some(runtime))
    case Failed(text) => m.(content := "Error: " + text, isError := true)
    case Aborted => m
  }

  /** What the `try`/`catch` makes of a request, given the network's answers. */
  function Perform(request: Request, outcomes: seq<FetchOutcome>): Settlement
    requires |outcomes| >= DefaultMaxRetries
  {
    match request
    case NoRequest(e) => Catch(Failure(e))
    case HostedRequest(_) => Catch(AfterFetch(Hosted, Retry(outcomes, DefaultMaxRetries, DefaultRetryDelay).result))
    case LocalRequest(_) => Catch(AfterFetch(Local, Retry(outcomes, DefaultMaxRetries, DefaultRetryDelay).result))
  }

  /**
   * One whole `handleSubmit`, run without anything interleaving: submit, send with
   * retries, read the reply, settle the placeholder, and leave the loading state.
   */
  function HandleSubmit(s: ChatState, userId: int, botId: int, outcomes: seq<FetchOutcome>, runtime: real): ChatState
    requires |outcomes| >= DefaultMaxRetries
  {
    match Submit(s, userId, botId)
    case Ignored => s
    case Started(next, request) =>
      next.(conversations := Settle(next.conversations, botId, Perform(request, outcomes), runtime), loading := false)
  }

  /**
   * Settling a placeholder that is the only message with its id, appended last:
   * the earlier messages are untouched and the placeholder is resolved or dropped.
   */
  lemma SettleFresh(before: seq<Message>, bot: Message, settlement: Settlement, runtime: real)
    requires forall i :: 0 <= i < |before| ==> before[i].id != bot.id
    ensures Settle(before + [bot], bot.id, settlement, runtime)
         == before + (if settlement.Aborted? then [] else [Resolved(bot, settlement, runtime)])
  {
    var conv := before + [bot];
    var r := Settle(conv, bot.id, settlement, runtime);
    if settlement.Aborted? {
      ById.RemoveOne(conv, MessageKey, bot.id, |conv| - 1);
      assert conv[..|conv| - 1] == before;
      assert before + [] == before;
    } else {
      assert conv[|before|] == bot;
      assert r == before + [Resolved(bot, settlement, runtime)];
    }
  }

  /**
   * A submission that goes through leaves the earlier messages as they were and adds
   * the user message followed by the resolved placeholder, or the user message alone
   * when the request was cancelled. An ignored submission changes nothing.
   */
  lemma SubmitCycle(s: ChatState, userId: int, botId: int, outcomes: seq<FetchOutcome>, runtime: real)
    requires |outcomes| >= DefaultMaxRetries
    requires userId != botId
    requires forall i :: 0 <= i < |s.conversations| ==> s.conversations[i].id != botId
    ensures SubmitIgnored(s.prompt, s.attached) ==> HandleSubmit(s, userId, botId, outcomes, runtime) == s
    ensures !SubmitIgnored(s.prompt, s.attached) ==>
      var settlement := Perform(RequestFor(s.selectedModel, s.prompt, s.attached), outcomes);
      var r := HandleSubmit(s, userId, botId, outcomes, runtime);
      && r.attached == [] && r.prompt == "" && !r.loading
      && r.conversations == s.conversations + [UserMessage(s, userId)]
           + (if settlement.Aborted? then [] else [Resolved(BotPlaceholder(s, botId), settlement, runtime)])
  {
    if !SubmitIgnored(s.prompt, s.attached) {
      var before := s.conversations + [UserMessage(s, userId)];
      var sub := Submit(s, userId, botId);
      assert sub.state.conversations == before + [BotPlaceholder(s, botId)];
      SettleFresh(before, BotPlaceholder(s, botId), Perform(sub.request, outcomes), runtime);
    }
  }

  /**
   * Stopping a request makes every later `fetch` throw an `AbortError`; the retries still
   * run out, and the conversation then ends with the user message and no placeholder.
   */
  lemma StopRemovesPlaceholder(s: ChatState, userId: int, botId: int, outcomes: seq<FetchOutcome>, runtime: real, k: nat)
    requires |outcomes| >= DefaultMaxRetries
    requires userId != botId
    requires forall i :: 0 <= i < |s.conversations| ==> s.conversations[i].id != botId
    requires !SubmitIgnored(s.prompt, s.attached)
    requires !RequestFor(s.selectedModel, s.prompt, s.attached).NoRequest?
    requires k < DefaultMaxRetries
    requires forall j :: 0 <= j < k ==> Retryable(outcomes[j])
    requires forall j :: k <= j < DefaultMaxRetries ==> outcomes[j].Throw? && IsAbort(outcomes[j].error)
    ensures HandleSubmit(s, userId, botId, outcomes, runtime).conversations == s.conversations + [UserMessage(s, userId)]
  {
    AbortDoesNotStopRetries(outcomes, DefaultMaxRetries, DefaultRetryDelay, k);
    SubmitCycle(s, userId, botId, outcomes, runtime);
    assert s.conversations + [UserMessage(s, userId)] + [] == s.conversations + [UserMessage(s, userId)];
  }
}
