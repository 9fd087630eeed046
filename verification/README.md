# Local chat page: request pipeline and conversation store

This project models the logic in `src/app/page.tsx` of a browser chat client that talks either to a local Ollama server or to the hosted Gemini API. Everything else in that file is view code. The model covers four pieces:

- **The retry wrapper** `fetchWithExponentialBackoff`. The network is a sequence of abstract `fetch` outcomes: a response with a status and a body, or a thrown error. The wrapper becomes a total function that returns the run it performs: the final result, the number of attempts, and the list of backoff waits. A loop method mirrors the source's `for` loop, and is proved to compute the same run.
- **The payload builders** `createGeminiPayload` and `createOllamaPayload`, applied to the prompt and the ordered list of staged files.
- **Reply normalisation and the `catch` block.** These cover the `response.ok` check, the nested Gemini reply shape, the Ollama `response` field, and how a thrown error becomes a cancellation or a visible error text.
- **The two id-keyed stores.** The conversation gets the submit guard, the user message plus empty bot placeholder, and placeholder resolution on success, failure or abort. The attachment list gets staging, the file-kind dispatch, extractor completion writes and removals, and `removeFile`.

Modules:

- `Wrappers`: `Option` / `Result`.
- `JsStrings`: `trim`, UTF-16 `length`, `startsWith`/`endsWith`, and decimal rendering.
- `ById`: map-by-id and filter-by-id. It is defined once and used by both stores.
- `Attachments`, `Payload`, `Http` (wire shapes), `Backoff`, `Reply` and `Conversation`.

Behaviour of the code that the model keeps:

- **Cancellation does not shorten the retry schedule.** After an abort, every later `fetch` throws an `AbortError`. The wrapper treats that like any network error: it keeps waiting and retrying until its attempts are used up, and only then rethrows. The `catch` block then removes the placeholder (`Backoff.AbortDoesNotStopRetries`, `Conversation.StopRemovesPlaceholder`).
- **Text-file read failures keep the file.** Only PDF and image extraction failures remove the file from the staged list. The plain-text reader has no `onerror` handler and runs outside the `try`, so its failure leaves the file staged with no content (`Attachments.ApplyRead`).
- **The submit guard measures the trimmed prompt in UTF-16 code units.** It counts JavaScript's `length`, not characters.
- **A missing reply text is not an error.** A reply with no text gives an empty reply; for Ollama this is a missing `response` field.
- **A successful reply does not set the bot message's model.** The message keeps the model it was created with.
- **The payload is built from the untrimmed prompt.** It uses the files attached at the moment of submission.

## Model

| member | source | states |
|---|---|---|
| `Backoff.Retry` | src/app/page.tsx:135-152 | The run satisfies `IsRunOf`. With `maxRetries <= 0` it falls through with `undefined`. Otherwise it makes 1 to `maxRetries` attempts, waits `retryDelay * 2^j` after failed attempt `j`, and retries only 429s and thrown errors. It stops at the first other outcome or at the last attempt, and returns or rethrows that outcome. |
| `Backoff.RetryFrom` | src/app/page.tsx:136-150 | From attempt `i` on: the delays are `retryDelay * 2^(i+j)`, every attempt before the last was retryable, the last is not retryable unless attempts ran out, and the result is the last outcome. |
| `Backoff.RunUnique` | src/app/page.tsx:135-152 | Any run meeting the `IsRunOf` description equals `Retry`'s run, so the description determines the wrapper's behaviour. |
| `Backoff.FetchWithBackoff` | src/app/page.tsx:135-152 | The loop with `continue`, `return` and fall-through, statement by statement, produces the same run as `Retry`. |
| `Backoff.NonRateLimitedReturnsAtOnce` | src/app/page.tsx:138-143 | A response whose status is not 429 is returned on the attempt that produced it, after exactly `k + 1` attempts. |
| `Backoff.Exhaustion` | src/app/page.tsx:139-149 | If every attempt is a 429 or a throw, all `maxRetries` attempts are made with `maxRetries - 1` waits. A final 429 is returned as a response and a final error is rethrown. |
| `Backoff.AbortDoesNotStopRetries` | src/app/page.tsx:144-149 | Once every `fetch` throws `AbortError`, the loop still makes all attempts and waits the full schedule, then rethrows the `AbortError`. |
| `Backoff.TwoRateLimitsThenSuccess` | src/app/page.tsx:135-146 | With the defaults (5 attempts, 1000 ms), 429, 429, 200 returns the 200 after 3 attempts and waits `[1000, 2000]`. |
| `Attachments.Classify` | src/app/page.tsx:227-243 | PDF if the type is `application/pdf` or the name ends in `.pdf`. Otherwise image if the type starts with `image/`. Otherwise text if the type starts with `text/` or the name ends in `.md`/`.txt`/`.json`/`.csv`. Otherwise unsupported. Each case is stated both ways. |
| `Attachments.PdfNameWins` | src/app/page.tsx:227 | A name ending in `.pdf` selects the PDF extractor whatever the reported type. |
| `Attachments.Stage` | src/app/page.tsx:213-223 | Picked files are appended after the existing ones, in order, with their metadata and no content. |
| `Attachments.SetContent` | src/app/page.tsx:229-248 | An extractor's write keeps the length. Only the file with the matching id gets the new content; every other file is unchanged. |
| `Attachments.RemoveFile` | src/app/page.tsx:259-261 | No file with the id remains. Every file with another id is kept, and nothing new appears. |
| `Attachments.RemoveFileOne` | src/app/page.tsx:260 | With distinct ids, removal deletes exactly that one entry and keeps the others in their order. |
| `Attachments.ApplyRead` | src/app/page.tsx:225-256 | A completed read writes content by id. A failed PDF or image read removes the file. A failed text read and an unsupported file leave the list as it is. Files with other ids are never lost. |
| `Attachments.LateCompletion` | src/app/page.tsx:229-261 | An extractor that finishes after its file left the list, by `removeFile` or by a submission that emptied it, leaves the list unchanged. |
| `Attachments.ApplyReadCommutes` | src/app/page.tsx:225-256 | Completions of two different files' extractors give the same list in either order. |
| `Payload.WithContentMembers` | src/app/page.tsx:280-301 | A file contributes to either payload exactly when it is among the staged files and its content is truthy, in both directions. |
| `Payload.FileParts` | src/app/page.tsx:280-291 | One part per file with non-empty content, in file order. Image types become inline data and other files become the labelled text. |
| `Payload.CreateGeminiPayload` | src/app/page.tsx:277-294 | A single `user` entry. `parts[0]` is the prompt text, and `parts[k+1]` is the part of the `k`-th file with content, so there are `1 + #files with content` parts. |
| `Payload.CreateOllamaPayload` | src/app/page.tsx:296-308 | The model is the selected model and `stream` is false. The prompt is the user prompt followed by `\n\nContent of <name>:\n\n<content>` for each file with content, in order; image base64 is included too. |
| `Payload.AppendBlocksSpec` | src/app/page.tsx:297-302 | The `combinedPrompt +=` left fold appends exactly the blocks of the files with content, after its starting text. |
| `Payload.BlocksSnoc` | src/app/page.tsx:298-302 | One more file adds its block at the end of the concatenated blocks when it has content, and nothing otherwise. |
| `Payload.OllamaPromptSnoc` | src/app/page.tsx:298-302 | One more file extends the combined prompt by its block if it has content, and by nothing otherwise. |
| `Payload.TextPartMatchesBlock` | src/app/page.tsx:289-300 | For a non-image file, the local block is the hosted text part with `\n\n` in front. |
| `Payload.PendingFilesSendNothing` | src/app/page.tsx:220-302 | Files still awaiting extraction, with null content, add nothing: both payloads carry the prompt alone. |
| `Payload.HostedImageAndText` | src/app/page.tsx:277-293 | An image with content `Zm9v` followed by a text file with content `bar` gives the parts `[prompt, inlineData(image/png, Zm9v), "Content of <name>:\n\nbar"]`. |
| `Payload.LocalImageAndText` | src/app/page.tsx:296-302 | For the same two files, the combined prompt is the prompt followed by the image block and then the text block. |
| `Reply.GeminiText` | src/app/page.tsx:364-371 | The reply is `candidates[0].content.parts[0].text` exactly when `candidates` is non-empty, the first candidate has `content` with non-empty `parts`, and that first part is an object. A `null` first candidate or first part throws the engine's TypeError from the property read. Any other failed shape check is the "Invalid response format from Gemini API." error. |
| `Reply.NullCandidateShowsTypeError` | src/app/page.tsx:364-368 | An OK hosted reply whose first candidate is `null` leaves the bot message with the TypeError text, not the invalid-format text. |
| `Reply.GeminiTextOfWellFormed` | src/app/page.tsx:365-368 | A well-formed reply yields its first part's text, whatever other parts and candidates follow. |
| `Reply.AfterFetch` | src/app/page.tsx:360-389 | Success exactly when the wrapper returned an OK response with a JSON object body and, for Gemini, the shape check passed. Success yields the provider's reply text, with a missing text read as empty. A non-ok status throws `HTTP error! status: <n>`. A rethrown error, a JSON parse error or the Gemini check's error propagates. An `undefined` result is a TypeError. |
| `Reply.Catch` | src/app/page.tsx:404-420 | An `AbortError` is a cancellation, and only it. Any other error becomes its message, or "An error occurred while processing your request." when the message is empty. A completed `try` delivers its reply. |
| `Reply.ErrorText` | src/app/page.tsx:414 | `message \|\| default`: the message when it is non-empty, and "An error occurred while processing your request." when it is empty. |
| `Reply.PersistentFailures` | src/app/page.tsx:139-149 | With the defaults, a persistent 429 surfaces as the HTTP error for status 429, while a persistent thrown error surfaces as that error itself. |
| `Conversation.FindModel` | src/app/page.tsx:344 | `MODELS.find`: the result is none exactly when no entry has the id; otherwise it is the first entry with that id. |
| `Conversation.RequestFor` | src/app/page.tsx:344-393 | A `gemini` entry sends the Gemini payload and an `ollama` entry sends the Ollama payload, both built from the untrimmed prompt. An unknown id fails with the engine's TypeError. |
| `Conversation.CatalogAlwaysSends` | src/app/page.tsx:78-83 | Every catalog id leads to a request; the invalid-type branch is never taken for them. |
| `Conversation.Submit` | src/app/page.tsx:312-340 | Ignored exactly when the trimmed prompt is shorter than 3 UTF-16 units and nothing is attached. Otherwise exactly two messages are appended after the unchanged history. First comes the user message (trimmed prompt, the attached files), then the bot placeholder (empty content, null runtime). The prompt and attachments are cleared, and the request uses the untrimmed prompt. |
| `Conversation.BlankPromptIgnored` | src/app/page.tsx:312 | A whitespace-only prompt with no attachments leaves the state unchanged. |
| `Conversation.AttachmentForcesSubmit` | src/app/page.tsx:312 | Any attachment makes a submission go through, even with an empty prompt. |
| `Conversation.Settle` | src/app/page.tsx:398-419 | On success or failure the length is kept and only messages with the bot id change. Success sets `content`/`runtime`; failure sets `content = "Error: " + text` and `isError`. On abort, no message with that id remains and every other message is kept. |
| `Conversation.AbortRemovesPlaceholder` | src/app/page.tsx:406 | With distinct ids, abort removes exactly the placeholder and keeps the others in their relative order. |
| `Conversation.SettleFresh` | src/app/page.tsx:398-419 | Settling a freshly appended placeholder whose id appears nowhere else leaves the earlier messages unchanged. It replaces the placeholder by its resolved form, or drops it on abort. |
| `Conversation.SubmitCycle` | src/app/page.tsx:310-425 | A whole submission with fresh ids. The result is the old history, then the user message, then the resolved placeholder (or nothing after a cancellation). Loading is off and the prompt and attachments are cleared. An ignored submission changes nothing. |
| `Conversation.StopRemovesPlaceholder` | src/app/page.tsx:404-432 | Stopping a request, so that every later `fetch` throws `AbortError`, ends with the user message and no placeholder. |
| `JsStrings.Trim` | src/app/page.tsx:312-317 | `String.prototype.trim`: the result is a slice of the input. Everything cut off before and after it is ECMAScript whitespace or a line terminator, and the result neither starts nor ends with one. |
| `JsStrings.TrimUnique` | src/app/page.tsx:312-317 | Any string meeting that description is `Trim`'s result. |
| `JsStrings.TrimIdempotent` | src/app/page.tsx:317 | Trimming the stored prompt again changes nothing. |
| `JsStrings.TrimBlank` | src/app/page.tsx:312 | A string of whitespace only trims to the empty string. |
| `JsStrings.Utf16Length` | src/app/page.tsx:312 | JavaScript `length`: one code point counts 2 if it lies outside the Basic Multilingual Plane and 1 otherwise. A string has between `\|s\|` and `2\|s\|` code units, exactly `\|s\|` when it has no astral code point. |
| `JsStrings.Utf16LengthAppend` | src/app/page.tsx:312 | `length` adds up over concatenation; with the one-code-point values this fixes it as code points plus astral code points. |
| `JsStrings.Decimal` | src/app/page.tsx:361 | The `${status}` rendering: a non-empty digit string with no leading zero, whose value is the number. |
| `ById.RemoveOne` | src/app/page.tsx:406 | If only index `k` carries the id, filtering it out gives `xs[..k] + xs[k+1..]`. |
| `ById.RemoveAppend` | src/app/page.tsx:254-260 | Filtering by id preserves order: it distributes over concatenation. |
| `ById.UpdateAbsent` | src/app/page.tsx:229-248 | A map by an id that no record carries leaves the list unchanged. |
| `ById.RemoveCommutes` | src/app/page.tsx:254 | Two removals by id commute, as concurrent extraction failures require. |
| `ById.UpdateRemoveCommute` | src/app/page.tsx:229-254 | A content write for one id and a removal of another id commute. |

## Left out

- **The network and real `fetch`.** The URLs, the API key, headers and JSON serialisation are not modelled. The network's answers are a sequence of outcomes, and a parsed body keeps only the `candidates` and `response` fields the page reads. A `null` JSON body is not modelled. Inside the reply, only `null` elements of `candidates` and `parts` are modelled. Other non-object values are not: a `candidates` or `parts` that is a string or a number, a `content` that is a non-object truthy value, a `text` that is not a string. A `null` or absent `content`, `parts` or `text` is the same as missing.
- **Timers and `AbortController` wiring.** Waits are only the emitted delay list. Cancellation appears as `AbortError` outcomes; the cooperative abort timing and async interleaving of updates are not modelled. `HandleSubmit` runs one submission with nothing interleaved, although the by-id updates are proved to tolerate other changes to the lists.
- **File extraction I/O.** `FileReader`, the PDF.js page loop and base64 data-URL reading (src/app/page.tsx:87-132) are not modelled. Extracted content is an opaque string or absent; the browser `File` handle is dropped.
- **`formatFileSize`, `getFileIcon`, export, `clearConversation`, the markdown renderer, `CodeBlock`, the theme button and all other rendering.** These are floating point, DOM or view code.
- **Non-deterministic values.** Ids from `Date.now()`/`Math.random()` are parameters (integers; only equality matters). Timestamps are dropped. The elapsed runtime is an opaque `real` parameter.
- **Undefined reply text.** When a reply text is `undefined`, the source stores `undefined` in the message, and it renders as nothing. The model stores the empty string.
- **Engine error messages.** The TypeError texts for reading `.ok` or `.type` on `undefined` are written as V8 phrases them; other engines word them differently.
- `Backoff.Retry`: requires the outcome sequence to hold at least `maxRetries` entries, because the network must answer every attempt the loop may make. The source itself places no bound on its callers.
- `src/app/layout.tsx`: page metadata and layout only, with no logic.
