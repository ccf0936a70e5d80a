# Chat bot relay and client: a verified model

The system is a browser chat client (`public/js/script.js`) talking to a small
Express relay (`server.js`). The relay forwards the conversation to an
OpenAI-compatible chat completion service. This project models its three pieces
of logic in Dafny and proves their properties:

- **Response segmentation** (`Segmentation`, built on `Strings`). An assistant
  reply is split on triple backticks. Even-positioned parts become trimmed prose
  segments, and blank ones are dropped. Odd-positioned parts become code blocks:
  the first line is the language label and the rest is the body. A reply with no
  fence is a single prose segment, left untrimmed. `Strings` gives JavaScript's
  `trim`, `includes`, `split` and `join` definitions of their own, each with
  proved properties.
- **The client session** (`Session`). `ChatClient` is a class holding:
  - the history (`chatHistory`);
  - the single-flight flag (`isProcessing`);
  - the copy saved in local storage;
  - the chat box contents, apart from the welcome messages.

  Its methods follow `loadChatHistory`, `saveChatHistory`, `clearChat` and
  `handleSendMessage`. `handleSendMessage` is split at its `await`: `Submit`
  runs up to the request and `Complete` runs after the reply. `sendToAPI`
  becomes a function of the abstract outcome of the network call. The class
  invariant says two things: the stored copy is always a prefix of the live
  history, and the chat box, apart from the welcome messages, always shows exactly
  the replay of the live history.
- **The relay** (`Relay`). This covers:
  - the start-up credential check;
  - `validateChatRequest`;
  - the `/api/chat` handler, with the upstream call as an abstract outcome;
  - the fallback error middleware.

  Each is a pure function, from the environment, the parsed body and the
  upstream outcome to the upstream call made (if any) and the status and JSON
  body sent back.

Behaviour modelled as the code has it, where a reader might expect otherwise:
- A failed send (non-ok status, missing choices, a thrown error) does not leave
  the history untouched. `sendToAPI` returns the text "Error processing request",
  and that text is appended as an assistant turn and saved.
- An empty or absent reply is neither appended nor saved.
- A malformed upstream reply gets no separate notification.
- The `messages` sent upstream are always the whole live history, including the
  new user turn. They are the stored transcript plus that turn only while the two
  agree.
- The relay's error middleware answers 500 to a request whose body does not
  parse, whatever status the body parser attached.

## Model

| member | source | states |
|---|---|---|
| Strings.TrimShape | public/js/script.js:74 | `trim` removes a whitespace prefix and suffix, and what is left neither starts nor ends with whitespace |
| Strings.Trim | public/js/script.js:74 | `String.prototype.trim`; no contract of its own, characterised by `TrimShape`, `TrimUnique`, `TrimEmpty` and `TrimIdempotent` |
| Strings.TrimUnique | public/js/script.js:149-150 | any cut that strips only whitespace and leaves non-whitespace ends gives exactly `trim`'s result |
| Strings.TrimEmpty | public/js/script.js:149 | `part.trim()` is falsy exactly when the part is all whitespace |
| Strings.TrimIdempotent | public/js/script.js:150 | trimming twice is trimming once |
| Strings.Includes | public/js/script.js:145 | `includes` is true exactly when the delimiter occurs at some index |
| Strings.Split | public/js/script.js:146 | `split` yields at least one part |
| Strings.SplitJoin | public/js/script.js:146 | joining the parts of a split with the delimiter gives back the input |
| Strings.Join | public/js/script.js:155 | `Array.prototype.join`; no contract of its own, characterised as the inverse of `Split` by `SplitJoin` |
| Strings.SplitPartsFree | public/js/script.js:146 | no part of a split contains the delimiter |
| Strings.SplitSingle | public/js/script.js:145-146 | a split has a single part exactly when the delimiter does not occur, and that part is the whole input |
| Strings.SplitAtFirst | public/js/script.js:153 | at the first delimiter the first part is everything before it, and the other parts are the split of what follows |
| Strings.SplitCount | public/js/script.js:146 | `n` delimiters give `n + 1` parts |
| Strings.IncludesPrefix | server.js:53-67 | a string includes each of its prefixes, so the thrown upstream text contains the marker |
| Strings.NatToString | server.js:54 | the status is printed as a non-empty string of decimal digits |
| Strings.NatToStringValue | server.js:54 | the printed digits denote the status's value, with no leading zero |
| Strings.IntToString | server.js:54 | `String(n)` of an integer: a minus sign for negatives, then the digits of `NatToStringValue` |
| Segmentation.PartsSegments | public/js/script.js:147 | the `forEach` visits every part: one group of segments per part |
| Segmentation.ProcessResponse | public/js/script.js:144-162 | `processResponse`; no contract of its own, characterised by `Unfenced`, `FencedParts`, `FencedCodes`, `FencedProse` and the worked examples |
| Segmentation.PartSegments | public/js/script.js:147-157 | the `forEach` body: an even index gives the prose of the part, an odd index its code block; characterised by `FencedCodes` and `FencedProse` |
| Segmentation.ProseOf | public/js/script.js:148-151 | an even part's contribution; characterised by `ProseOfBlank` |
| Segmentation.ProseOfBlank | public/js/script.js:148-151 | a prose part is dropped exactly when it is all whitespace; otherwise it is the one segment of its trim, whose ends are not whitespace |
| Segmentation.CodeBlock | public/js/script.js:153-155 | an odd part always yields a code segment, never omitted; label and body are given by `CodeBlockLines` and `CodeBlockOneLine` |
| Segmentation.Unfenced | public/js/script.js:159-160 | a reply without a fence is one prose segment equal to the whole reply, untrimmed, even when blank |
| Segmentation.FencedParts | public/js/script.js:146 | a fenced reply with `n` fences has `n + 1` fence-free parts, at least two, that join back to the reply |
| Segmentation.FencedCodes | public/js/script.js:146-156 | the code segments are exactly the code blocks of the odd parts, in order, `(n + 1) / 2` of them, none omitted |
| Segmentation.FencedProse | public/js/script.js:148-151 | the prose segments are the even parts trimmed, in order, with the blank ones left out |
| Segmentation.CodeBlockOneLine | public/js/script.js:153-155 | a code part without a newline is all label, with an empty body |
| Segmentation.CodeBlockLines | public/js/script.js:153-155 | the label is the text before the first newline, trimmed; the body is everything after it, trimmed |
| Segmentation.OneCodeBlock | public/js/script.js:144-162 | prose, one fenced block, prose: the segments are the non-blank prose, the block, then the non-blank prose |
| Segmentation.UnterminatedCodeBlock | public/js/script.js:146-156 | an unclosed fence still yields the code block of everything after it |
| Segmentation.ExampleFenced | public/js/script.js:144-162 | "a```js\nconsole.log(1)```b" gives prose "a", code "js" / "console.log(1)", prose "b" |
| Segmentation.ExamplePlain | public/js/script.js:159-160 | "hello" gives the single prose segment "hello" |
| Session.SendToApi | public/js/script.js:111-142 | the reply is the first choice's content when the call succeeded and the choice has a message; every other outcome gives "Error processing request" |
| Session.RecordedReply | public/js/script.js:94-101 | a reply is recorded exactly when the call failed, as the failure text, or when the content is a non-empty string |
| Session.Truthy | public/js/script.js:94 | `if (response)`: only a non-empty string reply is recorded; used by `RecordedReply` and `Complete` |
| Session.Rendered | public/js/script.js:27-31 | what one stored turn adds to the chat box; characterised through `Replay` by `ReplayTranscript` and `ReplayIgnoresOtherRoles` |
| Session.Replay | public/js/script.js:26-32 | the chat box rebuilt from a history; the loop `ReplayTranscript` is proved equal to it, and `ReplayAppend` shows it is compositional |
| Session.ReplayTranscript | public/js/script.js:26-32 | the loop shows exactly the replay of the history: user turns as messages, assistant turns segmented, other roles skipped |
| Session.ReplayAppend | public/js/script.js:26-32 | the replay of two histories back to back is the replay of one followed by that of the other |
| Session.ReplayIgnoresOtherRoles | public/js/script.js:27-31 | a turn whose role is neither user nor assistant leaves no trace in the chat box |
| Session.ChatClient.constructor | public/js/script.js:12-18 | at page load nothing is pending and the history is the stored one, or empty; the invariant holds |
| Session.ChatClient.LoadChatHistory | public/js/script.js:21-34 | a stored history replaces the live one and its replay is appended to the chat box; with nothing stored nothing changes |
| Session.ChatClient.SaveChatHistory | public/js/script.js:36-38 | storage now holds the whole live history; nothing else changes |
| Session.ChatClient.ClearChat | public/js/script.js:294-299 | the history and chat box are empty and the storage entry is gone; the flag is untouched |
| Session.ChatClient.Submit | public/js/script.js:70-91 | while a send is pending, or for blank input, nothing changes and no request is made; otherwise the trimmed user turn is appended and shown, the flag is set, and the request carries the whole new history at temperature 0.7 |
| Session.ChatClient.Complete | public/js/script.js:91-108 | a truthy reply is appended, shown through segmentation, and the whole history saved; any other reply changes nothing; the flag is cleared; the invariant is kept |
| Session.ChatClient.HandleSendMessage | public/js/script.js:70-109 | an ignored send changes nothing; an accepted one sends the history with the new turn, ends with the flag cleared, and records and saves the reply exactly when it is truthy |
| Relay.Lookup | server.js:28 | a missing key gives `undefined`; otherwise the value is that of the last member with the key |
| Relay.Member | server.js:28 | `v?.key` on a parsed value: only objects have members; characterised by `UpstreamMessageAbsent` and `UpstreamMessageNested` |
| Relay.HasMessages | server.js:30 | the condition under which `validateChatRequest` passes; tied to it by `ValidateChatRequest`'s contract |
| Relay.ValidateChatRequest | server.js:27-37 | a request passes exactly when `messages` is a non-empty array; a `null` body throws the destructuring TypeError; otherwise the reply is 400 with the fixed error text and no details |
| Relay.Forward | server.js:42-49 | the upstream POST: fixed URL, `Bearer <API_KEY>`, JSON content type, the request body unchanged; stated by `ForwardedIffValid` |
| Relay.UpstreamMessage | server.js:52-55 | `errorData?.error?.message`, with an unreadable body read as `null` |
| Relay.UpstreamMessageAbsent | server.js:52-55 | the message is absent for an unreadable body, a non-object body, and a body whose `error` member is missing or not an object |
| Relay.UpstreamMessageNested | server.js:55 | with an object under `error`, the message is that object's `message` member |
| Relay.UpstreamMessageOf | server.js:55 | for `{"error": {"message": s}}` the message is the string `s` |
| Relay.ToJsString | server.js:54-56 | the template literal's string conversion; characterised by `JsStringCases` |
| Relay.JsStringCases | server.js:54-56 | a string converts to itself, a natural number to digits denoting it, an object to "[object Object]", an empty array to "", a one-element array to its element's conversion ("" for `null`) |
| Relay.UpstreamDetail | server.js:55 | the truthy `errorData?.error?.message` converted to a string, or else 'Unknown error'; characterised by `UpstreamTextWithMessage` and `UpstreamTextUnknown` |
| Relay.UpstreamErrorText | server.js:51-57 | the text thrown for a non-ok upstream status is "Groq API error: ", the status in decimal, " - ", then the upstream detail; so it always contains "Groq API error" |
| Relay.UpstreamTextWithMessage | server.js:53-57 | for `{"error": {"message": s}}` with `s` non-empty, the text is "Groq API error: <status> - s" |
| Relay.UpstreamTextUnknown | server.js:53-57 | without a truthy upstream message the text is "Groq API error: <status> - Unknown error" |
| Relay.TryRelay | server.js:41-61 | the handler has data to send exactly when the upstream answered ok with JSON, and then it is that JSON; a non-ok status throws the upstream error text; a rejected fetch or an unparsable ok body throws its own message |
| Relay.InternalError | server.js:72-87 | a 500 with "Internal server error", whose details are the error message exactly in development mode |
| Relay.CatchError | server.js:63-78 | a caught error gives 502 exactly when its message contains "Groq API error", with the message as details; every other error gives the internal error reply |
| Relay.ChatHandler | server.js:40-79 | the route handler after validation; its outcomes are stated by `UpstreamSuccess`, `UpstreamFailure` and `UpstreamErrorCaught` |
| Relay.HandleChat | server.js:23-88 | POST /api/chat through body parser, validator, handler and error middleware; characterised by `ForwardedIffValid`, `StatusCodes` and `DetailsOnlyInDevelopment` |
| Relay.ForwardedIffValid | server.js:40-49 | exactly the requests with a non-empty `messages` array are forwarded, with the body unchanged and `Bearer <API_KEY>`; the others get 400, or the error middleware's 500 for a body that did not parse or is `null` |
| Relay.UpstreamSuccess | server.js:60-61 | an ok upstream reply is returned verbatim with status 200 |
| Relay.UpstreamFailure | server.js:51-71 | a non-ok upstream status gives 502 whose details are the upstream error text, never 200 |
| Relay.UpstreamErrorCaught | server.js:41-77 | a rejected upstream call or an unparsable ok reply is answered by the `catch` on that error's own message: a 500 unless the message contains "Groq API error" |
| Relay.StatusCodes | server.js:27-88 | every reply is 200, 400, 500 or 502; 200 exactly when forwarded and the upstream answered ok with JSON; 400 exactly for a parsed, non-`null` body without a non-empty `messages` |
| Relay.DetailsOnlyInDevelopment | server.js:51-87 | a 502 always has details, a 500 has them exactly in development mode, a 400 never |
| Relay.Start | server.js:11-17 | the process exits with status 1 exactly when API_KEY is unset or empty; otherwise it listens on PORT, or 3000 when that is unset or empty |
| Relay.Serve | server.js:14-91 | a request reaches the handler only when start-up went on to listen; characterised by `ServedOnlyWithKey` |
| Relay.ServedOnlyWithKey | server.js:12-45 | nothing is served without a credential; every upstream call carries the configured non-empty key as a bearer token |

## Left out

- DOM rendering (`displayMessage`, `displayCodeBlock`, `autoResize`, the textarea being cleared). The chat box is modelled as a sequence of displayed items.
- The welcome messages (`showWelcomeMessage`, run right after `loadChatHistory` at page load). Timers write three bot messages into the chat box over the first two seconds, so a message sent early can land between them. They belong to no history and only `clearChat` removes them. They are not part of `view`, which is the chat box apart from them.
- Toasts, the clipboard, theme, sidebar, mode, suggestions and file upload: these are presentation and browser I/O with no state the core reads.
- The `fetch` calls on both sides. They become abstract outcomes (`Session.ApiOutcome`, `Relay.Upstream`) given as parameters. The model's envelope is fixed: URL, bearer header, content type, and the body forwarded unchanged.
- Express plumbing: `cors`, `express.static`, `app.listen`, console logging and the `process.on` fatal handlers. Start-up is the exit-or-listen decision only.
- The JSON text itself: `JSON.stringify`/`JSON.parse` for local storage and for HTTP bodies. Storage holds the history as a value. Request bodies are parsed values, and their numbers are integers only, so floating-point values are not modelled. `Relay.HandleChat` accepts any parsed value as the body. A `null` body goes through the destructuring TypeError to the error middleware. Other primitives are read as having no `messages`. In strict mode `express.json` only delivers objects and arrays. Under Express 4 it leaves the empty object when no JSON body was sent. Under Express 5 `req.body` stays `undefined` then, the destructuring throws and the error middleware answers 500. No version is pinned, and that case is not modelled.
- Strings are sequences of Unicode scalar values, not JavaScript's UTF-16 code units, so lone surrogates (which `JSON.parse` can produce) cannot be represented. No modelled behaviour depends on this: the fence, the newline and every whitespace character `trim` removes are single non-surrogate characters. The exact wording of the TypeError message is the one V8 produces.
- Session.SendToApi: the response body is reduced to `choices` as an optional list of choices. A `choices` value that is truthy but not an array is not modelled separately, and neither is content that is not a string.
- Session.ChatClient.HandleSendMessage: exceptions thrown inside its `try` are not modelled. They would come from the display helpers or a storage quota failure, and would only show a toast.
- Session.ChatClient.Complete: requires a send in flight. It only ever runs as the continuation of an accepted `Submit`.
- Session.ChatClient.LoadChatHistory: a stored value that is not an array of turns is not modelled. Its invariant is promised only for the page-load state, which is the only place it runs.
- Async interleaving: a send is split into `Submit` and `Complete` around its `await`. Any other method may run in between, just as other event handlers may. The event loop itself is not modelled.
- Relay.Start: the PORT text is passed on as it is, without being parsed as a number.
