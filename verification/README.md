# Chat widget for a webhook bot: response normaliser and conversation controller

This project models the two pieces of logic in a small browser chat widget
that relays user text to a webhook-based bot backend.

- **The bot client** (`sendMessageToN8N`, module `BotService`) runs after the
  HTTP exchange has produced a response or thrown. It turns what came back
  into one reply string or one error message. It reads the body and reports
  a non-OK status with a detail taken from the body. An OK body that is
  blank gets a canned reply. A body that declares JSON has its reply chosen
  by field priority (`output`, `reply`, `answer`, then the first non-blank
  string value), and an unusable JSON body is reported as malformed with a
  snippet of at most 150 characters. Any other body is the reply, trimmed.
  The outer handler passes the client's own errors through and wraps every
  other error once.
- **The conversation controller** (`App`, module `ChatApp`) holds the
  message list and the loading flag. The list updates
  (`addMessageToList`, `showTypingIndicator`, `removeTypingIndicator`) are
  pure functions on a sequence. `handleSendMessage` is split at its `await`
  into `BeginSend` and `CompleteSend`. The invariant is that at most one
  message carries the reserved id `typing-indicator-message`.

Supporting modules: `Results` (option and result types), `Text` (the
JavaScript `trim` whitespace set, `toLowerCase` on ASCII, `includes`,
`startsWith`, decimal rendering of the status), and `Types` (the entities of
`types.ts` and JSON values as the client sees them).

Inputs that the source takes from its environment are parameters here:

- what `fetch` produced (`FetchOutcome`);
- the status, status text, `content-type` header and body of the response;
- what `JSON.parse` makes of the body (`JsonParse`);
- the session id;
- the id and time each new message is given (`Stamp`).

Behaviours worth knowing, as the code has them:

- A JSON body with no usable text is reported as malformed.
  The "no usable text" error (`services/n8nService.ts:71`) is thrown inside
  the `try` that starts at line 49, so the catch at lines 74-77 replaces it.
  `BotService.NoUsableTextNeverSurfaces` proves that this message never
  reaches the caller, although the pass-through list at lines 94-100 names
  its prefix; the model follows the code.
- The "empty or unprocessable response" guard (lines 83-86) can never fire.
  `BotService.ProcessErrorsClassified` proves it.
- The request payload key is `mensaje`, not `message` (line 14). The request
  is not part of this model.

## Model

| member | source | states |
|---|---|---|
| Text.Trim | services/n8nService.ts:40 | `trim` yields the infix of the string that has only whitespace outside it, and the result has no whitespace at either end |
| Text.BlankIffAllWhitespace | services/n8nService.ts:40 | `s.trim() === ''` holds exactly when every character of `s` is whitespace |
| Text.TrimIdempotent | services/n8nService.ts:80 | trimming a trimmed string changes nothing |
| Text.NatToString | services/n8nService.ts:37 | the status in a message is written as decimal digits with no sign and no leading zero |
| Text.NatToStringRoundTrip | services/n8nService.ts:23 | reading the rendered status back gives the status, so different statuses read differently |
| Text.ToLower | services/n8nService.ts:48 | lower-casing keeps the length and maps each ASCII capital to its small letter |
| Text.LowerKeepsOccurrence | services/n8nService.ts:48 | lower-casing keeps every occurrence of a pattern that has no capitals |
| Types.LookupField | types.ts:16-22 | a property read gives the first field with that key, and `undefined` exactly when no field has it |
| BotService.FirstUsableValue | services/n8nService.ts:61-63 | the fallback finds the first field value in key order that is a non-blank string, and none exactly when there is no such value |
| BotService.SelectReply | services/n8nService.ts:53-67 | a chosen reply is non-empty and trimmed |
| BotService.SelectReplyIsPreferred | services/n8nService.ts:53-66 | with distinct keys, the chosen reply is the trimmed value of the best-ranked usable field: `output`, then `reply`, then `answer`, then the other fields by position |
| BotService.NoReplyIffNoUsableValue | services/n8nService.ts:53-69 | no reply is chosen exactly when no field holds a non-blank string |
| BotService.Snippet | services/n8nService.ts:76 | the snippet begins with the first 150 characters of the body, is the whole body when that is at most 150 characters, and is 150 characters plus `...` otherwise |
| BotService.LowerCaseJsonHeaderDeclaresJson | services/n8nService.ts:48 | a content type that contains `application/json` declares JSON |
| BotService.ProcessResponse | services/n8nService.ts:40-88 | every reply the client returns after a response is non-empty and has no whitespace at either end |
| BotService.ProcessErrorsClassified | services/n8nService.ts:17-88 | every error the client raises itself starts with a listed prefix, and the empty-reply error is never raised |
| BotService.SendMessage | services/n8nService.ts:88-106 | a successful result is non-empty and equal to its own trim; for a response, the client's own errors reach the caller unwrapped |
| BotService.BlankOkBodyGetsCannedReply | services/n8nService.ts:40-43 | an OK response with a blank body gets the canned reply, whatever its content type |
| BotService.PlainBodyIsTheReply | services/n8nService.ts:78-81 | an OK response with a non-blank body that does not declare JSON is answered with the trimmed body |
| BotService.JsonBodyOutcome | services/n8nService.ts:48-77 | an OK JSON response fails exactly when the body does not parse, parses to `null`, or has no usable string; the failure is the malformed error with the body's snippet; otherwise the chosen reply is returned |
| BotService.NoUsableTextNeverSurfaces | services/n8nService.ts:69-77 | no error that the client raises after a response starts with the "no usable text" prefix |
| BotService.NonOkStatusReported | services/n8nService.ts:28-37 | a non-OK response with a readable body fails with the status and the chosen detail |
| BotService.StatusErrorDetailChoice | services/n8nService.ts:30-36 | for a body that parses to an object the detail is the nested `error.message`, then the top-level `message`, then the body; otherwise it is the body, or the status text when the body is empty |
| BotService.NestedErrorExample | services/n8nService.ts:33 | status 500 with body `{"error":{"message":"boom"}}` fails with "... (status 500): boom" |
| BotService.UnreadableBodyReported | services/n8nService.ts:17-26 | an unreadable body fails with the status message when not OK and with the read-failure message when OK |
| BotService.ClassifyErrors | services/n8nService.ts:93-104 | a message with a listed prefix passes unchanged; any other error message is wrapped once, kept whole, into a message without a listed prefix |
| BotService.FailureKinds | services/n8nService.ts:90-107 | every failure is a listed error, a wrapped connection failure or a wrapped non-error; a fetch that throws never yields a reply |
| ChatApp.GeneratedIdIsNotSentinel | components/App.tsx:8-12 | a generated id (base-36 digits only) never equals the typing indicator's id |
| ChatApp.AddMessageToList | components/App.tsx:37-39 | the new message is appended at the end and the earlier messages are unchanged |
| ChatApp.RemoveTypingIndicator | components/App.tsx:50-52 | no kept message has the reserved id; a message is kept exactly when it was present and lacks the reserved id; the length drops by the number removed |
| ChatApp.RemoveAppend | components/App.tsx:50-52 | removal distributes over concatenation, so the kept messages stay in their relative order |
| ChatApp.RemoveIdempotent | components/App.tsx:50-52 | removing the typing indicator twice is the same as once |
| ChatApp.ShowTypingIndicator | components/App.tsx:41-48 | afterwards exactly one message has the reserved id, it is the last one, and the other messages are those of the input in their order |
| ChatApp.UpdatesKeepInvariant | components/App.tsx:37-52 | each of the three list updates keeps at most one typing indicator when new messages have generated ids |
| ChatApp.CountAppend | components/App.tsx:37-39 | the number of typing indicators in a concatenation is the sum of the parts' numbers |
| ChatApp.InitialState | components/App.tsx:31-34 | the conversation starts with the bot's welcome message alone, the input enabled, and no typing indicator |
| ChatApp.BeginSend | components/App.tsx:54-64 | without a session id one error message is appended and loading is off; with one, the user message is followed by the typing indicator, loading is on, and exactly one typing indicator exists |
| ChatApp.CompleteSend | components/App.tsx:66-77 | after the call the typing indicator is gone, loading is off, and the list ends with the bot reply or the error message |
| ChatApp.NoSessionIgnoresOutcome | components/App.tsx:55-60 | without a session id the result does not depend on the bot call's outcome and is the list plus one error message |
| ChatApp.SubmissionResult | components/App.tsx:54-77 | with a session id the final list is the earlier messages without the typing indicator, then the user message, then the reply or error |
| ChatApp.SubmissionKeepsInvariant | components/App.tsx:54-77 | a submission keeps at most one typing indicator both while awaiting and after it settles |
| ChatApp.ConversationWithBot | components/App.tsx:66-73 | with the bot client's result, the list ends with a non-empty trimmed bot reply exactly when the client succeeded, and otherwise with an error message |

## Left out

- The `fetch` call, its request headers and the `JSON.stringify` of the payload (`services/n8nService.ts:7-15`) are I/O and a foreign serialiser. Their result is the `FetchOutcome` input.
- `JSON.parse` is an input, not a model. An array or a string is given as the object keyed by its indices, a number or boolean as the empty object, and `null` as `ParsedNull`. The reordering of integer-like keys by JavaScript objects is not modelled.
- BotService.SelectReplyIsPreferred: assumes distinct keys, as `JSON.parse` builds them. For a body with a repeated key JavaScript keeps the last value, whereas `LookupField` takes the first.
- BotService.StatusErrorDetailChoice: only non-empty strings count as truthy for `error.message` and `message`. A truthy number, boolean or object there, which JavaScript would render into the message, is skipped.
- Text.ToLower: lower-cases the ASCII letters only, not the full Unicode case mapping. For the `application/json` test the answer is the same: no other character lowers to a lone letter of that pattern. The dotted capital I lowers to `i` plus a combining dot, which cannot be followed by the pattern's next letter.
- BotService.Snippet: counts characters, where JavaScript's `substring` and `length` count UTF-16 code units. The two agree for text inside the Basic Multilingual Plane.
- `console.*` logging is a side effect only.
- React rendering and hooks (`components/App.tsx:18-30`, `35`, `80-89`), `sessionStorage`, and the generation of ids and timestamps from `Date.now` and `Math.random` (`components/App.tsx:11-16`, `24-28`) are environment. The welcome message of lines 31-34 is `ChatApp.InitialState`. Each new message takes a `Stamp`, and every step of the controller that creates one (`InitialState`, `BeginSend`, `CompleteSend`) requires its id to be a generated base-36 id.
- ChatApp.CompleteSend: the bot call's failure is taken as its message. The `'An unexpected error occurred.'` fallback of `components/App.tsx:72` applies only to non-`Error` values, which the client never throws.
- Overlapping submissions and interleaved asynchronous updates are not modelled. This is concurrency, and the source has no guard against it.
