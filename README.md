# VolkAI chat components: a Dafny model

The repository holds four near-duplicate React chat components that send
the user's text to a hosted language-model endpoint and show the reply:

- `InternetChatbot.js` first asks a search endpoint for a summary and source
  links, then streams the reply.
- `context.js` streams the reply and may send, as a system message, the
  previous question and the reply that followed it.
- `test/page.js` asks for the whole reply at once and replaces an empty
  placeholder with it.
- `Chatbot.js` is the legacy single-prompt component: a fixed prompt
  template, with no in-flight check of its own.

This project lifts the sequential logic out of those components:

- the stream event extractor (`split("\n\n")`, drop blank pieces, remove the
  first `"data: "`);
- the transcript updaters passed to `setMessages`;
- the request bodies;
- the `sendMessage` state changes (guard, in-flight flag, the exact
  transcript operations on success and on error).

Modules, one per file:

| file | module | models |
|---|---|---|
| `wrappers.dfy` | `Wrappers` | `Option` |
| `text.dfy` | `Text` | JavaScript `trim`, `indexOf`, `replace(string, "")`, `split(string)` |
| `chat.dfy` | `Chat` | roles, messages, transcript updaters, request bodies |
| `event_stream.dfy` | `EventStream` | event extraction, token application, the read loop of `handleStream` |
| `internet_chatbot.dfy` | `InternetChat` | `InternetChatbot.js` |
| `context_chatbot.dfy` | `ContextChat` | `context.js` |
| `batch_chatbot.dfy` | `BatchChat` | `test/page.js` |
| `legacy_chatbot.dfy` | `LegacyChat` | `Chatbot.js` |

Each component is a class. Its fields are the component's `useState` values.
Its methods change those fields the way the `setX` calls do. Functional
updaters are applied one after another, in program order.

`InternetChatbot.js` and `context.js` contain the same two loops in
`handleStream`. They are modelled once: the read loop is
`EventStream.ConsumeStream` and the per-event loop is `EventStream.ApplyUnits`.
Both methods work on a transcript value, and each class's `HandleStream`
assigns the result back to the `messages` field.

Inputs that come from outside are parameters:

- `JSON.parse` of one event unit is `parse: string -> Option<Event>`.
- A streamed response is the sequence of already-decoded chunks read before
  the reader reported done or failed. A failed read ends the loop exactly
  like done, and nothing is shown for it.
- Whether a request succeeded is a `bool`. A batch reply is an
  `Option<string>`.

Behaviour the model keeps exactly as the code has it:

- No end-of-text sentinel is detected or stripped.
- No text is carried from one chunk to the next. An event cut by a chunk
  boundary is parsed as two separate units, each of which normally fails to
  parse (`SplitEventNotReassembled`).
- `Chatbot.js` does not enforce one request in flight. Its transcript update
  is rebuilt from the snapshot taken at submission. So overlapping
  submissions lose messages (`OverlappingSends`).
- The blank filter runs before the `"data: "` prefix is removed. So a unit
  that is only `data: ` yields an empty unit rather than none
  (`StrippedUnitMayBeBlank`).

## Model

| member | source | states |
|---|---|---|
| `Text.TrimStartSpec` | app/components/InternetChatbot.js:46 | the front part of `trim`: the dropped prefix is all whitespace and the kept suffix does not start with whitespace |
| `Text.TrimEndSpec` | app/components/InternetChatbot.js:46 | the back part of `trim`: the dropped suffix is all whitespace and the kept prefix does not end with whitespace |
| `Text.BlankIff` | app/components/InternetChatbot.js:73 | `Blank(s)`, the model of `!s.trim()` here and of `line.trim() !== ""` failing at line 46, holds exactly when every character of `s` is ECMAScript whitespace or a line terminator |
| `Text.IndexOf` | app/components/InternetChatbot.js:47 | the result is the first position where the pattern occurs, and it is `None` exactly when the pattern occurs nowhere |
| `Text.RemoveFirst` | app/components/InternetChatbot.js:47 | `replace(pat, "")` cuts out only the first occurrence, and returns a string without the pattern unchanged |
| `Text.Split` | app/components/InternetChatbot.js:45 | `split` returns at least one part, joining the parts with the separator gives back the input, no part contains the separator, and every cut is at the leftmost occurrence (no occurrence starts inside a part and runs into the separator after it) |
| `Text.SplitAtFirst` | app/components/InternetChatbot.js:45 | a separator that follows a prefix free of the separator's first character ends the first part |
| `Text.SplitFree` | app/components/InternetChatbot.js:45 | a string without the separator splits into itself alone |
| `Chat.AppendToken` | app/components/InternetChatbot.js:53-59 | the token updater keeps the length and every earlier message, and keeps the last message's role and sources; the last message's content becomes the old content followed by the token |
| `Chat.AppendEmptyToken` | app/components/context.js:42-50 | appending an empty token leaves the transcript unchanged |
| `Chat.AppendTokenTwice` | app/components/context.js:42-50 | two token updates in a row equal one update with the two tokens concatenated in arrival order |
| `Chat.ReplaceLast` | app/test/page.js:48-51 | `[...prev.slice(0, -1), m]` keeps every earlier message and ends with `m`; the length is unchanged, except that an empty transcript becomes `[m]` |
| `Chat.ReplaceAppended` | app/test/page.js:48-57 | replacing a just-appended placeholder leaves the same transcript as appending the final message directly |
| `EventStream.Units` | app/components/InternetChatbot.js:46-47 | only a size bound: the filter-then-strip step never yields more units than there are pieces; what the step yields is stated by `EventStream.UnitsAppend` and `EventStream.ExtractEncoded` |
| `EventStream.UnitsAppend` | app/components/InternetChatbot.js:44-47 | the filter-then-strip step keeps order: it distributes over concatenation of the pieces |
| `EventStream.ExtractEncoded` | app/components/InternetChatbot.js:43-47 | `ExtractEvents`, the `split`/`filter`/`map` chain (also context.js:30-33), undoes the endpoint's `data: <json>` plus blank-line framing for single-line payloads: each payload is returned once, in order |
| `EventStream.StrippedUnitMayBeBlank` | app/components/InternetChatbot.js:46-47 | a unit that is only `data: ` passes the blank filter and comes out as the empty string |
| `EventStream.TokenOf` | app/components/InternetChatbot.js:50-57 | a unit contributes at most one token text, and it contributes none exactly when it fails to parse or its type is not `"token"`; otherwise that text is the parsed event's `content` |
| `EventStream.SkippedUnit` | app/components/InternetChatbot.js:49-64 | a malformed or non-token unit contributes nothing, and the units after it are still processed |
| `EventStream.UnitTokensAppend` | app/components/InternetChatbot.js:49-65 | the token texts of consecutive units are the texts of the first units followed by those of the rest |
| `EventStream.StreamTokensAppend` | app/components/InternetChatbot.js:39-66 | the token texts of consecutive chunks are the texts of the first chunks followed by those of the rest |
| `EventStream.ConcatAppend` | app/components/InternetChatbot.js:57 | concatenating the texts of two runs of tokens equals concatenating each run and then joining them |
| `EventStream.SplitEventNotReassembled` | app/components/context.js:24-33 | the same bytes in one chunk form one unit `a + b`; cut across two reads, they reach the parser as the separate units `a` and `b` |
| `EventStream.ApplyUnit` | app/components/InternetChatbot.js:49-64 | applying one unit appends its token text (if any) to the last message; a unit with no token leaves the transcript unchanged |
| `EventStream.ApplyUnits` | app/components/InternetChatbot.js:49-65 | after the per-event loop over one chunk's units, the transcript is the input with those units' token texts appended, in order, to its last message |
| `EventStream.ConsumeStream` | app/components/InternetChatbot.js:39-66 | after the read loop and the per-event loop, the transcript is the input with every token text of the stream appended, in arrival order, to its last message |
| `EventStream.FillPlaceholder` | app/components/InternetChatbot.js:36 | streaming text into a fresh empty placeholder leaves a message holding exactly that text, with the placeholder's role and sources |
| `InternetChat.FetchSummary` | app/components/InternetChatbot.js:16-30 | the summary is never empty; a missing or empty summary becomes "No summary available."; missing sources become none; any failure gives "Could not retrieve summary." with no sources |
| `InternetChat.InternetChatbot.constructor` | app/components/InternetChatbot.js:6-9 | initial state: empty transcript and input, not generating, 100 max tokens |
| `InternetChat.InternetChatbot.HandleStream` | app/components/InternetChatbot.js:32-70 | exactly one assistant message is appended, carrying the given sources; its content is the concatenation of the stream's tokens in arrival order |
| `InternetChat.InternetChatbot.SendMessage` | app/components/InternetChatbot.js:72-110 | blank input or a request in flight changes nothing and sends nothing; otherwise the transcript gains the user message, then either the streamed reply with the summary's sources or one error reply with no sources (and no placeholder); the request is exactly `[system(summary), user(input)]`; the input ends cleared and the in-flight flag down |
| `ContextChat.LastIndexOfRole` | app/components/context.js:78 | `lastIndexOf` is -1 or a position holding the role, and no later position holds it |
| `ContextChat.LastUserAt` | app/components/context.js:78 | a user message with no user message after it is the one `lastIndexOf` finds |
| `ContextChat.ContextMessage` | app/components/context.js:74-88 | a system message is built exactly when the history holds a user message and does not end with one; the two-message minimum the code checks is implied by that |
| `ContextChat.ContextOfLastExchange` | app/components/context.js:79-86 | the system message quotes the last user message and the message right after it, as `### Human: <question> ### Assistant: <reply>` |
| `ContextChat.ApiMessages` | app/components/context.js:91-93 | the request's messages are `[user]` or `[system, user]`; the second form is used exactly when a context message exists, and its first element is that context message; the last element is always the new user message |
| `ContextChat.ContextChatbot.constructor` | app/components/context.js:6-9 | initial state: empty transcript and input, not generating, 100 max tokens |
| `ContextChat.ContextChatbot.HandleStream` | app/components/context.js:16-63 | exactly one assistant message is appended, without sources; its content is the concatenation of the stream's tokens in arrival order |
| `ContextChat.ContextChatbot.SendMessage` | app/components/context.js:65-122 | blank input or a request in flight changes nothing; otherwise the transcript gains the user message, then the streamed reply or exactly one fixed error reply; the request's messages are built from the history before this submission; the input ends cleared and the in-flight flag down |
| `BatchChat.BatchChatbot.constructor` | app/test/page.js:6-9 | initial state: empty transcript and input, not generating, 100 max tokens |
| `BatchChat.BatchChatbot.SendMessage` | app/test/page.js:16-61 | blank input or a request in flight changes nothing; otherwise the transcript grows by exactly two: the user message, then the placeholder replaced by the generated text, or by the fixed error reply on failure; the request is only `[user]` with no `top_p`; the in-flight flag ends down |
| `LegacyChat.PromptShape` | app/components/Chatbot.js:21 | `LegacyPrompt(input)` is `### Human: `, then the input verbatim, then a blank line and `### Assistant:` |
| `LegacyChat.PromptInjective` | app/components/Chatbot.js:21 | different inputs give different prompts |
| `LegacyChat.LegacyChatbot.constructor` | app/components/Chatbot.js:7-9 | initial state: empty transcript and input, not loading |
| `LegacyChat.LegacyChatbot.Submit` | app/components/Chatbot.js:11-25 | only blank input is rejected, with nothing changed (there is no in-flight check); otherwise the user message is appended to the snapshot, the input cleared, `loading` raised, and the request uses the prompt template with `max_tokens` 100 |
| `LegacyChat.LegacyChatbot.Complete` | app/components/Chatbot.js:26-33 | a reply sets the transcript to snapshot, user message and reply, whatever it held by then; a failure leaves the transcript untouched and adds no error message; `loading` ends false |
| `LegacyChat.LegacyChatbot.SendMessage` | app/components/Chatbot.js:11-34 | with nothing overlapping: blank input changes nothing; otherwise the transcript gains the user message plus the reply, or only the user message on failure, and `loading` ends false |
| `LegacyChat.SubmitTwice` | app/components/Chatbot.js:11-17 | a second submission is accepted while the first is waiting, and its snapshot already holds the first user message |
| `LegacyChat.OverlappingSends` | app/components/Chatbot.js:11-33 | with two overlapping submissions where the first reply arrives first: the first completion drops the second user message and lowers `loading` while the second request is out; the final transcript has lost the first reply |

## Left out

- Rendering, styling, the scroll-into-view effect, input `onChange`, the
  max-tokens `<select>` and the disabled state of the controls are UI and
  are not modelled. The classes expose `input` and `maxTokens` as plain
  fields instead.
- `fetch`, `axios`, `response.ok`, `response.json()`, `reader.read()` and
  `TextDecoder` are network and foreign calls. Their outcomes are method
  parameters. URL-encoding of the summary query and the endpoint URLs are not
  modelled.
- `JSON.parse` is a parameter, and every text field it yields is a string.
  What the code does with a missing or non-string field is not modelled,
  field by field:
  - a token event without `content` appends the text `"undefined"` to the
    reply (`lastMessage.content + event.content`);
  - a truthy non-string `summary` (a number, object, array or `true`) is
    sent as it is in the system message; a missing, `null`, empty, `0` or
    `false` one becomes "No summary available." (`data.summary ||`), and that
    is modelled: a missing or `null` summary is `SummaryBody(None, _)`, an
    empty one is `SummaryBody(Some(""), _)`;
  - a truthy non-array `sources` is kept as it is by `data.sources || []`;
    the model's sources are always a list of strings or absent;
  - an ok reply without `generated_text` or `response` is stored as an
    assistant message whose content is `undefined`, shown as an empty reply.
- BatchChat.BatchChatbot.SendMessage: an ok reply without `generated_text`
  is not modelled. The code replaces the placeholder with an assistant message
  whose content is `undefined` and shows no error. In the model a reply is
  either the text or `None`, and `None` is the failure path with the error
  reply.
- LegacyChat.LegacyChatbot.Complete: an ok reply without `response` is not
  modelled. The code appends an assistant message whose content is
  `undefined`. In the model `None` is the failure path, which appends nothing.
- `setTimeout(…, 0)` yielding after each token, and React's batching of state
  updates, are not modelled. Updaters are applied immediately, in order.
- InternetChat.InternetChatbot.SendMessage, ContextChat.ContextChatbot.SendMessage and
  BatchChat.BatchChatbot.SendMessage are each one atomic step. A second
  submission during their `await`s is not modelled. Their in-flight guard is
  kept, but it only rejects from a state whose flag is already up.
- `temperature` and `top_p` are exact `real` constants carried in the request.
  There is no floating-point arithmetic.
- `app/page.js` and `app/internet/page.js` only mount a component and are not
  modelled.
- Sentinel detection, residual buffering across chunks, cancellation and
  reader release are not in the code, so they are not in the model.
