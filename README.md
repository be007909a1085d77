# Chat streaming pipeline — a Dafny model

This project models the streaming core of a chat front-end that sits on a
local language-model runtime (Ollama). It also models the small list and
string rules that the chat UI and its server actions rely on.

- **Frame codec** (`CustomRequestResponse`). The server writes each event as
  `event: <kind>\n` followed by `data: <json>\n\n`, and ends the stream with the
  `data: [DONE]\n\n` sentinel. JSON error replies carry `{"error": message}`.
  The request body is parsed once and then cached.
- **Client stream reader** (`SseClient`). It adds each chunk to a buffer,
  splits the buffer at blank lines and keeps the unfinished tail. It reads each
  frame's `event:` and `data:` lines, calls the matching callback, and stops at
  the sentinel.
- **Stream handler** (`ChatEvents`). It validates the request, opens the event
  stream, and writes `message-start`, one `message-chunk` per engine fragment,
  then `message-complete` or `error`, then the sentinel. A failure before the
  headers are sent becomes a JSON error reply instead.
- **End to end** (`Pipeline`). Whatever the handler writes, cut into chunks at
  any points, the client reads back as exactly the events written, in order,
  each with its own payload.
- **Pacing simulator** (`StreamingUtils`, `FakeStreamingConfig`,
  `FakeStreaming`). This covers the smart chunk-size rule, the
  punctuation-aware pauses, the integer random draw, the `streamText` slicing
  loop and the guards of the simulated-streaming action.
- **List and table rules**:
  - the request validators (`Schema`);
  - model-name parsing (`Models`);
  - the model search with its pinned/other split (`ModelSelectionArea`);
  - the sidebar's pinned/recent lists and their update after a pin toggle
    (`AppSidebar`);
  - the pin toggle over the chats table (`PinnedActions`);
  - the saved-or-first model selection, the model cache and `clearMessages`
    (`ChatContext`).

`JSON.stringify`/`JSON.parse` are modelled concretely (`Json`) for values
without numbers. Decoding an encoding gives the value back, and an encoding
never contains a line break. The JavaScript string and array operations the
core uses are in `Text` and `Lists`.

Where the design description and the code differ, the model follows the code:

- When the stream closes without a terminal event, the client exits without
  calling `onError`.
- The handler persists nothing and does not stop the engine when the client
  disconnects.
- `chatId` is validated but never used.

## Model

| member | source | states |
|---|---|---|
| `CustomRequestResponse.AppResponse.SendSse` | src/lib/server/customRequestResponse.ts:75-78 | appends exactly `event: <e>\n` then `data: <json>\n\n`; status and headers are unchanged, and the response stays open |
| `CustomRequestResponse.AppResponse.SendSseData` | src/lib/server/customRequestResponse.ts:95-97 | appends exactly `data: <json>\n\n`, with no event line |
| `CustomRequestResponse.AppResponse.EndSse` | src/lib/server/customRequestResponse.ts:102-105 | appends `data: [DONE]\n\n` and ends the response, so the sentinel is the last text written |
| `CustomRequestResponse.AppResponse.InitSse` | src/lib/server/customRequestResponse.ts:83-90 | status 200 with exactly the four event-stream headers; nothing is written to the body |
| `CustomRequestResponse.AppResponse.SendJson` | src/lib/server/customRequestResponse.ts:58-63 | the given status with the JSON content type, sent as headers; the body is the encoded value and the response ends |
| `CustomRequestResponse.AppResponse.Error` | src/lib/server/customRequestResponse.ts:68-70 | the given status with the body `{"error": message}`; the headers are sent and the response ends |
| `CustomRequestResponse.ErrorBodyCarriesMessage` | src/lib/server/customRequestResponse.ts:68-70 | an error body decodes back to itself, and its `error` field is the message |
| `CustomRequestResponse.ReadBody` | src/lib/server/customRequestResponse.ts:19-39 | an empty body is `{}`; a body that is not JSON rejects with "Invalid JSON in request body"; a stream error rejects with that error; otherwise the body resolves to the parsed value |
| `CustomRequestResponse.ReadEncodedBody` | src/lib/server/customRequestResponse.ts:22-30 | the encoding of a value, cut into chunks anywhere, is read back as that value |
| `CustomRequestResponse.AppRequest.ParseBody` | src/lib/server/customRequestResponse.ts:14-40 | returns the cached body after a successful parse; otherwise reads the stream; caches only a resolved body, so `_bodyParsed` stays false after a rejection |
| `CustomRequestResponse.ParseBodyTwice` | src/lib/server/customRequestResponse.ts:14-17 | once a parse has resolved, a second call resolves to the same value without reading again |
| `SseClient.CallbackFor` | src/lib/client/sseClient.ts:132-145 | each of the four event names selects its own callback, in both directions; any other name selects none |
| `SseClient.ParseFrame` | src/lib/client/sseClient.ts:106-127 | a blank frame is skipped; a frame is the sentinel exactly when its first line is `data: [DONE]` and its second line is missing or empty; it is dispatched exactly when its first two lines carry the `event: ` and `data: ` prefixes and the payload parses, and unparsable exactly when they carry them and the payload does not parse; a dispatched kind holds no line break, and the frame is `event: <kind>\n` followed by `data: <payload>` whose payload parses to the dispatched data |
| `SseClient.RunFramesAppend` | src/lib/client/sseClient.ts:105-149 | frames are handled one after another: frames after the sentinel are never handled |
| `SseClient.SentinelStops` | src/lib/client/sseClient.ts:111-115 | a `data: [DONE]` frame stops the run, and nothing after it is dispatched |
| `SseClient.CompleteFramesAppend` | src/lib/client/sseClient.ts:101-103 | splitting is resumable: the frames of `p + c` are the frames of `p`, then those of `p`'s buffered tail extended by `c`, and the new buffer is the text after the last blank line |
| `SseClient.DispatchFrames` | src/lib/client/sseClient.ts:105-149 | the loop over one read's frames makes the calls of the frame-by-frame reading and stops at the sentinel |
| `SseClient.ReadChunks` | src/lib/client/sseClient.ts:96-105 | the read loop's calls depend only on the concatenation of the chunks, not on where they were split; the buffer always holds the text after the last blank line |
| `SseClient.FailedStatusMessage` | src/lib/client/sseClient.ts:76-82 | a failed status reports the body's `error` when it is truthy, else "Request failed", or "Unknown error" when the body is not JSON; a `null` body makes `.error` throw |
| `SseClient.ExpectedRun` | src/lib/client/sseClient.ts:64-159 | the lock is released exactly when a reader was obtained; a rejected promise makes no calls; only callbacks that were supplied are called |
| `SseClient.SseChatClient.SendMessage` | src/lib/client/sseClient.ts:64-159 | makes the calls of `ExpectedRun`: a non-ok reply calls `onError` once and reads no frames; a read error after the frames calls `onError` with its message; the stream ending without a sentinel calls nothing more |
| `SseClient.SseChatClient.Endpoint` | src/lib/client/sseClient.ts:68 | the request goes to the base URL followed by `/api/stream` |
| `ChatEvents.OptionalString` | src/events/chatEvents.ts:21-22 | an optional string member is valid when absent or a string |
| `ChatEvents.ChatRequestSchema` | src/events/chatEvents.ts:18-23 | a body is valid exactly when it is an object with valid `messages`, a string `model`, and optional string `chatId` and `systemPrompt`; the typed request holds exactly those values |
| `ChatEvents.RequestRoundTrip` | src/events/chatEvents.ts:18-23 | a request as the client serialises it validates back to itself when its chat ids have 36 characters |
| `ChatEvents.SystemPrompt` | src/events/chatEvents.ts:52 | the request's `systemPrompt` when it is non-empty, otherwise the default prompt |
| `ChatEvents.EngineInput` | src/events/chatEvents.ts:49-58 | the engine input is one system message followed by every request message, in order, reduced to role and content |
| `ChatEvents.ChatIdUnused` | src/events/chatEvents.ts:43-65 | the request's `chatId` has no effect on the engine call |
| `ChatEvents.EngineEvents` | src/events/chatEvents.ts:61-114 | `message-start`, one `message-chunk` per fragment in order with its `done` flag, then exactly one terminal event at the end; every event carries the one `messageId`; `message-complete` appears exactly when the engine did not fail; a failed engine call gives only an `error` event |
| `ChatEvents.OpenedEvents` | src/events/chatEvents.ts:71-93 | the events of an opened engine stream satisfy each of the clauses above |
| `ChatEvents.ChunkTextOfFragments` | src/events/chatEvents.ts:74-84 | the chunk events carry exactly the fragments' text, in order |
| `ChatEvents.FullContentIsConcatenation` | src/events/chatEvents.ts:67-90 | `fullContent` of `message-complete` is the in-order concatenation of all chunk contents |
| `ChatEvents.Respond` | src/events/chatEvents.ts:30-116 | an invalid body gives a 400 "Invalid request body: …" error and no stream; a body `parseBody` rejects gives a 500 error; a valid body gives the event stream of the engine run |
| `ChatEvents.EngineCallFor` | src/events/chatEvents.ts:36-65 | the engine is called exactly when the body validates |
| `ChatEvents.RelayFragments` | src/events/chatEvents.ts:74-84 | the `for await` loop writes one chunk frame per fragment, and `fullResponse` is the fragments' text |
| `ChatEvents.StreamRun` | src/events/chatEvents.ts:61-114 | writes the frames of the run's events, then the sentinel, then ends; this holds on the success path and on both failure paths |
| `ChatEvents.SendLast` | src/events/chatEvents.ts:107-113 | the terminal event's frame is followed by the sentinel, which ends the response |
| `ChatEvents.StreamReply` | src/events/chatEvents.ts:46-93 | after validation: event-stream headers, the engine call built from the request, then the run's frames and the sentinel |
| `ChatEvents.HandleChatRequest` | src/events/chatEvents.ts:30-116 | the response carries exactly the reply `Respond` gives: status, headers and text; the engine call is made only for a valid body |
| `Pipeline.ParseEventFrame` | src/lib/client/sseClient.ts:108-145 | a frame written by `sendSSE(k, d)` is read as a dispatch of `k` with payload `d` |
| `Pipeline.ParseDoneFrame` | src/lib/client/sseClient.ts:111-115 | the sentinel frame is recognised as the end of the stream |
| `Pipeline.DataFrameSkipped` | src/lib/client/sseClient.ts:111-117 | a frame written by `sendSSEData` is skipped, never taken for the sentinel |
| `Pipeline.EncodeIsNotDone` | src/lib/client/sseClient.ts:113 | no JSON encoding reads `[DONE]` |
| `Pipeline.StreamFrames` | src/lib/client/sseClient.ts:101-103 | the handler's output splits into one frame body per event, then the sentinel |
| `Pipeline.SplitEncodedEvents` | src/lib/server/customRequestResponse.ts:75-78 | written frames split at blank lines into their bodies, one per event |
| `Pipeline.RunBodies` | src/lib/client/sseClient.ts:105-149 | the frame bodies of events followed by the sentinel make each event's call in order and reach the sentinel |
| `Pipeline.DeliveredToAll` | src/lib/client/sseClient.ts:132-145 | with every callback supplied, each event reaches its own callback exactly once, in order |
| `Pipeline.ClientReadsStream` | src/lib/client/sseClient.ts:96-158 | a stream the handler wrote, cut into chunks anywhere, makes exactly the calls for its events, stops at the sentinel so a later read error is never reported, and releases the reader |
| `Pipeline.EndToEnd` | src/events/chatEvents.ts:71-93 | for an accepted body the client makes one call per event of the engine run; a completed reply starts with `onStart` and ends with `onComplete` carrying all fragments' text |
| `Pipeline.ClientReadsErrorReply` | src/lib/client/sseClient.ts:76-83 | a JSON error reply reaches `onError` with its message, or "Request failed" for an empty one, and no frame is read |
| `Pipeline.RequestReachesEndpoint` | src/events/chatEvents.ts:33-36 | a request the client serialises, cut into chunks anywhere, is parsed and validated as the same request |
| `Pipeline.EncodeOneLine` | src/lib/server/customRequestResponse.ts:77 | a JSON payload never contains a line break, so it fits on one `data:` line |
| `Json.DecodeEncode` | src/lib/client/sseClient.ts:130 | `JSON.parse(JSON.stringify(v))` gives `v` back |
| `Json.EncodeNoControl` | src/lib/server/customRequestResponse.ts:77 | an encoding contains no control character |
| `Json.GetFound` | src/lib/client/sseClient.ts:81 | a member lookup finds nothing exactly when no member has the key, and otherwise finds the last member with it |
| `Text.IndexOf` | src/lib/streamingUtils.ts:29 | `indexOf` returns the first occurrence, or -1 when there is none |
| `Text.Split` | src/lib/client/sseClient.ts:102 | `split` gives at least one part; the parts joined with the separator are the input; no part contains the separator |
| `Text.SplitAppend` | src/lib/client/sseClient.ts:101-103 | splitting `p + c` gives `p`'s complete parts, then the split of its last part extended by `c` |
| `Text.Slice` | src/actions/fakeStreaming.ts:75 | `slice` gives the in-range part, cut at the end of the string |
| `Text.CharAt` | src/lib/streamingUtils.ts:51 | indexing gives the character inside the string and `undefined` outside it |
| `Text.Lower` | src/components/ModelSelectionArea.tsx:19-21 | `toLowerCase` has the same length and lowers each character |
| `Lists.FilterMembers` | src/components/ModelSelectionArea.tsx:18 | `filter` keeps exactly the elements that satisfy the predicate |
| `Lists.FilterIsSubsequence` | src/components/ModelSelectionArea.tsx:18 | filtering keeps relative order |
| `Lists.FilterCounts` | src/components/ModelSelectionArea.tsx:18 | `filter` keeps every copy of a matching element and no copy of any other |
| `Lists.FilterUnique` | src/components/ModelSelectionArea.tsx:18 | a subsequence of a list that keeps every copy of the matching elements and none of the others is the filter, so order and counts fix the result |
| `Lists.FilterSplits` | src/components/ModelSelectionArea.tsx:25-26 | a predicate and its negation split a list: each element lands in exactly one filter |
| `StreamingUtils.SimulateRealisticDelay` | src/lib/streamingUtils.ts:4-19 | smooth mode: the base-speed midpoint within ±5; otherwise an integer in the base-speed range |
| `StreamingUtils.LiveBaseDelay` | src/lib/streamingUtils.ts:5-18 | with the shipped settings the base delay is in [7, 17); with smooth mode off it would be exactly 12 |
| `StreamingUtils.SearchPunctuation` | src/lib/streamingUtils.ts:30 | `search(/[.,!?;:]/)` returns the first punctuation mark, or -1 |
| `StreamingUtils.FirstSpace` | src/lib/streamingUtils.ts:29 | `indexOf(" ")` returns the first space, or -1 |
| `StreamingUtils.GetSmartChunkSize` | src/lib/streamingUtils.ts:22-45 | result in [1, 9]; it ends at the first space if that is within 8; else it ends at the first punctuation mark if that is within 5; else it is in the chunk-size range [3, 8] |
| `StreamingUtils.ChunkSizeNotClamped` | src/lib/streamingUtils.ts:40-44 | the size is not clamped to the remaining text: "ab" can get a chunk of 3 |
| `StreamingUtils.ShouldAddPause` | src/lib/streamingUtils.ts:48-99 | 0 at or past the end of the text. Smooth mode: [150, 250] at a paragraph break, [80, 150] after `. ! ?`. Otherwise: the paragraph range, checked first; the per-mark range for `. ! ?`; the newLine range for a lone `\n`; else 0 |
| `StreamingUtils.NoPauseAfterMinorPunctuation` | src/lib/streamingUtils.ts:55-98 | commas, semicolons and colons never add a pause, in either mode |
| `StreamingUtils.LivePauses` | src/lib/streamingUtils.ts:55-67 | with the shipped settings a pause is positive exactly after a sentence end or at a paragraph break, and never after a lone line break |
| `FakeStreamingConfig.GetRandomDelay` | src/lib/fakeStreamingConfig.ts:64-66 | an integer in [min, max] for a draw in [0, 1); exactly `k` for the range [k, k] |
| `FakeStreamingConfig.GetRandomDelayReaches` | src/lib/fakeStreamingConfig.ts:64-66 | every integer of [min, max] is produced by some draw |
| `FakeStreamingConfig.LiveConfigFacts` | src/lib/fakeStreamingConfig.ts:2-60 | every configured range has min ≤ max; `enabled` and `smoothMode` are on; the base speed is exactly 12 |
| `FakeStreaming.GetRandomChunkSize` | src/actions/fakeStreaming.ts:62-65 | a size in [2, 6] |
| `FakeStreaming.GetRandomChunkSizeReaches` | src/actions/fakeStreaming.ts:62-65 | every size in [2, 6] is produced by some draw |
| `FakeStreaming.GetRandomDelay` | src/actions/fakeStreaming.ts:56-59 | a delay in [20, 99] |
| `FakeStreaming.StreamText` | src/actions/fakeStreaming.ts:68-84 | the chunks concatenate to the text; each is 1 to 6 characters, all but the last at least 2; empty text gives no chunks |
| `FakeStreaming.SendQuestionFakeStreaming` | src/actions/fakeStreaming.ts:13-53 | invalid arguments give "Invalid data" before the enabled flag is checked; a disabled mode gives "Fake streaming is disabled"; otherwise the result is the file's text or the read error |
| `FakeStreaming.LiveNeverDisabled` | src/actions/fakeStreaming.ts:27-30 | with the shipped settings the mode is never reported disabled |
| `Schema.StringSchema` | src/schema/index.ts:10 | a field is valid exactly when it is present and a string |
| `Schema.ChatIdSchema` | src/schema/index.ts:7 | exactly the strings of length 36 |
| `Schema.RoleSchema` | src/schema/index.ts:12 | exactly `user`, `assistant` and `system` |
| `Schema.RoleNames` | src/schema/index.ts:12 | each role reads back from its name; no other string, `"model"` included, is a role |
| `Schema.ChatMessageSchema` | src/schema/index.ts:9-15 | a message is valid exactly when all five fields are present and valid, `chatId` included |
| `Schema.MessageRoundTrip` | src/schema/index.ts:9-15 | a serialised message validates back to itself exactly when its chat id has 36 characters |
| `Schema.MessagesSchema` | src/schema/index.ts:17 | an array is valid exactly when every element is, and each element is validated in place |
| `Schema.ChatMessagesSchema` | src/schema/index.ts:17 | only arrays are valid message lists; the empty array is valid |
| `Schema.MessagesRoundTrip` | src/schema/index.ts:17 | a serialised list validates back to itself |
| `Schema.PromptSchema` | src/schema/index.ts:3-5 | valid exactly when the value is an object with a string `prompt` |
| `Schema.AnyPrompt` | src/schema/index.ts:3-5 | every string, the empty one included, is a valid prompt |
| `Models.Capitalize` | src/actions/models.ts:18 | the first character uppercased, the rest unchanged |
| `Models.ToModelType` | src/actions/models.ts:13-22 | `id` is the full name; `isPinned` is absent and `features` is empty |
| `Models.UntaggedName` | src/actions/models.ts:14-20 | a name without a colon has an empty version; the name is capitalised and the icon is lowercased |
| `Models.TaggedName` | src/actions/models.ts:14-20 | for `family:tag…` the version is `tag`, later segments are dropped, and name and icon come from `family` |
| `Models.GetInstalledModels` | src/actions/models.ts:10-28 | one record per listed name, in order; a failed list call gives `[]` |
| `ModelSelectionArea.FilteredModels` | src/components/ModelSelectionArea.tsx:17-23 | an empty term gives every model in order; otherwise a model is kept exactly when its lowercased label contains the lowercased term, with every copy of it; order is kept, which with the counts fixes the result (`Lists.FilterUnique`) |
| `ModelSelectionArea.SameLowerSameModels` | src/components/ModelSelectionArea.tsx:19-21 | two terms with the same lowercase form give the same result |
| `ModelSelectionArea.PinnedAndOtherSplit` | src/components/ModelSelectionArea.tsx:25-26 | pinned and other models partition the matches in order; a model without `isPinned` is among the others |
| `ModelSelectionArea.HandleModelSelect` | src/components/ModelSelectionArea.tsx:28-30 | the clicked model is passed once when there is a callback, and nothing happens otherwise |
| `AppSidebar.SortByRecency` | src/components/AppSidebar.tsx:103-115 | the sort is most recent first and is a permutation of its input |
| `AppSidebar.SortStable` | src/components/AppSidebar.tsx:103-115 | chats with equal timestamps keep their input order |
| `AppSidebar.StableSortUnique` | src/components/AppSidebar.tsx:103-115 | any stable sort by recency gives the same list |
| `AppSidebar.SortFilterCommute` | src/components/AppSidebar.tsx:166-168 | removing a chat from a sorted list is the same as sorting the list without it |
| `AppSidebar.PinnedAndRecentChats` | src/components/AppSidebar.tsx:99-118 | `pinned` holds exactly the pinned chats and `recent` exactly the others; together they are a permutation of the input; both are most recent first |
| `AppSidebar.PinnedAndRecentStable` | src/components/AppSidebar.tsx:99-117 | ties in either list keep their input order |
| `AppSidebar.FindChat` | src/components/AppSidebar.tsx:146 | `find` gives the first chat with that id, or none when there is none |
| `AppSidebar.ToggleMatchesReload` | src/components/AppSidebar.tsx:133-187 | after a toggle with a newer timestamp, the lists updated in place are the lists a reload of the updated chats would compute |
| `AppSidebar.Sidebar.LoadChats` | src/components/AppSidebar.tsx:53-79 | a signed-in load sets the chats and their split; a load error sets the message and leaves the lists; signing out empties all three lists; nothing happens before the user is known |
| `AppSidebar.Sidebar.HandleTogglePin` | src/components/AppSidebar.tsx:120-194 | on success, only the target chat's flag and timestamp change; the chat joins the list it now belongs to, which is sorted again, and leaves the other list. A failed or throwing toggle changes nothing; `updatingPinId` is null on every path |
| `AppSidebar.LoadThenToggle` | src/components/AppSidebar.tsx:120-194 | loading then toggling leaves the lists consistent with the updated chats |
| `PinnedActions.Toggle` | src/actions/pinnedActions.ts:21-58 | an unknown id gives "Chat not found" and a store fault "Failed to update chat", both leaving the table unchanged; on success only the target row changes, its `pinned` is negated and returned, and its timestamp is the returned one |
| `PinnedActions.ToggleTwice` | src/actions/pinnedActions.ts:36-45 | toggling twice restores the flag; only the timestamp moves |
| `PinnedActions.ChatsTable.ToggleChatPinned` | src/actions/pinnedActions.ts:21-58 | the table and the reply are as `Toggle` states, and every row stays keyed by its own id |
| `ChatContext.FindById` | src/contexts/chatContext.tsx:137-139 | `find` gives the first model with the id, or none when no model has it |
| `ChatContext.SelectModel` | src/contexts/chatContext.tsx:132-143 | the saved model when its id is set and listed; otherwise the first model, or none for an empty list |
| `ChatContext.ReselectStable` | src/contexts/chatContext.tsx:132-143 | saving the selected id and selecting again from the same list gives the same model |
| `ChatContext.SelectionIsListed` | src/contexts/chatContext.tsx:132-143 | there is a selection exactly when the list is non-empty, and it is a listed model |
| `ChatContext.ModelRoundTrip` | src/contexts/chatContext.tsx:127-130 | a model read back from its JSON is the same model |
| `ChatContext.CacheRoundTrip` | src/contexts/chatContext.tsx:99-130 | the list written to the cache is the list the next load reads from it |
| `ChatContext.GetItem` | src/contexts/chatContext.tsx:99 | `getItem` gives the stored string, or null for a missing key |
| `ChatContext.ChatProvider.ShowCachedModels` | src/contexts/chatContext.tsx:98-122 | a cached list is shown and the selection rule applied to it; with no cache nothing is shown |
| `ChatContext.ChatProvider.ApplyInstalledModels` | src/contexts/chatContext.tsx:124-143 | the fetched list replaces the shown one and is written to the cache before the selection rule is applied to it |
| `ChatContext.ChatProvider.LoadModels` | src/contexts/chatContext.tsx:93-150 | returns the list shown from a readable cache; then the fetched list replaces it and is left in the cache in readable form; an unreadable cache sets the error message and keeps the shown models, the selection and `optimisticModelsLoaded`; `modelsLoading` ends false on every path |
| `ChatContext.ChatProvider.ClearMessages` | src/contexts/chatContext.tsx:154-157 | `messages` is emptied and `currentChatId` becomes null; nothing else changes |
| `ChatContext.LoadTwice` | src/contexts/chatContext.tsx:98-143 | two `LoadModels` calls: the second first shows, from the cache, the list the first fetched, then its own fetch replaces it |

## Left out

- Transport: `fetch`, `ReadableStream`, `TextDecoder` and Node's event-emitter body collection are not modelled. Incoming data is a sequence of string chunks, and decoding is the identity.
- The response is a record of status, headers, body text and an ended flag. Node's errors for `writeHead` after headers are sent, and for `write` after `end`, appear as preconditions.
- The default status arguments of `json(data, statusCode = 200)` and `error(message, statusCode = 500)` are not modelled: `SendJson` and `Error` always take a status, and every caller in the core passes one.
- Language-model engine: `ollama.chat` is a parameter. It either fails to open, or yields a list of fragments followed by an optional failure. `ollama.list` is a parameter too.
- `uuidv4` is a message-id parameter. `new Date()` is an integer timestamp. `Math.random()` is a real draw in [0, 1); in `streamText` it is a nondeterministic pick.
- Timers (`setTimeout`) only wait and are left out. This covers the initial delay in `sendQuestionFakeStreaming` and the waits between chunks.
- Reading `response.md` is a parameter. So is the current user.
- JSON numbers are not modelled. `\u` escapes of surrogate code points are rejected by the decoder. Lone surrogates, which `JSON.stringify` escapes, are not modelled.
- Strings are sequences of characters, not UTF-16 code units, so lengths such as the 36 of a chat id count characters.
- Text.Lower: handles the ASCII letters only. `toLowerCase` maps all of Unicode.
- Text.Upper: handles the ASCII letters only. `toUpperCase` maps all of Unicode.
- Schema.ChatMessageSchema: takes the timestamp in the string form a date has after JSON. zod's `z.date()` rejects strings, so as written the endpoint rejects every request whose message list is non-empty. The model does not reproduce that rejection.
- ChatEvents.ChatRequestSchema: reports the name of the first invalid member, not zod's formatted issue list. `Respond` states only the "Invalid request body: " prefix of the message.
- ChatContext.ChatProvider.ShowCachedModels: treats cached JSON that is not an array of model records as unreadable, which takes the error path. The source shows whatever `JSON.parse` returned, and throws only when `.some` or `.find` fails on it.
- React state: each `setState` is a field assignment that takes effect at once. Re-rendering, batching and stale closures are not modelled.
- Logging (`console.*`) is not modelled. The client's "Failed to parse SSE data" log is the one observable effect kept.
- A callback that throws is not modelled.
- CustomRequestResponse.AppRequest.ParseBody: does not model a second call made while the first is still pending. In the model, a read settles at once.
- StreamingUtils.SimulateRealisticDelay: uses exact reals for the smooth branch, so floating-point rounding is not modelled.
- The sidebar's and the model picker's rendering, tooltips and icons (`getFeatureIcon`), and all other UI components, are left out.
- `src/actions/chat.ts` and `src/actions/streamingResponse.ts` are not part of this model: they wrap the engine and repeat the handler's validation.
- `src/actions/chatActions.ts` is not part of this model: it is CRUD plus an engine call for titles.
- The persistence step and the cancellation on client disconnect are not part of the handler's code, so they are not modelled.
- Server wiring (`server.ts`, `next.config.ts`) is not modelled.
