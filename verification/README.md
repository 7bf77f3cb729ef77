# WebWise core, modelled in Dafny

WebWise is a browser extension. It puts an OpenAI chat completion behind three front ends:
- an inline command typed into any text field (`/type prompt;`);
- a question menu over selected text;
- a chat sidebar with stored conversations.

The background script does the following:
- dispatches every request to the completion endpoint;
- decodes the server-sent-event stream line by line;
- keeps the conversations in extension storage;
- relays the streamed fragments to the tab that asked for them.

The content script picks those relayed messages up again.

This project models that core as follows.

| module (file) | models |
|---|---|
| `Wrappers` (wrappers.dfy) | `Option`, `Result`, and JavaScript truthiness of an optional string |
| `Text` (text.dfy) | `String.prototype.split`/`join` on one character, `trim() !== ''`, and concatenation of fragments |
| `StreamDecoder` (stream_decoder.dfy) | The decoding rules of the read loop of `sendOpenAIRequest`: which line stops, which line emits, how chunks are cut into lines, and what the loop settles with |
| `Dispatcher` (dispatcher.dfy) | `sendAIRequest` and `sendOpenAIRequest` as methods. The read loop is a `while` loop proved against `StreamDecoder` |
| `Conversations` (chat_store.dfy) | The conversation store. Its transcripts and its `chatList` directory are the fields of a `ChatStore` class, with `storeChatHistory`, `getChatHistory`, `getChatList`, `renameChat` and `deleteChat` as methods |
| `ChatManager` (chat_manager.dfy) | `continueChat` and `generateChatTitle` |
| `Router` (router.dfy) | The runtime message listener of the background script, `handleInlineCompletion` and `handleQuestionWithContext`, with the messages they send to a tab |
| `ResponseListeners` (response_listeners.dfy) | The content-script listeners that consume those messages: the inline listener, the question-menu listener and the sidebar filter. Each is a step function plus a class |
| `InlineTrigger` (inline_trigger.dfy) | The trigger regular expression `/\/.*?;/`, the removal of the match, the parsing of the match into a prompt, and `handleInputEvent`/`handleRegexMatch` |

Some outside inputs become parameters:
- The network is a function from the request that would be posted to the reply it gets (`Dispatcher.Network`). A reply is a failed fetch, or a status flag, a status text and a body.
- A body is the list of decoded chunk texts, plus how the body ends: it closes, or a read rejects.
- `JSON.parse(payload).choices[0].delta.content` is a function parameter (`StreamDecoder.Extractor`). It returns `None` when the payload does not parse or has no content.
- Request ids and chat ids, which the content script builds from `Date.now()`, are parameters.
- The settings read from `chrome.storage.local` are a parameter.

Some behaviours of the code are easy to mistake for others. The model follows the code in each case:
- **No carry-over across chunks.** A streaming reader would normally carry an incomplete line forward to the next chunk. This code does not: it splits each chunk into lines on its own (`build/background.js:56-57`). `StreamDecoder.SplitFrameIsLost` proves that a `data:` line cut by a chunk boundary just before its payload (into `data` and `: payload`) yields nothing.
- **Later turns retitle the chat.** A chat title is derived from the first user message, but only on the first exchange. On every later turn, `continueChat` writes the title `Chat` (`build/background.js:166-173`). This replaces the derived title and any rename. `ChatManager.SecondTurnRetitles` proves it.
- **The no-tab message of the inline handler.** When the sender has no usable tab, the inline handler's message has no `isDone` field (`build/background.js:187-191`). The question handler sets `isDone: true`. Both address the message to the missing tab. A tab id of `0` also counts as missing, because the code tests `!tabId`. `ResponseListeners.NoTabEventEffect` states what each listener would do with that message.
- **No reply for some requests.** For `inlineCompletion` and `askQuestionWithContext`, the listener keeps the response channel open but never calls `sendResponse`.

## Model

| member | source | states |
|---|---|---|
| Text.Split | build/background.js:57 | Splitting on a separator gives at least one piece. No piece contains the separator. Joining the pieces with the separator gives back the input. |
| Text.SplitJoin | src/contentScript.js:27-29 | Split inverts join for any non-empty list of pieces that do not contain the separator. |
| Text.SplitAtFirst | src/contentScript.js:27-29 | With the first separator at `k`, the first piece is the text before `k`. The remaining pieces, re-joined, are the text after `k`. |
| Text.KeepNonBlank | build/background.js:57 | No line kept is blank after trimming. A line is kept if and only if it is non-blank. There are never more lines kept than there were lines. |
| Text.KeepNonBlankAppend | build/background.js:57 | The filter keeps order and repetitions: filtering `a + b` is filtering `a`, then `b`. |
| Text.KeepNonBlankAll | build/background.js:57 | A list with no blank line passes the filter unchanged. |
| Text.StartsWith | build/background.js:59 | `startsWith` holds exactly when the prefix fits and agrees with the string character by character. The string is then the prefix followed by the rest. |
| StreamDecoder.Classify | build/background.js:59-74 | A line stops the stream exactly when it is `data: [DONE]`. A line without the `data: ` prefix contributes nothing. Any other `data: ` line emits the content parsed from its payload when that content is truthy, and contributes nothing otherwise. Emitted content is never empty. |
| StreamDecoder.Lines | build/background.js:56-57 | Every line of a chunk is non-blank and free of newlines. A string is one of the lines if and only if it is a non-blank piece of the chunk split at newlines. Order and repetitions are stated by the next two lemmas. |
| StreamDecoder.LinesCons | build/background.js:56-57 | A first line without a newline comes first among the chunk's lines, unless it is blank. The lines of the rest follow, in order. |
| StreamDecoder.LinesOfJoin | build/background.js:56-57 | Non-blank lines joined by newlines are read back exactly, in order and with repetitions. |
| StreamDecoder.DecodeLines | build/background.js:58-76 | Every fragment the inner loop passes on is non-empty. |
| StreamDecoder.RepeatedFrameDecodedTwice | build/background.js:56-71 | The same `data:` frame twice in one chunk yields its content twice, in order. |
| StreamDecoder.DecodeChunks | build/background.js:52-78 | Every fragment the read loop passes on is non-empty. |
| StreamDecoder.DecodeLinesReference | build/background.js:58-76 | Without a `[DONE]` line, the lines emit every content, in order, and the loop goes on. With one, they emit exactly the contents before the first `[DONE]` line, and the loop stops. |
| StreamDecoder.DecodeLinesAppend | build/background.js:58-76 | Decoding `a + b` decodes `a` and then, unless `a` stopped, `b`. |
| StreamDecoder.SkippedLineIsInvisible | build/background.js:59-74 | Removing a line that is skipped changes nothing. A skipped line lacks the prefix, does not parse, or has empty content. |
| StreamDecoder.StoppedLinesPrefix | build/background.js:61-64 | Once `[DONE]` has been seen, the remaining lines of the chunk change nothing. |
| StreamDecoder.DecodeChunksFlatten | build/background.js:52-78 | Decoding chunk after chunk is decoding all their lines at once. Chunk boundaries matter only through where lines are cut. |
| StreamDecoder.StoppedChunksIgnoreRest | build/background.js:52-64 | After a `[DONE]` line, no later chunk contributes anything. |
| StreamDecoder.DecodeChunksReference | build/background.js:52-78 | The fragments of a body are the contents of its lines up to the first `[DONE]` line, wherever the chunk boundaries fall. The loop stops exactly when there is such a line. |
| StreamDecoder.WholeFrameDecoded | build/background.js:56-71 | A complete `data:` frame received as one chunk yields its content as the single fragment. |
| StreamDecoder.SkippedChunk | build/background.js:57-59 | A chunk that is one non-blank line without the `data: ` prefix changes nothing. |
| StreamDecoder.SplitFrameIsLost | build/background.js:56-57 | A frame cut just before its payload, into `data` and `: payload`, by a chunk boundary yields no fragment at all. |
| StreamDecoder.StreamedPartials | build/background.js:69-70 | The text carried by one `onProgress(content, false)` call per fragment equals the text accumulated in `result`. |
| StreamDecoder.StreamOutcome | build/background.js:52-82 | The read loop settles successfully exactly when `[DONE]` was seen or the body closed. Then it makes one progress call per fragment followed by the final call. A failed read rejects with the read's message, after the progress calls of the fragments decoded so far. |
| StreamDecoder.StreamOutcomeWellFormed | build/background.js:52-82 | Every body settles under the callback protocol. Every partial call carries non-empty content. On success, a single final call comes last, and the returned text is the concatenation of the partial contents. On a failed read, there is no final call. |
| Dispatcher.ModelOf | build/background.js:13 | The model is the configured one when it is a non-empty string, and `gpt-4o-mini` otherwise. It is never empty. |
| Dispatcher.ReplyOutcome | build/background.js:32-45 | A rejected fetch fails with its own message before any progress call. A non-ok status fails with `OpenAI API request failed: ` and the status text. |
| Dispatcher.Dispatch | build/background.js:9-18 | Without a truthy API key, nothing is posted and the call fails with `API key for OpenAI is not set.`. Otherwise the POST carries the endpoint, the bearer key, the model, the messages and `stream: true`, and the outcome is that of its reply. |
| Dispatcher.DispatchWellFormed | build/background.js:9-82 | Whatever the settings and the reply, the outcome keeps the callback protocol. |
| Dispatcher.HandleLine | build/background.js:59-74 | One pass of the inner loop does what `Classify` says of the line. It stops, appends the content and reports it, or changes nothing. |
| Dispatcher.ScanLines | build/background.js:58-76 | Over the lines of one chunk, the inner loop appends the concatenation of the decoded fragments and makes one progress call per fragment. It stops exactly when the decoder stops. |
| Dispatcher.SendOpenAIRequest | build/background.js:31-82 | The request posted is the one built from its arguments. The whole read loop settles exactly as the reply's decoding specifies: the fragments up to `[DONE]` or the end of the body, then the final call. A rejected read fails after the fragments already sent. |
| Dispatcher.SendAIRequest | build/background.js:9-18 | The request posted and the outcome are those of `Dispatch`: the API key is checked before anything is posted, and the model is defaulted. |
| Conversations.FindIndex | build/background.js:91 | The result is `-1` exactly when no entry has the id. Otherwise it is the first entry with that id. |
| Conversations.Upserted | build/background.js:91-96 | A new id is appended at the end of the directory. A known id keeps its position, and only that entry's title changes. Every position keeps its id. |
| Conversations.Removed | build/background.js:141 | An entry survives a delete exactly when it was listed and its id is another one. Filtering never lengthens the directory. |
| Conversations.UpsertedTitle | build/background.js:91-96 | After an upsert, the id lists the new title, and every other id keeps the title it had, or stays unlisted. |
| Conversations.UpsertedIds | build/background.js:91-96 | An upsert keeps the ids distinct and adds exactly its own id. |
| Conversations.UpsertedIdempotent | build/background.js:91-96 | Writing the same title twice is writing it once. `continueChat` writes `Chat` on every turn after the first, so from the third turn on the directory stays as it is (see `ChatManager.SecondTurnRetitles`). |
| Conversations.RemovedTitle | build/background.js:141 | After a delete, the id is unlisted and every other id keeps its title. |
| Conversations.RemovedIds | build/background.js:141 | A delete takes exactly its own id out of the listed ids. |
| Conversations.RemovedDistinct | build/background.js:141 | A delete keeps the ids distinct. |
| Conversations.RemovedIdempotent | build/background.js:141 | Deleting twice is deleting once. |
| Conversations.RemovedAbsent | build/background.js:141 | Deleting an id that is not listed leaves the directory as it was. |
| Conversations.RemovedAppend | build/background.js:141 | The filter distributes over concatenation. |
| Conversations.RemovedUndoesNewEntry | build/background.js:133-146 | Deleting a chat just created by an upsert restores the directory it was added to. |
| Conversations.ChatStore.constructor | build/background.js:89 | An empty store has no transcripts and an empty directory, and meets the store invariant. |
| Conversations.ChatStore.StoreChatHistory | build/background.js:85-100 | The transcript is written under the id, and the directory is upserted with the title. The invariant is kept: one directory entry per stored transcript, ids distinct. |
| Conversations.ChatStore.GetChatHistory | build/background.js:103-107 | The result is the stored transcript, or an empty one for an unknown id. |
| Conversations.ChatStore.GetChatList | build/background.js:110-114 | The result is the directory, in creation order. |
| Conversations.ChatStore.RenameChat | build/background.js:117-130 | The call rejects with `Chat not found` exactly when the id is not listed, and then writes nothing. Otherwise it retitles that entry in place. Transcripts are untouched. |
| Conversations.ChatStore.DeleteChat | build/background.js:133-146 | The transcript and every directory entry for the id are removed, and nothing else changes. Deleting an unknown id changes nothing. |
| ChatManager.GenerateChatTitle | build/background.js:178-180 | A message of at most 30 characters is its own title. A longer one becomes its first 30 characters followed by `...`. |
| ChatManager.History | build/background.js:103-107 | The stored transcript `result[chatId]`, or `[]` for a chat with none. A stored transcript is an array and therefore truthy, so it is never replaced. |
| ChatManager.HistoryOfStored | build/background.js:86-107 | Reading a chat's history gives what was last stored for that chat. Storing another chat leaves it unchanged. |
| ChatManager.TurnMessages | build/background.js:150-154 | The messages sent are the context message (if any), then the stored transcript, then the new user message. |
| ChatManager.StoredExchange | build/background.js:164-171 | Pushing the reply and then dropping the context leaves the stored transcript followed by exactly the new user and assistant turns. |
| ChatManager.ChatTitleOnFirstExchange | build/background.js:166-169 | The length test of `ChatTitle` (2 messages, or 3 with a context message, once the reply is pushed) picks the derived title exactly when the stored transcript was empty, with or without a context message. Otherwise it picks `Chat`. |
| ChatManager.SecondTurnRetitles | build/background.js:166-173 | On a new chat, the first turn lists it under the derived title and a second turn replaces that title with `Chat`. A third turn leaves the directory as it is. The chat is listed once, and other chats are unaffected. |
| ChatManager.RelayedIsIdentity | build/background.js:157-163 | When every partial content is non-empty, the `continueChat` callback forwards every call unchanged. |
| ChatManager.RelayedDispatch | build/background.js:157-163 | For any dispatch, the callback forwards every call, and the text it accumulates is the value the dispatch returns on success. |
| ChatManager.Relay | build/background.js:156-163 | Over the progress calls, the callback accumulates the streamed text and forwards exactly the truthy partial calls and the final call. |
| ChatManager.ContinueChat | build/background.js:149-175 | The dispatched messages are the context, the stored history and the new user message. Progress calls are forwarded unchanged. The turn succeeds exactly when the dispatch succeeds and the final callback does not throw. On success, the transcript gains the user and assistant turns, and the directory gets the derived title on the first exchange or `Chat` afterwards. On any failure, nothing is stored. |
| Router.TabIdOf | build/background.js:185 | The tab id is present exactly when the sender has a tab, and it is that tab's id. |
| Router.HasTarget | build/background.js:186 | The `!tabId` guard: no tab means no target, and neither does tab id `0`, which is falsy. Every other id is a target. The question handler has the same guard at line 238. |
| Router.NoTargetSenders | build/background.js:185-186 | A sender is refused exactly when it has no tab or its tab's id is `0`. |
| Router.EventFor | build/background.js:197-211 | A partial call becomes a message with its content and `isDone: false`. The final call becomes a message without content with `isDone: true`. Both carry the action and the request id and no error. |
| Router.ErrorEvent | build/background.js:215-220 | The catch block's message carries the action, the request id, the error's message and `isDone: true`, and no content. It is never a message the progress callback sends. The question handler sends the same message at lines 268-273. |
| Router.ProgressEvents | build/background.js:196-212 | The callback sends at most one message per call. Every message is a stream event carrying the action and the request id and no error. |
| Router.ProgressEventsOneToOne | build/background.js:196-212 | When every partial content is non-empty, each progress call yields exactly its own message, in order. |
| Router.StreamEvents | build/background.js:195-221 | Every message carries the action and the request id. On success none carries an error. On failure the last one carries the failure's message. |
| Router.NoTabEvent | build/background.js:186-193 | The no-tab message carries the action, the request id, no content and the error `Tab ID not available`, with the handler's `isDone`. |
| Router.StreamEventsProtocol | build/background.js:183-275 | What a handler with a usable tab sends follows a fixed protocol: it is never empty, and every message carries the action and the request id. Every message but the last is a partial with non-empty content and `isDone: false`. The last is the only `isDone: true` message. It carries an error exactly when the request failed, and then that error. |
| Router.HandleInlineCompletion | build/background.js:183-222 | Without a usable tab, nothing is requested and one `Tab ID not available` message (without `isDone`) is addressed to the missing tab. Otherwise the prompt is dispatched as one user message and the stream is relayed under that protocol. |
| Router.QuestionMessages | build/background.js:226-235 | A non-empty selection is quoted in a system message, which the question follows as the user message. With no selection, only the question is sent. |
| Router.HandleQuestionWithContext | build/background.js:225-275 | This handler behaves like the inline one, with the selection as context and `isDone: true` on the no-tab message. |
| Router.ChatEvents | build/background.js:284-297 | The `continueChat` callback sends at most one message per call. Each message is a partial response with non-empty content or a completion, and it is addressed to the chat. |
| Router.HandleMessage | build/background.js:278-347 | The channel stays open exactly for known actions. History and list requests answer from the store without changing it. A rename answers success exactly for a listed id, retitles it in place, and otherwise answers `Chat not found` and writes nothing. A delete always answers success and removes the transcript and the directory entries. An inline or question request never answers, and sends to the sender's tab what its handler sends. A `continueChat` dispatches the context, the stored history and the new message. To a sender with a tab it sends the callback's messages for every call. It answers success exactly when the dispatch succeeds and the sender has a tab, and then stores the exchange and the title. Otherwise it answers with the dispatch's error or the no-tab error, and stores nothing. |
| ResponseListeners.InlineStep | src/contentScript.js:33-49 | A message for this request appends its truthy content to the element and detaches the listener when `isDone` is set. Any other message, or any message after detaching, changes nothing. |
| ResponseListeners.QuestionStep | src/contentScript.js:402-429 | This listener behaves like the inline one, except that a truthy error replaces the whole text with `Error: ` and the error, and detaches the listener. |
| ResponseListeners.InlineIgnoresOthers | src/contentScript.js:33-37 | Messages for another request or another action leave the inline listener as it was. |
| ResponseListeners.QuestionIgnoresOthers | src/contentScript.js:403-407 | Messages for another request or another action leave the question listener as it was. |
| ResponseListeners.InlineReplayPartials | src/contentScript.js:38-44 | Partial messages append their contents in order and keep the inline listener attached. |
| ResponseListeners.QuestionReplayPartials | src/contentScript.js:408-411 | Partial messages append their contents in order and keep the question listener attached. |
| ResponseListeners.InlineReceivesStream | src/contentScript.js:33-49 | End to end, the element ends up holding its text followed by the streamed text, which on success is the completion, and the listener detaches. |
| ResponseListeners.QuestionReceivesStream | src/contentScript.js:402-429 | End to end, the listener always detaches. On success the text is the completion. On a failure with a message, the text is `Error: ` and that message. On a failure with an empty message, the partial text stays. |
| ResponseListeners.StreamEventsSplit | build/background.js:195-221 | What a handler sends is the messages of the partial calls, then one final message: the completion on success, the error on failure. |
| ResponseListeners.ChatEventsSplit | build/background.js:284-297 | For a successful turn, the callback's messages are the partial responses followed by one completion. |
| ResponseListeners.InlineReceivesDispatch | src/contentScript.js:33-49 | From the dispatch of the prompt to the element: the listener ends detached with the streamed text appended, which is the completion when the request succeeds. |
| ResponseListeners.NoTabEventEffect | src/contentScript.js:402-429 | The no-tab message makes the question listener show `Error: Tab ID not available` and detach. The inline listener, given no `isDone`, stays attached with its text unchanged. |
| ResponseListeners.SidebarStep | src/contentScript.js:932-938 | Only messages for the current chat are handled. A partial response grows the pending bot message, which is created empty if there is none. A completion marks it complete. |
| ResponseListeners.SidebarIgnoresOtherChats | src/contentScript.js:932-938 | Messages about other chats never change the sidebar. |
| ResponseListeners.SidebarReplayPartials | src/contentScript.js:739-748 | The partial responses of a turn build one pending bot message holding their concatenation. |
| ResponseListeners.SidebarReceivesTurn | src/contentScript.js:739-756 | End to end, a successful turn relayed to the sidebar of its chat adds one completed bot message holding the reply, or none when the reply is empty. |
| ResponseListeners.SidebarReceivesDispatch | src/contentScript.js:739-756 | From the dispatch to the sidebar: the messages relayed for a successful turn add one completed bot message holding the reply. |
| ResponseListeners.InlineCompletionListener.constructor | src/contentScript.js:51 | The listener starts attached, bound to its request id and the element text. |
| ResponseListeners.InlineCompletionListener.OnMessage | src/contentScript.js:33-49 | Each delivery changes the listener exactly as `InlineStep` says. |
| ResponseListeners.QuestionListener.constructor | src/contentScript.js:287 | The listener starts attached, bound to its request id, with an empty text. |
| ResponseListeners.QuestionListener.OnMessage | src/contentScript.js:402-429 | Each delivery changes the listener exactly as `QuestionStep` says. |
| ResponseListeners.Sidebar.constructor | src/contentScript.js:922 | A new chat view has no bot messages. |
| ResponseListeners.Sidebar.OnMessage | src/contentScript.js:932-938 | Each delivery changes the sidebar exactly as `SidebarStep` says, and the current chat is kept. |
| InlineTrigger.IsLineTerminator | src/contentScript.js:2 | The characters the `.` of the pattern does not match are the four ECMAScript line terminators: U+000A, U+000D, U+2028 and U+2029. |
| InlineTrigger.SpanEnd | src/contentScript.js:2 | Scanning after a `/` finds the first `;` that comes before any line terminator, and no match when a terminator comes first. |
| InlineTrigger.FindMatch | src/contentScript.js:20 | A match found is a span from a `/` to a `;` with no line terminator in between. |
| InlineTrigger.MatchFromLeftmostShortest | src/contentScript.js:2 | The match found is a match of `/\/.*?;/`. Every other match starts later, or starts at the same place and ends no earlier. When none is found, there is none. |
| InlineTrigger.TriggerCharacterisation | src/contentScript.js:13 | The test succeeds exactly when a `/` is followed, later on the same line, by a `;`. |
| InlineTrigger.Stripped | src/contentScript.js:20-25 | Replacing the pattern removes exactly the first match, and leaves text without a match unchanged. |
| InlineTrigger.StrippedRestores | src/contentScript.js:20-25 | Putting the match back at its position restores the original text. |
| InlineTrigger.Substring1 | src/contentScript.js:28 | `substring(1)` drops the first character, and gives `""` for an empty string. |
| InlineTrigger.DropLast | src/contentScript.js:29 | `slice(0, -1)` drops the last character, and gives `""` for an empty string. |
| InlineTrigger.ParseCommand | src/contentScript.js:27-29 | The prompt type never contains a space. |
| InlineTrigger.ParseWithoutSpace | src/contentScript.js:27-29 | A match without a space gives the whole match after the `/` as the prompt type, and an empty prompt. |
| InlineTrigger.ParseAtFirstSpace | src/contentScript.js:27-29 | With the first space at `k`, the prompt type is the text between the `/` and the space. The prompt is the rest without its last character. |
| InlineTrigger.ParseMatch | src/contentScript.js:27-29 | For a match `/…;` with a first space at `k`, the prompt type is `m[1..k]` and the prompt is everything between the space and the final `;`. |
| InlineTrigger.ParseTyped | src/contentScript.js:27-29 | Parsing inverts typing `/type prompt;` for any prompt type without spaces. |
| InlineTrigger.HandleRegexMatch | src/contentScript.js:19-58 | The element loses the first match. A fresh attached listener is bound to the request and the stripped text. The request sent carries the prompt parsed from the match. |
| InlineTrigger.HandleInputEvent | src/contentScript.js:5-16 | A listener is created and a request is sent exactly when the text contains a match. The listener is fresh, attached, bound to the request id and to the stripped text. The request is an inline completion carrying the prompt parsed from the first match. |

## Left out

- Asynchrony is not modelled. Every operation runs to completion, and the model performs each operation's storage writes atomically. In the code, `chatList` is one storage key shared by all chats. `storeChatHistory`, `renameChat` and `deleteChat` each read it, change it and write it back in separate callbacks. `continueChat` reads a chat's history before the stream and stores it only after the stream ends. So anything that writes `chatList` while another operation is between its read and its write can have its update lost: a turn on another chat, a rename, or a delete. A chat deleted during its own stream comes back when that stream's turn is stored.
- `chrome.runtime.lastError` after removing a transcript (`build/background.js:136-139`) is not modelled. Removing a key from local storage is taken to succeed.
- The storage key `chatList` is not separated from the chat ids. A chat with the id `chatList` would collide with the directory in storage. Here the two are separate fields.
- `TextDecoder` and bytes are not modelled. A body is the list of its decoded chunk texts. A multi-byte character split across chunks is therefore not modelled.
- `JSON.parse` and the `choices[0].delta.content` lookup are a function parameter, not a JSON parser.
- `fetch`, the network, `chrome.storage` reads of the settings, and `Date.now()` are parameters.
- `includeContext` is fetched with the settings (`build/background.js:24`) but never used by the background script. The sidebar's page-context message enters the model only as the optional context message of a `continueChat` request. Building it from the page text is not part of this model.
- ChatManager.GenerateChatTitle counts characters (code points), where JavaScript's `length` and `substring` count UTF-16 code units. The two agree for text without characters outside the Basic Multilingual Plane.
- Router.HandleMessage: messages addressed to a missing tab, or to tab `0`, are returned with that target. Whether the browser delivers or drops them is not modelled.
- Router.HandleMessage: when the sender has no tab, reading `sender.tab.id` in the `continueChat` callback throws. The model takes the engine's message for that error as a constant.
- The DOM is not modelled: element kinds (`INPUT`/`TEXTAREA` versus `textContent`), spinners, button states, scrolling and alerts.
- The question menu's own `sendResponse` callback is not modelled. The background script never answers that request.
- The sidebar's user-message bubbles and its error bubble are not modelled. Only the bot messages the runtime listener builds are.
- The unused prompt type that `handleRegexMatch` parses is computed but not sent, as in the code.
- `console` logging, the popup settings page (`popup.js`) and the rest of the content-script UI are not part of this model.
