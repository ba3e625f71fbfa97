# Verified model of the gateway's translators, conversation store and hot reload

This project models, in Dafny, the parts of the gateway whose correctness spans many calls, and
proves what those parts promise.

- **Streaming translator** (`Utf8`, `Utf8Standard`, `SseFraming`, `StreamDecoder`, `EventStreamStandard`,
  `StreamAccounting`, `BufferLimit`, `CutLimit`, `EventTranslator`, `StreamAgreement`, `ClientBlocks`,
  `IndexedCompletion`, `StreamPipeline`, `ChunkDecoding`, `StreamEventsFilter`). Response bytes arrive cut at arbitrary places; an incomplete
  UTF-8 sequence and an incomplete server-sent event are buffered between calls; `data:` payloads
  drive a block state machine that emits Anthropic events. `StreamEventsFilter.StreamEvents` is the
  filter as one object that overwrites its metadata fields; its methods are proved against the
  functions of the other modules, and the theorems are about those functions. The references are
  independent of the code: event streams as sections 9.2.5 and 9.2.6 of the WHATWG HTML Living
  Standard read them, characters encoded by the table in section 3 of RFC 3629, an event grammar, the
  chunks' own fields, and the non-streaming translator applied to the completion put together by tool
  call index.
- **Request and response translators** (`Spelling`, `ChatRequest`, `MessageGrouping`, `ChatResponse`,
  `RoundTrip`). Anthropic messages become Chat Completions messages through shared accumulators;
  completions become Anthropic blocks; and what a client sends back is compared with what the backend
  said. What must come out is read off the fields of the request or completion.
- **Conversation store** (`ItemOrder`, `ConversationDb`, `ConversationStore`, `CacheAgreement`,
  `StoreLaws`, `ConversationHistory`, `PageWalk`, `WalkAmidChanges`, `TenantIsolation`). Two tables are
  maps; `ConversationStore.SqlStore` updates them in place, handler by handler; the specification
  functions in `ConversationDb` carry the theorems over whole runs of requests, among them what every
  reply must be given nothing but the requests and replies before it.
- **Hot reload** (`Reload`, `WatcherProtocol`). The all-or-nothing reload, and the watcher as
  interleaved steps of a file writer, a lossy bounded channel and the debounce loop.
- **Body deferral** (`BodyDeferral`) and **legacy IPv4 literals** (`LegacyIpv4`, `Ipv4Notation`).

Some properties hold only under a condition, and each condition is proved to be exact:

- The event grammar holds exactly when the input is well ordered (`StreamAgreement.WellOrdered`):
  at least one chunk and then one `[DONE]`, no text once a tool call is open, no arguments before a
  tool call is open. `emit_text_delta` opens a text block without closing a tool block.
- The filter starts a tool call at each id and ignores the index. Where calls are announced in order,
  each once with its id first, a client collects the non-streaming answer to the completion put
  together by index exactly when arguments always belong to the call announced last
  (`IndexedCompletion.StreamingAgreesIff`). Interleaved calls come out wrong.
- The filter looks at each `data:` line by itself, needs the colon, and keeps a byte order mark. It
  dispatches what the standard does exactly when no event has two data fields, none is a bare
  `data`, and no byte order mark stands before a data field (`EventStreamStandard.ReadingIsStandardIff`).
- Bytes are accounted for up to normalising line ends exactly when no cut falls between CR CR and
  LF; each such cut adds one line end (`StreamAccounting.FramingIsExactIff`,
  `StreamAccounting.ValidStreamAccountedFor`), which may be an empty block. Dispatched payloads are
  the same for every cut.
- Whether the buffer limit is met depends on the cuts (`BufferLimit.CutDecides`). Every cut succeeds,
  and gives the same output, exactly when nothing kept after up to three texts exceeds the limit
  (`CutLimit.EveryCutPassesIff`, `StreamPipeline.EveryCutSameOutputIff`); without CRs, exactly when
  no unfinished event does (`CutLimit.PlainCutsIff`).
- The message cache agrees with the rows for requests handled one at a time with fresh conversation
  ids. Deleting a conversation leaves its item rows, so a reused id would not do: a create under an
  id agrees exactly when no rows are left under it (`CacheAgreement.CreateAgreesIff`).
- Appended items lie past everything stored, which is what an ascending walk needs to skip and repeat
  nothing, exactly when positions have not reached the largest 64-bit integer, or the ids given sort
  last there (`PageWalk.AppendsPastIff`).
- A walk whose cursor item is deleted ends early without a sign. It lists everything that stayed
  exactly when no cursor is deleted before such rows still to come (`WalkAmidChanges.WalkAmidChanges`).

JSON parsing and printing are function parameters about which nothing is assumed; the round trip
says which law of them it needs, and that this law is exactly what it needs.

## Model

| member | source | states |
|---|---|---|
| Utf8.TruncatedSplit | apis/src/anthropic/stream_events/mod.rs:223-241 | text that is only truncated is a valid head and at most three further octets, so the guard on the tail's length never fires |
| Utf8.CutValidText | apis/src/anthropic/stream_events/mod.rs:211-241 | cutting valid UTF-8 anywhere never looks malformed, and the held-back octets with what follows are valid again |
| Utf8.HexRoundTrip | apis/src/anthropic/stream_events/mod.rs:764-787 | decoding the hexadecimal buffer gives back exactly the octets put into it |
| Utf8Standard.ValidIff | apis/src/anthropic/stream_events/mod.rs:223-241 | octets pass the check if and only if they are characters encoded as the table in section 3 of RFC 3629 writes them, surrogates and values past 10FFFF excluded |
| Utf8Standard.MalformedIff | apis/src/anthropic/stream_events/mod.rs:223-241 | an error is reported as final if and only if no octets that could follow make the text valid |
| Utf8Standard.StopsAtLongest | apis/src/anthropic/stream_events/mod.rs:223-241 | where the check stops, the part before is the longest valid one there is |
| SseFraming.TwoReplacements | apis/src/anthropic/stream_events/mod.rs:759-761 | replacing CRLF and then CR amounts to one pass in which every line end becomes one LF |
| SseFraming.BlocksDispatchAsLines | apis/src/anthropic/stream_events/mod.rs:309-317 | splitting at blank lines and reading each block dispatches what reading line by line does |
| SseFraming.NormalizedDispatch | apis/src/anthropic/stream_events/mod.rs:288-317 | normalising and splitting raw text dispatches what reading the raw text line by line does |
| StreamDecoder.ChunkStep | apis/src/anthropic/stream_events/mod.rs:288-329 | what one chunk dispatches, followed by the reading of its buffer and everything later, is the reading of all, whatever comes later |
| StreamDecoder.ReassembleStep | apis/src/anthropic/stream_events/mod.rs:186-241 | on valid UTF-8 one call never passes bytes through, loses none between text and buffer, holds back at most three |
| StreamDecoder.RunDispatchesWhole | apis/src/anthropic/stream_events/mod.rs:186-329 | every valid UTF-8 stream, however cut: the texts concatenate to it, nothing is passed through, and the payloads dispatched are those of reading the whole line by line |
| StreamDecoder.ChunkingIsInvisible | apis/src/anthropic/stream_events/mod.rs:186-329 | two ways of cutting the same stream dispatch the same payloads and reassemble the same text |
| EventStreamStandard.LineReading | apis/src/anthropic/stream_events/mod.rs:406-418 | a line's payload is the value of its data field as the standard parses it, except that a bare `data` has none |
| EventStreamStandard.ReadingIsStandardIff | apis/src/anthropic/stream_events/mod.rs:288-317 | the payloads of a stream are the joined event data the standard dispatches if and only if no event has two data fields, none is bare, and no byte order mark precedes one |
| EventStreamStandard.DispatchIsStandardIff | apis/src/anthropic/stream_events/mod.rs:186-418 | the same equivalence for every valid UTF-8 stream and every way of cutting it |
| StreamAccounting.FramingPads | apis/src/anthropic/stream_events/mod.rs:288-329 | blocks and buffer of one text, after any blocks and before any bytes, normalise like the text itself, or to one LF more exactly where CR CR is cut from LF |
| StreamAccounting.FramingIsExactIff | apis/src/anthropic/stream_events/mod.rs:297-329 | blocks and buffer equal the text up to line ends, and stay so under what follows if and only if no LF follows a text ending in CR CR, which inserts one LF where the text ended |
| StreamAccounting.CallBounds | apis/src/anthropic/stream_events/mod.rs:332-350 | after every call the line buffer is absent or non-empty and within the limit, and at most three octets are pending |
| StreamAccounting.RunsBalance | apis/src/anthropic/stream_events/mod.rs:186-350 | after any successful calls on any bytes, and whatever comes next, the input of each stretch is found again in order in dispatched blocks, passed-through bytes and the two buffers, one LF more for each LF cut from CR CR |
| StreamAccounting.EveryByteAccountedFor | apis/src/anthropic/stream_events/mod.rs:186-350 | a whole response of successful calls on any bytes: each stretch is equal to its input up to line ends if and only if it has no such cut, and longer by exactly their number |
| StreamAccounting.ValidStreamAccountedFor | apis/src/anthropic/stream_events/mod.rs:186-350 | for valid UTF-8 there is one stretch, and the number of extra line ends is read off the chunks alone |
| StreamAccounting.CutPairAddsEmptyBlock | apis/src/anthropic/stream_events/mod.rs:297-314 | CR CR LF LF is one block in one chunk and two when cut after the second CR |
| EventTranslator.TransformAppend | apis/src/anthropic/stream_events/mod.rs:425-655 | translating two runs of items one after the other is translating them as one |
| EventTranslator.EveryInputTallies | apis/src/anthropic/stream_events/mod.rs:425-655 | for every input: starts minus stops is the number of open blocks, stops carry 0, 1, 2, ..., the message starts at most once and first, all blocks are closed after `[DONE]`, and text and arguments come out complete and in order |
| StreamAgreement.GrammarIff | apis/src/anthropic/stream_events/mod.rs:425-655 | the events form a well-formed stream with matching block indices and delta kinds if and only if the input is well ordered |
| StreamAgreement.MessageIsNamed | apis/src/anthropic/stream_events/mod.rs:454-480 | a well-ordered stream opens with the message id and the first chunk's model, and starts no second message |
| StreamAgreement.TextAfterToolIsRejected | apis/src/anthropic/stream_events/mod.rs:515-528 | text after a tool call gives a stream the grammar rejects |
| StreamAgreement.SilentTail | apis/src/anthropic/stream_events/mod.rs:640-655 | after `[DONE]` a well-ordered stream emits nothing |
| StreamAgreement.FinalEventsAre | apis/src/anthropic/stream_events/mod.rs:425-684 | for every well-ordered stream the last two events are the message delta and stop; the stop reason is that for the last finish reason any chunk gave before `[DONE]`, "end_turn" if none did, and the output tokens are the last count given, or 0 |
| ClientBlocks.BlocksAreRead | apis/src/anthropic/stream_events/mod.rs:425-655 | for every well-ordered stream the collected blocks, nothing joined or dropped, are those read off the chunks: consecutive content goes on in one text block until a tool call array, even an empty one, ends it; each id starts a tool block with its name; arguments go to the block begun last |
| StreamAgreement.StreamingFollowsIds | apis/src/anthropic/stream_events/mod.rs:425-718 | for every well-ordered stream the collected content, stop reason and output tokens are those of the non-streaming translation of the completion in which each id starts a call |
| IndexedCompletion.MergedAlikeIff | apis/src/anthropic/stream_events/mod.rs:547-617 | from any calls so far, putting fragments together by id and by index gives the same if and only if arguments always belong to the call announced last |
| IndexedCompletion.SameCompletionIff | apis/src/anthropic/stream_events/mod.rs:547-617 | for streams that announce their calls in order, starting a call at each id and going by index put together the same completion if and only if arguments always belong to the call announced last |
| IndexedCompletion.CoincidenceOutOfOrder | apis/src/anthropic/stream_events/mod.rs:547-617 | without announcing in order the two can agree by coincidence |
| IndexedCompletion.StreamingAgrees | apis/src/anthropic/stream_events/mod.rs:425-718 | a client collects the content, stop reason and output tokens of the non-streaming translation of the completion put together by index, for every well-ordered stream whose calls are announced in order and not interleaved |
| IndexedCompletion.AgreesUnderIff | apis/src/anthropic/stream_events/mod.rs:425-718 | under a parser that tells all argument texts apart, what a client collects from the events is the translation of the completion put together by index if and only if calls are not interleaved |
| IndexedCompletion.StreamingAgreesIff | apis/src/anthropic/stream_events/mod.rs:425-718 | for every well-ordered stream that announces its calls in order, the collected events agree with the completion put together by index, whatever the parser, if and only if calls are not interleaved |
| IndexedCompletion.StreamingAgreesBlockForBlock | apis/src/anthropic/to_openai/response.rs:75-127 | with text strictly before tools the collected blocks need no joining: they are the non-streaming blocks one for one, empty texts aside |
| BufferLimit.LimitSuffices | apis/src/anthropic/stream_events/mod.rs:332-350 | a simple sufficient bound: if no stretch without a blank line is as long as the limit, every way of cutting the stream succeeds |
| BufferLimit.LongPartialFails | apis/src/anthropic/stream_events/mod.rs:332-350 | wherever an unfinished event is longer than the limit, a cut there fails |
| BufferLimit.CutDecides | apis/src/anthropic/stream_events/mod.rs:332-350 | every event longer than the limit passes in one chunk with its blank line and fails when cut off from it |
| CutLimit.CutLeavesNoTrace | apis/src/anthropic/stream_events/mod.rs:288-329 | what is kept after two texts is what is kept after both as one, unless CR CR is cut from an LF or from a CR that comes alone |
| CutLimit.EveryCutPassesIff | apis/src/anthropic/stream_events/mod.rs:288-350 | every way of cutting a valid UTF-8 stream stays within the limit if and only if nothing kept after any three texts exceeds it |
| CutLimit.PlainCutsIff | apis/src/anthropic/stream_events/mod.rs:288-350 | without CRs, if and only if no unfinished event at the end of a character exceeds it |
| CutLimit.EventsFitSuffices | apis/src/anthropic/stream_events/mod.rs:332-350 | the simple bound implies the exact one |
| StreamPipeline.RepliesFollowRun | apis/src/anthropic/stream_events/mod.rs:146-329 | for every response, also malformed: the replies carry the translation of the payloads dispatched and the bytes passed through, and fail exactly when a buffer grows too large |
| StreamPipeline.OutputIgnoresChunking | apis/src/anthropic/stream_events/mod.rs:146-329 | the concatenated output events of calls that succeed are a function of the whole response, whichever way it was cut |
| StreamPipeline.EveryCutSameOutputIff | apis/src/anthropic/stream_events/mod.rs:146-350 | every way of cutting a response succeeds and gives the translation of the whole if and only if its cuts fit the limit |
| StreamPipeline.StreamingIsFaithful | apis/src/anthropic/stream_events/mod.rs:146-718 | bytes to events end to end: well-formed exactly when the items are well ordered, and equal in content to the non-streaming answer exactly when announced calls are not interleaved |
| StreamPipeline.PayloadIsRead | apis/src/anthropic/stream_events/mod.rs:406-418 | exactly the text `[DONE]` ends the message, and any other payload is the chunk it parses to or nothing |
| ChunkDecoding.DecodeIff | apis/src/anthropic/stream_events/mod.rs:211-241 | pending and new octets are all text; or the longest text there is, and the rest is kept, where more may still come and help; or, in every other case, no text |
| ChunkDecoding.PassedOnIff | apis/src/anthropic/stream_events/mod.rs:186-209 | exactly in that last case a call passes on kept text, pending octets and new ones untouched, clears both buffers and translates nothing |
| StreamEventsFilter.StreamEvents.TransformOneDelta | apis/src/anthropic/stream_events/mod.rs:501-512 | new state and appended events are those of the specification of one delta; the buffers are untouched |
| StreamEventsFilter.StreamEvents.TransformOneChunk | apis/src/anthropic/stream_events/mod.rs:425-451 | the same for one chunk, message start, finish reason and token count included |
| StreamEventsFilter.StreamEvents.FinishStream | apis/src/anthropic/stream_events/mod.rs:640-684 | `[DONE]` closes open blocks and emits the final pair of events |
| StreamEventsFilter.StreamEvents.ProcessBlocks | apis/src/anthropic/stream_events/mod.rs:309-317 | the split loop translates the payloads of all blocks in order and returns the unfinished rest |
| StreamEventsFilter.StreamEvents.ProcessSseChunk | apis/src/anthropic/stream_events/mod.rs:288-329 | buffer, state and reply after one text are those of the specification, the size-limit error included |
| StreamEventsFilter.StreamEvents.StoreLineBuffer | apis/src/anthropic/stream_events/mod.rs:332-350 | an empty rest clears the buffer, one over the limit clears it and fails, any other is kept |
| StreamEventsFilter.StreamEvents.DecodeChunk | apis/src/anthropic/stream_events/mod.rs:211-241 | pending octets are prefixed and consumed, and an incomplete suffix is kept in hexadecimal |
| StreamEventsFilter.StreamEvents.OnResponseBody | apis/src/anthropic/stream_events/mod.rs:146-172 | each body call steps the whole filter as the specification does, the missing last body included |
| ChatResponse.BuildContentBlocks | apis/src/anthropic/to_openai/response.rs:75-127 | the pushes onto the block vector give the text block, if any, and then one block for each call |
| ChatResponse.BlocksAreListed | apis/src/anthropic/to_openai/response.rs:75-127 | the text is the first block unless empty, then the i-th call is the i-th block, its arguments parsed, or an empty object where they are not JSON |
| ChatResponse.EndIsTold | apis/src/anthropic/to_openai/response.rs:134-196 | stop reason, original finish reason and the three token counts, from the completion's own members |
| ChatRequest.ExtractToolResultContent | apis/src/anthropic/to_openai/request.rs:286-302 | the texts of a tool result joined by newlines |
| ChatRequest.AnswerIsSpelled | apis/src/anthropic/to_openai/request.rs:286-302 | a tool's answer is the string itself; of a list of parts the one string that has the texts given in order with one line feed between neighbours; otherwise empty |
| Spelling.SpelledIff | apis/src/anthropic/to_openai/request.rs:286-302 | exactly one string has each text given at its place, in order, with one line feed between neighbours |
| ChatRequest.ExtractToolResultImages | apis/src/anthropic/to_openai/request.rs:305-317 | the convertible images of a tool result in order |
| ChatRequest.FlushTextParts | apis/src/anthropic/to_openai/request.rs:236-258 | one plain message for a single text, a part list otherwise, nothing for nothing; accumulators empty |
| ChatRequest.ConvertContentBlocks | apis/src/anthropic/to_openai/request.rs:110-230 | the accumulating loop emits the messages of the specification |
| ChatRequest.TransformMessages | apis/src/anthropic/to_openai/request.rs:56-107 | system prompt first, then each message's conversion in turn |
| ChatRequest.BlocksKeepPieces | apis/src/anthropic/to_openai/request.rs:110-230 | the text accumulator always lists exactly the texts of the part accumulator, and emitted messages with accumulators always read as the blocks consumed |
| ChatRequest.OrderPreserved | apis/src/anthropic/to_openai/request.rs:110-317 | unless it is an assistant's message with tool calls, every supported text, image and tool result is kept, in order and under its role |
| ChatRequest.CallsGatheredAtEnd | apis/src/anthropic/to_openai/request.rs:214-230 | with tool calls, everything up to the last tool result is kept in order, then one message has the later text joined and all calls in order |
| ChatRequest.SingleCallMessage | apis/src/anthropic/to_openai/request.rs:214-230 | with calls and no tool result there is one message: all text concatenated, all calls in order |
| ChatRequest.CallMessageKeepsAllIff | apis/src/anthropic/to_openai/request.rs:214-230 | with tool calls nothing is lost or merged exactly when no image and at most one text follow the last tool result |
| ChatRequest.ImageBesideCallIsLost | apis/src/anthropic/to_openai/request.rs:214-230 | an image beside a tool call reaches no message |
| ChatRequest.ConversationOrderPreserved | apis/src/anthropic/to_openai/request.rs:85-107 | a whole conversation without tool calls keeps every supported piece in order |
| ChatRequest.SystemIsHoisted | apis/src/anthropic/to_openai/request.rs:56-78 | the system prompt becomes the first message, its texts spelled out the same way, unless that is empty |
| ChatRequest.RequestOrderPreserved | apis/src/anthropic/to_openai/request.rs:17-107 | a whole request without tool calls: the system prompt, then every supported piece of every message in order, image URLs and answers as the request's own fields give them |
| MessageGrouping.StretchIsOneTurn | apis/src/anthropic/to_openai/request.rs:214-258 | texts and images without a tool result among them are one message: plain if a lone text, else the list of parts, and no message if there are none |
| MessageGrouping.ResultsStandAlone | apis/src/anthropic/to_openai/request.rs:194-211 | a tool result ends the message before it, gives an answer and one user message with all its images, and what follows starts afresh |
| MessageGrouping.CallsComeLast | apis/src/anthropic/to_openai/request.rs:214-233 | with tool calls the messages up to the last tool result are those of the same blocks without calls, and the one after them carries all calls |
| MessageGrouping.BodiesAreTurns | apis/src/anthropic/to_openai/request.rs:85-107 | a message without a role gives nothing, a string one plain message, anything that is neither string nor list an empty one |
| MessageGrouping.MessagesInTurn | apis/src/anthropic/to_openai/request.rs:85-107 | messages are converted one by one in their order |
| RoundTrip.ResponseThenRequest | apis/src/anthropic/to_openai/response.rs:75-127 | a completion translated and sent back has the same text and the same calls in order if and only if all arguments are canonical JSON |
| RoundTrip.OneMessageUnlessEmpty | apis/src/anthropic/to_openai/request.rs:110-258 | it comes back as exactly one message, or as none when there was neither text nor call |
| ItemOrder.SortedUnique | apis/src/store/sqlite.rs:350-396 | a set of rows has only one listing by position and item id, so `ORDER BY` is deterministic |
| ItemOrder.SelectedIsRest | apis/src/store/sqlite.rs:350-380 | the WHERE clause with the cursor after n rows selects exactly the rest of the listing, in both directions and with repeated positions |
| ItemOrder.PageIsStretch | apis/src/store/sqlite.rs:336-397 | a page is the next stretch of the listing |
| ItemOrder.AppendedRows | apis/src/store/sqlite.rs:350-396 | rows past all others only lengthen the listing |
| ItemOrder.TextBeforeIff | apis/src/store/sqlite.rs:350-396 | ids are compared character by character: one precedes another if and only if after a common beginning it ends or has the smaller character |
| ConversationDb.InsertedKeys | apis/src/store/sqlite.rs:297-334 | a committed insert adds exactly the given rows, under new keys of that conversation, and changes no other |
| ConversationDb.InsertSucceeds | apis/src/store/sqlite.rs:297-334 | distinct ids that are not stored yet are always inserted |
| ConversationStore.SqlStore.UpsertConversation | apis/src/store/sqlite.rs:88-113 | on conflict the creation time stays and the rest is replaced |
| ConversationStore.SqlStore.UpdateMessages | apis/src/store/sqlite.rs:262-283 | only the messages of an existing conversation change |
| ConversationStore.SqlStore.CreateConversationItems | apis/src/store/sqlite.rs:297-334 | all rows or none |
| ConversationStore.SqlStore.CollectMessages | apis/src/openai/conversations/handlers.rs:767-789 | for any page limit of at least one the paging loop ends and returns the data of every row once, in order |
| ConversationStore.SqlStore.SyncMessages | apis/src/openai/conversations/handlers.rs:747-764 | the cache becomes the summary of the rows and nothing else changes |
| ConversationStore.Accept | apis/src/openai/conversations/handlers.rs:462-516 | rows at consecutive saturating positions, or a refusal for a bad item, too many items or a repeated id |
| ConversationStore.SqlStore.CreateConversation | apis/src/openai/conversations/handlers.rs:68-131 | tables and reply after creating, in the order cache first, items second |
| ConversationStore.SqlStore.CreateItems | apis/src/openai/conversations/handlers.rs:249-320 | tables and reply after appending items, every refusal included |
| ConversationStore.SqlStore.DeleteItem | apis/src/openai/conversations/handlers.rs:391-442 | tables and reply after deleting an item |
| ConversationStore.SqlStore.Serve | apis/src/openai/conversations/handlers.rs:68-442 | every handler takes tables and request to the tables and reply of the specification |
| CacheAgreement.CallAgrees | apis/src/openai/conversations/handlers.rs:68-442 | every single request keeps every conversation's cache equal to its ordered rows |
| CacheAgreement.RunsAgree | apis/src/openai/conversations/handlers.rs:68-442 | after every run with fresh ids each stored conversation's messages are the data of its rows by position and item id, and conversations known before keep their creation time |
| CacheAgreement.RunTimes | apis/src/store/sqlite.rs:88-113 | after any run every conversation has the creation time it had before or that of a create request for it in the run |
| CacheAgreement.TimesNeverChange | apis/src/openai/conversations/handlers.rs:68-442 | from empty tables with fresh ids, at any moment: the cache agrees, each conversation stems from a create request and carries its time, and keeps it ever after |
| CacheAgreement.CreateItemsShape | apis/src/openai/conversations/handlers.rs:249-320 | appending items either changes nothing or inserts all and rewrites the cache; the store's own uniqueness check never fires |
| CacheAgreement.CreateAgreesIff | apis/src/openai/conversations/handlers.rs:108-121 | a created conversation's cache agrees exactly when no rows were left under its id |
| CacheAgreement.ReusedIdDisagrees | apis/src/openai/conversations/handlers.rs:216-246 | creating with items, deleting and creating again under one id always leaves a cache that disagrees |
| StoreLaws.CreatedItemsAreFound | apis/src/openai/conversations/handlers.rs:249-320 | created items are found under their ids and listed in the reply as given |
| StoreLaws.FirstItemsAreFound | apis/src/openai/conversations/handlers.rs:68-131 | so are the items a conversation is created with |
| StoreLaws.MetadataIsLatest | apis/src/openai/conversations/handlers.rs:68-246 | over every run, a stored conversation has the metadata of the latest accepted request that gave it any |
| StoreLaws.NewRowsListLastIff | apis/src/openai/conversations/handlers.rs:492-516 | new rows list after all others in the order given exactly when ids at the largest position are in order |
| StoreLaws.AppendingExtendsMessages | apis/src/openai/conversations/handlers.rs:249-320 | below saturation, creating items appends their data to the cached messages and changes nothing else of the conversation |
| StoreLaws.DeletingDropsOneMessage | apis/src/openai/conversations/handlers.rs:391-442 | deleting an item takes exactly its entry out of the cached messages |
| StoreLaws.DeleteUndoesCreate | apis/src/openai/conversations/handlers.rs:249-442 | creating an item and deleting it again restores both tables |
| StoreLaws.CreatedItemsFollow | apis/src/openai/conversations/handlers.rs:249-320 | each created item is stored with the time of the request at the next position after the largest stored one, held at the largest 64-bit integer |
| StoreLaws.FirstItemsAreNumbered | apis/src/openai/conversations/handlers.rs:68-131 | the items a conversation is created with are stored at positions 1, 2, 3, ... |
| ConversationHistory.StoredIsTold | apis/src/openai/conversations/handlers.rs:68-442 | after every run, which conversations and items are stored, with creation times, metadata and data, is what the requests and replies of the run tell |
| ConversationHistory.RepliesAreTold | apis/src/openai/conversations/handlers.rs:68-442 | every request of every kind is answered exactly as the requests and replies before it say, all refusals included; of a listing, whether there is one |
| ConversationHistory.StoredIff | apis/src/openai/conversations/handlers.rs:68-246 | a conversation is stored if and only if the last request that created or deleted it created it, or there was none and it was stored at the start |
| ConversationHistory.DeletedIsGone | apis/src/openai/conversations/handlers.rs:216-246 | from its deletion until it is created again every request about a conversation is answered not found |
| PageWalk.ListReply | apis/src/openai/conversations/handlers.rs:323-361 | the list reply after n rows is the next stretch, as long as asked for but at least 1 and at most 100; `has_more` is true exactly when rows remain, and `first_id` and `last_id` are its ends, the latter the cursor of the next page |
| PageWalk.WalkListsEverything | apis/src/openai/conversations/handlers.rs:323-361 | the replies got by following `last_id` while `has_more` carry the data of every row once and in order, for every limit asked for, descending the reverse of ascending; where the cache agrees, they are the cached messages |
| PageWalk.RunGrows | apis/src/openai/conversations/handlers.rs:68-442 | any run of requests that do not delete from this conversation, or append to it out of order at saturation, only adds rows past those it has |
| PageWalk.CallGrows | apis/src/openai/conversations/handlers.rs:68-442 | so does a single such request, of anybody, anywhere |
| PageWalk.GrowingWalkSkipsNothing | apis/src/openai/conversations/handlers.rs:323-361 | with any such requests handled between the pages, the data listed is a prefix of the final listing, and all of it once `has_more` is false |
| PageWalk.AppendsPastIff | apis/src/openai/conversations/handlers.rs:492-516 | what the handler appends lies past everything stored exactly when positions are not saturated, or the ids in the request sort last there |
| WalkAmidChanges.ReplyInOrder | apis/src/openai/conversations/handlers.rs:323-361 | a reply whose cursor is there shows the next rows in order, either direction, and tells whether that is all of them |
| WalkAmidChanges.ReplyWithoutCursor | apis/src/store/sqlite.rs:352-359 | a reply whose cursor is gone shows nothing and claims that there is no more |
| WalkAmidChanges.RunEvolves | apis/src/openai/conversations/handlers.rs:68-442 | over any run of requests that keep the conversation and reuse no item id, new rows have new ids and lie past the rows that are left |
| WalkAmidChanges.WalkAmidChanges | apis/src/openai/conversations/handlers.rs:323-361 | with items deleted and appended between pages: what a walk shows is in order and unrepeated, a walk that ends has shown every row there throughout if and only if no cursor was deleted before such rows still to come, and a descending walk shows nothing appended since |
| TenantIsolation.OwnCall | apis/src/openai/conversations/handlers.rs:68-442 | a request's reply and effect depend only on its own tenant's rows |
| TenantIsolation.OthersCall | apis/src/store/sqlite.rs:257-539 | another tenant's request changes none of a tenant's rows |
| TenantIsolation.TenantsAreIndependent | apis/src/openai/conversations/handlers.rs:68-442 | over every run a tenant's replies and rows equal those of the run with all other tenants' requests removed |
| Reload.ReloadRuns | server/src/reload.rs:40-132 | over every run the listeners never change, each slot has the pipeline of the latest accepted configuration naming it, the current configuration is the latest accepted one, each success made one token, and one is live, the newest, in the mutex |
| Reload.Server.RespawnHealthChecks | server/src/reload.rs:101-115 | the mutex gets a new token and the one it held is cancelled |
| Reload.Server.ReloadPipelines | server/src/reload.rs:40-90 | a failure changes nothing; success swaps every named live slot, lists the skipped names, and renews the token |
| Reload.Server.HandleReload | server/src/watcher.rs:140-187 | an unreadable, invalid or failing configuration changes nothing, and any other becomes current |
| WatcherProtocol.StepKeepsInvariant | server/src/watcher.rs:110-212 | every step keeps the invariant: a file newer than the last read has word of it on its way, and the live state is that of the reads made |
| WatcherProtocol.NoLostUpdate | server/src/watcher.rs:110-212 | in every interleaving, at quiescence the last reload attempted was of the current file, and an accepted file is what runs |
| WatcherProtocol.NotifyDropsIff | server/src/watcher.rs:93-212 | a notification is dropped exactly when 16 are waiting, and the invariant holds all the same |
| WatcherProtocol.InternalRunsAreShort | server/src/watcher.rs:110-212 | left alone, the watcher takes a bounded number of steps |
| WatcherProtocol.StuckIsQuiescent | server/src/watcher.rs:110-212 | and it can only stop moving where it is up to date |
| BodyDeferral.HooksActAsExpected | apis/src/openai/conversations/filter.rs:205-345 | in every sequence of hook calls each hook does what the history of hooks before it calls for, and hands over the very body that came, or answers that there is no store |
| BodyDeferral.ExactlyOnce | apis/src/openai/conversations/filter.rs:270-345 | with one complete body, before or after the request hook, exactly one hook answers, the later of the two, with that body |
| BodyDeferral.AnswersAreEarned | apis/src/openai/conversations/filter.rs:270-345 | nothing is handled before a request hook has run, and each answer is for a body that came, with that body |
| BodyDeferral.WithoutIdBodyIsHandledEarly | apis/src/openai/conversations/filter.rs:217-222 | without a filter id a body is handled at once, even before the request hook |
| BodyDeferral.ConversationsFilter.MarkRequestFiltersRan | apis/src/openai/conversations/filter.rs:205-214 | the request phase is recorded and the body put aside is taken out |
| BodyDeferral.ConversationsFilter.Call | apis/src/openai/conversations/filter.rs:270-345 | each hook of the object steps its state and acts as specified |
| LegacyIpv4.ParseLegacyIpv4Host | apis/src/openai/conversations/config.rs:327-348 | the loop that pushes numbers accepts and computes what the specification does |
| LegacyIpv4.NumberRoundTrip | apis/src/openai/conversations/config.rs:351-368 | a 32-bit number printed in decimal, octal or hexadecimal is read back |
| LegacyIpv4.ShiftOrIsWeighted | apis/src/openai/conversations/config.rs:339-345 | shifting and or-ing parts in range gives their weighted sum, below 2^32 |
| LegacyIpv4.AcceptedIsWeightedSum | apis/src/openai/conversations/config.rs:327-348 | every accepted host denotes the weighted sum of its parts, below 2^32 |
| LegacyIpv4.AddressRoundTrip | apis/src/openai/conversations/config.rs:327-368 | every 32-bit address in every one- to four-part form, each part in any radix, also with trailing dots, parses to that address |
| Ipv4Notation.NumberIff | apis/src/openai/conversations/config.rs:351-368 | a part is accepted and read as n if and only if it is a non-empty numeral of n < 2^32 in its radix: hexadecimal behind 0x or 0X, octal behind a leading 0, else decimal |
| Ipv4Notation.HostIff | apis/src/openai/conversations/config.rs:327-368 | a host is accepted as an address if and only if it is one to four such numerals between dots, any dots at the end, whose numbers fit the octets they fill, and the address is their weighted sum |

## Left out

- JSON, YAML, HTTP headers, SQL text, connection pools and the async runtime: JSON parsing and printing are parameters, tables are maps, timers are plain steps.
- The bytes of emitted events: events are values, their JSON rendering is not modelled; block indices and token counts are unbounded, so the 32-bit index does not wrap.
- Arming, content types and error statuses of the streaming filter: one-branch checks.
- StreamPipeline.OutputIgnoresChunking: for calls that succeed; a call that exceeds the limit ends the run. StreamPipeline.EveryCutSameOutputIff says when all do.
- The `event`, `id` and `retry` fields of events: neither the code nor the model looks at them.
- IndexedCompletion.StreamingAgreesIff: for streams that announce each call once, in order, with its id first, as the streaming API does; IndexedCompletion.CoincidenceOutOfOrder shows why. A fragment without an index is outside the model.
- StoreLaws.AppendingExtendsMessages: for positions below the largest 64-bit integer, because saturated positions fall back to the order of ids; StoreLaws.NewRowsListLastIff says when that is harmless.
- WalkAmidChanges.WalkAmidChanges: an item id deleted and created again during the walk, and deletion of the whole conversation, are not covered.
- Message ids, generated item and conversation ids, and the clock: inputs of the model.
- Tools, tool choice and sampling parameters of requests; the envelope of responses: easy members.
- Normalising item JSON and validating metadata: a request carries the outcome of both.
- Store errors of the database itself, and the PostgreSQL store, which runs the same queries.
- CacheAgreement.RunsAgree: handlers run one at a time; two handlers interleaving on one conversation can leave a stale cache.
- ConversationHistory.RepliesAreTold: for a listing it only says whether there is one; PageWalk.ListReply and WalkAmidChanges.ReplyInOrder say which rows.
- The query that lists already stored item ids is a membership test on the table, and the maximal position is that of the last row in order.
- Building pipelines, logging of restart-required changes and the health-check tasks themselves: construction is a function from a configuration to pipelines or failure.
- Notification errors, events the operating system never reports, and edits between reading the initial configuration and starting the watcher.
- Matching a path to a POST route and opening the store: a hook call is one on a matched route, and whether the store opens is fixed per run.
- The rest of URL checking around the legacy IPv4 parser.
