# Chat relay core in Dafny

This project models the in-memory core of a WebSocket chat relay with a scripted "AIBot" responder.

- Clients connect with a username.
- Every chat frame they send is turned into an event and put on a FIFO queue.
- A single consumer takes events off the queue one at a time. It stores messages and relays them to the other connected clients.
- A text starting with `/AIBot` is also passed to the responder. The responder detects an intent by keyword, publishes a canned reply, and that reply is stored and broadcast to everyone.
- A standalone per-user rate limiter implements a sliding window with a cooldown.

The Dafny modules follow the source files:

| module | file | source |
|---|---|---|
| `Constants` | `constants.dfy` | `domain/constants.py` |
| `Models` | `models.dfy` | `domain/models.py` |
| `Publishing` | `publisher.dfy` | `events/publisher.py` |
| `Connections` | `connection_manager.dfy` | `websocket/connection_manager.py` |
| `RateLimiting` | `rate_limiter.dfy` | `websocket/rate_limiter.py` |
| `Agent` | `agent.dfy` | `ai/agent.py` |
| `Consuming` | `consumer.dfy` | `events/consumer.py` |
| `Handler` | `handler.dfy` | `websocket/handler.py` |

Two helper modules support them:

- `Wrappers` holds `Option` and `Result`.
- `PyStr` holds the Python `str` operations the code relies on: `strip`, `lower`, `startswith`, `in` and `replace(p, "")`.

How the source's entities are represented:

- **Sockets** are opaque `ChannelId`s compared by identity.
- **A failing send** is a caller-supplied set of sockets whose `send_text` raises.
- **Time** is a `now: real` parameter.
- **An event dictionary** is a `map<string, Value>`, where a value is a string, a socket or `None`.
- **The store** (database) appears in two ways:
  - In the consumer it is a `StoreBehaviour`: the id it returns for the AIBot user, and whether the lookup or a save raises.
  - In the session handler it is the answer to sign-in (`None` when it raises) and the history it returns.
- **Handlers** are functions from an event to the ordered list of calls they make (`Action`s) on the store, the registry and the publisher.
- **Stateful objects** are Dafny classes whose methods are proved against those functions: the queue, the publisher, the registry, the rate limiter, the responder and the consumer.

## Model

| member | source | states |
|---|---|---|
| Constants.TagsAgree | domain/constants.py:5-20 | The three message kinds and the three event tags are the same three distinct strings ("user_message", "ai_response", "ai_request"), so an event's tag is its stored kind; the only conversation id is "default" |
| Models.Get | events/consumer.py:38-40 | `d.get(key, default)`: the stored value when the key is present, the default otherwise |
| Models.NewMessage | domain/models.py:15-22 | A message keeps the given sender id, sender name and text, and takes the given kind and conversation |
| Models.NewUserMessageEvent | domain/models.py:25-32 | A user-message event keeps every field it is given |
| Models.NewAIRequestEvent | domain/models.py:35-42 | An AI-request event keeps every field it is given |
| Models.NewAIResponseEvent | domain/models.py:45-51 | An AI-response event keeps every field it is given |
| Models.Defaults | domain/models.py:15-51 | The defaults: a message is a "user_message" in "default"; the three events built with no arguments are tagged "user_message", "ai_request" and "ai_response" with empty strings and no socket |
| Publishing.ToRecord | events/publisher.py:16-41 | A dictionary is passed through unchanged; user-message and AI-request events become exactly the keys type, user_id, sender, text, sender_ws, AI-response events exactly type, text, original_message, detected_intent; tag and text are carried over |
| Publishing.ReadBack | events/publisher.py:17-39 | Reading a flattened event back with `get` yields every field unchanged, and the socket slot is truthy exactly when the event had a socket |
| Publishing.EventQueue.Put | events/publisher.py:42 | `put` appends the item at the tail |
| Publishing.EventQueue.Get | events/consumer.py:22 | `get` on a non-empty queue returns the head and leaves the tail |
| Publishing.EventPublisher.constructor | events/publisher.py:11-12 | The publisher holds the shared queue it is given |
| Publishing.EventPublisher.Publish | events/publisher.py:14-42 | Exactly one item, the flattened event, is appended at the tail of the shared queue and nothing else changes |
| PyStr.TrimLeft | websocket/handler.py:87 | The left part of `strip`: a suffix of the input whose removed prefix is all white space and which does not itself start with white space |
| PyStr.TrimRight | websocket/handler.py:87 | The right part of `strip`: a prefix of the input whose removed suffix is all white space and which does not itself end with white space |
| PyStr.Strip | websocket/handler.py:87 | `strip()` returns a slice of the input that neither starts nor ends with white space |
| PyStr.StripRemovesOnlySpace | websocket/handler.py:87 | What `strip()` removes is white space only: everything before and after the returned slice is white space |
| PyStr.StripEmptyIffAllSpace | websocket/handler.py:87-90 | A text strips to the empty string exactly when it is all white space, which is when the loop skips it and when a username is refused |
| PyStr.StripUnchanged | websocket/handler.py:49 | A text that neither starts nor ends with white space is its own strip |
| PyStr.StripIdempotent | websocket/handler.py:25 | Stripping twice is stripping once |
| PyStr.LowerChar | ai/agent.py:41 | Lowercasing maps an ASCII capital to its own small letter (32 code points on) and leaves every other character alone |
| PyStr.Lower | ai/agent.py:41 | `lower()` keeps the length and lowercases character by character |
| PyStr.LowerIdempotent | ai/agent.py:41 | Lowercasing twice is lowercasing once |
| PyStr.RemoveAll | websocket/handler.py:25 | `replace(p, "")` never lengthens the text |
| PyStr.RemoveAllAbsent | websocket/handler.py:25 | A text without the pattern is left unchanged |
| PyStr.RemoveAllLeading | websocket/handler.py:25 | A leading occurrence of the pattern is deleted and the rest is processed the same way |
| PyStr.RemoveAllAfter | websocket/handler.py:25 | An occurrence of the pattern anywhere is deleted: the text before it, which holds no occurrence, is kept as it is, and the rest is processed the same way |
| RateLimiting.Recent | websocket/rate_limiter.py:56-57 | Window trimming keeps only timestamps after the cutoff, every such value, never more than it had, and keeps a window that is all recent unchanged |
| RateLimiting.RecentSingle | websocket/rate_limiter.py:57 | A single timestamp is kept exactly when it is after the cutoff |
| RateLimiting.RecentAppend | websocket/rate_limiter.py:57 | Trimming distributes over concatenation, so with `RecentSingle` the trimmed window, its order and its repeated times, and hence its length, are fixed |
| RateLimiting.LastActivity | websocket/rate_limiter.py:120-123 | The last activity is the largest recorded time, one of them, or 0 when there is none |
| RateLimiting.FirstCheck | websocket/rate_limiter.py:36-63 | The first check of an untracked user judges an empty window: allowed exactly when N >= 1, leaving one timestamp and no block |
| RateLimiting.DeniedWhileBlocked | websocket/rate_limiter.py:46-49 | Before the cooldown ends a check is refused with retry-after `int(blocked_until - now) + 1` (at least 1) and the entry is unchanged |
| RateLimiting.AllowedAfterCooldown | websocket/rate_limiter.py:50-63 | After the cooldown ends the block and the timestamps are cleared, and the message is allowed as the only one in the window |
| RateLimiting.Check | websocket/rate_limiter.py:25-68 | One `is_rate_limited` call on a user's entry (a fresh one for an untracked user): the verdict and the new entry; its cases are stated by FirstCheck, DeniedWhileBlocked, AllowedAfterCooldown, WindowRule and CapacityKept |
| RateLimiting.WindowRule | websocket/rate_limiter.py:55-68 | Outside a cooldown a message is allowed and recorded exactly when fewer than N recent times remain; otherwise a cooldown of C starts and nothing is recorded; every kept time lies inside the window |
| RateLimiting.CapacityKept | websocket/rate_limiter.py:59-68 | A check never lets a window exceed N timestamps |
| RateLimiting.RunChecks | websocket/rate_limiter.py:25-68 | A run of checks answers once per check |
| RateLimiting.FewChecksAllowed | websocket/rate_limiter.py:59-63 | Without a cooldown, while at most N messages are counted, every check is allowed |
| RateLimiting.RunRecordsAll | websocket/rate_limiter.py:55-63 | Checks that all fall within one window, within capacity, record every time in order |
| RateLimiting.ThresholdReached | websocket/rate_limiter.py:55-68 | For N + 1 checks of a new user within one window, the first N pass and the last is refused with "Too many messages" and cooldown C |
| RateLimiting.RunSplit | websocket/rate_limiter.py:25-68 | A run of checks over two batches is the first run followed by the second from where it left off |
| RateLimiting.ScenarioOpenSteps | websocket/rate_limiter.py:9-63 | Default settings (3 per 1 s): messages at 0.0, 0.1 and 0.2 s all pass |
| RateLimiting.ScenarioFourthRefused | websocket/rate_limiter.py:64-68 | A fourth message at 0.3 s is refused with "Too many messages" and blocked until 2.3 s |
| RateLimiting.ScenarioBlockedSteps | websocket/rate_limiter.py:46-63 | At 1.0 s the blocked user is told to retry in 2 s and nothing changes; at 2.5 s a fresh window starts |
| RateLimiting.RateLimiter.constructor | websocket/rate_limiter.py:9-23 | The limiter starts with the given N, W and C (defaults 3, 1.0, 2.0) and no users |
| RateLimiting.RateLimiter.IsRateLimited | websocket/rate_limiter.py:25-68 | The verdict and reason are those of the check for that user; only that user's entry changes, and no window exceeds N |
| RateLimiting.RateLimiter.GetUserStats | websocket/rate_limiter.py:70-99 | A read-only snapshot: an untracked user has 0 messages and no block; otherwise it counts exactly the recorded times after the cutoff (the window a check judges, when no cooldown is set) and is blocked exactly while the cooldown runs |
| RateLimiting.RateLimiter.ResetUser | websocket/rate_limiter.py:101-107 | A tracked user's entry is emptied; an untracked user stays untracked |
| RateLimiting.RateLimiter.CleanupOldEntries | websocket/rate_limiter.py:109-131 | Exactly the idle users are removed, every other entry is kept as it was, and the count removed is returned |
| RateLimiting.StatsPredictCheck | websocket/rate_limiter.py:70-99 | The snapshot predicts the next check: a blocked user is refused with a retry hint; a user with room in the window, or whose cooldown is over, passes |
| Connections.RemoveAbsent | websocket/connection_manager.py:18-21 | Disconnecting an unregistered socket changes nothing |
| Connections.RemoveFirstSplices | websocket/connection_manager.py:18-21 | Disconnecting a registered socket cuts out exactly its first occurrence; the others keep their order |
| Connections.Deliveries | websocket/connection_manager.py:29-37 | A sweep makes one send per target, in order, all with the same text, succeeding exactly for sockets outside the failing set |
| Connections.Select | websocket/connection_manager.py:32-37 | The sockets a sweep collects are drawn from the registry, no more of them than it holds, and each one's send failed (or, for the survivors, succeeded) |
| Connections.SelectMembers | websocket/connection_manager.py:39-41 | A socket survives a sweep exactly when it was registered and its send did not fail |
| Connections.EvictFailed | websocket/connection_manager.py:39-41 | Evicting the failed sockets one by one after the sweep leaves exactly the successful ones, in their original order |
| Connections.KeepOrder | websocket/connection_manager.py:39-41 | Survivors keep their relative order |
| Connections.KeepNone | websocket/connection_manager.py:32-41 | A sweep where no registered socket fails evicts nothing |
| Connections.ExceptAbsentIsBroadcast | websocket/connection_manager.py:43-64 | With an unregistered excluded socket, `broadcast_except` sends and evicts exactly as `broadcast` does |
| Connections.ExcludedNeverTouched | websocket/connection_manager.py:53-55 | `broadcast_except` never sends to the excluded socket, and a registered excluded socket stays registered |
| Connections.ConnectionManager.constructor | websocket/connection_manager.py:9-11 | The registry starts empty |
| Connections.ConnectionManager.Connect | websocket/connection_manager.py:13-16 | The socket is appended as the last broadcast target |
| Connections.ConnectionManager.Disconnect | websocket/connection_manager.py:18-21 | The first occurrence is removed; an unregistered socket is ignored |
| Connections.ConnectionManager.Broadcast | websocket/connection_manager.py:23-41 | One send to every registered socket in order, none skipped after a failure; afterwards exactly the failed sockets are gone |
| Connections.ConnectionManager.BroadcastExcept | websocket/connection_manager.py:43-64 | As broadcast over the registry without the excluded socket, which is neither sent to nor evicted |
| Connections.ConnectionManager.Sweep | websocket/connection_manager.py:32-37 | The send loop visits every socket not skipped, in order, and collects in order exactly those whose send failed |
| Connections.ConnectionManager.Evicting | websocket/connection_manager.py:40-41 | The clean-up loop disconnects each collected socket in turn |
| Connections.ConnectionManager.GetConnectionCount | websocket/connection_manager.py:66-68 | The count is the number of registered sockets |
| Agent.FirstIntentRange | ai/agent.py:39-50 | Detection answers "default" or the name of a declared intent |
| Agent.IntentsWellNamed | ai/agent.py:13-34 | The five intents have distinct names, none of them "default" |
| Agent.IntentsComplete | ai/agent.py:13-34 | Every intent has keywords, none of them empty |
| Agent.FirstMatchWins | ai/agent.py:44-47 | An intent is reported exactly when one of its keywords occurs and no earlier intent's does |
| Agent.DefaultWhenNothingMatches | ai/agent.py:49-50 | "default" is reported exactly when no intent matches |
| Agent.FirstIntentSpec | ai/agent.py:39-50 | First-match detection, both directions, for any table with distinct names |
| Agent.IntentOf | ai/agent.py:39-50 | `detect_intent`: the first declared intent with a keyword in the lowercased message, else "default"; DetectIntentSpec states this and FirstIntentDeclared its range |
| Agent.FirstIntentDeclared | ai/agent.py:39-50 | Detection over the declared table answers "default" or a name that the table declares, so `get_response` finds a fixed reply for every other answer |
| Agent.DetectIntentSpec | ai/agent.py:39-50 | `detect_intent` over the declared table: the first intent in declaration order with a keyword in the lowercased text, else "default" |
| Agent.CaseInsensitive | ai/agent.py:41 | Detection of a text and of its lowercase agree, and texts that lowercase alike get the same intent |
| Agent.EmptyMatchesNothing | ai/agent.py:44-50 | With no empty keyword, empty text matches no intent |
| Agent.EmptyIsDefault | ai/agent.py:39-50 | Empty text is detected as "default" |
| Agent.PythonQuestion | ai/agent.py:14-15 | "What is Python?" is detected as the python intent |
| Agent.PythonAnswer | ai/agent.py:52-55 | The python intent is answered with the Python reply whatever the question |
| Agent.DefaultResponse | ai/agent.py:57 | The default reply quotes the original message |
| Agent.Lookup | ai/agent.py:54-55 | Looking up a name finds an intent of that name, or reports that none is declared |
| Agent.LookupDeclared | ai/agent.py:54-55 | Looking up a declared name finds that very intent |
| Agent.GetResponse | ai/agent.py:52-57 | A declared intent gets its own reply; any other name gets a reply quoting the message |
| Agent.ResponseOfDeclared | ai/agent.py:52-55 | Each declared intent's reply is the one declared with it |
| Agent.Reply | ai/agent.py:59-89 | The reply event is tagged "ai_response"; for a text it carries the detected intent, its reply and the original text; when detection raises it carries "Error processing request: ..." and empty original message and intent |
| Agent.MockedAIAgent.constructor | ai/agent.py:36-37 | The responder holds the publisher it is given |
| Agent.MockedAIAgent.DetectIntent | ai/agent.py:39-50 | The nested keyword loop with early return computes the first-match intent of the lowercased text |
| Agent.MockedAIAgent.ProcessRequest | ai/agent.py:59-89 | Exactly one event, the reply to the request, is published |
| Consuming.Relay | events/consumer.py:52-62 | The relay sends {sender, text} with `broadcast_except` when the event has a sender socket and with `broadcast` otherwise, never both |
| Consuming.HandleUserMessage | events/consumer.py:35-62 | The message is saved (kind "user_message", conversation "default") exactly when user id and sender are non-empty and user id, sender and text are all strings; when a save is due but fails or a field is not a string, the handler raises before the relay; otherwise the relay is the last and only broadcast |
| Consuming.HandleAiResponse | events/consumer.py:64-87 | The AIBot user is looked up first; the save under it (kind "ai_response") is attempted exactly when the lookup succeeds and the text is a string; a failed lookup or save is swallowed; the reply is always broadcast to everyone, last, and nothing escapes |
| Consuming.HandleUserMessageAsWritten | events/consumer.py:43-49 | As written, building the message raises whenever a save is due, so neither the save nor the relay happens |
| Consuming.HandleAiResponseAsWritten | events/consumer.py:70-79 | As written, the same error is swallowed, so the reply is broadcast but never saved |
| Consuming.SenderKeywordLosesMessages | events/consumer.py:43-76 | With a working store, the as-written handlers raise on a signed-in user's message and never save a reply, where the intended ones save and relay both |
| Consuming.SenderKeywordWitness | events/consumer.py:43-62 | "hi" from alice on socket 1 is dropped as written, and saved and relayed to the others as intended |
| Consuming.HandleEvent | events/consumer.py:26-34 | The base consumer's dispatch on the event tag; it never publishes anything (Routing states the dispatch) |
| Consuming.AiHandleEvent | events/consumer.py:96-110 | The AI consumer's dispatch; a publication only comes from an "ai_request" that did not raise, and it is the handler's last call (Routing states the dispatch) |
| Consuming.Routing | events/consumer.py:26-110 | Both consumers route "user_message" and "ai_response" to their handlers; the base one ignores "ai_request", the AI one handles it as a user message and then publishes the responder's reply; other tags are ignored |
| Consuming.PublishedByHandler | events/consumer.py:100-110 | Handling an event publishes nothing, except the one reply to a request handled without an exception |
| Consuming.Run | events/consumer.py:19-24 | The consume loop over a queue: the calls made and what is left in the queue; events stay unhandled only after an exception escaped (RunUnfold and RunInOrder pin down the rest) |
| Consuming.RunUnfold | events/consumer.py:19-24 | The consumer handles the head event completely, then continues with the tail followed by what was published; an exception ends the run |
| Consuming.StepKeepsRun | events/consumer.py:19-24 | Each step of the consume loop leaves strictly less work and continues the same run |
| Consuming.RunInOrder | events/consumer.py:19-24 | When no handler raises or publishes, the consumer makes exactly each event's calls, event after event in dequeue order, and drains the queue |
| Consuming.RunRequest | events/consumer.py:102-106 | A request's run is its handling as a user message, its published reply, then the run over that reply |
| Consuming.RunReply | events/consumer.py:107-110 | A reply's run is its handling, after which the queue is empty |
| Consuming.RequestRoundTrip | events/consumer.py:96-110 | A lone request is stored and relayed, its reply is published and then stored and broadcast, and the queue is drained |
| Consuming.HealthyRequest | events/consumer.py:35-62 | With a working store, a signed-in user's request is saved and relayed to everyone but the sender |
| Consuming.HealthyReply | events/consumer.py:64-87 | With a working store, the reply is saved under AIBot and broadcast to everyone |
| Consuming.RequestTwoBroadcasts | events/consumer.py:96-110 | A request from a connected user yields exactly two broadcasts: the user's text to the others, then the reply to everyone |
| Consuming.EventConsumer.constructor | events/consumer.py:13-17 | The consumer holds the shared queue and starts with no calls made |
| Consuming.EventConsumer.Perform | events/consumer.py:22-24 | The handler's calls are made in order, and each published reply is put on the queue |
| Consuming.EventConsumer.Consume | events/consumer.py:19-24 | The loop takes one event at a time and performs all of its calls before the next; it makes exactly the run's calls and leaves what the run leaves |
| Handler.Field | websocket/handler.py:15-16 | `data.get(key, default)`: the stored value when present, the default otherwise |
| Handler.ParseMessageEvent | websocket/handler.py:12-34 | A text starting with "/AIBot" (case-sensitive, no leading strip) is a request whose text has every "/AIBot" removed and is stripped; any other text is a chat message with the raw text; both carry the session's id, name and socket; a non-object document or a non-string type or text raises |
| Handler.CommandText | websocket/handler.py:19-26 | "/AIBot" followed by text without the command yields a request carrying that text stripped |
| Handler.ClassifyFrame | websocket/handler.py:83-104 | One pass of the frame loop: malformed JSON, and only that, is answered; a published event is the one `parse_message_event` builds from the frame (FrameRules states the skip and abort cases) |
| Handler.FrameRules | websocket/handler.py:83-104 | Malformed JSON, and only that, is answered; a blank text, and only that, is skipped; what is published is the parsed event of a non-blank frame |
| Handler.Listen | websocket/handler.py:83-104 | The frame loop up to the end of the frames or the first frame that raises; each frame draws at most one reply or one publication (ListenUnfold states the loop step) |
| Handler.ListenUnfold | websocket/handler.py:83-104 | The loop handles the first frame, then the rest, unless the first one raises |
| Handler.RepliesAreNotices | websocket/handler.py:95-102 | The loop's only replies are "Invalid JSON format" notices |
| Handler.RepliesPerMalformedFrame | websocket/handler.py:95-102 | At most one reply per malformed frame |
| Handler.PublishedFromFrames | websocket/handler.py:86-93 | Every published event comes from a frame that parsed and carries the session's id, name and socket |
| Handler.BlankFramesIgnored | websocket/handler.py:86-90 | Frames with blank text publish nothing and draw no reply |
| Handler.Connection | websocket/handler.py:43-111 | A session: refused with code 1008 exactly when the username is blank once stripped; otherwise dropped at sign-in, or greeted with the id and name, sent the history, and run through the frame loop (ConnectionCases states the three cases) |
| Handler.ConnectionCases | websocket/handler.py:43-111 | A session is refused, dropped at sign-in, or greeted, sent the history and then run through the frame loop |
| Handler.UsernameRule | websocket/handler.py:49-54 | A connection is refused exactly when the username is empty or all white space, always with code 1008, and only accepted clients are greeted |
| Handler.RegisterThenDisconnect | websocket/handler.py:57-111 | Connecting a new socket and disconnecting it at the end leaves the registry as it was |
| Handler.ProcessMessage | websocket/handler.py:37-40 | The frame is parsed and exactly its event is published; a frame that does not parse publishes nothing |
| Handler.HandleFrame | websocket/handler.py:83-104 | One pass of the loop does what the frame rules say and publishes the event they name |
| Handler.LoopPass | websocket/handler.py:83-104 | One loop pass advances the loop's run by one frame, or stops it when the frame raises |
| Handler.ListenLoop | websocket/handler.py:83-104 | The receive loop replies and publishes exactly what the frame rules give, in order, up to the first frame that raises |
| Handler.Converse | websocket/handler.py:57-111 | A signed-in client is registered, greeted with its id and the history, served, and then disconnected |
| Handler.ServeSession | websocket/handler.py:57-111 | A registered client is served as the session describes, and its socket is disconnected however the session ends |
| Handler.HandleWebsocketConnection | websocket/handler.py:43-111 | A refused client is never registered; any other is registered, served and disconnected; the queue gains exactly the session's published events |
| Handler.ConnectionAsWritten | websocket/handler.py:75-80 | As written, a signed-in client is greeted and then dropped: nothing is published and no history is sent |
| Handler.TextOnlyFields | websocket/handler.py:15-16 | A frame with only a text field has type "message" and that text |
| Handler.ChatFrame | websocket/handler.py:86-93 | A frame whose text is neither blank nor a request is published as a chat message |
| Handler.ChatSession | websocket/handler.py:43-104 | A client sending one such frame is greeted, sent the history, and has the message published |
| Handler.ChatSessionAsWritten | websocket/handler.py:75-80 | As written, the same client is greeted and dropped before its frame is read |
| Handler.HistoryCallDropsSession | websocket/handler.py:75-80 | "bob" saying "hello": the intended session publishes the message; the session as written does not |

## Left out

- JSON encoding and decoding and socket I/O (`accept`, `send_text`, `receive_text`, `close`) are not modelled. Frames arrive already decoded as `Frame` values. Sends are calls that succeed or fail according to a caller-supplied set. So a socket value under "sender" or "text", which makes `json.dumps` raise (websocket/connection_manager.py:29 and 50) before any send and escape the consumer, is recorded as an ordinary `Broadcast` or `BroadcastExcept` call.
- A failed send of the session's own replies (the greeting, the history and the invalid-JSON notice) is not modelled.
- Concurrency and timing are not modelled: `asyncio` task scheduling, the 0.5 s sleep in the responder, and blocking in `queue.get`. `Consume` stops where the source would wait on an empty queue.
- `time.time()` is replaced by a `now` parameter.
- The store (`database/chat_database.py`) is abstract:
  - Sign-in is an `Option<string>`; `None` means `get_or_create_user` raised.
  - The history is a parameter, not a query result.
  - `add_user_to_conversation` is not modelled separately.
  - The SQL internals are not part of this model.
- `server.py` wiring, `print` logging and the exact wording of the rate-limit messages are not modelled. The rate limiter's reasons are a `Denial` datatype.
- The rate limiter is modelled standalone, because the session handler never calls it.
- A dictionary value that is neither a string, a socket nor `None` is not modelled.
- Consuming.HandleUserMessage: a save whose user id, sender or text is not a string is logged as `Raised` alone, without a `SaveMessage` call, because a logged message holds strings only; in the source that call is made and the store rejects it.
- Consuming.HandleAiResponse: a reply whose text is not a string logs no `SaveMessage` call, because a logged message holds strings only; in the source the save is attempted, the store rejects it, and the error is swallowed, so the broadcast that follows is the same.
- The store's behaviour (`StoreBehaviour`) is fixed for a whole consumer run, so a store that fails on one event and works on the next is not expressed.
- The `msg_type` field that `parse_message_event` reads is computed and never used. The model only keeps the failure it can cause.
- PyStr.Lower: lowercases ASCII letters only; the rest of Unicode case mapping is not modelled.
- Agent.IntentsComplete: does not state that each canned reply is non-empty. The replies are long literal strings, and reasoning about their length is beyond the verifier's resource limit here.
- Agent.ReplyText holds the reply wordings behind a `CannedReply` enumeration instead of inside the intent table. This is a representation choice; the wording is the source's.
- Connections.RemoveFirst: its meaning is stated through the lemmas `RemoveAbsent` and `RemoveFirstSplices`, not as its own `ensures`.

## Findings

| source | as written | input that shows it | evidently intended | confidence | as-written member | corrected member |
|---|---|---|---|---|---|---|
| events/consumer.py:43-49 | `Message(sender=...)` uses a keyword that the `Message` record does not have (its field is `sender_name`, domain/models.py:19). Building it raises. In `handle_user_message` this raises before the relay. In `handle_ai_response` (events/consumer.py:70-76) the error is swallowed, so no reply is ever saved. | The user message "hi" from alice (id "u1") on socket 1, with a working store | Save the message under the sender's name, then relay it to the other clients; save each reply under AIBot | not executed | Consuming.HandleUserMessageAsWritten, Consuming.HandleAiResponseAsWritten, Consuming.SenderKeywordWitness, Consuming.SenderKeywordLosesMessages | Consuming.HandleUserMessage, Consuming.HandleAiResponse |
| websocket/handler.py:75 | The session calls `get_conversation_history_dict`, which the store does not define (it defines `get_conversation_history`, database/chat_database.py:153). The resulting `AttributeError` is caught by the catch-all at websocket/handler.py:109-111, which disconnects the client. | Client "bob", signed in as "u2", sending `{"text": "hello"}` | Send the history, then serve the frame loop | not executed | Handler.ConnectionAsWritten, Handler.ChatSessionAsWritten, Handler.HistoryCallDropsSession | Handler.Connection, Handler.ChatSession, Handler.HandleWebsocketConnection |
