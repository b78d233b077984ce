# Risk screening of inbound chat messages, in Dafny

This project models the core of a WhatsApp bot that screens every inbound
chat message for grooming and for scams aimed at older people. For each
message, the bot:

- loads the chat's last ten stored texts,
- asks an external judgment service (an OpenAI chat completion) to classify
  the window of texts,
- then does one of two things:
  - on a risk, it stores an alert and sends a notification to a fixed
    recipient;
  - otherwise, it stores the message so that it becomes history for the
    next one.

Beside that pipeline the model covers two small pieces:

- the connection status record that the bot keeps;
- the general-purpose AI reply helper.

## Modules

| file | module | models |
|---|---|---|
| `outcomes.dfy` | `Outcomes` | `Option`, `Result` and JavaScript truthiness of an optional string |
| `js_builtins.dfy` | `JsBuiltins` | The JavaScript built-ins the code relies on: `trim` (ECMAScript white space and line terminators), `join`, `slice(-n)`, `reverse`, `toUpperCase`, `includes`. It also has `Split`, an inverse of `join` used to state a round trip. |
| `chat_api.dfy` | `ChatApi` | The chat-completion request, the reply the service gives, and the outcome of an AI call: not configured, service failed, or answered. |
| `responder.dfy` | `Responder` | `generateResponse` (src/ai/openai.ts) |
| `classifier_prompt.dfy` | `ClassifierPrompt` | The classifier's built-in Spanish system prompt template |
| `classifier.dfy` | `Classifier` | `detectRisk` (src/ai/classifier.ts), covering four steps: the last-ten window, the request, the regular expression `/DETECCIÓN (GROOMING\|ESTAFA): (.+)/i` as a leftmost scan, and the `SIN RIESGO` sentinel and fallback. |
| `history.dfy` | `History` | `getLastMessages` (src/ai/history.ts). The store's query is written out as filter, sort newest first, limit, and then the code's map and reverse. |
| `message_handler.dfy` | `MessageHandler` | `setupMessageHandler`'s batch filter and loop, and `handleMessage` (src/handlers/messageHandler.ts). The result is a trace of effects plus the two store tables. |
| `connection_store.dfy` | `ConnectionStore` | `setStatus`, `getInfo` and the initial `info` (src/store/connectionStore.ts) |

Everything outside the process is a parameter, never computed:

- The judgment service's answer is a `ServiceReply`: it failed, or it
  replied with optional content.
- The store's answers are given per message in an `Outside` record:
  - the history query's error,
  - whether the alert row was stored,
  - the `messages` insert's error,
  - the insertion time of a stored row.
- Whether sending the notification throws is given in `Outside` too.
- The configuration values (`apiKey`, `systemPrompt`, `recipientJid`) are
  parameters.
- Each `new Date()` in `setStatus` is a parameter.

## Model

| member | source | states |
|---|---|---|
| JsBuiltins.Trim | src/ai/classifier.ts:51 | The result has no white space at either end. It is the input with only white space removed before and after it. |
| JsBuiltins.TrimPadded | src/ai/classifier.ts:51 | Whatever white space surrounds a trimmed text, `trim` returns exactly that text. |
| JsBuiltins.SliceLast | src/ai/classifier.ts:23 | `slice(-n)` keeps the last `min(n, length)` items, in their original order. |
| JsBuiltins.Join | src/ai/classifier.ts:23 | `join` of no items is `''`. Otherwise the joined text starts with the first item. `JoinEndsWithLast` and `SplitJoin` state the rest. |
| JsBuiltins.JoinEndsWithLast | src/ai/classifier.ts:23 | A joined non-empty list ends with its last item. |
| JsBuiltins.SplitJoin | src/ai/classifier.ts:23 | When no item contains the separator, splitting the joined text at the separator gives back the items. |
| JsBuiltins.Reverse | src/ai/history.ts:29 | `reverse` keeps the length and puts item `i` at position `length - 1 - i`. |
| JsBuiltins.ReverseMultiset | src/ai/history.ts:29 | Reversing keeps exactly the same items. |
| ChatApi.ReplyText | src/ai/classifier.ts:51 | Missing content gives `''`. Present content gives its trim, so the result is always trimmed. Content that is only white space gives `''`, and already-trimmed content is returned unchanged. |
| Responder.ResponderMessages | src/ai/openai.ts:15-19 | The list has one or two messages. The last is the user message carrying the prompt. A system message is present, first, exactly when a system prompt is configured, and it carries that prompt. |
| Responder.GenerateResponse | src/ai/openai.ts:10-26 | Without an API key the call fails before any request exists. Otherwise the request names `gpt-4o-mini` with the message list above. A service failure is reported as such. An answer is the trimmed reply, or `''` when the reply has no content. |
| Responder.GenerateResponseReturnsTrimmedReply | src/ai/openai.ts:26 | A reply made of white space, a trimmed text and more white space is answered with exactly that text. |
| ClassifierPrompt.DefaultSystemPromptEmbedsWindow | src/ai/classifier.ts:26-41 | Trimming the template removes only its outer line breaks and indentation. The window text, whatever it starts or ends with, sits verbatim between the fixed instructions and the fixed answer forms. |
| ClassifierPrompt.TrimTemplate | src/ai/classifier.ts:35-41 | Trimming a template whose fixed parts begin and end with a visible character removes exactly the leading line break and the trailing line break and indentation. |
| Classifier.Window | src/ai/classifier.ts:23 | The window is exactly the last `min(10, n)` texts, in their original order. |
| Classifier.WindowText | src/ai/classifier.ts:23 | No contract of its own: the joined window. `WindowTextEnds`, `WindowKeepsCurrentLast` and `WindowTextSplitsBack` state what it holds. |
| Classifier.WindowTextEnds | src/ai/classifier.ts:23 | No texts give `''`. Otherwise the window text starts with the oldest text of the window and ends with the newest text given. |
| Classifier.WindowKeepsCurrentLast | src/ai/classifier.ts:23 | The current text is always the last entry of the window, and the joined window text ends with it. |
| Classifier.WindowOfBoundedHistory | src/ai/classifier.ts:23 | With at most ten texts of history plus the current one, the window is all of them, except that the oldest is dropped when the history has exactly ten. |
| Classifier.WindowTextSplitsBack | src/ai/classifier.ts:23 | When no text contains a line break, the user message splits back into exactly the windowed texts. |
| Classifier.ClassifierRequest | src/ai/classifier.ts:43-49 | The request names `gpt-4o-mini` and has exactly two messages. The first is the system message with the chosen prompt. The second is the user message carrying the joined window. |
| Classifier.SystemPrompt | src/ai/classifier.ts:26-41 | A non-empty configured prompt is used as given. Otherwise the prompt is the built-in template, trimmed. |
| Classifier.SystemPromptChoice | src/ai/classifier.ts:26-41 | A non-empty configured prompt is used as given, untrimmed. Otherwise the prompt is the built-in instructions, then the window text, then the answer forms. |
| Classifier.Canonicalize | src/ai/classifier.ts:53 | The case-insensitive comparison maps a character to its upper case, except that a non-ASCII character never becomes an ASCII one. This is the rule of section 22.2.2.7.3 of ECMAScript 2023, stated against `UpperChar`. |
| Classifier.LineEnd | src/ai/classifier.ts:53 | A greedy `.+` stops at the first line terminator, or at the end of the text. |
| Classifier.MatchAt | src/ai/classifier.ts:53 | The pattern matches at a position exactly when one of its two alternatives does, with `GROOMING` tried first. A match records its category and captures the rest of that line, which is non-empty. |
| Classifier.FirstMatch | src/ai/classifier.ts:53 | The match found is the leftmost: there is no match before it. When nothing is found, there is no match anywhere. |
| Classifier.Explanation | src/ai/classifier.ts:57 | The explanation is trimmed and lies within one line. |
| Classifier.MentionsSentinel | src/ai/classifier.ts:59 | No contract of its own: the sentinel test. `SentinelInAnyCase` states what it finds, and `ParseReply` shows its outcome never changes the result. |
| Classifier.SentinelInAnyCase | src/ai/classifier.ts:59 | `SIN RIESGO` written in any mix of upper and lower case, anywhere in the reply, is found by the sentinel test. |
| Classifier.ParseReply | src/ai/classifier.ts:53-64 | A risk label is returned exactly when the pattern matches somewhere. A match therefore wins over any `SIN RIESGO` elsewhere in the reply. Every other reply, `''` and gibberish included, gives `SIN RIESGO` with an empty explanation. The explanation is always trimmed and single-line. |
| Classifier.ParseTakesLeftmostMatch | src/ai/classifier.ts:53-58 | The label is the category of the leftmost match. The explanation is the rest of that match's line, trimmed. |
| Classifier.ParseDetectionLine | src/ai/classifier.ts:53-58 | The line `DETECCIÓN <label>: <explanation>` parses back to exactly that label and explanation. |
| Classifier.DetectionLineRoundTrip | src/ai/classifier.ts:51-58 | Round trip: a reply in the requested detection form, with any surrounding white space, is read back as exactly its label and explanation. |
| Classifier.DetectRisk | src/ai/classifier.ts:13-64 | Without a client the call fails and no request is sent. A service failure is reported after the request is sent. With a client, the request sent is the classifier request for the texts. An answer carries a risk label exactly when the trimmed reply matches the pattern, and a no-risk answer always has an empty explanation. |
| Classifier.DetectRiskReadsDetectionLine | src/ai/classifier.ts:43-58 | A service that answers with a well-formed detection line gets exactly that label and explanation back. |
| Classifier.DetectRiskEmptyReplyIsNoRisk | src/ai/classifier.ts:51-64 | A reply with no content reads as no risk. |
| History.FromChat | src/ai/history.ts:18 | The filtered rows are exactly the table's rows from the chat, each as many times as it occurs in the table. Rows from other chats do not occur. |
| History.NewestFirst | src/ai/history.ts:19 | Sorting keeps exactly the same rows and puts them newest first. |
| History.Sorted | src/ai/history.ts:18-19 | The query's ordering holds exactly the chat's rows, newest first. |
| History.NewestFirstPairwise | src/ai/history.ts:19 | When each row is at least as recent as the next one, every row is at least as recent as every later one. |
| History.Query | src/ai/history.ts:15-20 | The query returns `min(limit, number of the chat's rows)` rows. |
| History.Texts | src/ai/history.ts:27 | The texts are those of the rows, one for one, in the same order. |
| History.Chronological | src/ai/history.ts:29 | No contract of its own: the kept rows, reversed. `ChronologicalIsAscending` states their order, and `GetLastMessages` reads its texts from them. |
| History.GetLastMessages | src/ai/history.ts:10-29 | A store error is rethrown unchanged and no result is returned. Otherwise the result has `min(limit, number of the chat's rows)` texts, never more than `limit`. Each text belongs to the corresponding kept row, in the reversed query order. |
| History.DefaultLimitIsTen | src/ai/history.ts:10-13 | Called without a `limit`, the function returns `min(10, number of the chat's rows)` texts. |
| History.QueryPartitionsChat | src/ai/history.ts:18-20 | The kept rows and the dropped rows together are exactly the chat's rows. |
| History.QueryKeepsNewest | src/ai/history.ts:19-20 | No dropped row is newer than a kept row, so the query keeps the `limit` newest. |
| History.QueryKeepsChatRows | src/ai/history.ts:18 | Only rows from the chat are kept. |
| History.ChronologicalIsAscending | src/ai/history.ts:27-29 | The result is oldest first. |
| History.EmptyChatIsEmpty | src/ai/history.ts:27-29 | A chat with no rows yields an empty list, not an error. |
| History.NewestRowIsLast | src/ai/history.ts:15-29 | Suppose the chat has a row strictly newer than all its other rows, and the limit is positive. Then that row's text is the last entry of the result. |
| MessageHandler.TextContent | src/handlers/messageHandler.ts:46-49 | A non-empty `conversation` is the text. Otherwise the text is `extendedTextMessage.text`, or `''`. |
| MessageHandler.Received | src/handlers/messageHandler.ts:42-50 | A message is acted on exactly when its chat id and its text are both non-empty. |
| MessageHandler.AlertText | src/handlers/messageHandler.ts:77 | No contract of its own: the notification text. `AlertTextShowsParts` states where each part sits. |
| MessageHandler.AlertTextShowsParts | src/handlers/messageHandler.ts:77 | The notification text shows the label in the title, the explanation on the next line, and the message text quoted at the end, each at a fixed place. |
| MessageHandler.Verdict | src/handlers/messageHandler.ts:59-63 | A verdict is reached exactly when the message is acted on, its history loaded, a client is configured and the service replied. The verdict is the classifier's answer for the history plus the current text. |
| MessageHandler.OwedWrites | src/handlers/messageHandler.ts:67-88 | Only writes are owed. A risk owes two. First comes the alert row, holding the chat, the message id, the label as spelled, the explanation and the text. Then comes the notification to the configured recipient, with the text of line 77. No risk owes exactly one `messages` row, holding the chat, the text, the message id and the insertion time. |
| MessageHandler.Respond | src/handlers/messageHandler.ts:67-91 | Once a verdict exists, the writes are exactly the owed ones, in order. On a risk, `messages` is untouched and the alert row for the message is appended when the store accepts it. A failed send ends the handling with the catch block's log, and only a failed send does so. On no risk, `alerts` is untouched and the message's row is appended unless the insert fails. A failed insert is logged and not rethrown. |
| MessageHandler.HandleMessage | src/handlers/messageHandler.ts:40-99 | A message without a chat id or text has no effect at all. Any other message first loads the chat's last ten texts. Each table only gains rows, at most one. |
| MessageHandler.StepOne | src/handlers/messageHandler.ts:23-26 | Each table gains at most one row. A message with no content, or one the bot sent itself, is skipped without effect. |
| MessageHandler.RunBatch | src/handlers/messageHandler.ts:22-27 | No contract of its own: the loop over a batch, one message at a time, each from the tables the previous one left. `RunBatchComposes`, `RunBatchGrows` and `RunBatchSkips` state its properties. |
| MessageHandler.RunBatchComposes | src/handlers/messageHandler.ts:22-27 | Running the loop over two parts of a batch, one after the other, is running it over the whole batch. |
| MessageHandler.ProcessAll | src/handlers/messageHandler.ts:22-27 | Over a batch of `n` messages, each table gains at most `n` rows. A batch with no qualifying message has no effect. |
| MessageHandler.HandleBatch | src/handlers/messageHandler.ts:20-27 | A batch whose type is not `notify` has no effect. A `notify` batch is processed message by message. |
| MessageHandler.ClassifierSeesCurrentTextLast | src/handlers/messageHandler.ts:59-63 | The classifier gets the loaded history, oldest first, plus the current text: one to eleven texts, with the current one last. It classifies the last ten of them. |
| MessageHandler.VerdictWritesOwed | src/handlers/messageHandler.ts:66-91 | Once a verdict is reached, the handler performs exactly the owed writes, in order: alert then notification, or one `messages` row, never both. |
| MessageHandler.AlertStoreResultIgnored | src/handlers/messageHandler.ts:68-78 | Whether the alert row was stored never changes what happens next. The notification is attempted either way. |
| MessageHandler.HistoryFailureIsCaught | src/handlers/messageHandler.ts:58-98 | A failed history query is caught and logged. The classifier is not called and nothing is written. |
| MessageHandler.ClassifierFailureIsCaught | src/handlers/messageHandler.ts:62-98 | A missing client or a failed classifier call is caught and logged after the call. Nothing is written. |
| MessageHandler.SafeVerdictStoresRow | src/handlers/messageHandler.ts:83-88 | A no-risk verdict and a successful insert append the message's row to `messages`. |
| MessageHandler.StoredMessageIsNextHistory | src/handlers/messageHandler.ts:59-88 | Suppose a message is stored later than every stored row of its chat. Then the chat's next history ends with its text. |
| MessageHandler.BatchComposes | src/handlers/messageHandler.ts:22-27 | Handling a batch equals handling its first part, then its second part from the tables the first left. An error inside one message never stops the messages after it. |
| MessageHandler.SkippedMessageIsSilent | src/handlers/messageHandler.ts:22-27 | A message that does not qualify, or that has no chat id or no text, leaves no trace in the batch. |
| MessageHandler.SingleMessageBatch | src/handlers/messageHandler.ts:20-27 | In a `notify` batch of one qualifying message, that message is handled. |
| ConnectionStore.SetStatus | src/store/connectionStore.ts:17-28 | The status is the one given. The id is replaced only when an id argument is passed, `null` included. `open` sets both times to the current time. `close` clears the connection time and keeps the login time. `connecting` keeps both times. |
| ConnectionStore.GetInfo | src/store/connectionStore.ts:30-32 | The copy is equal to the record. |
| ConnectionStore.InitialInfoConsistent | src/store/connectionStore.ts:10-15 | The initial record is closed with no id, login time or connection time, and it is consistent. |
| ConnectionStore.Replay | src/store/connectionStore.ts:17-18 | After a sequence of updates, the status is the last one given. |
| ConnectionStore.SetStatusKeepsConsistent | src/store/connectionStore.ts:17-28 | An update keeps the record consistent when its clock does not run backwards. Consistent means: closed has no connection time, open has one, and a connection time comes with a login time no later than it. |
| ConnectionStore.ReplayConsistent | src/store/connectionStore.ts:10-28 | Every record reachable from the initial one is consistent. |
| ConnectionStore.ReplayId | src/store/connectionStore.ts:19-21 | The id is the one last given, whatever updates came after it. |
| ConnectionStore.CloseThenConnectingKeepsLogin | src/store/connectionStore.ts:22-27 | Closing then reconnecting keeps the login time, and leaves the connection time cleared and the id unchanged. |

## Left out

- The judgment service's semantic judgment and the OpenAI SDK are an external service. The reply is a parameter.
- The store is modelled as values:
  - Supabase I/O is not performed. The `messages` and `alerts` tables are sequences threaded through a batch.
  - A row keeps only the columns the code reads or writes; the `raw` payload column is left out.
  - `created_at` is the `now` value given per message.
- Ties in `created_at`: the store does not fix the order of rows with equal times. The model keeps such rows in storage order.
- `score` in the classifier's declared return type is never produced.
- The `console.log` and `logger.info` calls have no effect on behaviour. Only the two error logs of the handler appear in the trace.
- JsBuiltins.ToUpperCase upper-cases only the ASCII and Latin-1 letters, plus `ı` and `ſ`, one character at a time. It leaves every other character unchanged, whereas JavaScript also upper-cases Greek, Cyrillic and other letters. It also leaves `ß` unchanged, where JavaScript expands it to `SS`. Only the sentinel test uses it, and that test never changes the result.
- Classifier.Canonicalize has the same coverage. It is exact for comparisons against the pattern's characters: apart from `ı` and `ſ`, which the comparison keeps as they are, no character outside Latin-1 upper-cases to one of them.
- A string is a sequence of Unicode scalar values, not of UTF-16 code units. A character outside the Basic Multilingual Plane counts once here and twice in JavaScript, and a lone surrogate cannot be represented. No string length of the code depends on this. No Unicode normalisation is applied: `Ó` is the precomposed character, as written in the code.
- ConnectionStore.GetInfo returns a copy equal to the record. In the code the copy is shallow: its `lastLogin` and `connectedAt` are the store's own `Date` objects, so mutating them through the copy would change the store. The model's times are plain values, so this aliasing is not modelled. No caller in the repository mutates the copy.
- MessageHandler.MessageKey: `fromMe` is a `bool`. A `null` or absent `fromMe` is `false`.
- ConnectionStore.IdArg merges an explicit `undefined` id argument with a left-out one, as the code's `!== undefined` test does.
- ConnectionStore.SetStatus takes the two successive `new Date()` readings of an `open` update as two parameters. The clock is an integer.
- MessageHandler.HandleMessage: its own contract states only bounds and the first effect. What it does for each verdict is stated through `Respond` and the lemmas about it.
- History.Query: its own contract states only the result's length. Which rows it keeps is stated by `QueryPartitionsChat`, `QueryKeepsNewest` and `QueryKeepsChatRows`.
- Not part of this model, and why:
  - The Baileys socket, connection lifecycle, reconnect timer and QR handling (src/socket, src/index.ts): transport plumbing.
  - The HTTP server and routes (src/server, src/routes): user interface.
  - The logger (src/logger): a logging wrapper.
  - Configuration reading (src/config/index.ts): its values are parameters.
- Concurrency: the code handles one batch with sequential `await`s. Overlapping batches are not modelled.
