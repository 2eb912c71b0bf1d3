# Verified model of the agent, chat and configuration logic of azure-realtime-chat-search

This repository is a Java client that puts three Azure services behind small
facades: a chat-completion service, a speech service and a search-grounded
agent. Almost everything it does is a call into a cloud SDK. This Dafny project
models the local, sequential logic that remains, and proves properties of it.

- `AgentService` (`agent_service.dfy`) covers the agent facade.
  - `waitForRunCompletion` is a bounded do-while. It polls a run at least once
    and at most 60 times, and it keeps waiting while the status is `QUEUED`,
    `IN_PROGRESS` or `REQUIRES_ACTION`.
  - `chatWithSearch` maps the final status and the fetched latest message to
    one of its four kinds of reply.
  - `extractTextFromMessage` concatenates the text items of a message and
    adds a ` [来源: …]` marker for each file citation. A null content list or
    a null text object throws, and `chatWithSearch` turns that into its error
    reply.
  - The constructor sets the agent and thread fields, and `resetThread`
    replaces the thread. The model states what changes when one of their calls
    fails.
  - `cleanup` sends delete requests for the thread and then the agent. It
    leaves both fields unchanged.
- `ChatService` (`chat_service.dfy`) covers the chat facade. The conversation
  transcript is a sequence of role-tagged messages.
  - `chat` appends the user message. On success it also appends the assistant
    reply.
  - `chatStream` gathers the streamed deltas in order and reports them through
    `onChunk`, then through `onComplete` or `onError`.
  - `clearHistory` resets the transcript to one system message.
  - Every operation keeps one invariant (`WellFormed`). The transcript starts
    with the only system message, and each assistant entry comes right after a
    user entry.
- `AzureConfig` (`azure_config.dfy`) covers configuration. It holds the eight
  environment-derived settings as `Option<string>`. `Validate` is the start-up
  check: it fails on the first of three required pairs that has an unset
  value.
- `Wrappers` (`wrappers.dfy`) holds three small datatypes:
  - `Option` stands for a nullable reference.
  - `Call` is a call that returns a value or throws.
  - `Outcome` is a check that passes or fails.

Remote calls are inputs to the model:
- Each SDK call that can throw becomes a `Call<T>`.
- The statuses that successive `getRun` polls observe become a
  `seq<RunStatus>`. If the loop needs a poll beyond the end of that sequence,
  that poll throws.
- A stream becomes the list of chunks it delivers plus a flag that says
  whether it then throws.
- Callback invocations become a list of `Event`s.

Some behaviour of the code is worth pointing out:
- A run that reaches `CANCELLING`, `CANCELLED` or `EXPIRED` also stops the
  polling loop, just as `COMPLETED` and `FAILED` do. Only `FAILED` gets its own
  reply. Every other stopped status, and a run still pending after 60 polls,
  gives `未获取到回复`.
- If the 60th poll returns `COMPLETED`, the message is still fetched. The cap
  ends the loop but does not throw away the last answer.
- `clearHistory` installs the system prompt `你是一个智能助手。`. This is
  shorter than the constructor's prompt `你是一个智能助手，可以帮助用户回答问题。`.
- After a failed `chat` turn, the user message stays in the transcript with no
  reply. The next request therefore carries two user messages in a row
  (`FailedTurnLeavesUnansweredMessage`).
- A text item whose value is null is not skipped. `StringBuilder.append`
  writes the four characters `null` into the reply.
- A streamed delta whose content is the empty string is not skipped. It is
  appended and reported through `onChunk("")`. Only null content is skipped.

## Model

| member | source | states |
|---|---|---|
| AzureConfig.FromEnvironment | src/main/java/com/azure/ai/chat/config/AzureConfig.java:10-21 | each of the eight settings is the value of its named environment variable, or null exactly when that variable is unset |
| AzureConfig.ErrorMessage | src/main/java/com/azure/ai/chat/config/AzureConfig.java:28-36 | the exception message for a missing pair names both environment variables of that pair |
| AzureConfig.Validate | src/main/java/com/azure/ai/chat/config/AzureConfig.java:27-37 | the check passes iff every required pair is set. When it fails, it names a pair that has an unset value and is preceded only by fully set pairs in checking order |
| AzureConfig.ValidatePassesIffSixSet | src/main/java/com/azure/ai/chat/config/AzureConfig.java:27-37 | the check passes exactly when the OpenAI endpoint and key, the speech key and region, and the project endpoint and key are all non-null |
| AzureConfig.ValidateReportsFirstMissing | src/main/java/com/azure/ai/chat/config/AzureConfig.java:28-36 | the error is determined by order: whenever pair i is unset and all earlier pairs are set, the check fails naming pair i |
| AzureConfig.ValidateIgnoresUncheckedSettings | src/main/java/com/azure/ai/chat/config/AzureConfig.java:27-37 | changing the deployment name (line 12) or the search connection name (line 21) never changes the check's outcome |
| AzureConfig.CompleteEnvironmentValidates | src/main/java/com/azure/ai/chat/config/AzureConfig.java:10-37 | an environment that defines the six required variables passes the check, whatever it holds for the other two |
| AgentService.IsPending | src/main/java/com/azure/ai/chat/service/AgentService.java:119-121 | the loop keeps waiting exactly on the statuses outside {CANCELLING, CANCELLED, FAILED, COMPLETED, EXPIRED}. So REQUIRES_ACTION is waited on and never treated as final |
| AgentService.FirstSettled | src/main/java/com/azure/ai/chat/service/AgentService.java:119-121 | the result is the index of the first status outside {QUEUED, IN_PROGRESS, REQUIRES_ACTION}. Every earlier status is pending, and the result is the length when no status settles |
| AgentService.PollsNeeded | src/main/java/com/azure/ai/chat/service/AgentService.java:105-121 | the number of polls is always between 1 and 60 |
| AgentService.WaitForRunCompletion | src/main/java/com/azure/ai/chat/service/AgentService.java:103-124 | polling makes min(index of the first settled status + 1, 60) polls and returns the status the last poll observed. All earlier polls saw pending statuses, and the returned status is settled unless the cap was reached. The loop throws exactly when the remote answers fewer polls than that |
| AgentService.ThreeStatusRunPollsThreeTimes | src/main/java/com/azure/ai/chat/service/AgentService.java:108-121 | the status sequence queued, in progress, completed is polled exactly three times, whatever follows |
| AgentService.NeverSettlingRunHitsCap | src/main/java/com/azure/ai/chat/service/AgentService.java:115-121 | a run whose first 60 statuses are all pending, REQUIRES_ACTION included, is polled exactly 60 times |
| AgentService.FirstSettledPrefix | src/main/java/com/azure/ai/chat/service/AgentService.java:108-121 | where the first settled status lies is decided by the statuses up to it: cutting the sequence after n statuses leaves that index unchanged if it is below n and makes it n otherwise |
| AgentService.PollingReadsOnlyFirstSixty | src/main/java/com/azure/ai/chat/service/AgentService.java:105-121 | only the first 60 statuses matter. Cutting the sequence after 60 changes neither the number of polls nor the status returned |
| AgentService.Markers | src/main/java/com/azure/ai/chat/service/AgentService.java:134-142 | an annotation list adds text exactly when it holds a file citation. When the first annotation is a citation, its ` [来源: c]` marker comes first |
| AgentService.Rendered | src/main/java/com/azure/ai/chat/service/AgentService.java:130-143 | an item that is not text contributes nothing, and a text item whose text object is null throws. Otherwise a text item contributes its value first, written as `null` when the value is null, and nothing more when its annotation list is null |
| AgentService.ExtractText | src/main/java/com/azure/ai/chat/service/AgentService.java:127-146 | the fold throws exactly when some text item has a null text object. A message with no text content yields the empty string |
| AgentService.ExtractTextStartsWithFirstItem | src/main/java/com/azure/ai/chat/service/AgentService.java:129-132 | when the reply is produced, the first item's rendering opens it. When that item is text, the reply starts with its value |
| AgentService.NullValueRendersAsNull | src/main/java/com/azure/ai/chat/service/AgentService.java:132 | a text item whose value is null contributes the four characters `null`, which is what `StringBuilder.append` writes for a null string |
| AgentService.MarkersAppend | src/main/java/com/azure/ai/chat/service/AgentService.java:134-142 | the markers of a concatenated annotation list are the markers of each part, in order |
| AgentService.ExtractTextAppend | src/main/java/com/azure/ai/chat/service/AgentService.java:129-144 | the rendering of a concatenated content list throws iff one part does, and otherwise is the rendering of each part, in order. So the reply is an in-order fold over content items |
| AgentService.TwoCitationsTwoMarkers | src/main/java/com/azure/ai/chat/service/AgentService.java:129-142 | a text with two file citations renders as the text followed by one ` [来源: c]` marker per citation, in order |
| AgentService.AppendMarkers | src/main/java/com/azure/ai/chat/service/AgentService.java:134-142 | the inner annotation loop appends exactly the markers of the list's file citations, in order, to the buffer |
| AgentService.AppendContent | src/main/java/com/azure/ai/chat/service/AgentService.java:130-143 | one content item appends its value and then its citation markers when it is text, and nothing otherwise. It throws exactly when the item is text with a null text object |
| AgentService.ExtractTextFromMessage | src/main/java/com/azure/ai/chat/service/AgentService.java:126-147 | a null content list throws. Otherwise the buffer loop throws iff the in-order fold does, and yields the concatenation, over content items, of each text value followed by its citation markers. Non-text items and null annotation lists contribute nothing |
| AgentService.Initialize | src/main/java/com/azure/ai/chat/service/AgentService.java:33-60 | construction succeeds iff both the agent and the thread are created, and then both are held. Any failure surfaces as an exception |
| AgentService.ResetThread | src/main/java/com/azure/ai/chat/service/AgentService.java:149-156 | the agent is never touched. If creating the thread fails, the state is unchanged. Otherwise the new thread replaces the old one, and a ready service stays ready |
| AgentService.Cleanup | src/main/java/com/azure/ai/chat/service/AgentService.java:158-170 | the thread is deleted first and absent resources are skipped. The agent is deleted iff it is present and the thread was absent or was deleted without an error. Each resource gets at most one delete request, because the number of requests equals the number of resources deleted. No error escapes |
| AgentService.ChatWithSearch | src/main/java/com/azure/ai/chat/service/AgentService.java:63-101 | any exception gives the error apology, including a null content list or a null text object in the fetched message. FAILED gives the search-failed apology. COMPLETED with a non-empty list gives the extracted text of the first message. COMPLETED with a null or empty list, and any other final status, give `未获取到回复` |
| ChatService.NewHistory | src/main/java/com/azure/ai/chat/service/ChatService.java:31-35 | a fresh transcript is a single system message and satisfies the transcript invariant |
| ChatService.ClearHistory | src/main/java/com/azure/ai/chat/service/ChatService.java:89-92 | after clearing, the transcript is a single system message that satisfies the invariant |
| ChatService.ClearHistoryForgets | src/main/java/com/azure/ai/chat/service/ChatService.java:89-92 | the cleared transcript does not depend on what the transcript held, so clearing is idempotent |
| ChatService.UserAppendWellFormed | src/main/java/com/azure/ai/chat/service/ChatService.java:39 | appending a user message preserves the transcript invariant |
| ChatService.AssistantAppendWellFormed | src/main/java/com/azure/ai/chat/service/ChatService.java:50 | appending an assistant message directly after a user message preserves the transcript invariant |
| ChatService.Chat | src/main/java/com/azure/ai/chat/service/ChatService.java:38-57 | the request is the prior transcript followed by the user message. On success the transcript gains that user message and the reply, and the reply is returned. On failure it gains only the user message and the fallback is returned. The invariant is preserved |
| ChatService.TwoTurnsTranscript | src/main/java/com/azure/ai/chat/service/ChatService.java:31-52 | on a fresh service, the second request is exactly: system message, first user message, first reply, second user message |
| ChatService.FailedTurnLeavesUnansweredMessage | src/main/java/com/azure/ai/chat/service/ChatService.java:38-56 | after a failed turn, the next request carries the unanswered user message immediately followed by the new one |
| ChatService.ClearThenChatSendsTwo | src/main/java/com/azure/ai/chat/service/ChatService.java:89-92 | a turn right after clearing sends exactly two entries: the system message and the user message |
| ChatService.ContentOf | src/main/java/com/azure/ai/chat/service/ChatService.java:71-74 | a chunk carries text exactly when its choices are non-null and non-empty and the first choice has a non-null delta with non-null content. That content is the text, and an empty string counts |
| ChatService.Deltas | src/main/java/com/azure/ai/chat/service/ChatService.java:70-79 | there is at most one delta per chunk, with exactly one per chunk iff every chunk carries content. There are none when no chunk does, and a leading contentful chunk supplies the first delta |
| ChatService.DeltasAppend | src/main/java/com/azure/ai/chat/service/ChatService.java:70-79 | the deltas of a concatenated chunk list are the deltas of each part in order, so the response is accumulated in stream order |
| ChatService.ChunkTextsOfChunkEvents | src/main/java/com/azure/ai/chat/service/ChatService.java:76-82 | the onChunk arguments of a callback trace are exactly the reported deltas, and the terminal event adds none |
| ChatService.ChatStream | src/main/java/com/azure/ai/chat/service/ChatService.java:59-87 | callbacks are one onChunk per contentful chunk, in order, then exactly one terminal event. On success that event is onComplete, and its argument, the appended assistant message and the concatenation of all onChunk arguments are equal. On error it is onError and no assistant entry is added. The invariant is preserved |

## Left out

- `SpeechService` is microphone and speaker I/O through the Speech SDK. Its only local logic maps a result reason to null or false. `SpeechRecognitionLanguage` and `SpeechSynthesisVoice` appear only as the fixed constants of `AzureConfig`.
- SDK client construction and every remote operation are not modelled as behaviour. Their outcomes are inputs to the model. This covers agent and thread creation, posting messages, creating and polling runs, listing messages, completions and streaming.
- `Thread.sleep(1000)` and wall-clock time are not modelled. The model counts attempts only.
- The asynchronous variants, and any concurrent use of the unsynchronised transcript and thread fields, are not modelled.
- Logging and the content of model replies are not modelled.
- The environment is a map passed to `FromEnvironment`, which models how the eight settings are read. The model leaves out only when that reading happens, which is once, at class initialisation.
- The `maxTokens` and `temperature` request parameters and the agent's name and instruction text are constants passed to the SDK. No local logic uses them.
- `AzureConfig.Validate` is a pure function of the configuration, so calling it twice gives the same outcome by construction. No separate lemma states this.
- `AzureConfig.ErrorMessage` builds each message from the variable-name constants. The model does not prove that the result equals the source's literal message text.
- `ChatService.Chat` does not model a null content in the first choice. The remote reply is a `string`, and an empty choice list counts as a throwing call.
- `ChatService.ChatStream` does not model a callback that itself throws. In the code, such an exception would be caught and reported through `onError`.
- `AgentService.ChatWithSearch` drops the user message text, because it is only forwarded to the remote thread. The reply does not depend on it.
- `AgentService.Cleanup` does not take the outcome of the agent deletion as an input, because that outcome is swallowed and has no effect.
- `AgentService.RunStatus` lists the statuses the agent SDK defines. The loop treats any status outside the three pending ones as settled, so adding further SDK statuses would not change the model.
- File citations are held as the text their `toString` produces. The structure of the SDK's citation object is not modelled.
