# Chat client stream pipeline, modelled in Dafny

This project models the chat client component of the multi-agent platform
front end (`multi_agent_platform_front/src/App.tsx`). The component lets the
user pick an orchestrator and a set of worker agents. It sends a query, or
the answer to an interrupt, to the server, and reads the reply as a stream of
newline-delimited JSON records.

Its core, the part modelled here, is that stream pipeline:

- **Frame decoder** (`framing.dfy`, class `Framing.LineDecoder`). A text buffer. Each decoded chunk is appended to it. The buffer is then cut at its last line feed. The text before that line feed is split into lines and blank lines are dropped. The text after it stays buffered. Whatever is still buffered when the stream ends is dropped.
- **Record dispatch** (`records.dfy`, `session.dfy`). Each parsed record `{type, agent, message}` is applied to the session state. The state has four parts: an append-only chat log, one ephemeral message per agent, a single interrupt slot, and the queue of expiry timers still to fire. The checks are made in a fixed order: `end`, then `interrupt`, then a non-empty agent and message.
- **Expiry timers** (`session.dfy`). The send flow schedules a deletion of the agent's ephemeral message after each ephemeral update. The resume flow schedules one after every parsed record, whatever its type.
- **Selection and guards** (`selection.dfy`). The worker-agent toggle, the orchestrator toggle, the default orchestrator `testsupervisor3`, and the blank-input guard both submit handlers start with.
- **The component** (`app.dfy`, class `App.ChatClient`). The state variables become fields and every handler becomes a method: the toggles, the input handlers, `handleChatSend`, `handleInterruptSubmit`, and the firing of the oldest pending timer. A method runs the two stream loops against the decoder and the dispatch, and its contract ties the result to the pure specification.

`text.dfy` models the JavaScript string primitives the pipeline relies on:

- `trim` with the ECMAScript whitespace set;
- `split` on one character, which always yields at least one piece;
- `lastIndexOf`, which gives -1 when the character is absent.

Main results:

- `Framing.DecodeStream` and `App.ChatClient.ReadStream` show that what a stream does depends only on the text it delivered, not on how that text was cut into chunks.
- `Session.RunChatLog`, `Session.LastInterruptWins`, `Session.LastEphemeralWins`, `Session.RunPending` and `Session.ShownMessagesExpire` show what a whole stream does to each part of the state.

### Modelling decisions

- The network reply is the sequence of decoded chunks it delivered before it ended. A reply without a body, a failed request, and a read that fails mid-stream all stop the loop with the buffer dropped. The `catch` and `finally` blocks then run exactly as at a normal end of stream, so each such run is the run over the chunks received before the failure.
- `JSON.parse` is the parameter `parse: string -> Option<Record>`, where `None` stands for a throw. A record field is absent, `null`, or a string (`Records.Value`).
- `String(agent)`, the property key that `delete updated[agent]` removes, is `Records.PropertyKey`. It is "undefined" for an absent agent and "null" for a `null` one. This matters only in the resume flow, which deletes for every record.
- Every timer waits the same 2000 ms, so timers fire in the order they were scheduled. They are kept as a queue of keys (`pendingExpiries`), and `App.ChatClient.FireNextExpiry` is the step in which the oldest one fires.
- `selectedOrchestrator || 'testsupervisor3'` also falls back to the default for an empty title, because the empty string is falsy.
- `handleInterruptSubmit` does not check that an interrupt is pending. Its input box is only rendered while one is (App.tsx line 204), but the handler itself has no such check, and the model follows the handler.

## Model

| member | source | states |
|---|---|---|
| Text.TrimStart | multi_agent_platform_front/src/App.tsx:95 | the result is a suffix of the input, every character removed is whitespace, and the result does not start with whitespace |
| Text.TrimEnd | multi_agent_platform_front/src/App.tsx:95 | the result is a prefix of the input, every character removed is whitespace, and the result does not end with whitespace |
| Text.Trim | multi_agent_platform_front/src/App.tsx:95 | `trim()`, also used by the guards at lines 60 and 134: trimming never lengthens the text, and a non-empty result starts and ends with a character that is not whitespace; `TrimEmptyIffBlank` says when it is empty |
| Text.TrimEmptyIffBlank | multi_agent_platform_front/src/App.tsx:95 | a string trims to the empty string exactly when all its characters are whitespace (both directions) |
| Text.Split | multi_agent_platform_front/src/App.tsx:95 | `split` always yields at least one piece, and no piece holds the separator |
| Text.JoinSplit | multi_agent_platform_front/src/App.tsx:95 | joining the pieces with the separator gives back the original text |
| Text.SplitJoin | multi_agent_platform_front/src/App.tsx:95 | splitting the join of separator-free pieces gives back those pieces |
| Text.SplitAround | multi_agent_platform_front/src/App.tsx:95 | the pieces of `x + sep + y` are the pieces of `x` followed by the pieces of `y` |
| Text.SplitNoSeparator | multi_agent_platform_front/src/App.tsx:95 | a text without the separator is a single piece |
| Text.SplitAppend | multi_agent_platform_front/src/App.tsx:88-95 | appending text re-splits only the last piece: the other pieces stay as they were |
| Text.SplitAtLast | multi_agent_platform_front/src/App.tsx:90-95 | the pieces of a text are the pieces before its last separator followed by the text after it; a text without separator is one piece |
| Text.LastIndexOf | multi_agent_platform_front/src/App.tsx:90 | the result is -1 or a position holding the character, and no later position holds it |
| Framing.NonBlankLines | multi_agent_platform_front/src/App.tsx:95 | the filter keeps no more lines than it is given, and every line it keeps has a character that is not whitespace |
| Framing.NonBlankLinesShape | multi_agent_platform_front/src/App.tsx:95 | the filter introduces no line feed |
| Framing.NonBlankLinesAppend | multi_agent_platform_front/src/App.tsx:95 | filtering a concatenation filters each part, in order |
| Framing.NonBlankLinesKeepsText | multi_agent_platform_front/src/App.tsx:95 | lines with content are kept untrimmed and in order |
| Framing.Remainder | multi_agent_platform_front/src/App.tsx:93 | the buffered remainder holds no line feed |
| Framing.CompleteLinesShape | multi_agent_platform_front/src/App.tsx:95 | every emitted line holds no line feed and is not blank after trimming |
| Framing.CutAtLastLineFeed | multi_agent_platform_front/src/App.tsx:90-95 | cutting at the last line feed gives the terminated pieces before it and the remainder after it; without a line feed nothing is terminated and all is remainder |
| Framing.FramingPartition | multi_agent_platform_front/src/App.tsx:90-95 | nothing is lost: the terminated pieces and the remainder, joined by line feeds, are the text seen so far |
| Framing.FeedStep | multi_agent_platform_front/src/App.tsx:88-95 | feeding a chunk emits the complete lines of the buffered remainder plus the chunk, and leaves that text's remainder buffered |
| Framing.UnterminatedTailDropped | multi_agent_platform_front/src/App.tsx:85-95 | text without a line feed appended to the stream emits nothing, even at end of stream |
| Framing.SplitWholeIffBlankTail | multi_agent_platform_front/src/App.tsx:85-95 | the output equals splitting the whole text and dropping blank lines exactly when the unterminated tail is blank |
| Framing.OneCompleteLine | multi_agent_platform_front/src/App.tsx:85-95 | a line with content, a line feed and an unterminated tail emit that line only and buffer the tail |
| Framing.LineDecoder.constructor | multi_agent_platform_front/src/App.tsx:83 | a new decoder starts with an empty buffer, nothing consumed and nothing emitted |
| Framing.LineDecoder.Feed | multi_agent_platform_front/src/App.tsx:88-95 | with no line feed in the buffer nothing is emitted and the chunk is only appended; otherwise the new buffer is the text after the last line feed; the buffer never holds a line feed; the emitted lines are the complete lines of the old buffer plus the chunk |
| Framing.DecodeStream | multi_agent_platform_front/src/App.tsx:85-95 | for every chunking of a stream, the lines emitted are the non-blank lines of the text before its final line feed, in order |
| Records.Truthy | multi_agent_platform_front/src/App.tsx:107 | `undefined`, `null` and the empty string are falsy; every other string is truthy |
| Records.PropertyKey | multi_agent_platform_front/src/App.tsx:183 | `String(agent)`: a string is its own key, so the resume timer deletes the very key a message was shown under; an absent agent gives "undefined" and a `null` one "null" |
| Records.Classify | multi_agent_platform_front/src/App.tsx:103-108 | `end` goes to the chat log whatever else the record holds; otherwise `interrupt` sets the slot to the message; otherwise a non-empty agent and message become an ephemeral update; otherwise nothing (each case in both directions) |
| Session.Expire | multi_agent_platform_front/src/App.tsx:111-115 | the given key is gone, every other key keeps its message, and no key is added |
| Session.Scheduled | multi_agent_platform_front/src/App.tsx:110-116 | (with the resume loop's timer at lines 180-186) a record schedules at most one expiry; an ephemeral update schedules its agent's key in both flows; the send flow schedules nothing else; the resume flow schedules `String(agent)` for every record |
| Session.ApplyRecord | multi_agent_platform_front/src/App.tsx:103-116 | an `end` record appends exactly one entry and leaves the rest; an `interrupt` record overwrites the slot; an ephemeral update overwrites that agent's message only; the send flow queues an expiry only for an ephemeral update, the resume flow one for every record |
| Session.ApplyLine | multi_agent_platform_front/src/App.tsx:97-120 | a line that `JSON.parse` rejects (the `catch`) leaves the state unchanged; `ApplyLineChatLog` and `ApplyLinePending` give its effect otherwise |
| Session.ApplyLineChatLog | multi_agent_platform_front/src/App.tsx:103-104 | one line appends the entry of its `end` record, if it is one, and nothing else to the log |
| Session.ApplyLinePending | multi_agent_platform_front/src/App.tsx:110-116 | (with the resume loop's timer at lines 180-186) one line queues exactly the expiries its record schedules |
| Session.Run | multi_agent_platform_front/src/App.tsx:96-121 | the lines are applied in order; the old chat log and the old timer queue stay in front of what the run adds |
| Session.RunAppend | multi_agent_platform_front/src/App.tsx:96-121 | running two batches of lines one after the other is running their concatenation |
| Session.MalformedLineSkipped | multi_agent_platform_front/src/App.tsx:97-120 | a line that fails to parse changes nothing, and the lines after it are still processed |
| Session.RunChatLog | multi_agent_platform_front/src/App.tsx:103-104 | a run appends exactly the entries of its `end` records, in order, to the unchanged old log |
| Session.RunKeepsInterrupt | multi_agent_platform_front/src/App.tsx:105-106 | without an `interrupt` record the interrupt slot keeps its value |
| Session.LastInterruptWins | multi_agent_platform_front/src/App.tsx:105-106 | after a run the slot holds the message of the last `interrupt` record |
| Session.RunKeepsOtherAgents | multi_agent_platform_front/src/App.tsx:107-108 | an agent that receives no ephemeral update keeps its message, or its absence |
| Session.LastEphemeralWins | multi_agent_platform_front/src/App.tsx:107-108 | after a run an agent shows the message of its last ephemeral update |
| Session.RunPending | multi_agent_platform_front/src/App.tsx:110-116 | a run queues exactly the expiries its records schedule, behind those already queued |
| Session.ShownAgentScheduled | multi_agent_platform_front/src/App.tsx:110-116 | in both flows an agent shown a message has its expiry queued |
| Session.ResumeSchedulesEveryRecord | multi_agent_platform_front/src/App.tsx:180-186 | in the resume flow every parsed record, `end` and `interrupt` included, queues an expiry for `String(agent)` |
| Session.FireNext | multi_agent_platform_front/src/App.tsx:110-116 | the oldest timer fires: its key is gone, every other key stays with its message, and the chat log and interrupt slot are untouched |
| Session.FireAllEffect | multi_agent_platform_front/src/App.tsx:110-116 | once every timer has fired, exactly the keys no timer named remain, with their messages |
| Session.ShownMessagesExpire | multi_agent_platform_front/src/App.tsx:107-116 | every ephemeral message a stream shows is gone once the timers have fired |
| Selection.Without | multi_agent_platform_front/src/App.tsx:51 | the filter never lengthens the list and keeps no entry equal to the title; `WithoutMembers` says it keeps every other title |
| Selection.WithoutMembers | multi_agent_platform_front/src/App.tsx:51 | the filter removes every copy of the title and keeps every other title |
| Selection.WithoutAbsent | multi_agent_platform_front/src/App.tsx:51 | filtering out a title that is not there changes nothing |
| Selection.WithoutRemovesAt | multi_agent_platform_front/src/App.tsx:51 | in a list without duplicates the filter removes the one entry holding the title and keeps the others in order |
| Selection.WithoutNoDuplicates | multi_agent_platform_front/src/App.tsx:51 | filtering keeps a list free of duplicates |
| Selection.ToggleAgent | multi_agent_platform_front/src/App.tsx:49-53 | the title is selected afterwards exactly when it was not before; no other title changes; an absent title is appended at the end; no duplicates are introduced |
| Selection.ToggleAgentTwice | multi_agent_platform_front/src/App.tsx:49-53 | toggling twice restores membership; the very same list if the title was absent, and otherwise the title moved to the end |
| Selection.ToggleOrchestrator | multi_agent_platform_front/src/App.tsx:55-57 | the title is selected afterwards exactly when it was not before; deselecting leaves none |
| Selection.OrchestratorType | multi_agent_platform_front/src/App.tsx:75 | the selected non-empty title, or `testsupervisor3` when none or an empty title is selected; never empty |
| Selection.Submittable | multi_agent_platform_front/src/App.tsx:60 | (and the same guard at line 134) an input passes the submit guard exactly when it holds a character that is not whitespace |
| App.ChatClient.constructor | multi_agent_platform_front/src/App.tsx:18-28 | the initial state: nothing selected or typed, not busy, empty log, no ephemeral messages, no interrupt, no timers |
| App.ChatClient.ToggleAgentSelection | multi_agent_platform_front/src/App.tsx:49-53 | only the selected agents change, to their toggle |
| App.ChatClient.ToggleOrchestratorSelection | multi_agent_platform_front/src/App.tsx:55-57 | only the selected orchestrator changes, to its toggle |
| App.ChatClient.UpdateMessageInput | multi_agent_platform_front/src/App.tsx:252 | only the message input changes |
| App.ChatClient.UpdateInterruptInput | multi_agent_platform_front/src/App.tsx:211 | only the interrupt input changes |
| App.ChatClient.HandleLine | multi_agent_platform_front/src/App.tsx:97-120 | the dispatch of one line (both flows; the resume loop is lines 167-189) updates the session state as `Session.ApplyLine` and nothing else |
| App.ChatClient.HandleParts | multi_agent_platform_front/src/App.tsx:96-121 | the lines of one chunk are applied in order |
| App.ChatClient.ReadStream | multi_agent_platform_front/src/App.tsx:83-123 | the stream loop leaves the state that the dispatch of the complete non-blank lines of the whole text gives, whatever the chunking (the resume loop is lines 153-192) |
| App.ChatClient.HandleChatSend | multi_agent_platform_front/src/App.tsx:59-130 | a blank query changes nothing and sends nothing; otherwise the request carries the thread, the query, the agents and the orchestrator or its default, the chat log grows by the stream's `end` entries, and the handler ends not busy with an empty input |
| App.ChatClient.HandleInterruptSubmit | multi_agent_platform_front/src/App.tsx:133-200 | a blank answer changes nothing; otherwise the slot is cleared before the stream, the request carries the thread and the answer, the stream is applied in the resume flow, and the handler ends not busy with an empty answer box |
| App.ChatClient.FireNextExpiry | multi_agent_platform_front/src/App.tsx:110-116 | the oldest pending timer fires as `Session.FireNext` and nothing else changes |

## Left out

- Rendering, styled components and the React hooks plumbing (App.tsx lines 202-537): these are UI. `ephemeralMessages[agent] &&` in the view is not modelled.
- The agent-list fetches with `axios.get` (lines 31-47): network I/O. The toggles take the clicked item's title directly.
- `fetch` and the `ReadableStream` reader: network I/O. The reply is the sequence of chunks delivered before the stream ended or failed. The request is returned as a value rather than sent.
- `TextDecoder` streaming UTF-8 decoding: a library call. Chunks are already-decoded strings, so a multi-byte character split across chunks is not modelled.
- `JSON.parse`: a library call, passed in as `parse`. Field values that are numbers, booleans, arrays or objects are not modelled; a field is absent, `null` or a string.
- `setTimeout` timing: timers fire only between handler calls, in scheduling order. In the component they can also fire while a stream is still being read.
- React state batching and stale closures: setters take effect at once, and each handler reads the fields when it is called. Two handlers running at the same time are not modelled. Only the send button is disabled while busy.
- `isLoading` while a stream runs: only its value at the end of a handler is stated.
- `alert` and `console.error`: they have no effect on the state.
- `uuidv4`: the thread id is the constructor's parameter.
