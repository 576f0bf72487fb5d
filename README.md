# fastapi-poe-javascript: the server-sent-event decoder, in Dafny

This project models the logic of `src/poe.ts` in the Poe bot library for
JavaScript. It has three parts.

- `sseTransformStream` is the incremental decoder for the bot API's
  server-sent-event stream. It keeps one string `buffer` and appends every
  chunk to it. Then a `while (buffer)` loop repeats one pass: trim leading
  whitespace, then try four anchored recognisers in priority order. They
  are a text frame (`event: text`, CR/LF, `data: {…}` up to the first `}`),
  a done frame (`event: done`, CR/LF, `data: {}`), a `ping` line anywhere
  in the buffer, and a buffer whose trim is `: ping`. A text frame
  enqueues the parsed payload. A done frame terminates the stream. The
  ping forms are dropped. When nothing matches, the loop returns and waits
  for the next chunk. `flush` warns when non-whitespace is left over.
- `parseSSEMessage` is a line-oriented reader of one message. The last
  `event:` and `data:` lines win, and it throws `Invalid SSE message` when
  the event name is empty or the data is falsy.
- `handleQuery` writes the server side of the stream. It writes one `meta`
  event, one `text` or `replace_response` event per partial response, and
  one `done` event.

Files:

- `json_value.dfy` (`JsonValue`): JSON values and ECMAScript falsiness.
- `js_string.dfy` (`JsString`): the ECMAScript string operations the code
  uses: `trimStart`, `trim`, `startsWith`, `replace` with a string pattern,
  and `split`. `slice(n)` is the sequence slice `s[n..]`. `IndexOf` is the
  search that `replace` and `split` are built on.
- `sse_decoder.dfy` (`SseDecoder`): the recognisers, one pass of the loop,
  the loop as a function (`Drain`), the `Decoder` class with `Transform` and
  `Flush`, the loop as a method (`RunLoop`), and a whole session
  (`DecodeAll`, specified by `Feed`).
- `sse_recognisers.dfy` (`SseRecognisers`): each recogniser against the
  shape of text it accepts, the priority order, and the effect of one pass
  for each kind of frame.
- `sse_streams.dfy` (`SseStreams`): whole streams of text frames and `ping`
  lines. It covers ordering, done termination, parse errors, incomplete
  input, chunk-boundary invariance and the `: ping` stall.
- `sse_message.dfy` (`SseMessage`): `parseSSEMessage`.
- `query_handler.dfy` (`QueryHandler`): the event sequence of `handleQuery`.

`JSON.parse` is a parameter `parse: string -> Option<Json>`. `None` stands
for the `SyntaxError` it throws. The decoder records each enqueued
`{event: 'text', data}` as its `data`, because the event name is always
`text`.

The model follows the code where the code differs from a textbook
event-stream reader. The payload ends at the FIRST `}`; braces are not
balanced. `/^ping$/m` accepts a `ping` on any line of the buffer, and
`replace` then removes the first `ping` substring, which can be a different
one (`PingRemovesFirstOccurrence`). Only the four letters are removed, not
the line ending. `: ping` is dropped only when nothing but whitespace
surrounds it in the buffer; with anything else after it the stream stalls
for good (`CommentWithDataStallsForever`).

## Model

| member | source | states |
|---|---|---|
| JsString.TrimStartSpec | src/poe.ts:125 | `trimStart()` removes exactly the leading run of whitespace: the result is a suffix, what it dropped is all whitespace, and it does not start with whitespace |
| JsString.TrimEndSpec | src/poe.ts:160 | the trailing half of `trim()` removes exactly the trailing run of whitespace: the result is a prefix, what it dropped is all whitespace, and it does not end with whitespace |
| JsString.TrimEmptyIff | src/poe.ts:160 | `buffer.trim()` is empty exactly when the buffer holds only whitespace |
| JsString.ReplaceFirst | src/poe.ts:133 | `replace` with a string pattern removes one occurrence when there is one, and otherwise leaves the string unchanged |
| JsString.ReplaceFirstAt | src/poe.ts:150 | `replace` with a string pattern removes the FIRST occurrence and keeps everything before and after it |
| JsString.ReplaceFirstPrefix | src/poe.ts:133 | when the buffer starts with the matched text, `replace` removes exactly that prefix |
| JsString.Split | src/poe.ts:82 | `split('\n')` gives at least one line, and no line contains the separator |
| JsString.SplitJoin | src/poe.ts:82 | joining the split lines with `\n` gives back the message, so no character is lost |
| SseDecoder.Advance | src/poe.ts:116-157 | every pass that does not return leaves a buffer shorter by at least the consumed text (the match, 4 for `ping`, 6 for `: ping`), so the loop terminates |
| SseDecoder.Decoder.constructor | src/poe.ts:104 | a new session has an empty buffer, has enqueued nothing and is open |
| SseDecoder.Decoder.Transform | src/poe.ts:112-157 | `transform` appends the chunk to the buffer and runs the loop; the queue grows by what the loop enqueued and the buffer and status become what it left |
| SseDecoder.Decoder.Flush | src/poe.ts:159-163 | `flush` enqueues nothing and warns exactly when the buffer holds a non-whitespace character |
| SseDecoder.RunLoop | src/poe.ts:116-157 | the `while (buffer)` loop computes what `Drain` specifies: the events in order, the buffer left and the status |
| SseDecoder.DecodeAll | src/poe.ts:103-165 | a whole session (new decoder, `transform` per chunk while open, then `flush`) enqueues what `Feed` says and warns exactly when it ends open with non-whitespace left |
| SseRecognisers.MatchTextComplete | src/poe.ts:114 | every text frame at the start of the buffer is matched, with the payload from `{` to the first `}` and the frame's length |
| SseRecognisers.MatchTextSound | src/poe.ts:114 | whatever the text expression matches is such a text frame |
| SseRecognisers.MatchDoneComplete | src/poe.ts:115 | every done frame at the start of the buffer is matched, with its length |
| SseRecognisers.MatchDoneSound | src/poe.ts:115 | whatever the done expression matches is such a done frame |
| SseRecognisers.RecognisePriority | src/poe.ts:126-156 | a pass is a text pass iff a text frame starts the buffer; a done pass iff a done frame does and no text frame; a ping pass iff neither and some line is `ping`; a comment pass iff none of these and the trim is `: ping` |
| SseRecognisers.RecogniseEmpty | src/poe.ts:116 | the empty buffer matches nothing |
| SseRecognisers.DrainTrim | src/poe.ts:125 | running the loop on the trimmed buffer is the same as running it on the buffer |
| SseRecognisers.DrainWhitespace | src/poe.ts:116-157 | a whitespace-only buffer enqueues nothing, ends empty and stays open |
| SseRecognisers.DrainLeavesStalled | src/poe.ts:154-155 | when the loop returns for more input, it leaves a trimmed buffer that no recogniser accepts and that is no longer than the one it started from |
| SseRecognisers.TextFrameStep | src/poe.ts:126-134 | a text frame at the front enqueues exactly its parsed payload and the loop continues after the frame; a payload that does not parse enqueues nothing and errors the stream |
| SseRecognisers.DoneFrameStep | src/poe.ts:135-145 | a done frame at the front terminates the stream without enqueuing anything, whatever follows it |
| SseRecognisers.PingLineStep | src/poe.ts:147-151 | a `ping` line at the front is removed and nothing is enqueued |
| SseRecognisers.PingCommentStep | src/poe.ts:152-153 | a buffer whose trim is `: ping` is consumed whole without enqueuing anything |
| SseRecognisers.StalledDrain | src/poe.ts:154-155 | when nothing matches, nothing is enqueued and the buffer is kept apart from its leading whitespace |
| SseRecognisers.PingPassDrain | src/poe.ts:147-151 | on a trimmed buffer that is a ping pass, the loop goes on with the buffer minus its first `ping`, wherever the `ping` line that made it a ping pass is |
| SseRecognisers.PingRemovesFirstOccurrence | src/poe.ts:147-151 | `pingx\nping` is a ping pass because of its second line, and the pass removes the `ping` of the first line |
| SseStreams.DrainItems | src/poe.ts:116-151 | several frames and `ping` lines in one buffer, with any whitespace or none between them, enqueue every payload in order in one call; a `ping` line may end in `\n`, `\r\n`, `\r`, U+2028 or U+2029, or, as the last item, in nothing where what follows starts a new line or the buffer ends |
| SseStreams.WholeStream | src/poe.ts:116-157 | a stream that ends in whitespace drains completely: every payload in order, an empty buffer, still open |
| SseStreams.DoneTerminates | src/poe.ts:135-144 | after the frames before a done frame, nothing more is enqueued, not even a well-formed text frame after it, and later chunks never reach the decoder |
| SseStreams.ParseErrorStops | src/poe.ts:129-131 | a text frame whose payload does not parse errors the stream: the events the loop records, which `Transform` appends to `emitted` as the `enqueue` calls made, are the payloads of the frames before it, and the frame stays in the buffer |
| SseStreams.FramePrefixStalls | src/poe.ts:154-155 | a text frame cut short, including inside its JSON payload, is matched by nothing, when no line of the frame starts with `ping` |
| SseStreams.FramePrefixPingLine | src/poe.ts:147-151 | that condition is exact: when a line of the frame starts with `ping`, the frame cut right after that `ping` is a ping pass |
| SseStreams.PartialItemDrain | src/poe.ts:154-155 | a buffer holding the first part of a frame enqueues nothing and keeps that part, when no line of the frame starts with `ping` |
| SseStreams.ChunkBoundaryInvariance | src/poe.ts:113-157 | however a stream of text frames and `ping` lines is cut into chunks, the session enqueues the same payloads in the same order as for one chunk and ends open with nothing left, when no line of a frame starts with `ping`; the `ping` lines end in any line terminator, `\r\n`, or the end of the stream, and a cut may fall between a `\r` and its `\n` |
| SseStreams.DonePrefixStalls | src/poe.ts:154-155 | a done frame cut short is matched by nothing |
| SseStreams.ChunkBoundaryDone | src/poe.ts:113-157 | however a stream of text frames and `ping` lines (each ended by any line terminator or `\r\n`) that ends in a done frame is cut into chunks, the session enqueues the payloads before the done frame, in order, and terminates, the same events as for one chunk, when no line of a frame starts with `ping` |
| SseStreams.PingCommentChunk | src/poe.ts:152-153 | a chunk that trims to `: ping`, arriving on an empty buffer, changes nothing about the rest of the session |
| SseStreams.CommentWithDataStallsForever | src/poe.ts:152-155 | `: ping` followed by other data in the same buffer is never consumed: no later ping-free chunk produces an event |
| SseMessage.ParseSseMessage | src/poe.ts:81-101 | the line loop computes `Interpret`: the last event name and last data, or `Invalid` when the name is empty or the data is falsy |
| SseMessage.ReadFields | src/poe.ts:86-96 | the `for (const line of lines)` loop ends holding the trimmed name of the last `event:` line and the value of the last `data:` line, each `''` when there is none |
| SseMessage.LastEventSnoc | src/poe.ts:86-88 | one more line changes the event name exactly when it starts with `event:`, and then to its trimmed rest |
| SseMessage.LastDataSnoc | src/poe.ts:89-94 | one more line changes the data exactly when it starts with `data:`, and then to the value of its trimmed rest |
| SseMessage.LastEventLine | src/poe.ts:86-88 | the event name is the trimmed text after the last `event:` line |
| SseMessage.NoEventLine | src/poe.ts:83-88 | without an `event:` line the name stays empty |
| SseMessage.LastDataLine | src/poe.ts:89-94 | the data is what the last `data:` line gives: its parsed JSON, or the raw trimmed text when the parse fails |
| SseMessage.NoDataLine | src/poe.ts:83-96 | without a `data:` line the data stays `''`, which is falsy |
| SseMessage.NoEventRejected | src/poe.ts:97-99 | a message without an `event:` line is rejected |
| SseMessage.NoDataRejected | src/poe.ts:97-99 | a message without a `data:` line is rejected |
| SseMessage.FrameRoundTrip | src/poe.ts:81-101 | a frame `event: <name>\ndata: <payload>\n\n` reads back as that name and that payload's value, and is rejected exactly when the name is empty or the value is falsy |
| QueryHandler.HandleQuery | src/poe.ts:224-243 | one `meta` event with `{content_type: 'text/markdown'}` first, then one event per partial response in order (`replace_response` when the flag is set, `text` otherwise), then one `done` event with `{}`; `meta` and `done` occur nowhere else |

## Left out

- `syncBotSettings` and the `fetch` part of `streamRequest` (src/poe.ts:43-59, 167-188) are HTTP I/O.
- The `streamRequest` reader loop (src/poe.ts:189-204) only maps each decoded event to its `data.text`. It is not modelled.
- The route handler, its access-key and authorization checks and its dispatch (src/poe.ts:245-280) are framework plumbing.
- The bytes `writeSSE` puts on the wire and `JSON.stringify` are framework and runtime code. `HandleQuery` records each write as an event name and the value handed to `JSON.stringify`.
- QueryHandler.HandleQuery: the item and `done` writes are not awaited in the source; the model takes them to happen in call order. An exception from the bot's response generator is not modelled.
- `TransformStream`, `TextDecoderStream` and `controller.terminate()` are stream machinery. Enqueuing is appending to `emitted`, and terminating or a throw from `JSON.parse` sets `status`.
- SseDecoder.Decoder.Transform and SseDecoder.Decoder.Flush require an open stream, because the stream machinery calls neither after `terminate()` or an error.
- `JSON.parse` is an abstract function. Its grammar is not modelled.
- `trimStart` and `trim` drop the ECMAScript WhiteSpace and LineTerminator characters listed in `JsString.IsWhitespace`. Unicode normalisation and encodings are not modelled.
- `console.warn` and `console.log` are side effects. `Flush` returns whether it warns.
- SseStreams.ChunkBoundaryInvariance: proved only for streams in which no line of a text frame starts with `ping`. Such a frame, cut right after that `ping`, loses it to the ping recogniser (`FramePrefixPingLine`), so the general property does not hold for this code.
- SseStreams.ChunkBoundaryDone: proved only for streams in which no line of a text frame before the done frame starts with `ping`, for the same reason (`FramePrefixPingLine`).
- SseStreams.ChunkBoundaryDone: what stays in the buffer after a done frame depends on the chunking, because it is whatever arrived in the same chunk as the end of the frame. The lemma promises the same events and status, not the same leftover buffer.
- SseStreams.ParseErrorStops: `emitted` records the `enqueue` calls made. A throw from `transform` errors the readable side, and the stream machinery then discards chunks that are queued but not yet read, so the consumer may receive fewer payloads than `emitted` holds. That reset belongs to the stream machinery, which is not modelled.
- The scaffolding CLI (`src/bin.ts`, `src/bin/init.ts`, `src/utils.ts`), the bot template and the build configuration are not part of this model.
