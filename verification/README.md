# Frame relay and bridge URL logic, modelled in Dafny

This project models the frame relay of the avatar web server (`aio_app.py`),
together with the string logic of the command-line bridge
(`musetalk_gpt_bridge.py`).

The relay keeps one process-wide list of frames and two session flags,
"start signal received" and "processing complete". Four parts of the server
touch them:

- **The NDJSON ingest handler** (`POST /stream_frames`) reads the request
  body in chunks of any size.
  - It cuts the body on `\n` and hands each line to `process_line`.
  - `process_line` counts the line, strips it and parses it as JSON.
  - A `status` of `start` or `finished` raises a flag. Otherwise the frames
    of a `frames` array are appended.
  - At the end of the body a non-empty remainder is processed as a last line.
  - The handler then replies with its line and frame counters, or with a 500
    when `process_line` raised.
- **The clear handler** empties the list and lowers both flags.
- **The polling handler** returns the list from a client-held index,
  together with the list's length and the flags.
- **The MJPEG handler** walks a private cursor over the list.
  - It writes one multipart part per decodable entry until the session is
    complete and the list is drained.
  - A failed write also ends the loop.
  - Either way, it then attempts the closing boundary.

The project has these modules:

- `FrameStore` holds the shared state, a `Relay` class that is updated in
  place, and the polling read.
- `Ingest` defines the reference semantics of ingest as values:
  - `Step` is one line;
  - `Replay` is a run of lines;
  - `Feed` is one chunk;
  - `Finish` is the end of the body.

  It also holds the lemmas about them.
- `StreamFrames` is the receiver as the source runs it: a class holding the
  byte buffer and the counters. Its methods are proved to follow `Ingest`.
  - The main result is `HandleStreamFrames`. For a whole body it leaves the
    relay exactly as processing the body's lines one by one would, whatever
    the chunking.
- `ByteLines` covers the byte-level newline splitting, with its round trip
  and its chunk-boundary lemmas.
- `Mjpeg` holds the viewer: a class with a cursor, the bytes delivered so
  far and a phase. One method models each turn of the handler's loops.
- `AudioUpload` covers the string logic of the upload handler: the data-URL
  prefix, the inline URL normalisation and the callback URL.
- `Bridge` covers the bridge: `normalize_base_url`, the `/process` and
  `/stream_frames` URLs, and the chat message list.
- `PyStr`, `Json` and `Wrappers` hold Python's `strip`/`rstrip`/`startswith`,
  JSON values with Python truthiness, and `Option`/`Result`.

Some library calls are not modelled; they are parameters instead:

- `json.loads`;
- `bytes.decode('utf-8', errors='ignore')`;
- `base64.b64decode`;
- `int()`.

Each is a function-typed parameter that returns `None` where Python raises.

When `process_line` raises, the exception ends the request with a 500. This
happens when the message is not a dict, when `frames` is truthy but not a
list, or when an entry is not a dict. The model records it as `failed`:
- frames appended before the bad entry stay;
- the frame counter is not bumped;
- no further line is read.

## Model

| member | source | states |
|---|---|---|
| FrameStore.Relay.constructor | aio_app.py:24-26 | the process starts with an empty list and both flags false |
| FrameStore.Relay.Clear | aio_app.py:180-185 | after a clear the list is empty and both flags are false, whatever the prior state |
| FrameStore.Poll | aio_app.py:188-208 | the reply is a suffix of the list: all of it for a missing, unparsable or non-positive index, empty from the list's length on, otherwise starting at the index; `buffer_size` and `next_index` equal the length; the flags are reported as they are |
| FrameStore.ResumePolling | aio_app.py:191-201 | polling again from the returned `next_index` after more appends yields every later frame exactly once, in order, with no gap or repeat |
| ByteLines.Find | aio_app.py:161 | `find` returns -1 exactly when there is no newline, else the index of the first one |
| ByteLines.FindUnique | aio_app.py:161 | the first newline is the only index `find` can return |
| ByteLines.SplitAtFirst | aio_app.py:161-165 | cutting at the first newline gives the line before it, then the pieces after it |
| ByteLines.Split | aio_app.py:160-166 | cutting at every newline gives at least one piece, and no piece contains a newline |
| ByteLines.JoinSplit | aio_app.py:160-166 | re-joining the pieces with newlines gives the input back |
| ByteLines.SplitJoin | aio_app.py:160-166 | splitting newline-free pieces joined with newlines gives the pieces back |
| ByteLines.Remainder | aio_app.py:165-168 | what stays in `buf` after the loop holds no newline |
| ByteLines.CompleteLines | aio_app.py:160-166 | definition: the lines the cut loop hands to `process_line` are every piece before the last newline (pinned down by `SplitIsLinesAndRemainder`, `SplitPrefix` and `ChunkBoundary`) |
| ByteLines.Lines | aio_app.py:160-169 | definition: the lines of a whole body are its complete lines, then the trailing remainder only when `if buf:` holds (stated by `LinesOfBody`) |
| ByteLines.NoNewline | aio_app.py:161-163 | a buffer without a newline yields no line and stays whole |
| ByteLines.SplitPrefix | aio_app.py:160-166 | once some lines have been cut off the front, the remaining lines and remainder are those of the rest |
| ByteLines.SplitIsLinesAndRemainder | aio_app.py:160-169 | the pieces are the complete lines followed by the remainder |
| ByteLines.LinesOfBody | aio_app.py:160-169 | the lines of a whole body are its complete lines, then its remainder when that is non-empty |
| ByteLines.SplitConcat | aio_app.py:159-166 | splitting `a + b` cuts the complete lines of `a`, then splits `a`'s remainder followed by `b` |
| ByteLines.SplitFront | aio_app.py:159-166 | a newline inside `a` stays the first newline once `b` is appended |
| ByteLines.ChunkBoundary | aio_app.py:159-166 | the complete lines of `a + b` are those of `a` followed by those of `a`'s remainder plus `b`, and the remainder agrees |
| ByteLines.FlattenPrefix | aio_app.py:252-255 | the bytes of the first k writes are a prefix of the bytes of all of them |
| PyStr.IsSpace | aio_app.py:118 | definition: the characters for which `str.isspace()` holds, which `strip()` removes: U+0009 to U+000D, U+001C to U+001F, space, U+0085, U+00A0, U+1680, U+2000 to U+200A, U+2028, U+2029, U+202F, U+205F and U+3000 |
| Json.Truthy | aio_app.py:138-143 | definition: Python's `bool()` on a JSON value, which decides `if frames:` and `if not b64:`; null, false, zero, and empty strings, lists and dicts are false |
| Json.Get | aio_app.py:127-145 | definition: `dict.get(key, default)`; a key present with a null value gives that null, not the default |
| PyStr.Strip | aio_app.py:118 | `strip()` is empty exactly for whitespace-only text and otherwise neither starts nor ends with whitespace |
| PyStr.StripTrims | aio_app.py:118 | `strip()` is the input with a whitespace-only prefix and a whitespace-only suffix cut off, and nothing else |
| PyStr.StripBlank | aio_app.py:118 | stripping gives the empty text exactly when the text is all whitespace |
| PyStr.TrimStart | aio_app.py:118 | `lstrip()` removes a whitespace-only prefix and leaves text not starting with whitespace |
| PyStr.TrimEnd | aio_app.py:118 | `rstrip()` removes a whitespace-only suffix and leaves text not ending with whitespace |
| PyStr.StripTrimmed | musetalk_gpt_bridge.py:62 | text with no surrounding whitespace is unchanged by `strip()` |
| PyStr.RStripChar | musetalk_gpt_bridge.py:56 | `rstrip('/')` removes exactly the trailing run of slashes: the result is a prefix, all removed characters are slashes, and it does not end in one |
| PyStr.StartsWith | aio_app.py:52 | definition: `str.startswith`: the text is at least as long as the prefix and begins with it |
| PyStr.EndsWith | musetalk_gpt_bridge.py:65 | definition: `str.endswith`: the text is at least as long as the suffix and ends with it |
| Ingest.Kept | aio_app.py:141-151 | the reference selection keeps at most one frame per entry, each with truthy `frame_data` and the ingestion timestamp |
| Ingest.KeptSnoc | aio_app.py:141-151 | the selection of entries plus one more is the old selection plus that entry's frame, if any |
| Ingest.ScanAllObjects | aio_app.py:139-152 | when every entry is a dict, the entry loop appends exactly the reference selection, in input order, and completes |
| Ingest.ScanStuck | aio_app.py:141-142 | once a non-dict entry has raised, later entries add nothing |
| Ingest.EntryFrame | aio_app.py:142-150 | definition: an entry with truthy `frame_data` becomes one frame with its `frame_number` (default 0), its data and the ingestion time; any other entry is skipped (stated by `FramesLine`) |
| Ingest.ScanEntries | aio_app.py:139-152 | definition: the entry loop as a left-to-right scan that stops at the first non-dict entry (proved equal to `Kept` by `ScanAllObjects`, and sticky by `ScanStuck`) |
| Ingest.Dispatch | aio_app.py:127-152 | a `start` message raises only the start flag and a `finished` message only the completion flag, neither appending nor failing; no message un-appends a frame or touches the line counter |
| Ingest.LineMessage | aio_app.py:118-125 | a blank line carries no message |
| Ingest.Step | aio_app.py:115-153 | definition of `process_line` on the relay and counters: count the line, skip blank or non-JSON text, dispatch the message; a failed request stays as it is (properties in `StepMonotone`, `SkippedLine`, `ControlLine`, `FramesLine`, `MalformedEntry`) |
| Ingest.Replay | aio_app.py:160-166 | definition: `process_line` applied to a run of lines in order (properties in `ReplayAppend`, `ReplaySnoc`, `ReplayFailed`, `ReplayMonotone`) |
| Ingest.ReplayAppend | aio_app.py:156-169 | processing two runs of lines is processing the first, then the second |
| Ingest.ReplaySnoc | aio_app.py:160-166 | processing one more line is one more `process_line` step |
| Ingest.ReplayFailed | aio_app.py:155-175 | once a line has raised, no later line changes anything |
| Ingest.StepMonotone | aio_app.py:115-153 | one line keeps earlier frames in place, only raises flags, and while nothing failed counts itself and bumps the frame counter by the frames appended |
| Ingest.ReplayMonotone | aio_app.py:115-153 | over any run of lines: earlier frames stay, flags are only raised, failure is sticky, and without failure every line is counted and the frame counter grows by exactly the frames appended |
| Ingest.SkippedLine | aio_app.py:116-125 | a blank or non-JSON line is counted and changes nothing else |
| Ingest.ControlLine | aio_app.py:127-135 | a `start` or `finished` message raises exactly its flag and appends nothing, even with a `frames` array; the line is counted |
| Ingest.FramesLine | aio_app.py:137-152 | a frames message appends, in input order after the old frames, one frame per entry with truthy `frame_data` (`frame_number` defaulting to 0), and the frame counter grows by the same number |
| Ingest.MalformedEntry | aio_app.py:141-142 | a non-dict entry makes the line fail; the frames of the entries before it stay appended and the counter is not bumped |
| Ingest.MalformedMessage | aio_app.py:127-138 | a message that is not a dict, or whose `frames` is truthy but not a list, makes the line fail: it is counted, nothing is appended, no flag moves and the frame counter is not bumped |
| Ingest.ReplyOf | aio_app.py:171-175 | the reply is a 500 exactly when a line raised, otherwise it carries the line and frame counters |
| Ingest.Feed | aio_app.py:156-166 | definition of one chunk: `buf += chunk`, then the complete lines processed in order and the remainder kept, or the buffer dropped after a failure (properties in `FeedConcat`, `FeedAfterLoop`, `FeedNothing`) |
| Ingest.Finish | aio_app.py:168-169 | definition: a non-empty remainder is processed as the last line, unless a line already failed (stated by `WholeStream`) |
| Ingest.FeedConcat | aio_app.py:156-166 | feeding two chunks in turn is feeding their concatenation |
| Ingest.FeedWhole | aio_app.py:156-166 | feeding `a + b` at once processes the complete lines of the buffer with `a`, then those of what is left with `b` |
| Ingest.FeedAfterLoop | aio_app.py:159-166 | after the cut loop stops, the receiver holds the state of the lines cut and the newline-free rest, or an emptied buffer after a failure |
| Ingest.SplitExtends | aio_app.py:161-165 | one more line cut off the buffer extends the lines cut so far from the start of the buffer |
| Ingest.ReplayExtends | aio_app.py:161-166 | one more line processed extends the run of lines replayed so far |
| Ingest.FeedNextChunk | aio_app.py:156-159 | feeding the next chunk extends the bytes fed so far by that chunk |
| Ingest.FeedNothing | aio_app.py:156-158 | an empty body leaves a fresh receiver unchanged |
| Ingest.WholeStream | aio_app.py:156-169 | feeding a whole body and finishing processes exactly its newline-separated pieces, in order, with the last piece only when it is non-empty; with `FeedConcat` this holds for any chunking |
| Ingest.DispatchAsWritten | aio_app.py:127-135 | as written, a `start` or `finished` message leaves the state unchanged |
| Ingest.ControlSignalsLostAsWritten | aio_app.py:128-134 | as written no control message ever raises a flag, while the intended handling does |
| StreamFrames.NdjsonReceiver.constructor | aio_app.py:111-113 | a receiver starts with an empty buffer and zero counters |
| StreamFrames.NdjsonReceiver.ProcessLine | aio_app.py:115-153 | `process_line` updates the relay and counters exactly as one `Step`, and records the line |
| StreamFrames.NdjsonReceiver.HandleMessage | aio_app.py:127-152 | the handling of a parsed message updates relay and counters exactly as `Dispatch` |
| StreamFrames.NdjsonReceiver.AppendEntries | aio_app.py:139-152 | the entry loop appends to the relay exactly what the reference scan adds, reports its count, and says whether it ran to the end |
| StreamFrames.NdjsonReceiver.FeedChunk | aio_app.py:156-166 | one chunk moves the receiver exactly as `Feed`, and keeps the invariant that the processed lines are the complete lines of all bytes received and the buffer is their remainder |
| StreamFrames.NdjsonReceiver.CutLines | aio_app.py:160-166 | the cut loop removes lines from the front of the buffer and processes them in order, until no newline is left or a line fails |
| StreamFrames.NdjsonReceiver.CutOneLine | aio_app.py:161-166 | one turn of the cut loop extends the lines cut so far by the next line and the state by its `Step` |
| StreamFrames.NdjsonReceiver.CutLine | aio_app.py:161-166 | one turn cuts the line before the first newline off the buffer and processes it |
| StreamFrames.NdjsonReceiver.EndOfStream | aio_app.py:168-175 | a non-empty remainder is processed last and an empty one is not; the state is then that of `Finish` and the reply that of the final state; unless a line failed, the processed lines are exactly the body's lines |
| StreamFrames.HandleStreamFrames | aio_app.py:106-177 | for any chunking of a body, the relay ends as processing the body's lines one by one leaves it, and the reply matches |
| Mjpeg.PartBytes | aio_app.py:252-255 | a part is the boundary, the JPEG content-type header, the payload and a CRLF, in that order |
| Mjpeg.PartWrites | aio_app.py:252-255 | definition: the four writes of one part, in order |
| Mjpeg.Part | aio_app.py:252-255 | definition: the bytes of the four writes (spelled out by `PartBytes`) |
| Mjpeg.EntryPart | aio_app.py:247-255 | definition: an entry whose `frame_data` does not decode gives no bytes, any other gives its part (stated by `RenderUndecodable`, `RenderDecodable`) |
| Mjpeg.Render | aio_app.py:243-255 | definition: the bytes the viewer sends for a run of entries, the parts of the decodable ones in order (properties in `RenderSnoc`, `RenderAppend`; tied to the viewer by `Viewer.Valid` and `ServeToEnd`) |
| Mjpeg.SentPrefix | aio_app.py:251-261 | whatever write fails, the client has received a prefix of the part |
| Mjpeg.PartDelivered | aio_app.py:244-261 | after some of a decodable entry's writes, the client holds a prefix of the parts of the entries visited, and all of them after the four writes |
| Mjpeg.RenderAppend | aio_app.py:243-261 | the parts of two runs of entries are those of each run in turn |
| Mjpeg.RenderSnoc | aio_app.py:244-255 | visiting one more entry adds its part, if any, at the end |
| Mjpeg.RenderUndecodable | aio_app.py:247-250 | entries none of which decodes produce no part |
| Mjpeg.RenderDecodable | aio_app.py:243-255 | entries that all decode produce one part each, in order |
| Mjpeg.Viewer.constructor | aio_app.py:236-237 | the cursor starts at 0 with nothing written |
| Mjpeg.Viewer.WaitStep | aio_app.py:240-241 | the handler waits while the list is empty and the session is not complete, then enters the loop |
| Mjpeg.Viewer.DrainStep | aio_app.py:243-266 | an entry under the cursor is visited once and the cursor advances by one; a decodable entry sends its part and an undecodable one is skipped; a failed write ends the loop; with no entry left, the loop ends only when the session is complete, and otherwise waits |
| Mjpeg.Viewer.VisitNext | aio_app.py:244-261 | visiting the entry under the cursor sends the writes of its part until one fails, keeping the client's bytes equal to the parts of the entries visited |
| Mjpeg.Viewer.WritePart | aio_app.py:251-261 | the four writes stop at the first failure and report success only when all four went through |
| Mjpeg.Viewer.Send | aio_app.py:252-255 | each write appends its bytes to what the client has received |
| Mjpeg.Viewer.Close | aio_app.py:267-273 | the closing boundary is attempted once, and its failure is ignored |
| Mjpeg.ServeToEnd | aio_app.py:236-276 | for a complete session whose list no writer touches, and a transport that accepts every write, each entry is visited exactly once in order; the client receives the part of every decodable entry, then the closing boundary; an empty list gives zero parts |
| AudioUpload.AfterFirstComma | aio_app.py:53 | `split(',', 1)[1]` is the suffix after the first comma |
| AudioUpload.StripDataUrlPrefix | aio_app.py:52-53 | a `data:audio/wav;base64,` URL loses exactly that prefix, and any other text is kept |
| AudioUpload.PrefixFirstComma | aio_app.py:52-53 | the prefix's last character is the first comma of such a URL |
| AudioUpload.DataUrlRoundTrip | aio_app.py:52-53 | stripping the prefix from a wrapped payload gives the payload back |
| AudioUpload.ProcessEndpoint | aio_app.py:68-73 | the upload handler's endpoint always carries an http(s) scheme and ends in `/process` |
| AudioUpload.ProcessEndpointMatchesBridge | aio_app.py:68-73 | on a non-blank base it is the bridge's normalised URL plus `/process` |
| AudioUpload.ProcessEndpointBlank | aio_app.py:68-73 | a blank base, which the bridge rejects, gives `http:///process` |
| AudioUpload.Prefer | aio_app.py:78-79 | a present, non-empty forwarded header wins over the request's own value |
| AudioUpload.CallbackUrl | aio_app.py:76-80 | the callback URL is scheme, `://`, host and `/stream_frames`, with scheme and host taken from the forwarding headers when non-empty |
| Bridge.HasHttpScheme | musetalk_gpt_bridge.py:67 | definition: the case-sensitive scheme test `startswith('http://') or startswith('https://')`, shared with aio_app.py:71 |
| Bridge.DropTrailingSlash | musetalk_gpt_bridge.py:65-66 | exactly one trailing `/` is dropped, if present |
| Bridge.WithScheme | musetalk_gpt_bridge.py:67-68 | the result carries a lower-case http(s) scheme, and `http://` is prepended only when none was there |
| Bridge.NormalizeStripped | musetalk_gpt_bridge.py:65-68 | definition of the normalisation shared with the upload handler (aio_app.py:69-72): drop one trailing slash, then add the default scheme (properties in `NormalizedEndsWith`, `NormalizeBaseUrl`, `ProcessEndpointMatchesBridge`) |
| Bridge.NormalizeBaseUrl | musetalk_gpt_bridge.py:61-69 | it fails exactly for a missing or blank URL; every result starts with `http://` or `https://`; the stripped input, minus at most one trailing slash, ends the result |
| Bridge.NormalizedEndsWith | musetalk_gpt_bridge.py:65-68 | the normalised text ends with its input, less at most one trailing slash |
| Bridge.SuffixOfScheme | musetalk_gpt_bridge.py:67-68 | adding the default scheme keeps the text as a suffix |
| Bridge.NormalizeKeepsSchemedUrl | musetalk_gpt_bridge.py:62-69 | a stripped URL with an http(s) scheme and no trailing slash is returned unchanged |
| Bridge.NormalizeDropsOneSlash | musetalk_gpt_bridge.py:65-68 | `host//` becomes `http://host/`: only one slash is dropped |
| Bridge.NormalizeSchemedSlash | musetalk_gpt_bridge.py:62-68 | a URL with an http(s) scheme and one trailing slash loses that slash and nothing else |
| Bridge.NormalizeNotIdempotent | musetalk_gpt_bridge.py:62-68 | normalising `host//` gives `http://host/`, and normalising that again drops the remaining slash, so the function is not idempotent |
| Bridge.NormalizeSchemeCaseSensitive | musetalk_gpt_bridge.py:67-68 | `HTTP://x` gets `http://` prepended: the scheme test is case-sensitive |
| Bridge.ProcessUrl | musetalk_gpt_bridge.py:56 | the process URL is the base with its trailing run of slashes removed, then `/process` |
| Bridge.ProcessUrlIgnoresSlashes | musetalk_gpt_bridge.py:56 | any number of trailing slashes on the base gives the same process URL |
| Bridge.StreamCallbackUrl | musetalk_gpt_bridge.py:136-137 | the callback URL is the public base without trailing slashes plus `/stream_frames`; a missing or empty base gives `/stream_frames` |
| Bridge.ChatMessages | musetalk_gpt_bridge.py:20-24 | a system message comes first exactly when a non-empty system prompt is given; the list always ends with exactly one user message carrying the prompt |

## Left out

- Network and HTTP plumbing is not modelled. This covers:
  - request parsing and the JSON encoding of replies;
  - the upload handler's size checks and its 400/413/502 replies;
  - writing the uploaded file and the form posted to MuseTalk;
  - the OpenAI speech and chat calls;
  - the bridge's argument parsing, environment and printing.

  They are foreign calls with no behaviour of their own to state.
- A transport error while the body is read (aio_app.py:156) is not
  modelled. In the source it ends the request with a 500 (aio_app.py:173-175)
  and the remainder is never processed (aio_app.py:168-169); the model's body
  always reaches `StreamFrames.NdjsonReceiver.EndOfStream`.
- `asyncio.sleep` is not modelled. A wait is a step that changes nothing.
- The transport check and `response.prepare` before the MJPEG loop are not
  modelled. A viewer starts after a successful prepare.
- `write_eof` is not modelled. It has no visible effect on the bytes
  delivered.
- The handlers run concurrently at every `await`; the model does not.
  - Each `Viewer` step reads the relay as it is at that moment, so a clear
    or an append between steps is captured.
  - `StreamFrames.HandleStreamFrames` assumes no other handler touches the
    relay while the one request is read.
- The timestamp is one opaque `now` string per call. The source reads the
  clock once per appended frame (aio_app.py:149).
- A failed write is modelled as delivering none of its bytes.
- JSON numbers are `int` or `real`. NaN and infinities, which `json.loads`
  accepts, are not modelled.
- `json.loads` can raise errors other than `JSONDecodeError`, for example on
  nesting too deep for the recursion limit. Such an error ends the request
  with a 500 in the source. The model treats every rejection as a skipped
  line.
- In the upload handler, `str()` applied to a non-string `musetalk_url` value
  is not modelled. The environment default at aio_app.py:47 is not modelled
  either. `AudioUpload.ProcessEndpoint` takes the base as text.
- Ingest.LineMessage: its contract states only the blank-line case. That a
  line `json.loads` rejects carries no message is stated by
  `Ingest.SkippedLine`.
- app.py, config.py, test_app.py, chatgpt_audio_qa.py and chatgpt_stt_test.py
  are not part of this model. They are glue: placeholder routes, environment
  defaults, HTTP smoke tests and command-line wrappers around provider SDKs.

## Findings

| source | as written | input that shows it | evidently intended | confidence | as-written member | corrected member |
|---|---|---|---|---|---|---|
| aio_app.py:128-134 | `process_line` assigns `start_signal_received` and `processing_complete` with no `global` declaration of its own (the one at line 108 covers only the enclosing handler), so Python binds both names as locals and the relay's flags never change; the MJPEG loop then never sees the session complete, and polling never reports either flag (shown by `Ingest.ControlSignalsLostAsWritten`) | the line `{"status": "finished"}` on a fresh relay | the relay's flag is raised, as the log lines beside the assignments claim (proved for the corrected handling by `Ingest.ControlLine`) | not executed | Ingest.DispatchAsWritten | Ingest.Dispatch |
