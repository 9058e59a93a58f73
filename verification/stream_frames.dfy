/**
 * The NDJSON receiver as the source runs it: one receiver per
 * `POST /stream_frames` request, holding the request's byte buffer and
 * counters and writing into the shared relay.
 */
module StreamFrames {
  import opened Wrappers
  import opened ByteLines
  import opened PyStr
  import opened Json
  import opened FrameStore
  import opened Ingest

  class NdjsonReceiver {
    const relay: Relay
    const codec: Codec
    /** `buf`: received bytes not yet followed by a newline. */
    var pending: Bytes
    /** `total_lines` and `total_frames_received`. */
    var totalLines: nat
    var totalFrames: nat
    /** `process_line` raised: the handler has replied 500 and reads no more. */
    var failed: bool
    /** The body has been read to its end and the remainder processed. */
    var ended: bool
    /** Every byte read so far, and every line handed to `process_line`. */
    ghost var received: Bytes
    ghost var processed: seq<Bytes>

    /**
     * Chunk independence as an invariant: until a line fails, the lines
     * processed are exactly the complete lines of everything received, and
     * the buffer is exactly its remainder, however it was chunked. Every line
     * processed was counted.
     */
    ghost predicate Valid()
      reads this
    {
      && (!failed && !ended ==> processed == CompleteLines(received) && pending == Remainder(received))
      && (!failed && ended ==> processed == Lines(received))
      && totalLines == |processed|
    }

    function State(): IngestState
      reads this`totalLines, this`totalFrames, this`failed, relay
    {
      IngestState(relay.State(), totalLines, totalFrames, failed)
    }

    function Snapshot(): Session
      reads this, relay
    {
      Session(State(), pending)
    }

    constructor (relay: Relay, codec: Codec)
      ensures this.relay == relay && this.codec == codec
      ensures Valid() && !ended && !failed
      ensures pending == [] && received == [] && processed == []
      ensures totalLines == 0 && totalFrames == 0
    {
      this.relay := relay;
      this.codec := codec;
      pending := [];
      totalLines := 0;
      totalFrames := 0;
      failed := false;
      ended := false;
      received := [];
      processed := [];
      new;
      assert Split([]) == [[]];
    }

    /**
     * `process_line`. The two flags are set here as the log messages beside
     * them say is intended; the source itself assigns them without `global`,
     * so in Python they become locals of `process_line` and the relay's flags
     * never change (see Ingest.DispatchAsWritten).
     */
    method ProcessLine(line: Bytes, now: string)
      requires !failed
      modifies this, relay
      ensures State() == Step(old(State()), line, codec, now)
      ensures pending == old(pending) && received == old(received) && ended == old(ended)
      ensures processed == old(processed) + [line] && totalLines == old(totalLines) + 1
    {
      processed := processed + [line];
      totalLines := totalLines + 1;
      var msg := LineMessage(line, codec);
      if msg.Some? {
        HandleMessage(msg.value, now);
      }
    }

    /** The part of `process_line` after `json.loads` succeeded. */
    method HandleMessage(msg: Value, now: string)
      requires !failed
      modifies this, relay
      ensures State() == Dispatch(old(State()), msg, now)
      ensures pending == old(pending) && received == old(received) && ended == old(ended)
      ensures processed == old(processed) && totalLines == old(totalLines)
    {
      if !msg.JObject? {
        failed := true;
        return;
      }
      var status := Get(msg.fields, "status", JNull);
      if status == JString("start") {
        relay.started := true;
        return;
      }
      if status == JString("finished") {
        relay.complete := true;
        return;
      }
      var frames := Get(msg.fields, "frames", JArray([]));
      if !Truthy(frames) {
        return;
      }
      if !frames.JArray? {
        failed := true;
        return;
      }
      var added, ok := AppendEntries(frames.items, now);
      if ok {
        totalFrames := totalFrames + added;
      } else {
        failed := true;
      }
    }

    /** The `for fr in frames` loop: append each entry with truthy `frame_data`. */
    method AppendEntries(entries: seq<Value>, now: string) returns (added: nat, ok: bool)
      modifies relay
      ensures relay.frames == old(relay.frames) + ScanEntries(entries, now).added
      ensures added == |ScanEntries(entries, now).added| && ok == ScanEntries(entries, now).ok
      ensures relay.started == old(relay.started) && relay.complete == old(relay.complete)
    {
      added := 0;
      var i := 0;
      while i < |entries|
        invariant 0 <= i <= |entries|
        invariant ScanEntries(entries[..i], now).ok
        invariant relay.frames == old(relay.frames) + ScanEntries(entries[..i], now).added
        invariant added == |ScanEntries(entries[..i], now).added|
        invariant relay.started == old(relay.started) && relay.complete == old(relay.complete)
      {
        var fr := entries[i];
        assert entries[..i + 1][..i] == entries[..i];
        if !fr.JObject? {
          ScanStuck(entries, i + 1, now);
          return added, false;
        }
        var data := Get(fr.fields, "frame_data", JNull);
        if Truthy(data) {
          relay.frames := relay.frames + [Frame(Get(fr.fields, "frame_number", JInt(0)), data, now)];
          added := added + 1;
        }
        i := i + 1;
      }
      assert entries[..i] == entries;
      ok := true;
    }

    /** One chunk of the body: append it to the buffer and process every complete line. */
    method FeedChunk(chunk: Bytes, now: string)
      requires Valid() && !ended
      modifies this, relay
      ensures Valid() && !ended
      ensures Snapshot() == Feed(old(Snapshot()), chunk, codec, now)
      ensures received == if old(failed) then old(received) else old(received) + chunk
    {
      if failed {
        return;
      }
      ChunkBoundary(received, chunk);
      pending := pending + chunk;
      received := received + chunk;
      ghost var done := CutLines(now);
      FeedAfterLoop(old(Snapshot()), chunk, done, pending, State(), codec, now);
      SplitPrefix(old(pending) + chunk, done, pending);
      if failed {
        pending := [];
      }
    }

    /**
     * The `while True` loop over `buf.find(b"\n")`: cut each complete line
     * off the front of the buffer and process it, until no newline is left or
     * a line fails.
     */
    method CutLines(now: string) returns (ghost done: seq<Bytes>)
      requires !failed
      modifies this, relay
      ensures Split(old(pending)) == done + Split(pending)
      ensures State() == Replay(old(State()), done, codec, now)
      ensures failed || NL !in pending
      ensures processed == old(processed) + done && totalLines == old(totalLines) + |done|
      ensures received == old(received) && ended == old(ended)
    {
      ghost var start := pending;
      ghost var st0 := State();
      ghost var processed0 := processed;
      ghost var lines0 := totalLines;
      done := [];
      var idx := Find(pending, NL);
      while idx >= 0 && !failed
        invariant idx == Find(pending, NL)
        invariant Split(start) == done + Split(pending)
        invariant State() == Replay(st0, done, codec, now)
        invariant processed == processed0 + done && totalLines == lines0 + |done|
        invariant received == old(received) && ended == old(ended)
        decreases |pending|
      {
        var line := CutOneLine(idx, start, st0, done, now);
        done := done + [line];
        idx := Find(pending, NL);
      }
    }

    /**
     * One turn of that loop: cut the line ending at `idx` off the buffer and
     * process it, extending the lines `done` so far cut from `start`.
     */
    method CutOneLine(idx: int, ghost start: Bytes, ghost st0: IngestState, ghost done: seq<Bytes>, now: string)
      returns (line: Bytes)
      requires !failed && 0 <= idx && idx == Find(pending, NL)
      requires Split(start) == done + Split(pending)
      requires State() == Replay(st0, done, codec, now)
      modifies this, relay
      ensures Split(start) == (done + [line]) + Split(pending)
      ensures |pending| < |old(pending)|
      ensures State() == Replay(st0, done + [line], codec, now)
      ensures processed == old(processed) + [line] && totalLines == old(totalLines) + 1
      ensures received == old(received) && ended == old(ended)
    {
      ghost var before := State();
      line := CutLine(idx, now);
      SplitExtends(start, done, old(pending), line, pending);
      ReplayExtends(done, line, st0, before, State(), codec, now);
    }

    /** Cut the line ending at `idx` off the buffer and process it. */
    method CutLine(idx: int, now: string) returns (line: Bytes)
      requires !failed && 0 <= idx && idx == Find(pending, NL)
      modifies this, relay
      ensures Split(old(pending)) == [line] + Split(pending)
      ensures |pending| < |old(pending)|
      ensures State() == Step(old(State()), line, codec, now)
      ensures processed == old(processed) + [line] && totalLines == old(totalLines) + 1
      ensures received == old(received) && ended == old(ended)
    {
      SplitAtFirst(pending, idx);
      line := pending[..idx];
      pending := pending[idx + 1..];
      ProcessLine(line, now);
    }

    /** The end of the body: process a non-empty remainder, then reply. */
    method EndOfStream(now: string) returns (reply: Reply)
      requires Valid() && !ended
      modifies this, relay
      ensures Valid() && ended
      ensures State() == Finish(old(Snapshot()), codec, now)
      ensures reply == ReplyOf(State())
      ensures received == old(received)
    {
      LinesOfBody(received);
      if !failed && pending != [] {
        ProcessLine(pending, now);
      }
      ended := true;
      reply := if failed then ServerError else Accepted(totalLines, totalFrames);
    }
  }

  /**
   * `stream_frames_handler` over a body delivered as `chunks`, with no other
   * handler touching the relay meanwhile: the relay ends as if the lines of
   * the whole body had been processed one by one, whatever the chunking.
   */
  method HandleStreamFrames(relay: Relay, codec: Codec, chunks: seq<Bytes>, now: string) returns (reply: Reply)
    modifies relay
    ensures var st := Replay(Init(old(relay.State())), Lines(Flatten(chunks)), codec, now);
      relay.State() == st.relay && reply == ReplyOf(st)
  {
    ghost var st0 := Init(relay.State());
    var rx := new NdjsonReceiver(relay, codec);
    FeedNothing(st0, codec, now);
    var i := 0;
    while i < |chunks|
      invariant 0 <= i <= |chunks|
      invariant rx.Valid() && !rx.ended && rx.relay == relay && rx.codec == codec
      invariant rx.Snapshot() == Feed(Session(st0, []), Flatten(chunks[..i]), codec, now)
    {
      rx.FeedChunk(chunks[i], now);
      FeedNextChunk(Session(st0, []), chunks, i, codec, now);
      i := i + 1;
    }
    assert chunks[..i] == chunks;
    reply := rx.EndOfStream(now);
    WholeStream(st0, Flatten(chunks), codec, now);
  }
}
