/**
 * The NDJSON ingest as values: what one line does to the relay and to the
 * request's counters (`process_line`), what a sequence of lines does, what one
 * chunk does (`buf += chunk` and the newline loop), and what the end of the
 * body does (the trailing `if buf:`).
 */
module Ingest {
  import opened Wrappers
  import opened ByteLines
  import opened PyStr
  import opened Json
  import opened FrameStore

  /**
   * The library calls the receiver makes: `bytes.decode('utf-8',
   * errors='ignore')` and `json.loads` (None where it raises).
   */
  datatype Codec = Codec(utf8: Bytes -> string, parseJson: string -> Option<Value>)

  /**
   * The relay's shared state together with one request's `total_lines` and
   * `total_frames_received`; `failed` records that `process_line` raised, which
   * ends the request with a 500 reply.
   */
  datatype IngestState = IngestState(relay: RelayState, lines: nat, framesReceived: nat, failed: bool)

  function Init(relay: RelayState): IngestState
  {
    IngestState(relay, 0, 0, false)
  }

  /** The frame an entry dict yields, or None when its `frame_data` is falsy. */
  function EntryFrame(fields: map<string, Value>, now: string): Option<Frame>
  {
    var data := Get(fields, "frame_data", JNull);
    if Truthy(data) then Some(Frame(Get(fields, "frame_number", JInt(0)), data, now)) else None
  }

  /** What the `for fr in frames` loop appended, and whether it ran to the end. */
  datatype Scan = Scan(added: seq<Frame>, ok: bool)

  /**
   * The entry loop, entry by entry from the front: a non-dict entry raises
   * (`fr.get`), leaving what was already appended in place.
   */
  function ScanEntries(entries: seq<Value>, now: string): Scan
    decreases |entries|
  {
    if entries == [] then Scan([], true)
    else
      var prior := ScanEntries(entries[..|entries| - 1], now);
      var last := entries[|entries| - 1];
      if !prior.ok then prior
      else if !last.JObject? then Scan(prior.added, false)
      else
        match EntryFrame(last.fields, now)
        case None => prior
        case Some(f) => Scan(prior.added + [f], true)
  }

  /** Reference definition: the frames of the dict entries whose `frame_data` is truthy. */
  function KeepEntry(entry: Value, now: string): seq<Frame>
  {
    if !entry.JObject? then []
    else
      match EntryFrame(entry.fields, now)
      case None => []
      case Some(f) => [f]
  }

  function Kept(entries: seq<Value>, now: string): (frames: seq<Frame>)
    ensures |frames| <= |entries|
    ensures forall k :: 0 <= k < |frames| ==> Truthy(frames[k].data) && frames[k].stamp == now
    decreases |entries|
  {
    if entries == [] then [] else KeepEntry(entries[0], now) + Kept(entries[1..], now)
  }

  lemma {:induction false} KeptSnoc(entries: seq<Value>, e: Value, now: string)
    ensures Kept(entries + [e], now) == Kept(entries, now) + KeepEntry(e, now)
    decreases |entries|
  {
    if entries == [] {
      assert [e][1..] == [];
    } else {
      assert (entries + [e])[1..] == entries[1..] + [e];
      KeptSnoc(entries[1..], e, now);
    }
  }

  /** When every entry is a dict, the loop appends exactly the kept frames, in input order. */
  lemma {:induction false} ScanAllObjects(entries: seq<Value>, now: string)
    requires forall k :: 0 <= k < |entries| ==> entries[k].JObject?
    ensures ScanEntries(entries, now) == Scan(Kept(entries, now), true)
    decreases |entries|
  {
    if entries != [] {
      var init := entries[..|entries| - 1];
      var last := entries[|entries| - 1];
      ScanAllObjects(init, now);
      KeptSnoc(init, last, now);
      assert init + [last] == entries;
    }
  }

  /** Once the loop has raised, later entries change nothing. */
  lemma {:induction false} ScanStuck(entries: seq<Value>, k: nat, now: string)
    requires k <= |entries| && !ScanEntries(entries[..k], now).ok
    ensures ScanEntries(entries, now) == ScanEntries(entries[..k], now)
    decreases |entries| - k
  {
    if k < |entries| {
      var init := entries[..|entries| - 1];
      assert init[..k] == entries[..k];
      ScanStuck(init, k, now);
    } else {
      assert entries[..k] == entries;
    }
  }

  /** What a parsed message does (the body of `process_line` after `json.loads`). */
  function Dispatch(st: IngestState, msg: Value, now: string): (r: IngestState)
    ensures msg.JObject? && Get(msg.fields, "status", JNull) == JString("start") ==>
      r.relay.started && r.relay.complete == st.relay.complete && r.relay.frames == st.relay.frames && r.failed == st.failed
    ensures msg.JObject? && Get(msg.fields, "status", JNull) == JString("finished") ==>
      r.relay.complete && r.relay.started == st.relay.started && r.relay.frames == st.relay.frames && r.failed == st.failed
    ensures r.lines == st.lines && st.relay.frames <= r.relay.frames
  {
    if !msg.JObject? then st.(failed := true)
    else
      var status := Get(msg.fields, "status", JNull);
      if status == JString("start") then st.(relay := st.relay.(started := true))
      else if status == JString("finished") then st.(relay := st.relay.(complete := true))
      else
        var frames := Get(msg.fields, "frames", JArray([]));
        if !Truthy(frames) then st
        else if !frames.JArray? then st.(failed := true)
        else
          var scan := ScanEntries(frames.items, now);
          st.(relay := st.relay.(frames := st.relay.frames + scan.added),
              framesReceived := if scan.ok then st.framesReceived + |scan.added| else st.framesReceived,
              failed := !scan.ok)
  }

  /**
   * The message a line carries: None for a blank line (after `strip()`) and
   * for one `json.loads` rejects.
   */
  function LineMessage(line: Bytes, codec: Codec): (m: Option<Value>)
    ensures AllSpace(codec.utf8(line)) ==> m.None?
  {
    var text := Strip(codec.utf8(line));
    if text == [] then None else codec.parseJson(text)
  }

  /**
   * `process_line` on one line's bytes. Every line is counted first; a blank
   * line and a line `json.loads` rejects change nothing else. After a failure
   * the request has ended, so further lines do nothing.
   */
  function Step(st: IngestState, line: Bytes, codec: Codec, now: string): IngestState
  {
    if st.failed then st
    else
      var counted := st.(lines := st.lines + 1);
      match LineMessage(line, codec)
      case None => counted
      case Some(msg) => Dispatch(counted, msg, now)
  }

  /** `process_line` applied to each line in turn. */
  function Replay(st: IngestState, lines: seq<Bytes>, codec: Codec, now: string): IngestState
    decreases |lines|
  {
    if lines == [] then st else Replay(Step(st, lines[0], codec, now), lines[1..], codec, now)
  }

  lemma {:induction false} ReplayAppend(st: IngestState, xs: seq<Bytes>, ys: seq<Bytes>, codec: Codec, now: string)
    ensures Replay(st, xs + ys, codec, now) == Replay(Replay(st, xs, codec, now), ys, codec, now)
    decreases |xs|
  {
    if xs == [] {
      assert xs + ys == ys;
    } else {
      assert (xs + ys)[0] == xs[0] && (xs + ys)[1..] == xs[1..] + ys;
      ReplayAppend(Step(st, xs[0], codec, now), xs[1..], ys, codec, now);
    }
  }

  lemma ReplaySnoc(st: IngestState, xs: seq<Bytes>, x: Bytes, codec: Codec, now: string)
    ensures Replay(st, xs + [x], codec, now) == Step(Replay(st, xs, codec, now), x, codec, now)
  {
    ReplayAppend(st, xs, [x], codec, now);
  }

  lemma {:induction false} ReplayFailed(st: IngestState, xs: seq<Bytes>, codec: Codec, now: string)
    requires st.failed
    ensures Replay(st, xs, codec, now) == st
    decreases |xs|
  {
    if xs != [] {
      ReplayFailed(st, xs[1..], codec, now);
    }
  }

  /** The one-line case of ReplayMonotone. */
  lemma StepMonotone(st: IngestState, line: Bytes, codec: Codec, now: string)
    ensures var r := Step(st, line, codec, now);
      && st.relay.frames <= r.relay.frames
      && (st.relay.started ==> r.relay.started)
      && (st.relay.complete ==> r.relay.complete)
      && (st.failed ==> r == st)
      && (!r.failed ==>
            && r.lines == st.lines + 1
            && r.framesReceived - st.framesReceived == |r.relay.frames| - |st.relay.frames|)
  {
    if !st.failed {
      var counted := st.(lines := st.lines + 1);
      var text := Strip(codec.utf8(line));
      if text != [] && codec.parseJson(text).Some? {
        var msg := codec.parseJson(text).value;
        if msg.JObject? {
          var frames := Get(msg.fields, "frames", JArray([]));
          if frames.JArray? {
            var scan := ScanEntries(frames.items, now);
            assert counted.relay.frames <= counted.relay.frames + scan.added;
          }
        }
      }
    }
  }

  /**
   * What any run of lines preserves: earlier frames stay in place, flags are
   * only raised, and while no line has failed, every line was counted and the
   * frame counter grew by exactly the number of frames appended.
   */
  lemma {:induction false} ReplayMonotone(st: IngestState, xs: seq<Bytes>, codec: Codec, now: string)
    ensures var r := Replay(st, xs, codec, now);
      && st.relay.frames <= r.relay.frames
      && (st.relay.started ==> r.relay.started)
      && (st.relay.complete ==> r.relay.complete)
      && (st.failed ==> r.failed)
      && (!r.failed ==>
            && r.lines == st.lines + |xs|
            && r.framesReceived - st.framesReceived == |r.relay.frames| - |st.relay.frames|)
    decreases |xs|
  {
    if xs != [] {
      var next := Step(st, xs[0], codec, now);
      StepMonotone(st, xs[0], codec, now);
      ReplayMonotone(next, xs[1..], codec, now);
      if next.failed {
        ReplayFailed(next, xs[1..], codec, now);
      }
    }
  }

  /** A blank line, or one that is not JSON, is counted and does nothing else. */
  lemma SkippedLine(st: IngestState, line: Bytes, codec: Codec, now: string)
    requires !st.failed
    requires Strip(codec.utf8(line)) == [] || codec.parseJson(Strip(codec.utf8(line))).None?
    ensures Step(st, line, codec, now) == st.(lines := st.lines + 1)
  {
  }

  /**
   * A `start` or `finished` message only raises its flag: it appends nothing,
   * even when it also carries a `frames` array.
   */
  lemma ControlLine(st: IngestState, line: Bytes, codec: Codec, now: string, fields: map<string, Value>)
    requires !st.failed
    requires Strip(codec.utf8(line)) != []
    requires codec.parseJson(Strip(codec.utf8(line))) == Some(JObject(fields))
    requires Get(fields, "status", JNull) in {JString("start"), JString("finished")}
    ensures var r := Step(st, line, codec, now);
      var status := Get(fields, "status", JNull);
      && r.relay.frames == st.relay.frames
      && r.relay.started == (st.relay.started || status == JString("start"))
      && r.relay.complete == (st.relay.complete || status == JString("finished"))
      && r.framesReceived == st.framesReceived && r.lines == st.lines + 1 && !r.failed
  {
  }

  /**
   * A frames message whose entries are all dicts appends, in input order, one
   * frame per entry with truthy `frame_data`, and the frame counter grows by
   * the same number.
   */
  lemma FramesLine(
    st: IngestState, line: Bytes, codec: Codec, now: string, fields: map<string, Value>, entries: seq<Value>)
    requires !st.failed
    requires Strip(codec.utf8(line)) != []
    requires codec.parseJson(Strip(codec.utf8(line))) == Some(JObject(fields))
    requires Get(fields, "status", JNull) != JString("start")
    requires Get(fields, "status", JNull) != JString("finished")
    requires Get(fields, "frames", JArray([])) == JArray(entries)
    requires forall k :: 0 <= k < |entries| ==> entries[k].JObject?
    ensures var r := Step(st, line, codec, now);
      && r.relay.frames == st.relay.frames + Kept(entries, now)
      && r.framesReceived == st.framesReceived + |Kept(entries, now)|
      && r.relay.started == st.relay.started && r.relay.complete == st.relay.complete
      && r.lines == st.lines + 1 && !r.failed
  {
    ScanAllObjects(entries, now);
  }

  /**
   * A non-dict entry makes `process_line` raise: the frames of the entries
   * before it stay appended, the frame counter is not bumped, and the request
   * fails.
   */
  lemma MalformedEntry(
    st: IngestState, line: Bytes, codec: Codec, now: string,
    fields: map<string, Value>, entries: seq<Value>, k: nat)
    requires !st.failed
    requires Strip(codec.utf8(line)) != []
    requires codec.parseJson(Strip(codec.utf8(line))) == Some(JObject(fields))
    requires Get(fields, "status", JNull) != JString("start")
    requires Get(fields, "status", JNull) != JString("finished")
    requires Get(fields, "frames", JArray([])) == JArray(entries)
    requires k < |entries| && !entries[k].JObject?
    requires forall j :: 0 <= j < k ==> entries[j].JObject?
    ensures var r := Step(st, line, codec, now);
      && r.failed
      && r.relay.frames == st.relay.frames + Kept(entries[..k], now)
      && r.framesReceived == st.framesReceived
  {
    var prefix := entries[..k];
    ScanAllObjects(prefix, now);
    assert entries[..k + 1][..k] == prefix;
    ScanStuck(entries, k + 1, now);
  }

  /**
   * A message that is not a dict, or a dict whose `frames` is truthy but not
   * a list, makes `process_line` raise: the line is counted, nothing is
   * appended, no flag moves, the frame counter is not bumped, and the request
   * fails.
   */
  lemma MalformedMessage(st: IngestState, line: Bytes, codec: Codec, now: string, msg: Value)
    requires !st.failed
    requires Strip(codec.utf8(line)) != []
    requires codec.parseJson(Strip(codec.utf8(line))) == Some(msg)
    requires !msg.JObject? ||
      (&& Get(msg.fields, "status", JNull) != JString("start")
       && Get(msg.fields, "status", JNull) != JString("finished")
       && Truthy(Get(msg.fields, "frames", JArray([])))
       && !Get(msg.fields, "frames", JArray([])).JArray?)
    ensures var r := Step(st, line, codec, now);
      && r.failed
      && r.relay == st.relay
      && r.framesReceived == st.framesReceived
      && r.lines == st.lines + 1
  {
  }

  /** One request's receiver as a value: the state and the bytes still waiting for a newline. */
  datatype Session = Session(state: IngestState, pending: Bytes)

  /**
   * One chunk: `buf += chunk`, then every complete line is cut off and
   * processed. A failed request reads no more; its buffer is discarded.
   */
  function Feed(r: Session, chunk: Bytes, codec: Codec, now: string): Session
  {
    if r.state.failed then r
    else
      var data := r.pending + chunk;
      var st := Replay(r.state, CompleteLines(data), codec, now);
      Session(st, if st.failed then [] else Remainder(data))
  }

  /** The end of the body: a non-empty remainder is processed as a last line. */
  function Finish(r: Session, codec: Codec, now: string): IngestState
  {
    if r.state.failed || r.pending == [] then r.state else Step(r.state, r.pending, codec, now)
  }

  /** The handler's reply: `{ok, lines, frames}`, or a 500 when `process_line` raised. */
  datatype Reply = Accepted(lines: nat, frames: nat) | ServerError

  function ReplyOf(st: IngestState): (reply: Reply)
    ensures reply.ServerError? <==> st.failed
    ensures reply.Accepted? ==> reply.lines == st.lines && reply.frames == st.framesReceived
  {
    if st.failed then ServerError else Accepted(st.lines, st.framesReceived)
  }

  /** Feeding `a` and then `b` is the same as feeding `a + b` in one chunk. */
  lemma FeedConcat(r: Session, a: Bytes, b: Bytes, codec: Codec, now: string)
    ensures Feed(Feed(r, a, codec, now), b, codec, now) == Feed(r, a + b, codec, now)
  {
    if !r.state.failed {
      FeedWhole(r, a, b, codec, now);
      var st1 := Replay(r.state, CompleteLines(r.pending + a), codec, now);
      if st1.failed {
        ReplayFailed(st1, CompleteLines(Remainder(r.pending + a) + b), codec, now);
      }
    }
  }

  /**
   * Feeding `a + b` in one chunk: the complete lines of the buffer with `a`,
   * then those of what is left of it with `b`.
   */
  lemma FeedWhole(r: Session, a: Bytes, b: Bytes, codec: Codec, now: string)
    requires !r.state.failed
    ensures var rem := Remainder(r.pending + a);
      var st := Replay(Replay(r.state, CompleteLines(r.pending + a), codec, now), CompleteLines(rem + b), codec, now);
      Feed(r, a + b, codec, now) == Session(st, if st.failed then [] else Remainder(rem + b))
  {
    var p := r.pending;
    var rem := Remainder(p + a);
    assert CompleteLines(p + (a + b)) == CompleteLines(p + a) + CompleteLines(rem + b)
        && Remainder(p + (a + b)) == Remainder(rem + b) by {
      ChunkBoundary(p + a, b);
      assert p + (a + b) == (p + a) + b;
    }
    ReplayAppend(r.state, CompleteLines(p + a), CompleteLines(rem + b), codec, now);
  }

  /**
   * The newline loop's exit: once `done` has been cut off the front of the
   * buffer and processed, and either no newline is left or a line failed,
   * the result is that of Feed.
   */
  lemma FeedAfterLoop(r: Session, chunk: Bytes, done: seq<Bytes>, rest: Bytes, st: IngestState, codec: Codec, now: string)
    requires !r.state.failed
    requires Split(r.pending + chunk) == done + Split(rest)
    requires st == Replay(r.state, done, codec, now)
    requires st.failed || NL !in rest
    ensures Feed(r, chunk, codec, now) == Session(st, if st.failed then [] else rest)
  {
    SplitPrefix(r.pending + chunk, done, rest);
    ReplayAppend(r.state, done, CompleteLines(rest), codec, now);
    if st.failed {
      ReplayFailed(st, CompleteLines(rest), codec, now);
    } else {
      NoNewline(rest);
    }
  }

  /** One more line cut off the buffer: the lines cut from `start` so far grow by that line. */
  lemma SplitExtends(start: Bytes, done: seq<Bytes>, p1: Bytes, line: Bytes, p2: Bytes)
    requires Split(start) == done + Split(p1) && Split(p1) == [line] + Split(p2)
    ensures Split(start) == (done + [line]) + Split(p2)
  {
  }

  /** ... and so does the state they lead to. */
  lemma ReplayExtends(done: seq<Bytes>, line: Bytes, st0: IngestState, s1: IngestState, s2: IngestState, codec: Codec, now: string)
    requires s1 == Replay(st0, done, codec, now) && s2 == Step(s1, line, codec, now)
    ensures s2 == Replay(st0, done + [line], codec, now)
  {
    ReplaySnoc(st0, done, line, codec, now);
  }

  /** Feeding the chunks one by one: one more chunk extends the bytes fed so far. */
  lemma FeedNextChunk(r: Session, chunks: seq<Bytes>, i: nat, codec: Codec, now: string)
    requires i < |chunks|
    ensures Feed(Feed(r, Flatten(chunks[..i]), codec, now), chunks[i], codec, now)
         == Feed(r, Flatten(chunks[..i + 1]), codec, now)
  {
    assert chunks[..i + 1][..i] == chunks[..i];
    FeedConcat(r, Flatten(chunks[..i]), chunks[i], codec, now);
  }

  /** Feeding nothing to a fresh receiver changes nothing. */
  lemma FeedNothing(st: IngestState, codec: Codec, now: string)
    ensures Feed(Session(st, []), [], codec, now) == Session(st, [])
  {
    assert Split([]) == [[]];
    if !st.failed {
      assert CompleteLines([] + []) == [];
    }
  }

  /**
   * The lines `process_line` sees for a whole body fed in one chunk are its
   * newline-separated pieces, with the last piece only when it is not empty.
   * With FeedConcat, the same holds for any chunking of the body.
   */
  lemma WholeStream(st: IngestState, body: Bytes, codec: Codec, now: string)
    ensures Finish(Feed(Session(st, []), body, codec, now), codec, now) == Replay(st, Lines(body), codec, now)
  {
    if st.failed {
      ReplayFailed(st, Lines(body), codec, now);
    } else {
      assert [] + body == body;
      var st1 := Replay(st, CompleteLines(body), codec, now);
      SplitIsLinesAndRemainder(body);
      ReplayAppend(st, CompleteLines(body), [Remainder(body)], codec, now);
      if st1.failed {
        ReplayFailed(st1, [Remainder(body)], codec, now);
      }
    }
  }

  /**
   * The message handling as the source is written: `process_line` assigns
   * the two flags without a `global` declaration of its own, so Python binds
   * them as locals of `process_line` and a control message leaves the relay's
   * flags untouched.
   */
  function DispatchAsWritten(st: IngestState, msg: Value, now: string): (r: IngestState)
    ensures msg.JObject? && Get(msg.fields, "status", JNull) in {JString("start"), JString("finished")} ==> r == st
  {
    if msg.JObject? && Get(msg.fields, "status", JNull) in {JString("start"), JString("finished")} then st
    else Dispatch(st, msg, now)
  }

  /**
   * The discrepancy: as written, a `start` or `finished` message never raises
   * its flag, so the MJPEG loop never sees `processing_complete` and the
   * polling reply never reports either flag; Dispatch raises it, as the log
   * lines beside the assignments say is meant.
   */
  lemma ControlSignalsLostAsWritten(st: IngestState, now: string, status: string)
    requires status == "start" || status == "finished"
    requires !st.relay.started && !st.relay.complete
    ensures var msg := JObject(map["status" := JString(status)]);
      && !DispatchAsWritten(st, msg, now).relay.started
      && !DispatchAsWritten(st, msg, now).relay.complete
      && (Dispatch(st, msg, now).relay.started || Dispatch(st, msg, now).relay.complete)
  {
  }
}
