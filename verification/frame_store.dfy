/**
 * The relay's shared state: the global frame list and the two session flags
 * (`frame_buffer`, `processing_complete`, `start_signal_received`), the
 * buffer reset, and the polling read.
 */
module FrameStore {
  import opened Wrappers
  import opened Json

  /**
   * One buffered frame: the producer's `frame_number` (any JSON value, 0 when
   * absent), the `frame_data` value as received (base64 text, still encoded),
   * and the ingestion timestamp, kept as opaque text.
   */
  datatype Frame = Frame(number: Value, data: Value, stamp: string)

  /** The relay's shared state as a value. */
  datatype RelayState = RelayState(frames: seq<Frame>, started: bool, complete: bool)

  /** The process-wide state, updated in place by the ingest and clear handlers. */
  class Relay {
    var frames: seq<Frame>
    var started: bool
    var complete: bool

    /** The state at process start: no frames, neither flag set. */
    constructor ()
      ensures State() == RelayState([], false, false)
    {
      frames := [];
      started := false;
      complete := false;
    }

    function State(): RelayState
      reads this
    {
      RelayState(frames, started, complete)
    }

    /** The clear handler: empties the list and lowers both flags, whatever they were. */
    method Clear()
      modifies this
      ensures State() == RelayState([], false, false)
    {
      frames := [];
      complete := false;
      started := false;
    }
  }

  /** The JSON body of the polling reply. */
  datatype PollReply = PollReply(
    frames: seq<Frame>,
    bufferSize: nat,
    nextIndex: nat,
    processingComplete: bool,
    startSignalReceived: bool)

  /**
   * The polling handler. `fromIndex` is the `from_index` query parameter, if
   * any; `parseInt` stands for Python's `int()` on it (None where it raises
   * ValueError).
   */
  function Poll(s: RelayState, fromIndex: Option<string>, parseInt: string -> Option<int>): (r: PollReply)
    ensures r.bufferSize == |s.frames| && r.nextIndex == |s.frames|
    ensures r.processingComplete == s.complete && r.startSignalReceived == s.started
    ensures |r.frames| <= |s.frames| && r.frames == s.frames[|s.frames| - |r.frames|..]
    ensures fromIndex.None? ==> r.frames == s.frames
    ensures fromIndex.Some? && parseInt(fromIndex.value).None? ==> r.frames == s.frames
    ensures fromIndex.Some? && parseInt(fromIndex.value).Some? ==>
      var n := parseInt(fromIndex.value).value;
      && (n <= 0 ==> r.frames == s.frames)
      && (|s.frames| <= n ==> r.frames == [])
      && (0 <= n < |s.frames| ==> |r.frames| == |s.frames| - n && r.frames[0] == s.frames[n])
  {
    var slice :=
      match fromIndex
      case None => s.frames
      case Some(q) =>
        var start := match parseInt(q) case None => 0 case Some(n) => if n < 0 then 0 else n;
        if start < |s.frames| then s.frames[start..] else [];
    PollReply(slice, |s.frames|, |s.frames|, s.complete, s.started)
  }

  /**
   * Resumable polling: a client that polls, then polls again from the
   * returned `next_index` after more frames were appended (and nothing was
   * cleared), receives every frame from its first start position exactly
   * once, in order.
   */
  lemma ResumePolling(
    s1: RelayState, s2: RelayState, q1: Option<string>, q2: string, parseInt: string -> Option<int>)
    requires s1.frames <= s2.frames
    requires parseInt(q2) == Some(Poll(s1, q1, parseInt).nextIndex)
    ensures var first := Poll(s1, q1, parseInt).frames;
      first + Poll(s2, Some(q2), parseInt).frames == s2.frames[|s1.frames| - |first|..]
  {
    var first := Poll(s1, q1, parseInt).frames;
    var second := Poll(s2, Some(q2), parseInt).frames;
    assert second == s2.frames[|s1.frames|..];
    assert first == s2.frames[|s1.frames| - |first|..|s1.frames|];
  }
}
