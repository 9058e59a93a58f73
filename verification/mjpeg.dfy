/**
 * The MJPEG viewer: one `GET /mjpeg_stream` response walking a private
 * cursor over the shared frame list and writing one multipart part per
 * decodable entry, then the closing boundary.
 */
module Mjpeg {
  import opened Wrappers
  import opened ByteLines
  import opened Json
  import opened FrameStore

  /** `--frame\r\n` */
  const Boundary: Bytes := [45, 45, 102, 114, 97, 109, 101, 13, 10]
  /** `Content-Type: image/jpeg\r\n\r\n` */
  const PartHeader: Bytes :=
    [67, 111, 110, 116, 101, 110, 116, 45, 84, 121, 112, 101, 58, 32,
     105, 109, 97, 103, 101, 47, 106, 112, 101, 103, 13, 10, 13, 10]
  /** `\r\n` */
  const Crlf: Bytes := [13, 10]
  /** `--frame--\r\n` */
  const ClosingBoundary: Bytes := [45, 45, 102, 114, 97, 109, 101, 45, 45, 13, 10]

  /** The four writes of one part, in the order the handler issues them. */
  function PartWrites(payload: Bytes): seq<Bytes>
  {
    [Boundary, PartHeader, payload, Crlf]
  }

  /** One complete part: the bytes of its four writes, in order (see PartBytes). */
  function Part(payload: Bytes): Bytes
  {
    Flatten(PartWrites(payload))
  }

  /** The part an entry produces: none when its `frame_data` does not decode. */
  function EntryPart(entry: Frame, decode: Value -> Option<Bytes>): Bytes
  {
    match decode(entry.data)
    case None => []
    case Some(payload) => Part(payload)
  }

  /**
   * Reference rendering of a sequence of visited entries: the parts of the
   * decodable ones, in visiting order.
   */
  function Render(entries: seq<Frame>, decode: Value -> Option<Bytes>): Bytes
    decreases |entries|
  {
    if entries == [] then []
    else Render(entries[..|entries| - 1], decode) + EntryPart(entries[|entries| - 1], decode)
  }

  /** Visiting one more entry adds its part, if any, at the end. */
  lemma RenderSnoc(entries: seq<Frame>, entry: Frame, decode: Value -> Option<Bytes>)
    ensures Render(entries + [entry], decode) == Render(entries, decode) + EntryPart(entry, decode)
  {
    assert (entries + [entry])[..|entries|] == entries;
  }

  /** Rendering two runs of entries is rendering each in turn. */
  lemma {:induction false} RenderAppend(a: seq<Frame>, b: seq<Frame>, decode: Value -> Option<Bytes>)
    ensures Render(a + b, decode) == Render(a, decode) + Render(b, decode)
    decreases |b|
  {
    if b == [] {
      assert a + b == a;
    } else {
      var n := |b| - 1;
      var init := b[..n];
      assert a + b == (a + init) + [b[n]];
      assert b == init + [b[n]];
      RenderSnoc(a + init, b[n], decode);
      RenderSnoc(init, b[n], decode);
      RenderAppend(a, init, decode);
    }
  }

  /** Entries none of which decodes render as nothing: zero parts. */
  lemma {:induction false} RenderUndecodable(entries: seq<Frame>, decode: Value -> Option<Bytes>)
    requires forall i :: 0 <= i < |entries| ==> decode(entries[i].data).None?
    ensures Render(entries, decode) == []
    decreases |entries|
  {
    if entries != [] {
      RenderUndecodable(entries[..|entries| - 1], decode);
    }
  }

  /** Entries that all decode render as one part each, in order. */
  lemma {:induction false} RenderDecodable(entries: seq<Frame>, payloads: seq<Bytes>, decode: Value -> Option<Bytes>)
    requires |payloads| == |entries|
    requires forall i :: 0 <= i < |entries| ==> decode(entries[i].data) == Some(payloads[i])
    ensures Render(entries, decode) == Flatten(seq(|payloads|, i requires 0 <= i < |payloads| => Part(payloads[i])))
    decreases |entries|
  {
    var parts := seq(|payloads|, i requires 0 <= i < |payloads| => Part(payloads[i]));
    if entries != [] {
      var n := |entries| - 1;
      var init := seq(n, i requires 0 <= i < n => Part(payloads[..n][i]));
      assert parts[..n] == init;
      RenderDecodable(entries[..n], payloads[..n], decode);
    }
  }

  /** A part is the boundary, the JPEG header, the payload and a CRLF. */
  lemma PartBytes(payload: Bytes)
    ensures Part(payload) == Boundary + PartHeader + payload + Crlf
  {
    var w := PartWrites(payload);
    assert w[..4] == w && w[..0] == [];
    FlattenSnoc(w, 0);
    FlattenSnoc(w, 1);
    FlattenSnoc(w, 2);
    FlattenSnoc(w, 3);
  }

  /** The first `k` writes of a part deliver a prefix of the part. */
  lemma SentPrefix(payload: Bytes, k: nat)
    requires k <= 4
    ensures Flatten(PartWrites(payload)[..k]) <= Part(payload)
  {
    FlattenPrefix(PartWrites(payload), k);
  }

  lemma PrefixAfter(a: Bytes, x: Bytes, y: Bytes)
    requires x <= y
    ensures a + x <= a + y
  {
    assert (a + y)[..|a + x|] == a + x;
  }

  /**
   * After the first `k` writes of a visited entry's part, the client holds a
   * prefix of the rendering of the entries visited, and all of it once the
   * four writes went through.
   */
  lemma PartDelivered(prior: seq<Frame>, entry: Frame, decode: Value -> Option<Bytes>, payload: Bytes, k: nat)
    requires decode(entry.data) == Some(payload) && k <= 4
    ensures Render(prior, decode) + Flatten(PartWrites(payload)[..k]) <= Render(prior + [entry], decode)
    ensures k == 4 ==> Render(prior, decode) + Flatten(PartWrites(payload)[..k]) == Render(prior + [entry], decode)
  {
    RenderSnoc(prior, entry, decode);
    SentPrefix(payload, k);
    PrefixAfter(Render(prior, decode), Flatten(PartWrites(payload)[..k]), Part(payload));
    assert PartWrites(payload)[..4] == PartWrites(payload);
  }

  function Min(a: nat, b: nat): nat
  {
    if a < b then a else b
  }

  /**
   * Where the handler is: in the wait for the first frame, in the
   * `while True` loop, in the `finally` block, or returned.
   */
  datatype Phase = Waiting | Streaming | Closing | Done

  class Viewer {
    const relay: Relay
    /** `base64.b64decode(entry['frame_data'])`; None where it raises. */
    const decode: Value -> Option<Bytes>
    /** `read_index`. */
    var cursor: nat
    /** The bytes delivered to the client so far. */
    var output: Bytes
    var phase: Phase
    /** The entries the cursor has passed over, as they were when visited. */
    ghost var visited: seq<Frame>

    /**
     * The cursor counts the entries visited; while the loop runs the client
     * has received exactly their parts, and once it has stopped a prefix of
     * them.
     */
    ghost predicate Valid()
      reads this
    {
      && cursor == |visited|
      && (phase == Waiting ==> visited == [])
      && (phase == Waiting || phase == Streaming ==> output == Render(visited, decode))
      && (phase == Closing ==> output <= Render(visited, decode))
    }

    /** A response that has been prepared: nothing read, nothing written. */
    constructor (relay: Relay, decode: Value -> Option<Bytes>)
      ensures this.relay == relay && this.decode == decode
      ensures Valid() && phase == Waiting
      ensures cursor == 0 && output == [] && visited == []
    {
      this.relay := relay;
      this.decode := decode;
      cursor := 0;
      output := [];
      phase := Waiting;
      visited := [];
    }

    /**
     * One test of the wait loop: it goes on waiting while the list is empty
     * and the session is not complete.
     */
    method WaitStep()
      requires Valid() && phase == Waiting
      modifies this`phase
      ensures Valid()
      ensures phase == if |relay.frames| == 0 && !relay.complete then Waiting else Streaming
    {
      if cursor >= |relay.frames| && !relay.complete {
        return;
      }
      phase := Streaming;
    }

    /**
     * One turn of the `while True` loop. `writesOk` is how many of the part's
     * writes the transport accepts before one raises (4 or more: all).
     */
    method DrainStep(writesOk: nat)
      requires Valid() && phase == Streaming
      modifies this
      ensures Valid()
      ensures old(cursor) < |relay.frames| ==>
        var entry := relay.frames[old(cursor)];
        && cursor == old(cursor) + 1
        && visited == old(visited) + [entry]
        && match decode(entry.data)
           case None => output == old(output) && phase == Streaming
           case Some(payload) =>
             && output == old(output) + Flatten(PartWrites(payload)[..Min(writesOk, 4)])
             && phase == if writesOk < 4 then Closing else Streaming
      ensures |relay.frames| <= old(cursor) ==>
        && cursor == old(cursor) && visited == old(visited) && output == old(output)
        && phase == if relay.complete then Closing else Streaming
    {
      if cursor < |relay.frames| {
        VisitNext(writesOk);
      } else if relay.complete {
        phase := Closing;
      }
    }

    /** The branch of that turn where an entry is waiting under the cursor. */
    method VisitNext(writesOk: nat)
      requires Valid() && phase == Streaming && cursor < |relay.frames|
      modifies this
      ensures Valid()
      ensures var entry := relay.frames[old(cursor)];
        && cursor == old(cursor) + 1
        && visited == old(visited) + [entry]
        && match decode(entry.data)
           case None => output == old(output) && phase == Streaming
           case Some(payload) =>
             && output == old(output) + Flatten(PartWrites(payload)[..Min(writesOk, 4)])
             && phase == if writesOk < 4 then Closing else Streaming
    {
      var entry := relay.frames[cursor];
      cursor := cursor + 1;
      visited := visited + [entry];
      var frameBytes := decode(entry.data);
      if frameBytes.None? {
        RenderSnoc(old(visited), entry, decode);
        return;
      }
      var ok := WritePart(frameBytes.value, writesOk);
      PartDelivered(old(visited), entry, decode, frameBytes.value, Min(writesOk, 4));
      if !ok {
        phase := Closing;
      }
    }

    /** The four writes of one part, stopping at the first that raises. */
    method WritePart(payload: Bytes, writesOk: nat) returns (ok: bool)
      modifies this`output
      ensures ok <==> 4 <= writesOk
      ensures output == old(output) + Flatten(PartWrites(payload)[..Min(writesOk, 4)])
    {
      var w := PartWrites(payload);
      ok := false;
      assert w[..0] == [];
      if writesOk < 1 {
        return;
      }
      Send(w, 0, old(output));
      if writesOk < 2 {
        return;
      }
      Send(w, 1, old(output));
      if writesOk < 3 {
        return;
      }
      Send(w, 2, old(output));
      if writesOk < 4 {
        return;
      }
      Send(w, 3, old(output));
      ok := true;
    }

    /**
     * One `response.write` that goes through: the `k`-th of `writes` is
     * delivered after the ones before it.
     */
    method Send(writes: seq<Bytes>, k: nat, ghost start: Bytes)
      requires k < |writes| && output == start + Flatten(writes[..k])
      modifies this`output
      ensures output == start + Flatten(writes[..k + 1])
    {
      output := output + writes[k];
      FlattenSnoc(writes, k);
    }

    /** The `finally` block: the closing boundary is attempted once, its failure ignored. */
    method Close(closeOk: bool)
      requires Valid() && phase == Closing
      modifies this`output, this`phase
      ensures Valid() && phase == Done
      ensures output == old(output) + if closeOk then ClosingBoundary else []
    {
      if closeOk {
        output := output + ClosingBoundary;
      }
      phase := Done;
    }
  }

  /**
   * A viewer of a finished session whose list no writer touches while it is
   * served, over a transport that accepts every write: it visits every entry
   * once, in order, and the client receives the part of every decodable
   * entry followed by the closing boundary.
   */
  method ServeToEnd(v: Viewer)
    requires v.Valid() && v.phase == Waiting && v.output == []
    requires v.relay.complete
    modifies v
    ensures v.phase == Done
    ensures v.visited == v.relay.frames && v.cursor == |v.relay.frames|
    ensures v.output == Render(v.relay.frames, v.decode) + ClosingBoundary
  {
    v.WaitStep();
    while v.phase == Streaming
      invariant v.Valid() && v.phase in {Streaming, Closing}
      invariant v.cursor <= |v.relay.frames| && v.visited == v.relay.frames[..v.cursor]
      invariant v.phase == Closing ==> v.cursor == |v.relay.frames| && v.output == Render(v.visited, v.decode)
      decreases |v.relay.frames| - v.cursor, v.phase == Streaming
    {
      v.DrainStep(4);
    }
    assert v.relay.frames[..v.cursor] == v.relay.frames;
    v.Close(true);
  }
}
