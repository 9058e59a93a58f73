/**
 * Byte strings and the newline splitting of the NDJSON receiver
 * (`buf.find(b"\n")` and the slicing loop of `stream_frames_handler`).
 */
module ByteLines {

  newtype byte = b: int | 0 <= b < 256

  type Bytes = seq<byte>

  const NL: byte := 10

  /** `s.find(x)`: the first index holding `x`, or -1. */
  function Find(s: Bytes, x: byte): (i: int)
    ensures -1 <= i < |s|
    ensures i < 0 <==> x !in s
    ensures 0 <= i ==> s[i] == x && x !in s[..i]
    decreases |s|
  {
    if s == [] then -1
    else if s[0] == x then 0
    else
      var j := Find(s[1..], x);
      assert s == [s[0]] + s[1..];
      if j < 0 then -1
      else
        assert s[..j + 1] == [s[0]] + s[1..][..j];
        j + 1
  }

  /** The first occurrence is the only index satisfying Find's contract. */
  lemma FindUnique(s: Bytes, x: byte, i: nat)
    requires i < |s| && s[i] == x && x !in s[..i]
    ensures Find(s, x) == i
  {
    assert x in s;
  }

  /**
   * `s.split(b"\n")`: the pieces between newlines, in order. There is always
   * one more piece than there are newlines; the last piece is what follows the
   * last newline (possibly empty).
   */
  function Split(s: Bytes): (parts: seq<Bytes>)
    ensures |parts| >= 1
    ensures forall k :: 0 <= k < |parts| ==> NL !in parts[k]
    decreases |s|
  {
    var i := Find(s, NL);
    if i < 0 then [s] else [s[..i]] + Split(s[i + 1..])
  }

  /** Cutting at the first newline: the line before it, then the pieces after it. */
  lemma SplitAtFirst(s: Bytes, i: int)
    requires 0 <= i && i == Find(s, NL)
    ensures Split(s) == [s[..i]] + Split(s[i + 1..])
  {
  }

  /** `b"\n".join(parts)`: the inverse of Split. */
  function JoinLines(parts: seq<Bytes>): Bytes
    requires |parts| >= 1
    decreases |parts|
  {
    if |parts| == 1 then parts[0] else parts[0] + [NL] + JoinLines(parts[1..])
  }

  /** Joining a piece in front of at least one more puts a newline between them. */
  lemma JoinCons(p: Bytes, rest: seq<Bytes>)
    requires |rest| >= 1
    ensures JoinLines([p] + rest) == p + [NL] + JoinLines(rest)
  {
    assert ([p] + rest)[1..] == rest;
  }

  /** Splitting loses nothing: joining the pieces gives the input back. */
  lemma {:induction false} JoinSplit(s: Bytes)
    ensures JoinLines(Split(s)) == s
    decreases |s|
  {
    var i := Find(s, NL);
    if i >= 0 {
      var tail := s[i + 1..];
      SplitAtFirst(s, i);
      JoinSplit(tail);
      JoinCons(s[..i], Split(tail));
      assert s == s[..i] + [NL] + tail;
    } else {
      assert Split(s) == [s];
    }
  }

  /** Splitting a join of newline-free pieces gives the pieces back. */
  lemma {:induction false} SplitJoin(parts: seq<Bytes>)
    requires |parts| >= 1
    requires forall k :: 0 <= k < |parts| ==> NL !in parts[k]
    ensures Split(JoinLines(parts)) == parts
    decreases |parts|
  {
    if |parts| > 1 {
      var p := parts[0];
      var tail := JoinLines(parts[1..]);
      var s := p + [NL] + tail;
      assert JoinLines(parts) == s;
      assert s[..|p|] == p;
      FindUnique(s, NL, |p|);
      assert s[|p| + 1..] == tail;
      SplitJoin(parts[1..]);
      assert parts == [p] + parts[1..];
    }
  }

  /** The newline-terminated lines of `s`: every piece but the last. */
  function CompleteLines(s: Bytes): seq<Bytes>
  {
    var p := Split(s);
    p[..|p| - 1]
  }

  /** What follows the last newline of `s`: the bytes still waiting for one. */
  function Remainder(s: Bytes): (r: Bytes)
    ensures NL !in r
  {
    var p := Split(s);
    p[|p| - 1]
  }

  /** The lines a whole body yields: the complete lines, plus the remainder when it is not empty. */
  function Lines(s: Bytes): seq<Bytes>
  {
    if Remainder(s) == [] then CompleteLines(s) else Split(s)
  }

  /** The lines of a whole body are its complete lines, then its remainder unless that is empty. */
  lemma LinesOfBody(s: Bytes)
    ensures Lines(s) == CompleteLines(s) + (if Remainder(s) == [] then [] else [Remainder(s)])
  {
    SplitIsLinesAndRemainder(s);
  }

  /** Bytes without a newline are a single piece. */
  lemma NoNewline(s: Bytes)
    requires NL !in s
    ensures Split(s) == [s] && CompleteLines(s) == [] && Remainder(s) == s
  {
  }

  /** Lines already cut off the front of `data` followed by the pieces of the rest. */
  lemma SplitPrefix(data: Bytes, done: seq<Bytes>, rest: Bytes)
    requires Split(data) == done + Split(rest)
    ensures CompleteLines(data) == done + CompleteLines(rest)
    ensures Remainder(data) == Remainder(rest)
  {
    var p := Split(rest);
    assert (done + p)[..|done| + |p| - 1] == done + p[..|p| - 1];
  }

  lemma SplitIsLinesAndRemainder(s: Bytes)
    ensures Split(s) == CompleteLines(s) + [Remainder(s)]
  {
  }

  /**
   * Cutting a byte stream in two does not change its pieces: the pieces of
   * `a + b` are the complete lines of `a` followed by the pieces of what
   * was left over from `a` with `b` appended.
   */
  lemma {:induction false} SplitConcat(a: Bytes, b: Bytes)
    ensures Split(a + b) == CompleteLines(a) + Split(Remainder(a) + b)
    decreases |a|
  {
    var i := Find(a, NL);
    if i >= 0 {
      var tail := a[i + 1..];
      SplitAtFirst(a, i);
      SplitFront(a, b, i);
      SplitConcat(tail, b);
      SplitPrefix(a, [a[..i]], tail);
    } else {
      assert Split(a) == [a];
    }
  }

  /** A newline inside `a` is the first one of `a + b` as well. */
  lemma SplitFront(a: Bytes, b: Bytes, i: int)
    requires 0 <= i && i == Find(a, NL)
    ensures Split(a + b) == [a[..i]] + Split(a[i + 1..] + b)
  {
    var ab := a + b;
    assert ab[..i] == a[..i];
    FindUnique(ab, NL, i);
    assert ab[i + 1..] == a[i + 1..] + b;
    SplitAtFirst(ab, i);
  }

  /**
   * Chunk independence of the line splitter: feeding `a` then `b` emits the
   * same lines, and keeps the same remainder, as feeding `a + b` at once.
   */
  lemma ChunkBoundary(a: Bytes, b: Bytes)
    ensures CompleteLines(a + b) == CompleteLines(a) + CompleteLines(Remainder(a) + b)
    ensures Remainder(a + b) == Remainder(Remainder(a) + b)
  {
    SplitConcat(a, b);
    SplitPrefix(a + b, CompleteLines(a), Remainder(a) + b);
  }

  /** The concatenation of a sequence of byte strings, in order. */
  function Flatten(chunks: seq<Bytes>): Bytes
    decreases |chunks|
  {
    if chunks == [] then [] else Flatten(chunks[..|chunks| - 1]) + chunks[|chunks| - 1]
  }

  /** One more chunk extends the concatenation by that chunk. */
  lemma FlattenSnoc(chunks: seq<Bytes>, k: nat)
    requires k < |chunks|
    ensures Flatten(chunks[..k + 1]) == Flatten(chunks[..k]) + chunks[k]
  {
    assert chunks[..k + 1][..k] == chunks[..k];
  }

  /** The concatenation of the first `k` chunks is a prefix of the whole concatenation. */
  lemma {:induction false} FlattenPrefix(chunks: seq<Bytes>, k: nat)
    requires k <= |chunks|
    ensures Flatten(chunks[..k]) <= Flatten(chunks)
    decreases |chunks| - k
  {
    if k == |chunks| {
      assert chunks[..k] == chunks;
    } else {
      FlattenPrefix(chunks, k + 1);
      FlattenSnoc(chunks, k);
      var whole := Flatten(chunks);
      var longer := Flatten(chunks[..k + 1]);
      assert whole[..|longer|] == longer;
      assert longer[..|Flatten(chunks[..k])|] == Flatten(chunks[..k]);
    }
  }
}
