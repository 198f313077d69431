/** A RESP stream may be cut anywhere: `decoder.rs`. */
module RespStream {
  import opened Bytes
  import opened Streaming
  import opened Resp

  // ---- A result is final ----

  lemma {:induction false} FindStable(s: Data, t: Data)
    requires FindCrlf(s).Some?
    ensures FindCrlf(s + t) == FindCrlf(s)
  {
    if !(s[0] == 13 && s[1] == 10) {
      FindStable(s[1..], t);
      assert (s + t)[1..] == s[1..] + t;
    }
  }

  lemma LineStable(s: Data, t: Data)
    requires !ParseLine(s).More?
    ensures ParseLine(s + t) == ParseLine(s)
  {
    hide FindCrlf, Utf8;
    FindStable(s, t);
    assert (s + t)[..FindCrlf(s).value] == s[..FindCrlf(s).value];
  }

  lemma IntegerStable(s: Data, t: Data)
    requires !ParseIntegerLine(s).More?
    ensures ParseIntegerLine(s + t) == ParseIntegerLine(s)
  {
    hide ParseLine;
    LineStable(s, t);
  }

  lemma PayloadStable(s: Data, t: Data, start: nat, len: nat)
    requires Payload(s, start, len).Done?
    ensures Payload(s + t, start, len) == Payload(s, start, len)
  {
    var end := start + len;
    assert (s + t)[end..end + 2] == s[end..end + 2] && (s + t)[start..end] == s[start..end];
  }

  lemma BulkStable(s: Data, t: Data)
    requires !ParseBulk(s).More?
    ensures ParseBulk(s + t) == ParseBulk(s)
  {
    hide ParseIntegerLine, Payload;
    IntegerStable(s, t);
    var head := ParseIntegerLine(s);
    if head.Done? && 0 <= head.value <= MAX_BULK_LEN {
      PayloadStable(s, t, head.used, head.value);
    }
  }

  lemma BlobErrorStable(s: Data, t: Data)
    requires !ParseBlobError(s).More?
    ensures ParseBlobError(s + t) == ParseBlobError(s)
  {
    hide ParseIntegerLine, Payload, Utf8, FindSpace;
    IntegerStable(s, t);
    var head := ParseIntegerLine(s);
    if head.Done? && 0 <= head.value <= MAX_BULK_LEN {
      PayloadStable(s, t, head.used, head.value);
    }
  }

  lemma VerbatimStable(s: Data, t: Data)
    requires !ParseVerbatim(s).More?
    ensures ParseVerbatim(s + t) == ParseVerbatim(s)
  {
    hide ParseIntegerLine, Payload;
    IntegerStable(s, t);
    var head := ParseIntegerLine(s);
    if head.Done? && 4 <= head.value <= MAX_BULK_LEN {
      PayloadStable(s, t, head.used, head.value);
    }
  }

  lemma FoundStable(s: Data, t: Data)
    requires FindCrlf(s).Some?
    ensures FindCrlf(s + t) == FindCrlf(s) && (s + t)[..FindCrlf(s).value] == s[..FindCrlf(s).value]
  {
    FindStable(s, t);
  }

  lemma LeafStable(floats: Floats, marker: byte, s: Data, t: Data)
    requires !ParseLeaf(floats, marker, s).More?
    ensures ParseLeaf(floats, marker, s + t) == ParseLeaf(floats, marker, s)
  {
    hide ParseLine, ParseIntegerLine, ParseBulk, ParseBlobError, ParseVerbatim, FindCrlf, IsBigNumber;
    if !ParseLine(s).More? {
      LineStable(s, t);
    }
    if !ParseIntegerLine(s).More? {
      IntegerStable(s, t);
    }
    if FindCrlf(s).Some? {
      FoundStable(s, t);
    }
    if !ParseBulk(s).More? {
      BulkStable(s, t);
    }
    if !ParseBlobError(s).More? {
      BlobErrorStable(s, t);
    }
    if !ParseVerbatim(s).More? {
      VerbatimStable(s, t);
    }
  }

  /** A frame or an error is final: bytes that follow do not change it. */
  lemma {:induction false} FrameStable(floats: Floats, s: Data, depth: nat, t: Data)
    requires !ParseFrame(floats, s, depth).More?
    ensures ParseFrame(floats, s + t, depth) == ParseFrame(floats, s, depth)
    decreases |s|, 0
  {
    hide ParseLeaf, ParseAggregate;
    assert (s + t)[1..] == s[1..] + t;
    if depth <= MAX_NESTING_DEPTH {
      if IsAggregate(s[0]) {
        AggregateStable(floats, s[1..], KindOf(s[0]), depth, t);
      } else {
        LeafStable(floats, s[0], s[1..], t);
      }
    }
  }

  lemma {:induction false} AggregateStable(floats: Floats, s: Data, kind: Kind, depth: nat, t: Data)
    requires !ParseAggregate(floats, s, kind, depth).More?
    ensures ParseAggregate(floats, s + t, kind, depth) == ParseAggregate(floats, s, kind, depth)
    decreases |s|, 0
  {
    hide ParseIntegerLine, ParseItems;
    IntegerStable(s, t);
    var head := ParseIntegerLine(s);
    if head.Done? && 0 <= head.value <= MAX_AGGREGATE_LEN {
      assert (s + t)[head.used..] == s[head.used..] + t;
      ItemsStable(floats, s[head.used..], if kind.KMap? then head.value * 2 else head.value, depth + 1, t);
    }
  }

  lemma {:induction false} ItemsStable(floats: Floats, s: Data, count: nat, depth: nat, t: Data)
    requires !ParseItems(floats, s, count, depth).More?
    ensures ParseItems(floats, s + t, count, depth) == ParseItems(floats, s, count, depth)
    decreases |s|, count + 1
  {
    hide ParseFrame;
    if count > 0 {
      FrameStable(floats, s, depth, t);
      var f := ParseFrame(floats, s, depth);
      if f.Done? {
        assert (s + t)[f.used..] == s[f.used..] + t;
        ItemsStable(floats, s[f.used..], count - 1, depth, t);
      }
    }
  }

  // ---- The decoder ----

  /** What the front of a buffer holds. */
  function FirstOf(r: Parse<Frame>): First<Frame, ParseError> {
    match r
    case Done(f, used) => Whole(f, used)
    case More => Part
    case Bad(e) => Wrong(e)
  }

  function RespFirst(floats: Floats): Data -> First<Frame, ParseError> {
    (s: Data) => FirstOf(ParseFrame(floats, s, 0))
  }

  lemma RespDecodes(floats: Floats)
    ensures Decodes(RespFirst(floats)) && RespFirst(floats)([]).Part?
  {
    var first := RespFirst(floats);
    forall s, t ensures Final(first, s, t) {
      if !first(s).Part? {
        FrameStable(floats, s, 0, t);
      }
    }
  }

  /** However a RESP stream is cut into chunks, the decoder emits the frames and the first error of the
      whole stream. */
  lemma RespChunking(floats: Floats, chunks: seq<Data>)
    ensures Decodes(RespFirst(floats))
    ensures var (r, whole) := (Read(RespFirst(floats), [], chunks), Drain(RespFirst(floats), Joined(chunks)));
            r.frames == whole.frames && r.error == whole.error && (r.error.None? ==> r.left == whole.left)
  {
    hide Decodes, Read, Drain;
    RespDecodes(floats);
    ChunkingInvariant(RespFirst(floats), chunks);
  }

  class FrameDecoder {
    var buf: Data

    constructor ()
      ensures buf == []
    {
      buf := [];
    }

    method Feed(bytes: Data)
      modifies this
      ensures buf == old(buf) + bytes
    {
      buf := buf + bytes;
    }

    /** `decode`: a frame leaves the buffer, an error stays in it. */
    method Decode(floats: Floats) returns (r: Parse<Frame>)
      modifies this
      ensures r == ParseFrame(floats, old(buf), 0)
      ensures buf == if r.Done? then old(buf)[r.used..] else old(buf)
    {
      r := ParseFrame(floats, buf, 0);
      if r.Done? {
        buf := buf[r.used..];
      }
    }

    /** The caller's loop: decode until nothing whole is left. */
    method DecodeAll(floats: Floats) returns (frames: seq<Frame>, error: Option<ParseError>)
      modifies this
      ensures Decodes(RespFirst(floats)) && Drained(frames, buf, error) == Drain(RespFirst(floats), old(buf))
    {
      hide ParseFrame, Decodes;
      RespDecodes(floats);
      frames := [];
      while true
        invariant var d := Drain(RespFirst(floats), buf); d.(frames := frames + d.frames) == Drain(RespFirst(floats), old(buf))
        decreases |buf|
      {
        var r := Decode(floats);
        match r {
          case More => return frames, None;
          case Bad(e) => return frames, Some(e);
          case Done(f, _) => frames := frames + [f];
        }
      }
    }

    /** A connection's reads: however the bytes come, the frames and the first error of the stream. */
    method DecodeChunks(floats: Floats, chunks: seq<Data>) returns (frames: seq<Frame>, error: Option<ParseError>)
      requires buf == []
      modifies this
      ensures Decodes(RespFirst(floats))
      ensures var whole := Drain(RespFirst(floats), Joined(chunks)); frames == whole.frames && error == whole.error
    {
      hide ParseFrame, Decodes, Drain;
      RespChunking(floats, chunks);
      frames, error := [], None;
      ghost var goal := Read(RespFirst(floats), [], chunks);
      assert chunks[0..] == chunks;
      for i := 0 to |chunks|
        invariant var rest := Read(RespFirst(floats), buf, chunks[i..]);
                  error == None && frames + rest.frames == goal.frames && rest.error == goal.error
      {
        assert chunks[i..][0] == chunks[i] && chunks[i..][1..] == chunks[i + 1..];
        Feed(chunks[i]);
        var more;
        more, error := DecodeAll(floats);
        frames := frames + more;
        if error.Some? {
          return;
        }
      }
    }
  }
}
