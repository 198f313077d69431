/** The native binary framing: `frame.rs` of `skeg-proto`. */
module NativeFrames {
  import opened Bytes
  import opened Streaming

  const MAGIC: nat := 0x564B
  const HEADER_LEN: nat := 24
  const MAX_FRAME_SIZE: nat := 16 * 1024 * 1024

  /** `op` and `flags` are kept as the numbers on the wire. */
  datatype Header = Header(version: byte, op: byte, flags: nat, reqId: nat, payloadLen: nat)

  datatype Frame = Frame(header: Header, payload: Data)

  datatype ParseError =
    | InvalidMagic(got: nat)
    | InvalidVersion(version: byte)
    | UnknownOp(op: byte)
    | InvalidFlags(bits: nat)
    | FrameTooLarge(len: nat)

  datatype HeaderResult = Parsed(header: Header) | Rejected(error: ParseError)

  predicate IsOp(b: byte) {
    0x01 <= b <= 0x07 || 0x10 <= b <= 0x16 || 0x80 <= b <= 0x84 || 0xC0 <= b <= 0xC2
  }

  /** The eight defined flag bits, and no other. */
  predicate IsFlags(n: nat) {
    n < 256
  }

  /** `parse_header`: the reserved bytes are not looked at. */
  function ParseHeader(buf: Data): (r: HeaderResult)
    requires |buf| == HEADER_LEN
    ensures r.Parsed? ==> r.header.payloadLen <= MAX_FRAME_SIZE
  {
    if FromLE(buf[0..2]) != MAGIC then Rejected(InvalidMagic(FromLE(buf[0..2])))
    else if buf[2] != 1 && buf[2] != 2 then Rejected(InvalidVersion(buf[2]))
    else if !IsOp(buf[3]) then Rejected(UnknownOp(buf[3]))
    else if !IsFlags(FromLE(buf[4..8])) then Rejected(InvalidFlags(FromLE(buf[4..8])))
    else if FromLE(buf[16..20]) > MAX_FRAME_SIZE then Rejected(FrameTooLarge(FromLE(buf[16..20])))
    else Parsed(Header(buf[2], buf[3], FromLE(buf[4..8]), FromLE(buf[8..16]), FromLE(buf[16..20])))
  }

  // ---- The first frame of a buffer ----

  function NativeFirst(s: Data): (r: First<Frame, ParseError>)
    ensures r.Whole? ==> HEADER_LEN <= r.used <= |s|
  {
    if |s| < HEADER_LEN then Part
    else
      match ParseHeader(s[..HEADER_LEN])
      case Rejected(e) => Wrong(e)
      case Parsed(h) =>
        var end := HEADER_LEN + h.payloadLen;
        if |s| < end then Part else Whole(Frame(h, s[HEADER_LEN..end]), end)
  }

  lemma NativeDecodes()
    ensures Decodes(NativeFirst) && NativeFirst([]).Part?
  {
    hide ParseHeader;
    forall s, t ensures Final(NativeFirst, s, t) {
      if |s| >= HEADER_LEN {
        assert (s + t)[..HEADER_LEN] == s[..HEADER_LEN];
        var r := ParseHeader(s[..HEADER_LEN]);
        if r.Parsed? && |s| >= HEADER_LEN + r.header.payloadLen {
          assert (s + t)[HEADER_LEN..HEADER_LEN + r.header.payloadLen] == s[HEADER_LEN..HEADER_LEN + r.header.payloadLen];
        }
      }
    }
  }

  /** However a native stream is cut into chunks, reading it gives the frames and the first error of
      the whole stream. */
  lemma NativeChunking(chunks: seq<Data>)
    ensures Decodes(NativeFirst)
    ensures var (r, whole) := (Read(NativeFirst, [], chunks), Drain(NativeFirst, Joined(chunks)));
            r.frames == whole.frames && r.error == whole.error && (r.error.None? ==> r.left == whole.left)
  {
    hide Decodes, Read, Drain;
    NativeDecodes();
    ChunkingInvariant(NativeFirst, chunks);
  }

  // ---- The encoder ----

  /** `encode_frame_versioned`; the reserved field is zero. */
  function EncodeFrame(f: Frame): Data {
    var h := f.header;
    ToLE(MAGIC, 2) + [h.version, h.op] + ToLE(h.flags, 4) + ToLE(h.reqId, 8) + ToLE(h.payloadLen, 4) + ToLE(0, 4) + f.payload
  }

  predicate FrameOk(f: Frame) {
    var h := f.header;
    && (h.version == 1 || h.version == 2) && IsOp(h.op) && IsFlags(h.flags) && h.reqId <= U64_MAX
    && h.payloadLen == |f.payload| <= MAX_FRAME_SIZE
  }

  lemma HeaderFields(f: Frame, rest: Data)
    ensures var (h, s) := (f.header, EncodeFrame(f) + rest);
            && |EncodeFrame(f)| == HEADER_LEN + |f.payload|
            && s[0..2] == ToLE(MAGIC, 2) && s[2] == h.version && s[3] == h.op && s[4..8] == ToLE(h.flags, 4)
            && s[8..16] == ToLE(h.reqId, 8) && s[16..20] == ToLE(h.payloadLen, 4)
            && s[HEADER_LEN..HEADER_LEN + |f.payload|] == f.payload
  {
    hide ToLE;
    var (h, s) := (f.header, EncodeFrame(f) + rest);
    assert s[0..2] == ToLE(MAGIC, 2);
    assert s[4..8] == ToLE(h.flags, 4);
    assert s[8..16] == ToLE(h.reqId, 8);
    assert s[16..20] == ToLE(h.payloadLen, 4);
    assert s[HEADER_LEN..HEADER_LEN + |f.payload|] == f.payload;
  }

  /** A whole frame in front of anything is decoded to itself. */
  lemma FrameRead(f: Frame, rest: Data)
    requires FrameOk(f)
    ensures NativeFirst(EncodeFrame(f) + rest) == Whole(f, |EncodeFrame(f)|)
  {
    hide ToLE, FromLE, EncodeFrame;
    var (h, s) := (f.header, EncodeFrame(f) + rest);
    HeaderFields(f, rest);
    Pow256Widths();
    LERoundTrip(MAGIC, 2);
    LERoundTrip(h.flags, 4);
    LERoundTrip(h.reqId, 8);
    LERoundTrip(h.payloadLen, 4);
    var buf := s[..HEADER_LEN];
    assert buf[0..2] == s[0..2] && buf[4..8] == s[4..8] && buf[8..16] == s[8..16] && buf[16..20] == s[16..20];
  }

  function Same(): Frame -> Frame {
    (f: Frame) => f
  }

  lemma {:induction false} SameFrames(frames: seq<Frame>)
    ensures AllSeen(frames, Same()) == frames
  {
    if frames != [] {
      SameFrames(frames[1..]);
    }
  }

  /** Native encodings, concatenated and cut anywhere, decode to the original list of frames. */
  lemma NativeStreamRead(frames: seq<Frame>, chunks: seq<Data>)
    requires (forall f :: f in frames ==> FrameOk(f)) && Joined(chunks) == Stream(frames, EncodeFrame)
    ensures Decodes(NativeFirst) && Read(NativeFirst, [], chunks) == Drained(frames, [], None)
  {
    hide NativeFirst, EncodeFrame, Read, Decodes, Stream, FrameOk;
    NativeDecodes();
    forall i, rest | 0 <= i < |frames| ensures DecodesTo(NativeFirst, EncodeFrame(frames[i]), Same()(frames[i]), rest) {
      FrameRead(frames[i], rest);
    }
    StreamRead(NativeFirst, EncodeFrame, Same(), frames, chunks);
    SameFrames(frames);
  }

  // ---- The parser's state ----

  datatype State = AtHeader(buf: Data) | AtPayload(header: Header, body: Data)

  /** The bytes a state stands for: those of the frame it is in the middle of. */
  ghost predicate Stands(st: State, pending: Data) {
    match st
    case AtHeader(buf) => pending == buf && |buf| <= HEADER_LEN
    case AtPayload(h, body) => InPayload(h, body, pending) && |body| < h.payloadLen
  }

  ghost predicate InPayload(h: Header, body: Data, pending: Data) {
    |pending| >= HEADER_LEN && ParseHeader(pending[..HEADER_LEN]) == Parsed(h) && pending[HEADER_LEN..] == body
  }

  lemma PayloadMore(h: Header, body: Data, pending: Data, more: Data)
    requires InPayload(h, body, pending)
    ensures InPayload(h, body + more, pending + more)
  {
    hide ParseHeader;
    assert (pending + more)[..HEADER_LEN] == pending[..HEADER_LEN];
    assert (pending + more)[HEADER_LEN..] == pending[HEADER_LEN..] + more;
  }

  lemma PayloadPart(h: Header, body: Data, pending: Data)
    requires InPayload(h, body, pending) && |body| < h.payloadLen
    ensures NativeFirst(pending) == Part
  {
    hide ParseHeader;
  }

  lemma PayloadWhole(h: Header, body: Data, pending: Data, rest: Data)
    requires InPayload(h, body, pending) && |body| == h.payloadLen
    ensures NativeFirst(pending + rest) == Whole(Frame(h, body), |pending|) && (pending + rest)[|pending|..] == rest
  {
    hide ParseHeader;
    var all := pending + rest;
    assert all[..HEADER_LEN] == pending[..HEADER_LEN];
    assert all[HEADER_LEN..HEADER_LEN + |body|] == body;
  }

  lemma HeaderOnly(buf: Data, rest: Data)
    requires |buf| == HEADER_LEN
    ensures match ParseHeader(buf)
            case Rejected(e) => NativeFirst(buf + rest) == Wrong(e)
            case Parsed(h) => InPayload(h, [], buf)
  {
    hide ParseHeader;
    assert (buf + rest)[..HEADER_LEN] == buf && buf[..HEADER_LEN] == buf;
  }

  class FrameParser {
    var state: State
    /** The bytes taken for the frame in progress. */
    ghost var pending: Data

    ghost predicate Valid()
      reads this
    {
      Stands(state, pending)
    }

    constructor ()
      ensures Valid() && pending == []
    {
      state, pending := AtHeader([]), [];
    }

    /** `feed`: `rest` is what is left of the input. The bytes of the frame in progress and the input
        together start with what is returned: a whole frame, then `rest`; part of one; or an error. */
    method Feed(input: Data) returns (r: First<Frame, ParseError>, rest: Data)
      requires Valid()
      modifies this
      ensures Valid() && r == NativeFirst(old(pending) + input)
      ensures r.Whole? ==> pending == [] && rest == (old(pending) + input)[r.used..] && |rest| <= |input|
      ensures r.Part? ==> pending == old(pending) + input && rest == []
      ensures r.Wrong? ==> pending + rest == old(pending) + input
    {
      hide ParseHeader, NativeFirst, InPayload;
      ghost var all := pending + input;
      rest := input;
      if state.AtHeader? {
        var need := HEADER_LEN - |state.buf|;
        var take := if |rest| < need then |rest| else need;
        var buf := state.buf + rest[..take];
        rest := rest[take..];
        state, pending := AtHeader(buf), buf;
        assert pending + rest == all;
        if |buf| < HEADER_LEN {
          assert NativeFirst(all) == Part by { TooShort(all); }
          return Part, rest;
        }
        HeaderOnly(buf, rest);
        match ParseHeader(buf) {
          case Rejected(e) => return Wrong(e), rest;
          case Parsed(h) => state := AtPayload(h, []);
        }
      }
      var h, had := state.header, state.body;
      var need := h.payloadLen - |had|;
      var take := if |rest| < need then |rest| else need;
      var body := had + rest[..take];
      PayloadMore(h, had, pending, rest[..take]);
      pending, rest := pending + rest[..take], rest[take..];
      assert pending + rest == all;
      if |body| < h.payloadLen {
        PayloadPart(h, body, pending);
        assert rest == [] && pending + [] == pending;
        state := AtPayload(h, body);
        return Part, rest;
      }
      PayloadWhole(h, body, pending, rest);
      r := Whole(Frame(h, body), HEADER_LEN + |body|);
      assert |pending| == HEADER_LEN + |body| by { PayloadSize(h, body, pending); }
      state, pending := AtHeader([]), [];
    }

    /** The caller's loop: feed the same input until it is used up or an error stops it. */
    method FeedAll(input: Data) returns (frames: seq<Frame>, error: Option<ParseError>)
      requires Valid()
      modifies this
      ensures Valid() && Decodes(NativeFirst)
      ensures var d := Drain(NativeFirst, old(pending) + input);
              frames == d.frames && error == d.error && (error.None? ==> pending == d.left)
    {
      hide NativeFirst, Decodes, Stands;
      NativeDecodes();
      frames, error := [], None;
      var rest := input;
      while true
        invariant Valid()
        invariant var d := Drain(NativeFirst, pending + rest);
                  d.(frames := frames + d.frames) == Drain(NativeFirst, old(pending) + input)
        decreases |pending| + |rest|
      {
        ghost var all := pending + rest;
        var r, left := Feed(rest);
        match r {
          case Part => return frames, None;
          case Wrong(e) => return frames, Some(e);
          case Whole(f, used) =>
            assert 0 < used <= |all| by { UsedSome(all); }
            assert [] + left == left;
            frames, rest := frames + [f], left;
        }
      }
    }
  }

  lemma UsedSome(s: Data)
    requires NativeFirst(s).Whole?
    ensures 0 < NativeFirst(s).used <= |s|
  {
  }

  lemma TooShort(s: Data)
    requires |s| < HEADER_LEN
    ensures NativeFirst(s) == Part
  {
  }

  lemma PayloadSize(h: Header, body: Data, pending: Data)
    requires InPayload(h, body, pending)
    ensures |pending| == HEADER_LEN + |body|
  {
  }
}
