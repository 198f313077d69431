/** The encoder appending to its buffer, the aggregate loop of the parser, and streams of encodings. */
module RespWire {
  import opened Bytes
  import opened Streaming
  import opened Resp
  import opened RespCodec
  import opened RespStream

  class Buffer {
    var data: Data

    constructor ()
      ensures data == []
    {
      data := [];
    }

    method Put(more: Data)
      modifies this
      ensures data == old(data) + more
    {
      data := data + more;
    }

    method WriteLine(marker: byte, line: Data)
      modifies this
      ensures data == old(data) + LineBytes(marker, line)
    {
      Put([marker]);
      Put(line);
      Put(CRLF);
    }

    method WriteSized(marker: byte, payload: Data)
      modifies this
      ensures data == old(data) + SizedBytes(marker, payload)
    {
      hide Shown;
      Put([marker]);
      Put(Shown(|payload|));
      Put(CRLF);
      Put(payload);
      Put(CRLF);
    }

    method WriteHead(marker: byte, n: nat)
      modifies this
      ensures data == old(data) + ([marker] + (Shown(n) + CRLF))
    {
      hide Shown;
      Put([marker]);
      Put(Shown(n));
      Put(CRLF);
    }

    /** `encode_frame`. */
    method EncodeFrame(floats: Floats, f: Frame, v3: bool)
      modifies this
      ensures data == old(data) + Encode(floats, f, v3)
      decreases f, 1
    {
      hide EncodeAll, EncodePairs, Shown;
      match f {
        case Simple(t) => WriteLine(43, t);
        case Error(t) => WriteLine(45, t);
        case Integer(n) => WriteLine(58, Shown(n));
        case Bulk(d) => WriteSized(36, d);
        case Null =>
          if v3 { WriteLine(95, []); } else { WriteLine(36, Shown(-1)); }
        case Array(items) => WriteSeq(floats, 42, items, v3);
        case Boolean(b) =>
          if v3 { WriteLine(35, if b then [116] else [102]); } else { WriteLine(58, Shown(if b then 1 else 0)); }
        case Double(d) =>
          if v3 { WriteLine(44, floats.show(d)); } else { WriteSized(36, floats.show(d)); }
        case Map(pairs) => WriteMap(floats, pairs, v3);
        case Set(items) => WriteSeq(floats, if v3 then 126 else 42, items, v3);
        case Push(items) => WriteSeq(floats, if v3 then 62 else 42, items, v3);
        case BlobError(code, message) =>
          if v3 { WriteSized(33, ErrorText(code, message)); } else { WriteLine(45, ErrorText(code, message)); }
        case Verbatim(fmt, payload) =>
          if v3 { WriteSized(61, fmt + [58] + payload); } else { WriteSized(36, payload); }
        case BigNumber(t) =>
          if v3 { WriteLine(40, t); } else { WriteSized(36, t); }
      }
    }

    method WriteSeq(floats: Floats, marker: byte, items: seq<Frame>, v3: bool)
      modifies this
      ensures data == old(data) + CountBytes(marker, |items|, EncodeAll(floats, items, v3))
      decreases items, 0
    {
      hide Shown, Encode;
      WriteHead(marker, |items|);
      ghost var head := data;
      assert items[0..] == items;
      for i := 0 to |items|
        invariant data + EncodeAll(floats, items[i..], v3) == head + EncodeAll(floats, items, v3)
      {
        assert items[i..][0] == items[i] && items[i..][1..] == items[i + 1..];
        EncodeFrame(floats, items[i], v3);
      }
      assert head + EncodeAll(floats, items, v3) == old(data) + CountBytes(marker, |items|, EncodeAll(floats, items, v3));
    }

    method WriteMap(floats: Floats, pairs: seq<Pair>, v3: bool)
      modifies this
      ensures data == old(data) + Encode(floats, Map(pairs), v3)
      decreases pairs, 0
    {
      hide Shown, EncodePair;
      var (marker, n) := if v3 then (37, |pairs|) else (42, |pairs| * 2);
      WriteHead(marker, n);
      ghost var head := data;
      assert pairs[0..] == pairs;
      for i := 0 to |pairs|
        invariant data + EncodePairs(floats, pairs[i..], v3) == head + EncodePairs(floats, pairs, v3)
      {
        assert pairs[i..][0] == pairs[i] && pairs[i..][1..] == pairs[i + 1..];
        WritePair(floats, pairs[i], v3);
      }
      assert head + EncodePairs(floats, pairs, v3) == old(data) + CountBytes(marker, n, EncodePairs(floats, pairs, v3));
    }

    method WritePair(floats: Floats, p: Pair, v3: bool)
      modifies this
      ensures data == old(data) + EncodePair(floats, p, v3)
      decreases p, 0
    {
      hide Encode;
      EncodeFrame(floats, p.key, v3);
      EncodeFrame(floats, p.value, v3);
    }
  }

  // ---- The parser's loop ----

  /** The loop of `parse_aggregate`: items collected while `consumed` advances. */
  method ReadItems(floats: Floats, body: Data, start: nat, count: nat, depth: nat) returns (r: Parse<seq<Frame>>)
    requires start <= |body|
    ensures r == ParseItems(floats, body[start..], count, depth)
  {
    hide ParseFrame, ParseItems;
    var items: seq<Frame>, consumed := [], start;
    AfterNothing(ParseItems(floats, body[start..], count, depth));
    for i := 0 to count
      invariant start <= consumed <= |body| && |items| == i
      invariant ParseItems(floats, body[start..], count, depth) ==
                After(items, consumed - start, ParseItems(floats, body[consumed..], count - i, depth))
    {
      ItemsTurn(floats, body[consumed..], count - i, depth);
      match ParseFrame(floats, body[consumed..], depth) {
        case More => return More;
        case Bad(e) => return Bad(e);
        case Done(f, n) =>
          assert body[consumed..][n..] == body[consumed + n..];
          AfterStep(items, consumed - start, f, n, ParseItems(floats, body[consumed + n..], count - i - 1, depth));
          items, consumed := items + [f], consumed + n;
      }
    }
    NoMoreItems(floats, body[consumed..], depth);
    assert items + [] == items;
    r := Done(items, consumed - start);
  }

  /** Items and bytes already taken, in front of the outcome of the rest. */
  function After(items: seq<Frame>, used: nat, r: Parse<seq<Frame>>): Parse<seq<Frame>> {
    match r
    case Done(fs, more) => Done(items + fs, used + more)
    case More => More
    case Bad(e) => Bad(e)
  }

  lemma AfterNothing(r: Parse<seq<Frame>>)
    ensures After([], 0, r) == r
  {
    if r.Done? {
      assert [] + r.value == r.value;
    }
  }

  /** One turn of the loop. */
  lemma {:induction false} ItemsTurn(floats: Floats, s: Data, count: nat, depth: nat)
    requires count > 0
    ensures var r := ParseFrame(floats, s, depth);
            && (r.More? ==> ParseItems(floats, s, count, depth) == More)
            && (r.Bad? ==> ParseItems(floats, s, count, depth) == Bad(r.error))
            && (r.Done? ==> ParseItems(floats, s, count, depth) == After([r.value], r.used, ParseItems(floats, s[r.used..], count - 1, depth)))
  {
    hide ParseFrame;
  }

  lemma NoMoreItems(floats: Floats, s: Data, depth: nat)
    ensures ParseItems(floats, s, 0, depth) == Done([], 0)
  {
  }

  lemma AfterStep(items: seq<Frame>, used: nat, f: Frame, n: nat, r: Parse<seq<Frame>>)
    ensures After(items, used, After([f], n, r)) == After(items + [f], used + n, r)
  {
    if r.Done? {
      assert items + ([f] + r.value) == items + [f] + r.value;
    }
  }

  // ---- Streams of encodings ----

  function EncodeAt(floats: Floats, v3: bool): Frame -> Data {
    (f: Frame) => Encode(floats, f, v3)
  }

  function SeenAt(floats: Floats, v3: bool): Frame -> Frame {
    (f: Frame) => Seen(floats, f, v3)
  }

  /** Encoded frames, concatenated and cut anywhere, are decoded to what a client of that version
      sees, with nothing left over. */
  lemma EncodedStreamRead(floats: Floats, frames: seq<Frame>, v3: bool, chunks: seq<Data>)
    requires forall f :: f in frames ==> Fits(floats, f, v3, 0)
    requires Joined(chunks) == Stream(frames, EncodeAt(floats, v3))
    ensures Decodes(RespFirst(floats))
    ensures Read(RespFirst(floats), [], chunks) == Drained(Streaming.AllSeen(frames, SeenAt(floats, v3)), [], None)
  {
    hide ParseFrame, Encode, Seen, Fits, Read, Decodes, Stream;
    RespDecodes(floats);
    var first := RespFirst(floats);
    forall i, rest | 0 <= i < |frames|
      ensures DecodesTo(first, EncodeAt(floats, v3)(frames[i]), SeenAt(floats, v3)(frames[i]), rest)
    {
      ParseEncode(floats, frames[i], v3, rest, 0);
    }
    StreamRead(first, EncodeAt(floats, v3), SeenAt(floats, v3), frames, chunks);
  }
}
