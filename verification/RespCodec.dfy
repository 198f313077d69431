/** The RESP encoder, with its RESP2 downgrade, and what parsing its output returns: `encoder.rs`. */
module RespCodec {
  import opened Bytes
  import opened Decimal
  import opened Streaming
  import opened Resp

  // ---- What the encoder writes ----

  function Shown(n: int): (s: Data)
    ensures s == Print(n)
  {
    PrintCodes(n);
    Print(n)
  }

  function LineBytes(marker: byte, text: Data): Data {
    [marker] + (text + CRLF)
  }

  /** A length prefix and a payload of that length. */
  function SizedBytes(marker: byte, data: Data): Data {
    [marker] + (Shown(|data|) + CRLF + (data + CRLF))
  }

  /** `code`, or `code message`. */
  function ErrorText(code: Data, message: Data): Data {
    if message == [] then code else code + [32] + message
  }

  function CountBytes(marker: byte, n: nat, body: Data): Data {
    [marker] + (Shown(n) + CRLF + body)
  }

  function Encode(floats: Floats, f: Frame, v3: bool): Data
    decreases f, 0
  {
    match f
    case Simple(t) => LineBytes(43, t)
    case Error(t) => LineBytes(45, t)
    case Integer(n) => LineBytes(58, Shown(n))
    case Bulk(d) => SizedBytes(36, d)
    case Null => if v3 then LineBytes(95, []) else LineBytes(36, Shown(-1))
    case Array(items) => CountBytes(42, |items|, EncodeAll(floats, items, v3))
    case Boolean(b) => if v3 then LineBytes(35, if b then [116] else [102]) else LineBytes(58, Shown(if b then 1 else 0))
    case Double(d) => if v3 then LineBytes(44, floats.show(d)) else SizedBytes(36, floats.show(d))
    case Map(pairs) =>
      if v3 then CountBytes(37, |pairs|, EncodePairs(floats, pairs, v3)) else CountBytes(42, |pairs| * 2, EncodePairs(floats, pairs, v3))
    case Set(items) => CountBytes(if v3 then 126 else 42, |items|, EncodeAll(floats, items, v3))
    case Push(items) => CountBytes(if v3 then 62 else 42, |items|, EncodeAll(floats, items, v3))
    case BlobError(code, message) => if v3 then SizedBytes(33, ErrorText(code, message)) else LineBytes(45, ErrorText(code, message))
    case Verbatim(fmt, data) => if v3 then SizedBytes(61, fmt + [58] + data) else SizedBytes(36, data)
    case BigNumber(t) => if v3 then LineBytes(40, t) else SizedBytes(36, t)
  }

  function EncodeAll(floats: Floats, items: seq<Frame>, v3: bool): Data
    decreases items, 0
  {
    if items == [] then [] else Encode(floats, items[0], v3) + EncodeAll(floats, items[1..], v3)
  }

  function EncodePairs(floats: Floats, pairs: seq<Pair>, v3: bool): Data
    decreases pairs, 0
  {
    if pairs == [] then [] else EncodePair(floats, pairs[0], v3) + EncodePairs(floats, pairs[1..], v3)
  }

  function EncodePair(floats: Floats, p: Pair, v3: bool): Data
    decreases p, 0
  {
    Encode(floats, p.key, v3) + Encode(floats, p.value, v3)
  }

  // ---- What a client of that version sees ----

  /** The frame itself under RESP3, its downgrade under RESP2. */
  function Seen(floats: Floats, f: Frame, v3: bool): Frame
    decreases f, 0
  {
    if v3 then f
    else
      match f
      case Array(items) => Array(AllSeen(floats, items, v3))
      case Set(items) => Array(AllSeen(floats, items, v3))
      case Push(items) => Array(AllSeen(floats, items, v3))
      case Map(pairs) => Array(PairsSeen(floats, pairs, v3))
      case Boolean(b) => Integer(if b then 1 else 0)
      case Double(d) => Bulk(floats.show(d))
      case BlobError(code, message) => Error(ErrorText(code, message))
      case Verbatim(_, data) => Bulk(data)
      case BigNumber(t) => Bulk(t)
      case _ => f
  }

  function AllSeen(floats: Floats, items: seq<Frame>, v3: bool): (r: seq<Frame>)
    ensures |r| == |items|
    decreases items, 0
  {
    if items == [] then [] else [Seen(floats, items[0], v3)] + AllSeen(floats, items[1..], v3)
  }

  /** Keys and values alternating. */
  function PairsSeen(floats: Floats, pairs: seq<Pair>, v3: bool): (r: seq<Frame>)
    ensures |r| == 2 * |pairs|
    decreases pairs, 0
  {
    if pairs == [] then [] else PairSeen(floats, pairs[0], v3) + PairsSeen(floats, pairs[1..], v3)
  }

  function PairSeen(floats: Floats, p: Pair, v3: bool): (r: seq<Frame>)
    ensures |r| == 2
    decreases p, 0
  {
    [Seen(floats, p.key, v3), Seen(floats, p.value, v3)]
  }

  // ---- Frames within the limits ----

  predicate NoCrlf(t: Data) {
    forall i :: 0 <= i < |t| - 1 ==> !(t[i] == 13 && t[i + 1] == 10)
  }

  predicate LineOk(t: Data) {
    Utf8(t) && NoCrlf(t)
  }

  predicate NoSpace(t: Data) {
    forall i :: 0 <= i < |t| ==> t[i] != 32
  }

  predicate LeafFits(floats: Floats, f: Frame, v3: bool) {
    match f
    case Simple(t) => LineOk(t)
    case Error(t) => LineOk(t)
    case Integer(n) => IsI64(n)
    case Bulk(d) => |d| <= MAX_BULK_LEN
    case Double(d) =>
      if v3 then LineOk(floats.show(d)) && floats.read(floats.show(d)) == Some(d) else |floats.show(d)| <= MAX_BULK_LEN
    case BlobError(code, message) =>
      if v3 then Utf8(code) && Utf8(message) && NoSpace(code) && |ErrorText(code, message)| <= MAX_BULK_LEN
      else LineOk(ErrorText(code, message))
    case Verbatim(fmt, data) => |fmt| == 3 && |data| + (if v3 then 4 else 0) <= MAX_BULK_LEN
    case BigNumber(t) => if v3 then IsBigNumber(t) else |t| <= MAX_BULK_LEN
    case _ => true
  }

  ghost predicate Fits(floats: Floats, f: Frame, v3: bool, depth: nat)
    decreases f
  {
    && depth <= MAX_NESTING_DEPTH && LeafFits(floats, f, v3)
    && match f
       case Array(items) => |items| <= MAX_AGGREGATE_LEN && forall x :: x in items ==> Fits(floats, x, v3, depth + 1)
       case Set(items) => |items| <= MAX_AGGREGATE_LEN && forall x :: x in items ==> Fits(floats, x, v3, depth + 1)
       case Push(items) => |items| <= MAX_AGGREGATE_LEN && forall x :: x in items ==> Fits(floats, x, v3, depth + 1)
       case Map(pairs) =>
         && |pairs| * (if v3 then 1 else 2) <= MAX_AGGREGATE_LEN
         && forall i :: 0 <= i < |pairs| ==> Fits(floats, pairs[i].key, v3, depth + 1) && Fits(floats, pairs[i].value, v3, depth + 1)
       case _ => true
  }

  // ---- Lines and payloads are read back ----

  lemma {:induction false} LineFound(t: Data, rest: Data)
    requires NoCrlf(t)
    ensures FindCrlf(t + CRLF + rest) == Some(|t|)
  {
    var s := t + CRLF + rest;
    if t != [] {
      assert s[1..] == t[1..] + CRLF + rest;
      assert NoCrlf(t[1..]) by {
        var u := t[1..];
        forall i | 0 <= i < |u| - 1 ensures !(u[i] == 13 && u[i + 1] == 10) {
          assert u[i] == t[i + 1] && u[i + 1] == t[i + 1 + 1];
        }
      }
      LineFound(t[1..], rest);
    }
  }

  lemma LineRead(t: Data, rest: Data)
    requires LineOk(t)
    ensures ParseLine(t + CRLF + rest) == Done(t, |t| + 2)
  {
    hide FindCrlf, Utf8;
    LineFound(t, rest);
    assert (t + CRLF + rest)[..|t|] == t;
  }

  lemma ShownLine(n: int)
    ensures LineOk(Shown(n)) && |Shown(n)| > 0
  {
    PrintCodes(n);
    AsciiUtf8(Shown(n));
  }

  lemma IntegerRead(n: int, rest: Data)
    requires IsI64(n)
    ensures ParseIntegerLine(Shown(n) + CRLF + rest) == Done(n, |Shown(n)| + 2)
  {
    hide ParseLine, ParseI64, Print, LineOk;
    ShownLine(n);
    LineRead(Shown(n), rest);
    ParsePrint(n);
  }

  /** The bytes of a sized payload after its marker. */
  function Sized(data: Data): Data {
    Shown(|data|) + CRLF + (data + CRLF)
  }

  lemma PayloadRead(data: Data, rest: Data)
    requires |data| <= MAX_BULK_LEN
    ensures var body := Sized(data) + rest;
            var start := |Shown(|data|)| + 2;
            && ParseIntegerLine(body) == Done(|data|, start)
            && Payload(body, start, |data|) == Done(data, |Sized(data)|)
  {
    hide ParseIntegerLine, Shown;
    var (head, body) := (Shown(|data|), Sized(data) + rest);
    assert body == head + CRLF + (data + CRLF + rest);
    IntegerRead(|data|, data + CRLF + rest);
    var start := |head| + 2;
    assert body[start..start + |data|] == data;
    assert body[start + |data|..start + |data| + 2] == CRLF;
  }

  lemma BulkRead(data: Data, rest: Data)
    requires |data| <= MAX_BULK_LEN
    ensures ParseBulk(Sized(data) + rest) == Done(Bulk(data), |Sized(data)|)
  {
    hide ParseIntegerLine, Payload, Sized;
    PayloadRead(data, rest);
  }

  lemma {:induction false} SpaceFound(code: Data, rest: Data)
    requires NoSpace(code)
    ensures rest == [] ==> FindSpace(code + rest) == |code|
    ensures rest != [] && rest[0] == 32 ==> FindSpace(code + rest) == |code|
  {
    if code == [] {
      assert code + rest == rest;
    } else {
      SpaceFound(code[1..], rest);
      assert (code + rest)[1..] == code[1..] + rest;
    }
  }

  lemma ErrorTextUtf8(code: Data, message: Data)
    requires Utf8(code) && Utf8(message)
    ensures Utf8(ErrorText(code, message))
  {
    AsciiUtf8([32]);
    ConcatUtf8(code, [32]);
    ConcatUtf8(code + [32], message);
  }

  lemma BlobErrorRead(code: Data, message: Data, rest: Data)
    requires Utf8(code) && Utf8(message) && NoSpace(code) && |ErrorText(code, message)| <= MAX_BULK_LEN
    ensures ParseBlobError(Sized(ErrorText(code, message)) + rest) == Done(BlobError(code, message), |Sized(ErrorText(code, message))|)
  {
    hide ParseIntegerLine, Payload, Sized, Utf8, FindSpace;
    var text := ErrorText(code, message);
    PayloadRead(text, rest);
    ErrorTextUtf8(code, message);
    SplitText(code, message);
  }

  lemma SplitText(code: Data, message: Data)
    requires NoSpace(code)
    ensures var text := ErrorText(code, message);
            if message == [] then FindSpace(text) == |text|
            else FindSpace(text) == |code| < |text| && text[..|code|] == code && text[|code| + 1..] == message
  {
    hide FindSpace;
    var text := ErrorText(code, message);
    if message == [] {
      SpaceFound(code, []);
      assert code + [] == code;
    } else {
      SpaceFound(code, [32] + message);
      assert text == code + ([32] + message);
    }
  }

  lemma VerbatimRead(fmt: Data, data: Data, rest: Data)
    requires |fmt| == 3 && |data| + 4 <= MAX_BULK_LEN
    ensures var text := fmt + [58] + data; ParseVerbatim(Sized(text) + rest) == Done(Verbatim(fmt, data), |Sized(text)|)
  {
    hide ParseIntegerLine, Payload, Sized;
    var text := fmt + [58] + data;
    PayloadRead(text, rest);
    assert text[..3] == fmt && text[4..] == data;
  }

  lemma BigNumberLine(t: Data)
    requires IsBigNumber(t)
    ensures LineOk(t)
  {
    assert forall i :: 0 <= i < |t| ==> t[i] < 0x80 && t[i] != 13 by {
      if t[0] == 45 || t[0] == 43 {
        assert forall i :: 1 <= i < |t| ==> t[i] == t[1..][i - 1];
      }
    }
    AsciiUtf8(t);
  }

  // ---- Whole frames are read back ----

  predicate IsLeaf(f: Frame) {
    !f.Array? && !f.Set? && !f.Push? && !f.Map?
  }

  /** A frame of one line. */
  lemma OneLine(floats: Floats, marker: byte, t: Data, rest: Data, depth: nat)
    requires depth <= MAX_NESTING_DEPTH && !IsAggregate(marker)
    ensures var s := LineBytes(marker, t) + rest;
            ParseFrame(floats, s, depth) == Shift(ParseLeaf(floats, marker, t + CRLF + rest))
  {
    hide ParseLeaf;
    var s := LineBytes(marker, t) + rest;
    assert s[0] == marker && s[1..] == t + CRLF + rest;
  }

  lemma OneSized(floats: Floats, marker: byte, data: Data, rest: Data, depth: nat)
    requires depth <= MAX_NESTING_DEPTH && !IsAggregate(marker)
    ensures var s := SizedBytes(marker, data) + rest;
            ParseFrame(floats, s, depth) == Shift(ParseLeaf(floats, marker, Sized(data) + rest)) && |SizedBytes(marker, data)| == |Sized(data)| + 1
  {
    hide ParseLeaf, Shown;
    var s := SizedBytes(marker, data) + rest;
    assert s[0] == marker && s[1..] == Sized(data) + rest;
  }

  lemma ShortLine(t: Data, rest: Data)
    requires |t| <= 1 && forall i :: 0 <= i < |t| ==> t[i] != 13
    ensures FindCrlf(t + CRLF + rest) == Some(|t|) && (t + CRLF + rest)[..|t|] == t
  {
    hide FindCrlf;
    LineFound(t, rest);
  }

  lemma LineLeafRead(floats: Floats, f: Frame, v3: bool, rest: Data, depth: nat)
    requires Fits(floats, f, v3, depth) && (f.Simple? || f.Error? || f.Integer?)
    ensures ParseFrame(floats, Encode(floats, f, v3) + rest, depth) == Done(Seen(floats, f, v3), |Encode(floats, f, v3)|)
  {
    hide ParseFrame, ParseLine, ParseIntegerLine, FindCrlf, Shown, Utf8, ParseDouble, ParseBlobError, ParseVerbatim, ParseBigNumber;
    match f
    case Simple(t) =>
      OneLine(floats, 43, t, rest, depth);
      LineRead(t, rest);
    case Error(t) =>
      OneLine(floats, 45, t, rest, depth);
      LineRead(t, rest);
    case Integer(n) =>
      OneLine(floats, 58, Shown(n), rest, depth);
      IntegerRead(n, rest);
  }

  lemma ShortLeafRead(floats: Floats, f: Frame, v3: bool, rest: Data, depth: nat)
    requires Fits(floats, f, v3, depth) && (f.Null? || f.Boolean?)
    ensures ParseFrame(floats, Encode(floats, f, v3) + rest, depth) == Done(Seen(floats, f, v3), |Encode(floats, f, v3)|)
  {
    hide ParseFrame, ParseLine, ParseIntegerLine, FindCrlf, Shown, Utf8, ParseDouble, ParseBlobError, ParseVerbatim, ParseBigNumber;
    match f
    case Null =>
      OneLine(floats, 95, [], rest, depth);
      ShortLine([], rest);
      OneLine(floats, 36, Shown(-1), rest, depth);
      IntegerRead(-1, rest);
    case Boolean(b) =>
      OneLine(floats, 35, if b then [116] else [102], rest, depth);
      ShortLine(if b then [116] else [102], rest);
      OneLine(floats, 58, Shown(if b then 1 else 0), rest, depth);
      IntegerRead(if b then 1 else 0, rest);
  }

  lemma SizedLeafRead(floats: Floats, f: Frame, v3: bool, rest: Data, depth: nat)
    requires Fits(floats, f, v3, depth) && (f.Bulk? || f.Verbatim? || f.BlobError?)
    ensures ParseFrame(floats, Encode(floats, f, v3) + rest, depth) == Done(Seen(floats, f, v3), |Encode(floats, f, v3)|)
  {
    hide ParseFrame, ParseLine, ParseBulk, ParseBlobError, ParseVerbatim, Shown, Sized, Utf8, NoCrlf, SizedBytes, ParseIntegerLine, ParseBigNumber, ParseDouble;
    match f
    case Bulk(d) =>
      OneSized(floats, 36, d, rest, depth);
      BulkRead(d, rest);
    case Verbatim(fmt, d) =>
      if v3 {
        OneSized(floats, 61, fmt + [58] + d, rest, depth);
        VerbatimRead(fmt, d, rest);
      } else {
        OneSized(floats, 36, d, rest, depth);
        BulkRead(d, rest);
      }
    case BlobError(code, message) =>
      if v3 {
        OneSized(floats, 33, ErrorText(code, message), rest, depth);
        BlobErrorRead(code, message, rest);
      } else {
        OneLine(floats, 45, ErrorText(code, message), rest, depth);
        LineRead(ErrorText(code, message), rest);
      }
  }

  lemma TextLeafRead(floats: Floats, f: Frame, v3: bool, rest: Data, depth: nat)
    requires Fits(floats, f, v3, depth) && (f.Double? || f.BigNumber?)
    ensures ParseFrame(floats, Encode(floats, f, v3) + rest, depth) == Done(Seen(floats, f, v3), |Encode(floats, f, v3)|)
  {
    hide ParseFrame, ParseLine, ParseBulk, ParseBlobError, ParseVerbatim, Shown, Sized, Utf8, NoCrlf, SizedBytes, ParseIntegerLine, IsBigNumber;
    var t := if f.Double? then floats.show(f.d) else f.text;
    if v3 {
      if f.BigNumber? {
        BigNumberLine(t);
      }
      OneLine(floats, if f.Double? then 44 else 40, t, rest, depth);
      LineRead(t, rest);
    } else {
      OneSized(floats, 36, t, rest, depth);
      BulkRead(t, rest);
    }
  }

  /** The marker of an aggregate, and the count written after it. */
  function Marker(f: Frame, v3: bool): byte
    requires !IsLeaf(f)
  {
    if !v3 || f.Array? then 42 else if f.Map? then 37 else if f.Set? then 126 else 62
  }

  function Count(f: Frame, v3: bool): nat
    requires !IsLeaf(f)
  {
    if f.Map? then |f.pairs| * (if v3 then 1 else 2) else |f.items|
  }

  function Children(floats: Floats, f: Frame, v3: bool): Data
    requires !IsLeaf(f)
  {
    if f.Map? then EncodePairs(floats, f.pairs, v3) else EncodeAll(floats, f.items, v3)
  }

  function ChildrenSeen(floats: Floats, f: Frame, v3: bool): (r: seq<Frame>)
    requires !IsLeaf(f)
    ensures |r| == if f.Map? then 2 * |f.pairs| else |f.items|
  {
    if f.Map? then PairsSeen(floats, f.pairs, v3) else AllSeen(floats, f.items, v3)
  }

  lemma AggregateHead(floats: Floats, f: Frame, v3: bool, rest: Data, depth: nat)
    requires !IsLeaf(f) && Count(f, v3) <= MAX_AGGREGATE_LEN && depth <= MAX_NESTING_DEPTH
    requires var (n, body) := (if f.Map? then 2 * |f.pairs| else |f.items|, Children(floats, f, v3));
             ParseItems(floats, body + rest, n, depth + 1) == Done(ChildrenSeen(floats, f, v3), |body|)
    ensures ParseFrame(floats, Encode(floats, f, v3) + rest, depth) ==
            Done(Aggregate(KindOf(Marker(f, v3)), ChildrenSeen(floats, f, v3)), |Encode(floats, f, v3)|)
  {
    hide ParseFrame, ParseItems, Shown, EncodeAll, EncodePairs, AllSeen, PairsSeen, Aggregate, CountBytes;
    var (marker, n, body) := (Marker(f, v3), Count(f, v3), Children(floats, f, v3));
    assert Encode(floats, f, v3) == CountBytes(marker, n, body);
    CountRead(floats, marker, n, body, rest, depth, ChildrenSeen(floats, f, v3));
  }

  lemma CountRead(floats: Floats, marker: byte, n: nat, body: Data, rest: Data, depth: nat, items: seq<Frame>)
    requires IsAggregate(marker) && n <= MAX_AGGREGATE_LEN && depth <= MAX_NESTING_DEPTH
    requires ParseItems(floats, body + rest, if marker == 37 then n * 2 else n, depth + 1) == Done(items, |body|)
    ensures ParseFrame(floats, CountBytes(marker, n, body) + rest, depth) ==
            Done(Aggregate(KindOf(marker), items), |CountBytes(marker, n, body)|)
  {
    hide ParseIntegerLine, ParseItems, Shown, Aggregate;
    var (s, head) := (CountBytes(marker, n, body) + rest, Shown(n));
    assert s[0] == marker && s[1..] == head + CRLF + (body + rest);
    IntegerRead(n, body + rest);
    assert (head + CRLF + (body + rest))[|head| + 2..] == body + rest;
  }

  lemma {:induction false} AllSeenSame(floats: Floats, items: seq<Frame>)
    ensures AllSeen(floats, items, true) == items
  {
    if items != [] {
      AllSeenSame(floats, items[1..]);
    }
  }

  lemma {:induction false} PairsSeenSame(floats: Floats, pairs: seq<Pair>)
    ensures Paired(PairsSeen(floats, pairs, true)) == pairs
  {
    if pairs != [] {
      PairsSeenSame(floats, pairs[1..]);
      var r := PairsSeen(floats, pairs, true);
      assert PairSeen(floats, pairs[0], true) == [pairs[0].key, pairs[0].value];
      assert r[2..] == PairsSeen(floats, pairs[1..], true) && r[0] == pairs[0].key && r[1] == pairs[0].value;
      assert pairs == [pairs[0]] + pairs[1..];
    }
  }

  lemma AggregateSeen(floats: Floats, f: Frame, v3: bool)
    requires !IsLeaf(f)
    ensures Aggregate(KindOf(Marker(f, v3)), ChildrenSeen(floats, f, v3)) == Seen(floats, f, v3)
  {
    if v3 {
      if f.Map? {
        PairsSeenSame(floats, f.pairs);
      } else {
        AllSeenSame(floats, f.items);
      }
    }
  }

  /** Parsing an encoding returns the frame under RESP3 and its downgrade under RESP2, and uses exactly
      the encoding, whatever follows. */
  lemma {:induction false} ParseEncode(floats: Floats, f: Frame, v3: bool, rest: Data, depth: nat)
    requires Fits(floats, f, v3, depth)
    ensures ParseFrame(floats, Encode(floats, f, v3) + rest, depth) == Done(Seen(floats, f, v3), |Encode(floats, f, v3)|)
    decreases f, 1
  {
    hide ParseFrame, Encode, Seen, LeafFits, ParseItems;
    if f.Map? {
      PairsRead(floats, f.pairs, v3, rest, depth + 1);
      AggregateHead(floats, f, v3, rest, depth);
      AggregateSeen(floats, f, v3);
    } else if !IsLeaf(f) {
      ItemsRead(floats, f.items, v3, rest, depth + 1);
      AggregateHead(floats, f, v3, rest, depth);
      AggregateSeen(floats, f, v3);
    } else if f.Double? || f.BigNumber? {
      TextLeafRead(floats, f, v3, rest, depth);
    } else if f.Bulk? || f.Verbatim? || f.BlobError? {
      SizedLeafRead(floats, f, v3, rest, depth);
    } else if f.Null? || f.Boolean? {
      ShortLeafRead(floats, f, v3, rest, depth);
    } else {
      LineLeafRead(floats, f, v3, rest, depth);
    }
  }

  lemma ItemsNext(floats: Floats, s: Data, count: nat, depth: nat, f: Frame, used: nat, fs: seq<Frame>, more: nat)
    requires count > 0 && ParseFrame(floats, s, depth) == Done(f, used) && used <= |s|
    requires ParseItems(floats, s[used..], count - 1, depth) == Done(fs, more)
    ensures ParseItems(floats, s, count, depth) == Done([f] + fs, used + more)
  {
    hide ParseFrame;
  }

  lemma NoItemsRead(floats: Floats, v3: bool, rest: Data, depth: nat)
    ensures ParseItems(floats, EncodeAll(floats, [], v3) + rest, 0, depth) == Done(AllSeen(floats, [], v3), 0)
    ensures EncodeAll(floats, [], v3) == []
  {
  }

  lemma {:induction false} ItemsRead(floats: Floats, items: seq<Frame>, v3: bool, rest: Data, depth: nat)
    requires forall x :: x in items ==> Fits(floats, x, v3, depth)
    ensures ParseItems(floats, EncodeAll(floats, items, v3) + rest, |items|, depth) == Done(AllSeen(floats, items, v3), |EncodeAll(floats, items, v3)|)
    decreases items, 0
  {
    hide ParseFrame, Encode, Seen, Fits, ParseItems, EncodeAll, AllSeen;
    if items == [] {
      NoItemsRead(floats, v3, rest, depth);
    } else {
      var (first, tail) := (Encode(floats, items[0], v3), EncodeAll(floats, items[1..], v3));
      ParseEncode(floats, items[0], v3, tail + rest, depth);
      ItemsRead(floats, items[1..], v3, rest, depth);
      ItemJoin(floats, items, v3, rest, depth, first, tail);
    }
  }

  lemma ItemJoin(floats: Floats, items: seq<Frame>, v3: bool, rest: Data, depth: nat, first: Data, tail: Data)
    requires items != [] && first == Encode(floats, items[0], v3) && tail == EncodeAll(floats, items[1..], v3)
    requires ParseFrame(floats, first + (tail + rest), depth) == Done(Seen(floats, items[0], v3), |first|)
    requires ParseItems(floats, tail + rest, |items| - 1, depth) == Done(AllSeen(floats, items[1..], v3), |tail|)
    ensures ParseItems(floats, EncodeAll(floats, items, v3) + rest, |items|, depth) == Done(AllSeen(floats, items, v3), |EncodeAll(floats, items, v3)|)
  {
    hide ParseFrame, Encode, Seen, ParseItems;
    var s := EncodeAll(floats, items, v3) + rest;
    assert s == first + (tail + rest) && s[|first|..] == tail + rest;
    ItemsNext(floats, s, |items|, depth, Seen(floats, items[0], v3), |first|, AllSeen(floats, items[1..], v3), |tail|);
  }

  lemma {:induction false} PairRead(floats: Floats, p: Pair, v3: bool, rest: Data, depth: nat)
    requires Fits(floats, p.key, v3, depth) && Fits(floats, p.value, v3, depth)
    ensures var (k, v) := (Encode(floats, p.key, v3), Encode(floats, p.value, v3));
            && EncodePair(floats, p, v3) == k + v && PairSeen(floats, p, v3) == [Seen(floats, p.key, v3), Seen(floats, p.value, v3)]
            && ParseFrame(floats, k + (v + rest), depth) == Done(Seen(floats, p.key, v3), |k|)
            && ParseFrame(floats, v + rest, depth) == Done(Seen(floats, p.value, v3), |v|)
    decreases p, 1
  {
    hide ParseFrame, Encode, Seen, Fits;
    ParseEncode(floats, p.key, v3, Encode(floats, p.value, v3) + rest, depth);
    ParseEncode(floats, p.value, v3, rest, depth);
  }

  lemma NoPairsRead(floats: Floats, v3: bool, rest: Data, depth: nat)
    ensures ParseItems(floats, EncodePairs(floats, [], v3) + rest, 0, depth) == Done(PairsSeen(floats, [], v3), 0)
    ensures EncodePairs(floats, [], v3) == []
  {
  }

  lemma {:induction false} PairsRead(floats: Floats, pairs: seq<Pair>, v3: bool, rest: Data, depth: nat)
    requires forall i :: 0 <= i < |pairs| ==> Fits(floats, pairs[i].key, v3, depth) && Fits(floats, pairs[i].value, v3, depth)
    ensures ParseItems(floats, EncodePairs(floats, pairs, v3) + rest, 2 * |pairs|, depth) ==
            Done(PairsSeen(floats, pairs, v3), |EncodePairs(floats, pairs, v3)|)
    decreases pairs, 0
  {
    hide ParseFrame, Encode, Seen, Fits, ParseItems, EncodePair, PairSeen;
    if pairs == [] {
      NoPairsRead(floats, v3, rest, depth);
    } else {
      var p := pairs[0];
      var (k, v) := (Encode(floats, p.key, v3), Encode(floats, p.value, v3));
      var (tail, after) := (EncodePairs(floats, pairs[1..], v3), PairsSeen(floats, pairs[1..], v3));
      PairRead(floats, p, v3, tail + rest, depth);
      PairsRead(floats, pairs[1..], v3, rest, depth);
      PairJoin(floats, pairs, v3, rest, depth, k, v, tail, after);
    }
  }

  lemma PairJoin(floats: Floats, pairs: seq<Pair>, v3: bool, rest: Data, depth: nat, k: Data, v: Data, tail: Data, after: seq<Frame>)
    requires pairs != [] && tail == EncodePairs(floats, pairs[1..], v3) && after == PairsSeen(floats, pairs[1..], v3)
    requires EncodePair(floats, pairs[0], v3) == k + v
    requires PairSeen(floats, pairs[0], v3) == [Seen(floats, pairs[0].key, v3), Seen(floats, pairs[0].value, v3)]
    requires ParseFrame(floats, k + (v + (tail + rest)), depth) == Done(Seen(floats, pairs[0].key, v3), |k|)
    requires ParseFrame(floats, v + (tail + rest), depth) == Done(Seen(floats, pairs[0].value, v3), |v|)
    requires ParseItems(floats, tail + rest, 2 * |pairs| - 2, depth) == Done(after, |tail|)
    ensures ParseItems(floats, EncodePairs(floats, pairs, v3) + rest, 2 * |pairs|, depth) ==
            Done(PairsSeen(floats, pairs, v3), |EncodePairs(floats, pairs, v3)|)
  {
    hide ParseFrame, Encode, Seen, ParseItems, EncodePair, PairSeen;
    var (a, b) := (Seen(floats, pairs[0].key, v3), Seen(floats, pairs[0].value, v3));
    var (inner, s) := (v + (tail + rest), EncodePairs(floats, pairs, v3) + rest);
    assert s == k + inner && s[|k|..] == inner && inner[|v|..] == tail + rest;
    ItemsNext(floats, inner, 2 * |pairs| - 1, depth, b, |v|, after, |tail|);
    ItemsNext(floats, s, 2 * |pairs|, depth, a, |k|, [b] + after, |v| + |tail|);
    assert PairsSeen(floats, pairs, v3) == [a] + ([b] + after);
    assert |EncodePairs(floats, pairs, v3)| == |k| + |v| + |tail|;
  }
}
