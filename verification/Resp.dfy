/** RESP2 and RESP3 frames and their parser: `frame.rs` and `parser.rs` of `skeg-resp3`. Text is the
    bytes of its UTF-8 encoding; doubles are opaque values with a printer and a parser. */
module Resp {
  import opened Bytes
  import opened Decimal
  import opened Streaming

  const MAX_AGGREGATE_LEN: nat := 1_048_576
  const MAX_BULK_LEN: nat := 512 * 1024 * 1024
  const MAX_NESTING_DEPTH: nat := 128

  const CRLF: Data := [13, 10]

  datatype Frame =
    | Simple(text: Data)
    | Error(text: Data)
    | Integer(n: int)
    | Bulk(data: Data)
    | Null
    | Array(items: seq<Frame>)
    | BlobError(code: Data, message: Data)
    | Boolean(b: bool)
    | Double(d: nat)
    | Map(pairs: seq<Pair>)
    | Set(items: seq<Frame>)
    | Push(items: seq<Frame>)
    | Verbatim(fmt: Data, data: Data)
    | BigNumber(text: Data)

  datatype Pair = Pair(key: Frame, value: Frame)

  /** Printing and parsing of doubles. */
  datatype Floats = Floats(show: nat -> Data, read: Data -> Option<nat>)

  datatype ParseError =
    | UnknownTypeMarker(marker: byte)
    | InvalidUtf8
    | InvalidInteger(line: Data)
    | InvalidLength(len: int)
    | AggregateTooLarge(count: nat)
    | NestingTooDeep(depth: nat)
    | BulkTooLarge(size: nat)
    | InvalidBoolean(line: Data)
    | InvalidDouble(line: Data)
    | InvalidVerbatim
    | UnexpectedPayload

  /** `Ok(Some((value, used)))`, `Ok(None)` or `Err`. */
  datatype Parse<+T> = Done(value: T, used: nat) | More | Bad(error: ParseError)

  // ---- UTF-8 ----

  predicate Tail(b: byte) {
    0x80 <= b <= 0xBF
  }

  /** The length of the character at the front of `s`, or 0 if there is none. */
  function CharLen(s: Data): (n: nat)
    ensures n <= |s|
  {
    if s == [] then 0
    else if s[0] < 0x80 then 1
    else if |s| < 2 then 0
    else if 0xC2 <= s[0] <= 0xDF && Tail(s[1]) then 2
    else if |s| < 3 then 0
    else if ((s[0] == 0xE0 && 0xA0 <= s[1] <= 0xBF) || (s[0] == 0xED && 0x80 <= s[1] <= 0x9F)
             || (0xE1 <= s[0] <= 0xEF && s[0] != 0xED && Tail(s[1]))) && Tail(s[2]) then 3
    else if |s| < 4 then 0
    else if ((s[0] == 0xF0 && 0x90 <= s[1] <= 0xBF) || (s[0] == 0xF4 && 0x80 <= s[1] <= 0x8F)
             || (0xF1 <= s[0] <= 0xF3 && Tail(s[1]))) && Tail(s[2]) && Tail(s[3]) then 4
    else 0
  }

  predicate Utf8(s: Data) {
    s == [] || (CharLen(s) > 0 && Utf8(s[CharLen(s)..]))
  }

  lemma {:induction false} AsciiUtf8(s: Data)
    requires forall i :: 0 <= i < |s| ==> s[i] < 0x80
    ensures Utf8(s)
  {
    if s != [] {
      AsciiUtf8(s[1..]);
    }
  }

  lemma {:induction false} ConcatUtf8(a: Data, b: Data)
    requires Utf8(a) && Utf8(b)
    ensures Utf8(a + b)
    decreases |a|
  {
    if a == [] {
      assert a + b == b;
    } else {
      var n := CharLen(a);
      assert CharLen(a + b) == n;
      assert (a + b)[n..] == a[n..] + b;
      ConcatUtf8(a[n..], b);
    }
  }

  // ---- Lines ----

  /** `find_crlf`. */
  function FindCrlf(s: Data): (r: Option<nat>)
    ensures r.Some? ==> r.value + 2 <= |s|
  {
    if |s| < 2 then None
    else if s[0] == 13 && s[1] == 10 then Some(0)
    else
      var r := FindCrlf(s[1..]);
      if r.Some? then Some(r.value + 1) else None
  }

  /** The line in front of the first CRLF. */
  function ParseLine(body: Data): (r: Parse<Data>)
    ensures r.Done? ==> 2 <= r.used <= |body|
  {
    var end := FindCrlf(body);
    if end.None? then More
    else if !Utf8(body[..end.value]) then Bad(InvalidUtf8)
    else Done(body[..end.value], end.value + 2)
  }

  function ParseIntegerLine(body: Data): (r: Parse<int>)
    ensures r.Done? ==> 2 <= r.used <= |body| && IsI64(r.value)
  {
    match ParseLine(body)
    case More => More
    case Bad(e) => Bad(e)
    case Done(line, used) =>
      var n := ParseI64(line);
      if n.None? then Bad(InvalidInteger(line)) else Done(n.value, used)
  }

  /** The length of a bulk payload, within the limit. */
  function CheckedLength(len: int): Parse<nat> {
    if len < 0 then Bad(InvalidLength(len)) else if len > MAX_BULK_LEN then Bad(BulkTooLarge(len)) else Done(len, 0)
  }

  /** `len` bytes at `start`, closed by CRLF; anything else in its place counts as incomplete. */
  function Payload(body: Data, start: nat, len: nat): (r: Parse<Data>)
    ensures r.Done? ==> r.used == start + len + 2 <= |body|
  {
    var end := start + len;
    if |body| < end + 2 || body[end..end + 2] != CRLF then More else Done(body[start..end], end + 2)
  }

  // ---- Leaves ----

  function ParseBulk(body: Data): (r: Parse<Frame>)
    ensures r.Done? ==> 2 <= r.used <= |body|
  {
    match ParseIntegerLine(body)
    case More => More
    case Bad(e) => Bad(e)
    case Done(len, start) =>
      if len == -1 then Done(Null, start)
      else
        match CheckedLength(len)
        case Bad(e) => Bad(e)
        case More => More
        case Done(n, _) =>
          var p := Payload(body, start, n);
          if p.Done? then Done(Bulk(p.value), p.used) else More
  }

  function ParseNull(body: Data): (r: Parse<Frame>)
    ensures r.Done? ==> 2 <= r.used <= |body|
  {
    var end := FindCrlf(body);
    if end.None? then More else if end.value != 0 then Bad(UnexpectedPayload) else Done(Null, 2)
  }

  function ParseBoolean(body: Data): (r: Parse<Frame>)
    ensures r.Done? ==> 2 <= r.used <= |body|
  {
    var end := FindCrlf(body);
    if end.None? then More
    else
      var line := body[..end.value];
      if line == [116] then Done(Boolean(true), end.value + 2)
      else if line == [102] then Done(Boolean(false), end.value + 2)
      else Bad(InvalidBoolean(line))
  }

  function ParseDouble(floats: Floats, body: Data): (r: Parse<Frame>)
    ensures r.Done? ==> 2 <= r.used <= |body|
  {
    match ParseLine(body)
    case More => More
    case Bad(e) => Bad(e)
    case Done(line, used) =>
      var d := floats.read(line);
      if d.None? then Bad(InvalidDouble(line)) else Done(Double(d.value), used)
  }

  function FindSpace(s: Data): (i: nat)
    ensures i <= |s| && (i < |s| ==> s[i] == 32) && forall j :: 0 <= j < i ==> s[j] != 32
  {
    if s == [] || s[0] == 32 then 0 else 1 + FindSpace(s[1..])
  }

  function ParseBlobError(body: Data): (r: Parse<Frame>)
    ensures r.Done? ==> 2 <= r.used <= |body|
  {
    match ParseIntegerLine(body)
    case More => More
    case Bad(e) => Bad(e)
    case Done(len, start) =>
      match CheckedLength(len)
      case Bad(e) => Bad(e)
      case More => More
      case Done(n, _) =>
        var p := Payload(body, start, n);
        if !p.Done? then More
        else if !Utf8(p.value) then Bad(InvalidUtf8)
        else
          var i := FindSpace(p.value);
          Done(if i == |p.value| then BlobError(p.value, []) else BlobError(p.value[..i], p.value[i + 1..]), p.used)
  }

  function ParseVerbatim(body: Data): (r: Parse<Frame>)
    ensures r.Done? ==> 2 <= r.used <= |body|
  {
    match ParseIntegerLine(body)
    case More => More
    case Bad(e) => Bad(e)
    case Done(len, start) =>
      match CheckedLength(len)
      case Bad(e) => Bad(e)
      case More => More
      case Done(n, _) =>
        if n < 4 then Bad(InvalidVerbatim)
        else
          var p := Payload(body, start, n);
          if !p.Done? then More
          else if p.value[3] != 58 then Bad(InvalidVerbatim)
          else Done(Verbatim(p.value[..3], p.value[4..]), p.used)
  }

  predicate IsBigNumber(s: Data) {
    s != [] && if s[0] == 45 || s[0] == 43 then |s| > 1 && AllDigits(s[1..]) else AllDigits(s)
  }

  function ParseBigNumber(body: Data): (r: Parse<Frame>)
    ensures r.Done? ==> 2 <= r.used <= |body|
  {
    match ParseLine(body)
    case More => More
    case Bad(e) => Bad(e)
    case Done(line, used) => if IsBigNumber(line) then Done(BigNumber(line), used) else Bad(InvalidInteger(line))
  }

  // ---- Aggregates and dispatch ----

  datatype Kind = KArray | KSet | KPush | KMap

  function Paired(items: seq<Frame>): (pairs: seq<Pair>)
    requires |items| % 2 == 0
    ensures |pairs| == |items| / 2
  {
    if items == [] then [] else [Pair(items[0], items[1])] + Paired(items[2..])
  }

  function Aggregate(kind: Kind, items: seq<Frame>): Frame
    requires kind.KMap? ==> |items| % 2 == 0
  {
    match kind
    case KArray => Array(items)
    case KSet => Set(items)
    case KPush => Push(items)
    case KMap => Map(Paired(items))
  }

  /** `count` frames, one after the other. */
  function ParseItems(floats: Floats, s: Data, count: nat, depth: nat): (r: Parse<seq<Frame>>)
    ensures r.Done? ==> r.used <= |s| && |r.value| == count
    decreases |s|, count + 1
  {
    if count == 0 then Done([], 0)
    else
      match ParseFrame(floats, s, depth)
      case More => More
      case Bad(e) => Bad(e)
      case Done(f, used) =>
        match ParseItems(floats, s[used..], count - 1, depth)
        case More => More
        case Bad(e) => Bad(e)
        case Done(fs, more) => Done([f] + fs, used + more)
  }

  function ParseAggregate(floats: Floats, body: Data, kind: Kind, depth: nat): (r: Parse<Frame>)
    ensures r.Done? ==> 2 <= r.used <= |body|
    decreases |body|, 0
  {
    match ParseIntegerLine(body)
    case More => More
    case Bad(e) => Bad(e)
    case Done(count, start) =>
      if count == -1 && kind.KArray? then Done(Null, start)
      else if count < 0 then Bad(InvalidLength(count))
      else if count > MAX_AGGREGATE_LEN then Bad(AggregateTooLarge(count))
      else
        match ParseItems(floats, body[start..], if kind.KMap? then count * 2 else count, depth + 1)
        case More => More
        case Bad(e) => Bad(e)
        case Done(items, used) => Done(Aggregate(kind, items), start + used)
  }

  function Shift(r: Parse<Frame>): Parse<Frame> {
    if r.Done? then Done(r.value, r.used + 1) else r
  }

  function LineFrame(r: Parse<Data>, error: bool): Parse<Frame> {
    match r
    case More => More
    case Bad(e) => Bad(e)
    case Done(line, used) => Done(if error then Error(line) else Simple(line), used)
  }

  function IntegerFrame(r: Parse<int>): Parse<Frame> {
    match r
    case More => More
    case Bad(e) => Bad(e)
    case Done(n, used) => Done(Integer(n), used)
  }

  predicate IsAggregate(marker: byte) {
    marker == 42 || marker == 37 || marker == 126 || marker == 62
  }

  function KindOf(marker: byte): Kind
    requires IsAggregate(marker)
  {
    if marker == 42 then KArray else if marker == 37 then KMap else if marker == 126 then KSet else KPush
  }

  /** A frame that is not an aggregate, after its marker. */
  function ParseLeaf(floats: Floats, marker: byte, body: Data): (r: Parse<Frame>)
    ensures r.Done? ==> 2 <= r.used <= |body|
  {
    if marker == 43 then LineFrame(ParseLine(body), false)
    else if marker == 45 then LineFrame(ParseLine(body), true)
    else if marker == 58 then IntegerFrame(ParseIntegerLine(body))
    else if marker == 36 then ParseBulk(body)
    else if marker == 95 then ParseNull(body)
    else if marker == 35 then ParseBoolean(body)
    else if marker == 44 then ParseDouble(floats, body)
    else if marker == 33 then ParseBlobError(body)
    else if marker == 61 then ParseVerbatim(body)
    else if marker == 40 then ParseBigNumber(body)
    else Bad(UnknownTypeMarker(marker))
  }

  /** `parse_frame_depth`. */
  function ParseFrame(floats: Floats, s: Data, depth: nat): (r: Parse<Frame>)
    ensures r.Done? ==> 3 <= r.used <= |s|
    decreases |s|, 0
  {
    if s == [] then More
    else if depth > MAX_NESTING_DEPTH then Bad(NestingTooDeep(depth))
    else if IsAggregate(s[0]) then Shift(ParseAggregate(floats, s[1..], KindOf(s[0]), depth))
    else Shift(ParseLeaf(floats, s[0], s[1..]))
  }
}
