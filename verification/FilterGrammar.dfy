/** The filter language: tokens and grammar, as functions of the tokens that are left. */
module FilterGrammar {
  import opened Bytes
  import opened Decimal
  import opened Payloads
  import opened Filters

  type Tokens = seq<string>

  // ---- Words ----

  function Upper(c: char): char {
    if 'a' <= c <= 'z' then ((c as int) - 32) as char else c
  }

  /** `eq_ignore_ascii_case` with a keyword in capitals. */
  predicate IsKeyword(t: string, kw: string) {
    |t| == |kw| && forall i :: 0 <= i < |t| ==> Upper(t[i]) == kw[i]
  }

  predicate IsPunctuation(t: string) {
    t == "=" || t == ">" || t == "<" || t == ">=" || t == "<=" || t == "(" || t == ")" || t == ","
  }

  predicate IsReserved(t: string) {
    || IsPunctuation(t) || IsKeyword(t, "AND") || IsKeyword(t, "OR") || IsKeyword(t, "NOT")
    || IsKeyword(t, "IN") || IsKeyword(t, "BETWEEN") || IsKeyword(t, "EXISTS")
  }

  function Codes(s: string): seq<int> {
    seq(|s|, i requires 0 <= i < |s| => s[i] as int)
  }

  /** `Value::parse`. */
  function ParseValue(tok: string): Value {
    var n := ParseI64(Codes(tok));
    if n.Some? then Int(n.value) else Keyword(tok)
  }

  // ---- The grammar ----

  datatype Parsed = Ok(filter: Filter, rest: Tokens) | Err
  datatype Taken = Got(value: Value, rest: Tokens) | Missing
  datatype Listed = Items(values: seq<Value>, rest: Tokens) | BadList

  predicate Suffix(rest: Tokens, ts: Tokens) {
    |rest| <= |ts| && rest == ts[|ts| - |rest|..]
  }

  /** Some tokens were used and the others are left. */
  predicate Shorter(rest: Tokens, ts: Tokens) {
    |rest| < |ts| && Suffix(rest, ts)
  }

  lemma SuffixTrans(a: Tokens, b: Tokens, c: Tokens)
    requires Suffix(a, b) && Suffix(b, c)
    ensures Suffix(a, c)
  {
    assert c[|c| - |b|..][|b| - |a|..] == c[|c| - |a|..];
  }

  predicate Starts(ts: Tokens, kw: string) {
    ts != [] && IsKeyword(ts[0], kw)
  }

  function TakeValue(ts: Tokens): (r: Taken)
    ensures r.Got? ==> Shorter(r.rest, ts)
  {
    if ts == [] || IsReserved(ts[0]) then Missing else Got(ParseValue(ts[0]), ts[1..])
  }

  function ParseOr(ts: Tokens): (r: Parsed)
    ensures r.Ok? ==> Shorter(r.rest, ts)
    decreases |ts|, 4
  {
    var first := ParseAnd(ts);
    if first.Err? then Err
    else
      var r := OrRest(first.rest, [first.filter]);
      if r.Ok? then SuffixTrans(r.rest, first.rest, ts); r else r
  }

  function OrRest(ts: Tokens, parts: seq<Filter>): (r: Parsed)
    requires parts != []
    ensures r.Ok? ==> Suffix(r.rest, ts)
    decreases |ts|, 4
  {
    if Starts(ts, "OR") then
      var next := ParseAnd(ts[1..]);
      if next.Err? then Err
      else
        var r := OrRest(next.rest, parts + [next.filter]);
        if r.Ok? then SuffixTrans(next.rest, ts[1..], ts); SuffixTrans(r.rest, next.rest, ts); r else r
    else Ok(if |parts| == 1 then parts[0] else Or(parts), ts)
  }

  function ParseAnd(ts: Tokens): (r: Parsed)
    ensures r.Ok? ==> Shorter(r.rest, ts)
    decreases |ts|, 3
  {
    var first := ParseNot(ts);
    if first.Err? then Err
    else
      var r := AndRest(first.rest, [first.filter]);
      if r.Ok? then SuffixTrans(r.rest, first.rest, ts); r else r
  }

  function AndRest(ts: Tokens, parts: seq<Filter>): (r: Parsed)
    requires parts != []
    ensures r.Ok? ==> Suffix(r.rest, ts)
    decreases |ts|, 3
  {
    if Starts(ts, "AND") then
      var next := ParseNot(ts[1..]);
      if next.Err? then Err
      else
        var r := AndRest(next.rest, parts + [next.filter]);
        if r.Ok? then SuffixTrans(next.rest, ts[1..], ts); SuffixTrans(r.rest, next.rest, ts); r else r
    else Ok(if |parts| == 1 then parts[0] else And(parts), ts)
  }

  function ParseNot(ts: Tokens): (r: Parsed)
    ensures r.Ok? ==> Shorter(r.rest, ts)
    decreases |ts|, 2
  {
    if Starts(ts, "NOT") then
      var r := ParseNot(ts[1..]);
      if r.Err? then Err else SuffixTrans(r.rest, ts[1..], ts); Ok(Not(r.filter), r.rest)
    else ParseAtom(ts)
  }

  function ParseAtom(ts: Tokens): (r: Parsed)
    ensures r.Ok? ==> Shorter(r.rest, ts)
    decreases |ts|, 1
  {
    if ts != [] && ts[0] == "(" then
      var r := ParseOr(ts[1..]);
      if r.Err? || r.rest == [] || r.rest[0] != ")" then Err
      else SuffixTrans(r.rest, ts[1..], ts); SuffixTrans(r.rest[1..], r.rest, ts); Ok(r.filter, r.rest[1..])
    else ParsePredicate(ts)
  }

  /** A comparison with one value. */
  function Compared(ts: Tokens, make: Value -> Filter): (r: Parsed)
    ensures r.Ok? ==> Shorter(r.rest, ts)
  {
    var v := TakeValue(ts);
    if v.Missing? then Err else Ok(make(v.value), v.rest)
  }

  function ParseBetween(field: string, ts: Tokens): (r: Parsed)
    ensures r.Ok? ==> Shorter(r.rest, ts)
  {
    var lo := TakeValue(ts);
    if lo.Missing? || !Starts(lo.rest, "AND") then Err
    else
      var hi := TakeValue(lo.rest[1..]);
      if hi.Missing? then Err
      else
        SuffixTrans(lo.rest[1..], lo.rest, ts);
        SuffixTrans(hi.rest, lo.rest[1..], ts);
        Ok(Range(field, Included(lo.value), Included(hi.value)), hi.rest)
  }

  /** What follows `IN (`. */
  function ParseList(ts: Tokens, values: seq<Value>): (r: Listed)
    ensures r.Items? ==> Shorter(r.rest, ts)
    decreases |ts|
  {
    var v := TakeValue(ts);
    if v.Missing? || v.rest == [] then BadList
    else if v.rest[0] == "," then
      var r := ParseList(v.rest[1..], values + [v.value]);
      if r.Items? then SuffixTrans(v.rest[1..], v.rest, ts); SuffixTrans(r.rest, v.rest[1..], ts); r else r
    else if v.rest[0] == ")" then SuffixTrans(v.rest[1..], v.rest, ts); Items(values + [v.value], v.rest[1..])
    else BadList
  }

  function ParseIn(field: string, ts: Tokens): (r: Parsed)
    ensures r.Ok? ==> Shorter(r.rest, ts)
  {
    if ts == [] || ts[0] != "(" then Err
    else
      var r := ParseList(ts[1..], []);
      if r.BadList? then Err else SuffixTrans(r.rest, ts[1..], ts); Ok(In(field, r.values), r.rest)
  }

  function ParsePredicate(ts: Tokens): (r: Parsed)
    ensures r.Ok? ==> Shorter(r.rest, ts)
    decreases |ts|, 0
  {
    if ts == [] || IsReserved(ts[0]) || |ts| == 1 then Err
    else
      var (field, op, rest) := (ts[0], ts[1], ts[2..]);
      var r := Predicate(field, op, rest);
      if r.Ok? then SuffixTrans(r.rest, rest, ts); r else r
  }

  function Predicate(field: string, op: string, rest: Tokens): (r: Parsed)
    ensures r.Ok? ==> Suffix(r.rest, rest)
  {
    if op == "=" then Compared(rest, v => Eq(field, v))
    else if op == ">=" then Compared(rest, v => Range(field, Included(v), Unbounded))
    else if op == ">" then Compared(rest, v => Range(field, Excluded(v), Unbounded))
    else if op == "<=" then Compared(rest, v => Range(field, Unbounded, Included(v)))
    else if op == "<" then Compared(rest, v => Range(field, Unbounded, Excluded(v)))
    else if IsKeyword(op, "EXISTS") then Ok(Exists(field), rest)
    else if IsKeyword(op, "IN") then ParseIn(field, rest)
    else if IsKeyword(op, "BETWEEN") then ParseBetween(field, rest)
    else Err
  }

  /** The whole token list must be one filter. */
  function ParseTokens(ts: Tokens): Option<Filter> {
    if ts == [] then None
    else
      var r := ParseOr(ts);
      if r.Ok? && r.rest == [] then Some(r.filter) else None
  }

  // ---- Tokens of a string ----

  /** `char::is_whitespace`. */
  predicate IsSpace(c: char) {
    var n := c as int;
    || 9 <= n <= 13 || n == 0x20 || n == 0x85 || n == 0xA0 || n == 0x1680 || 0x2000 <= n <= 0x200A
    || n == 0x2028 || n == 0x2029 || n == 0x202F || n == 0x205F || n == 0x3000
  }

  predicate IsDelimiter(c: char) {
    c == '(' || c == ')' || c == ',' || c == '='
  }

  predicate IsAngle(c: char) {
    c == '>' || c == '<'
  }

  function Flush(cur: string): Tokens {
    if cur == "" then [] else [cur]
  }

  /** `tokenize`, with `cur` read and not yet flushed. */
  function Tokenize(s: string, cur: string): Tokens {
    if s == "" then Flush(cur)
    else if IsDelimiter(s[0]) then Flush(cur) + [[s[0]]] + Tokenize(s[1..], "")
    else if IsAngle(s[0]) then
      if |s| > 1 && s[1] == '=' then Flush(cur) + [[s[0], '=']] + Tokenize(s[2..], "")
      else Flush(cur) + [[s[0]]] + Tokenize(s[1..], "")
    else if IsSpace(s[0]) then Flush(cur) + Tokenize(s[1..], "")
    else Tokenize(s[1..], cur + [s[0]])
  }

  function ParseFilter(s: string): Option<Filter> {
    ParseTokens(Tokenize(s, ""))
  }
}
