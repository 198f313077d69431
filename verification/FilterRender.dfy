/** Writing a filter back, and why parsing it returns the same tree. */
module FilterRender {
  import opened Bytes
  import opened Decimal
  import opened Payloads
  import opened Filters
  import opened FilterGrammar

  // ---- What the grammar can produce ----

  /** A run of characters `tokenize` keeps together. */
  predicate IsWord(t: string) {
    t != "" && forall i :: 0 <= i < |t| ==> !IsDelimiter(t[i]) && !IsAngle(t[i]) && !IsSpace(t[i])
  }

  predicate FieldOk(t: string) {
    IsWord(t) && !IsReserved(t)
  }

  predicate ValueOk(v: Value) {
    match v
    case Keyword(t) => FieldOk(t) && ParseI64(Codes(t)) == None
    case Int(n) => IsI64(n)
  }

  /** The five range forms. */
  predicate LimitsOk(lo: Limit, hi: Limit) {
    || (!lo.Unbounded? && hi.Unbounded? && ValueOk(lo.value))
    || (lo.Unbounded? && !hi.Unbounded? && ValueOk(hi.value))
    || (lo.Included? && hi.Included? && ValueOk(lo.value) && ValueOk(hi.value))
  }

  predicate Writable(f: Filter) {
    match f
    case Eq(field, v) => FieldOk(field) && ValueOk(v)
    case In(field, vs) => FieldOk(field) && vs != [] && forall v :: v in vs ==> ValueOk(v)
    case Range(field, lo, hi) => FieldOk(field) && LimitsOk(lo, hi)
    case Exists(field) => FieldOk(field)
    case And(parts) => |parts| >= 2 && forall p :: p in parts ==> Writable(p)
    case Or(parts) => |parts| >= 2 && forall p :: p in parts ==> Writable(p)
    case Not(inner) => Writable(inner)
  }

  // ---- Rendering ----

  function Text(codes: seq<int>): string
    requires forall i :: 0 <= i < |codes| ==> 0 <= codes[i] < 128
  {
    seq(|codes|, i requires 0 <= i < |codes| => codes[i] as char)
  }

  function PrintInt(n: int): string {
    PrintCodes(n);
    Text(Print(n))
  }

  function ValueToken(v: Value): string {
    match v
    case Keyword(t) => t
    case Int(n) => PrintInt(n)
  }

  function ListTokens(vs: seq<Value>): Tokens
    requires vs != []
  {
    [ValueToken(vs[0])] + if |vs| == 1 then [")"] else [","] + ListTokens(vs[1..])
  }

  function RangeTokens(field: string, lo: Limit, hi: Limit): Tokens {
    match (lo, hi)
    case (Included(a), Included(b)) => [field, "BETWEEN", ValueToken(a), "AND", ValueToken(b)]
    case (Included(a), _) => [field, ">=", ValueToken(a)]
    case (Excluded(a), _) => [field, ">", ValueToken(a)]
    case (Unbounded, Included(b)) => [field, "<=", ValueToken(b)]
    case (Unbounded, Excluded(b)) => [field, "<", ValueToken(b)]
    case (Unbounded, Unbounded) => [field, "EXISTS"]
  }

  /** How tightly a filter binds: `OR` least, then `AND`, then `NOT`; predicates need no parentheses. */
  function Level(f: Filter): nat {
    match f
    case Or(_) => 0
    case And(_) => 1
    case _ => 2
  }

  /** Redundant pairs of parentheses around each part: none for the minimal form, one for the full
      form, any number in between or beyond. */
  type Style = Filter -> nat

  function Pairs(f: Filter, level: nat, style: Style): nat {
    style(f) + if Level(f) < level then 1 else 0
  }

  function Wrapped(n: nat, ts: Tokens): Tokens {
    if n == 0 then ts else ["("] + Wrapped(n - 1, ts) + [")"]
  }

  function Body(f: Filter, style: Style): Tokens
    requires Writable(f)
    decreases f, 0
  {
    match f
    case Eq(field, v) => [field, "=", ValueToken(v)]
    case In(field, vs) => [field, "IN", "("] + ListTokens(vs)
    case Range(field, lo, hi) => RangeTokens(field, lo, hi)
    case Exists(field) => [field, "EXISTS"]
    case And(parts) => Joined(parts, "AND", 2, style)
    case Or(parts) => Joined(parts, "OR", 1, style)
    case Not(inner) => ["NOT"] + Render(inner, 2, style)
  }

  function Joined(parts: seq<Filter>, kw: string, level: nat, style: Style): Tokens
    requires parts != [] && forall p :: p in parts ==> Writable(p)
    decreases parts, 2
  {
    Render(parts[0], level, style) + JoinedRest(parts[1..], kw, level, style)
  }

  function JoinedRest(parts: seq<Filter>, kw: string, level: nat, style: Style): Tokens
    requires forall p :: p in parts ==> Writable(p)
    decreases parts, 2
  {
    if parts == [] then [] else [kw] + Render(parts[0], level, style) + JoinedRest(parts[1..], kw, level, style)
  }

  /** A filter where only filters that bind at least as tightly as `level` may stand bare. */
  function Render(f: Filter, level: nat, style: Style): Tokens
    requires Writable(f)
    decreases f, 1
  {
    Wrapped(Pairs(f, level, style), Body(f, style))
  }

  // ---- Values and predicates ----

  lemma PrintedCodes(n: int)
    ensures var t := PrintInt(n);
            Codes(t) == Print(n) && t != "" && forall i :: 0 <= i < |t| ==> t[i] == '-' || '0' <= t[i] <= '9'
  {
    hide Print;
    PrintCodes(n);
  }

  lemma PlainToken(t: string)
    requires t != "" && forall i :: 0 <= i < |t| ==> t[i] == '-' || '0' <= t[i] <= '9'
    ensures IsWord(t) && !IsReserved(t)
  {
    assert t[0] == '-' || '0' <= t[0] <= '9';
  }

  lemma IntToken(n: int)
    requires IsI64(n)
    ensures ParseValue(PrintInt(n)) == Int(n) && IsWord(PrintInt(n)) && !IsReserved(PrintInt(n))
  {
    hide Print, PrintInt, ParseI64, IsWord, IsReserved;
    ParsePrint(n);
    PrintedCodes(n);
    PlainToken(PrintInt(n));
  }

  lemma ValueTaken(v: Value, post: Tokens)
    requires ValueOk(v)
    ensures TakeValue([ValueToken(v)] + post) == Got(v, post)
  {
    if v.Int? {
      IntToken(v.n);
    }
    assert ([ValueToken(v)] + post)[1..] == post;
  }

  lemma {:induction false} ListParsed(vs: seq<Value>, before: seq<Value>, post: Tokens)
    requires vs != [] && forall v :: v in vs ==> ValueOk(v)
    ensures ParseList(ListTokens(vs) + post, before) == Items(before + vs, post)
    decreases |vs|
  {
    hide ValueOk, ValueToken, TakeValue, Shorter;
    if |vs| == 1 {
      ValueTaken(vs[0], [")"] + post);
      assert ListTokens(vs) + post == [ValueToken(vs[0])] + ([")"] + post);
      assert ([")"] + post)[1..] == post;
      assert before + [vs[0]] == before + vs;
    } else {
      var more := ListTokens(vs[1..]) + post;
      ValueTaken(vs[0], [","] + more);
      assert ListTokens(vs) + post == [ValueToken(vs[0])] + ([","] + more);
      assert ([","] + more)[1..] == more;
      ListParsed(vs[1..], before + [vs[0]], post);
      assert before + [vs[0]] + vs[1..] == before + vs;
    }
  }

  lemma Spelled()
    ensures IsKeyword("AND", "AND") && IsKeyword("OR", "OR") && IsKeyword("NOT", "NOT")
    ensures IsKeyword("IN", "IN") && IsKeyword("BETWEEN", "BETWEEN") && IsKeyword("EXISTS", "EXISTS")
    ensures !IsKeyword("IN", "EXISTS") && !IsKeyword("BETWEEN", "EXISTS") && !IsKeyword("BETWEEN", "IN")
    ensures !IsKeyword("(", "NOT") && !IsKeyword(")", "AND") && !IsKeyword(")", "OR") && !IsKeyword("OR", "AND")
  {
  }

  lemma BetweenParsed(field: string, a: Value, b: Value, post: Tokens)
    requires ValueOk(a) && ValueOk(b)
    ensures ParseBetween(field, [ValueToken(a), "AND", ValueToken(b)] + post) == Ok(Range(field, Included(a), Included(b)), post)
  {
    hide ValueOk, ValueToken, TakeValue, IsKeyword;
    Spelled();
    var tail := ["AND"] + ([ValueToken(b)] + post);
    ValueTaken(a, tail);
    ValueTaken(b, post);
    assert [ValueToken(a), "AND", ValueToken(b)] + post == [ValueToken(a)] + tail;
    assert tail[1..] == [ValueToken(b)] + post;
  }

  predicate IsAtom(f: Filter) {
    f.Eq? || f.In? || f.Range? || f.Exists?
  }

  lemma ComparedParsed(v: Value, post: Tokens, make: Value -> Filter)
    requires ValueOk(v)
    ensures Compared([ValueToken(v)] + post, make) == Ok(make(v), post)
  {
    ValueTaken(v, post);
  }

  lemma RangeParsed(field: string, lo: Limit, hi: Limit, post: Tokens)
    requires LimitsOk(lo, hi)
    ensures var ts := RangeTokens(field, lo, hi);
            |ts| >= 2 && ts[0] == field && Predicate(field, ts[1], ts[2..] + post) == Ok(Range(field, lo, hi), post)
  {
    hide ValueOk, ValueToken, TakeValue, Compared, ParseBetween, IsKeyword;
    Spelled();
    var ts := RangeTokens(field, lo, hi);
    if lo.Included? && hi.Included? {
      BetweenParsed(field, lo.value, hi.value, post);
      assert ts[2..] == [ValueToken(lo.value), "AND", ValueToken(hi.value)];
    } else {
      var v := if lo.Unbounded? then hi.value else lo.value;
      assert ts[2..] == [ValueToken(v)];
      ComparedParsed(v, post, x => Range(field, Included(x), Unbounded));
      ComparedParsed(v, post, x => Range(field, Excluded(x), Unbounded));
      ComparedParsed(v, post, x => Range(field, Unbounded, Included(x)));
      ComparedParsed(v, post, x => Range(field, Unbounded, Excluded(x)));
    }
  }

  /** A predicate is read back, whatever follows. */
  lemma AtomParsed(f: Filter, style: Style, post: Tokens)
    requires Writable(f) && IsAtom(f)
    ensures ParseNot(Body(f, style) + post) == Ok(f, post)
  {
    hide ValueOk, ValueToken, TakeValue, Predicate, ListTokens, RangeTokens, IsKeyword, IsWord;
    var ts := Body(f, style) + post;
    FieldFirst(f.field);
    match f
    case Eq(field, v) =>
      assert ts[2..] == [ValueToken(v)] + post;
      EqParsed(field, v, post);
    case In(field, vs) =>
      assert ts[2..] == ["("] + (ListTokens(vs) + post);
      InParsed(field, vs, post);
    case Range(field, lo, hi) =>
      RangeParsed(field, lo, hi, post);
      assert ts[2..] == RangeTokens(field, lo, hi)[2..] + post;
    case Exists(field) =>
      assert ts[2..] == post;
      ExistsParsed(field, post);
  }

  lemma FieldFirst(field: string)
    requires FieldOk(field)
    ensures !IsReserved(field) && !IsKeyword(field, "NOT") && field != "("
  {
  }

  lemma EqParsed(field: string, v: Value, post: Tokens)
    requires ValueOk(v)
    ensures Predicate(field, "=", [ValueToken(v)] + post) == Ok(Eq(field, v), post)
  {
    hide ValueOk, ValueToken, Compared;
    ComparedParsed(v, post, x => Eq(field, x));
  }

  lemma InParsed(field: string, vs: seq<Value>, post: Tokens)
    requires vs != [] && forall v :: v in vs ==> ValueOk(v)
    ensures Predicate(field, "IN", ["("] + (ListTokens(vs) + post)) == Ok(In(field, vs), post)
  {
    hide ValueOk, ListTokens, ParseList, IsKeyword;
    Spelled();
    ListParsed(vs, [], post);
    assert (["("] + (ListTokens(vs) + post))[1..] == ListTokens(vs) + post;
    assert [] + vs == vs;
  }

  lemma ExistsParsed(field: string, post: Tokens)
    ensures Predicate(field, "EXISTS", post) == Ok(Exists(field), post)
  {
    hide IsKeyword;
    Spelled();
  }

  // ---- Whole filters ----

  /** Nothing follows that a parser of this level would take for more of the filter. */
  predicate Ends(post: Tokens, level: nat) {
    (level <= 1 ==> !Starts(post, "AND")) && (level == 0 ==> !Starts(post, "OR"))
  }

  function ParseAt(level: nat, ts: Tokens): Parsed {
    if level == 0 then ParseOr(ts) else if level == 1 then ParseAnd(ts) else ParseNot(ts)
  }

  /** A filter read by a tighter parser is read by the looser ones. */
  lemma Loosen(f: Filter, ts: Tokens, post: Tokens, level: nat)
    requires level <= 2 && ParseAt(2, ts) == Ok(f, post) && Ends(post, level)
    ensures ParseAt(level, ts) == Ok(f, post)
  {
    if level <= 1 {
      LoosenNot(f, ts, post);
    }
    if level == 0 {
      LoosenAnd(f, ts, post);
    }
  }

  lemma LoosenNot(f: Filter, ts: Tokens, post: Tokens)
    requires ParseNot(ts) == Ok(f, post) && !Starts(post, "AND")
    ensures ParseAnd(ts) == Ok(f, post)
  {
    hide ParseNot, IsKeyword;
  }

  lemma LoosenAnd(f: Filter, ts: Tokens, post: Tokens)
    requires ParseAnd(ts) == Ok(f, post) && !Starts(post, "OR")
    ensures ParseOr(ts) == Ok(f, post)
  {
    hide ParseAnd, IsKeyword;
  }

  lemma ParenParsed(f: Filter, inside: Tokens, post: Tokens)
    requires ParseOr(inside + ([")"] + post)) == Ok(f, [")"] + post)
    ensures ParseNot(["("] + inside + [")"] + post) == Ok(f, post)
  {
    hide ParseOr, IsKeyword;
    Spelled();
    var ts := ["("] + inside + [")"] + post;
    assert ts[0] == "(" && ts[1..] == inside + ([")"] + post);
    assert ([")"] + post)[1..] == post;
  }

  /** A filter with `n` pairs of parentheses, at a level where it may stand that way, is read back. */
  lemma {:induction false} WrappedParsed(f: Filter, n: nat, level: nat, style: Style, post: Tokens)
    requires Writable(f) && level <= 2 && (n >= 1 || Level(f) >= level) && Ends(post, level)
    ensures ParseAt(level, Wrapped(n, Body(f, style)) + post) == Ok(f, post)
    decreases f, 1, n
  {
    hide ParseAt, Body, Writable, IsKeyword;
    var ts := Wrapped(n, Body(f, style)) + post;
    if n >= 1 {
      var inside := Wrapped(n - 1, Body(f, style));
      EndsParen(post);
      WrappedParsed(f, n - 1, 0, style, [")"] + post);
      AtZero(inside + ([")"] + post));
      ParenParsed(f, inside, post);
      AtTwo(ts);
      Loosen(f, ts, post, level);
    } else if Level(f) == 2 {
      TightParsed(f, style, post);
      Loosen(f, ts, post, level);
    } else {
      JoinParsed(f, level, style, post);
    }
  }

  lemma {:induction false} Rendered(f: Filter, level: nat, style: Style, post: Tokens)
    requires Writable(f) && level <= 2 && Ends(post, level)
    ensures ParseAt(level, Render(f, level, style) + post) == Ok(f, post)
    decreases f, 2
  {
    hide ParseAt, Body, Writable, Ends;
    WrappedParsed(f, Pairs(f, level, style), level, style, post);
  }

  lemma EndsParen(post: Tokens)
    ensures Ends([")"] + post, 0)
  {
    Spelled();
  }

  lemma AtZero(ts: Tokens)
    ensures ParseAt(0, ts) == ParseOr(ts)
  {
  }

  lemma AtTwo(ts: Tokens)
    ensures ParseAt(2, ts) == ParseNot(ts)
  {
  }

  /** A predicate or a negation. */
  lemma {:induction false} TightParsed(f: Filter, style: Style, post: Tokens)
    requires Writable(f) && Level(f) == 2
    ensures ParseAt(2, Body(f, style) + post) == Ok(f, post)
    decreases f, 0
  {
    hide IsKeyword, ParseNot, Render, Writable;
    if f.Not? {
      WritableInner(f);
      var inner := Render(f.inner, 2, style);
      Rendered(f.inner, 2, style, post);
      assert ParseNot(inner + post) == Ok(f.inner, post);
      assert Body(f, style) + post == ["NOT"] + (inner + post);
      NotParsed(f.inner, inner, post);
    } else {
      AtomParsed(f, style, post);
    }
  }

  lemma WritableInner(f: Filter)
    requires Writable(f) && f.Not?
    ensures Writable(f.inner)
  {
  }

  lemma NotParsed(f: Filter, inner: Tokens, post: Tokens)
    requires ParseNot(inner + post) == Ok(f, post)
    ensures ParseNot(["NOT"] + (inner + post)) == Ok(Not(f), post)
  {
    Spelled();
    assert (["NOT"] + (inner + post))[1..] == inner + post;
  }

  /** A conjunction, where conjunctions may stand bare; a disjunction at the outermost level. */
  lemma {:induction false} JoinParsed(f: Filter, level: nat, style: Style, post: Tokens)
    requires Writable(f) && Level(f) < 2 && level <= Level(f) && Ends(post, level)
    ensures ParseAt(level, Body(f, style) + post) == Ok(f, post)
    decreases f, 0
  {
    hide IsKeyword, Writable;
    var ts := Body(f, style) + post;
    JoinParts(f);
    if f.And? {
      AndParsed(f.parts, style, post);
      if level == 0 {
        LoosenAnd(f, ts, post);
      }
    } else {
      OrParsed(f.parts, style, post);
    }
  }

  lemma JoinParts(f: Filter)
    requires Writable(f) && Level(f) < 2
    ensures |f.parts| >= 2 && forall p :: p in f.parts ==> Writable(p)
  {
  }

  lemma {:induction false} AndParsed(parts: seq<Filter>, style: Style, post: Tokens)
    requires |parts| >= 2 && (forall p :: p in parts ==> Writable(p)) && !Starts(post, "AND")
    ensures ParseAnd(Joined(parts, "AND", 2, style) + post) == Ok(And(parts), post)
    decreases parts, 1
  {
    hide IsKeyword, Writable, ParseNot, Starts, Render;
    var rest := JoinedRest(parts[1..], "AND", 2, style);
    var first := Render(parts[0], 2, style);
    Rendered(parts[0], 2, style, rest + post);
    AtTwo(first + (rest + post));
    assert Joined(parts, "AND", 2, style) + post == first + (rest + post);
    assert parts[..1] == [parts[0]];
    AndRestParsed(parts, 1, style, post);
  }

  lemma {:induction false} AndRestParsed(parts: seq<Filter>, k: nat, style: Style, post: Tokens)
    requires |parts| >= 2 && 1 <= k <= |parts| && (forall p :: p in parts ==> Writable(p)) && !Starts(post, "AND")
    ensures AndRest(JoinedRest(parts[k..], "AND", 2, style) + post, parts[..k]) == Ok(And(parts), post)
    decreases parts, 0, |parts| - k
  {
    hide IsKeyword, Writable, ParseNot, Render, AndRest, Starts;
    if k == |parts| {
      assert parts[..k] == parts;
      assert JoinedRest(parts[k..], "AND", 2, style) + post == post;
      AndStops(post, parts);
    } else {
      var (first, rest) := (Render(parts[k], 2, style), JoinedRest(parts[k + 1..], "AND", 2, style));
      assert parts[k..][1..] == parts[k + 1..];
      var ts := JoinedRest(parts[k..], "AND", 2, style) + post;
      assert ts == ["AND"] + (first + (rest + post));
      assert ts[1..] == first + (rest + post);
      Rendered(parts[k], 2, style, rest + post);
      AtTwo(first + (rest + post));
      AndRestParsed(parts, k + 1, style, post);
      assert parts[..k] + [parts[k]] == parts[..k + 1];
      AndGoes(ts, parts[..k], parts[k], rest + post);
    }
  }

  lemma AndStops(ts: Tokens, parts: seq<Filter>)
    requires |parts| >= 2 && !Starts(ts, "AND")
    ensures AndRest(ts, parts) == Ok(And(parts), ts)
  {
  }

  lemma AndGoes(ts: Tokens, parts: seq<Filter>, f: Filter, rest: Tokens)
    requires parts != [] && ts != [] && ts[0] == "AND" && ParseNot(ts[1..]) == Ok(f, rest)
    ensures AndRest(ts, parts) == AndRest(rest, parts + [f])
  {
    hide ParseNot;
    Spelled();
  }

  lemma {:induction false} OrParsed(parts: seq<Filter>, style: Style, post: Tokens)
    requires |parts| >= 2 && (forall p :: p in parts ==> Writable(p)) && Ends(post, 0)
    ensures ParseOr(Joined(parts, "OR", 1, style) + post) == Ok(Or(parts), post)
    decreases parts, 1
  {
    hide IsKeyword, Writable, ParseAnd, Starts, Render;
    var rest := JoinedRest(parts[1..], "OR", 1, style);
    var first := Render(parts[0], 1, style);
    EndsOr(parts[1..], style, post);
    Rendered(parts[0], 1, style, rest + post);
    AtOne(first + (rest + post));
    assert Joined(parts, "OR", 1, style) + post == first + (rest + post);
    assert parts[..1] == [parts[0]];
    OrRestParsed(parts, 1, style, post);
  }

  lemma AtOne(ts: Tokens)
    ensures ParseAt(1, ts) == ParseAnd(ts)
  {
  }

  /** What follows a part of a disjunction ends a conjunction. */
  lemma EndsOr(parts: seq<Filter>, style: Style, post: Tokens)
    requires (forall p :: p in parts ==> Writable(p)) && Ends(post, 0)
    ensures Ends(JoinedRest(parts, "OR", 1, style) + post, 1)
  {
    Spelled();
    if parts == [] {
      assert JoinedRest(parts, "OR", 1, style) + post == post;
    } else {
      assert (JoinedRest(parts, "OR", 1, style) + post)[0] == "OR";
    }
  }

  lemma {:induction false} OrRestParsed(parts: seq<Filter>, k: nat, style: Style, post: Tokens)
    requires |parts| >= 2 && 1 <= k <= |parts| && (forall p :: p in parts ==> Writable(p)) && Ends(post, 0)
    ensures OrRest(JoinedRest(parts[k..], "OR", 1, style) + post, parts[..k]) == Ok(Or(parts), post)
    decreases parts, 0, |parts| - k
  {
    hide IsKeyword, Writable, ParseAnd, Render, OrRest, Starts;
    if k == |parts| {
      assert parts[..k] == parts;
      assert JoinedRest(parts[k..], "OR", 1, style) + post == post;
      OrStops(post, parts);
    } else {
      var (first, rest) := (Render(parts[k], 1, style), JoinedRest(parts[k + 1..], "OR", 1, style));
      assert parts[k..][1..] == parts[k + 1..];
      var ts := JoinedRest(parts[k..], "OR", 1, style) + post;
      assert ts == ["OR"] + (first + (rest + post));
      assert ts[1..] == first + (rest + post);
      EndsOr(parts[k + 1..], style, post);
      Rendered(parts[k], 1, style, rest + post);
      AtOne(first + (rest + post));
      OrRestParsed(parts, k + 1, style, post);
      assert parts[..k] + [parts[k]] == parts[..k + 1];
      OrGoes(ts, parts[..k], parts[k], rest + post);
    }
  }

  lemma OrStops(ts: Tokens, parts: seq<Filter>)
    requires |parts| >= 2 && !Starts(ts, "OR")
    ensures OrRest(ts, parts) == Ok(Or(parts), ts)
  {
  }

  lemma OrGoes(ts: Tokens, parts: seq<Filter>, f: Filter, rest: Tokens)
    requires parts != [] && ts != [] && ts[0] == "OR" && ParseAnd(ts[1..]) == Ok(f, rest)
    ensures OrRest(ts, parts) == OrRest(rest, parts + [f])
  {
    hide ParseAnd;
    Spelled();
  }

  /** Parsing the tokens of any rendering returns the filter. */
  lemma RenderParsed(f: Filter, style: Style)
    requires Writable(f)
    ensures ParseTokens(Render(f, 0, style)) == Some(f)
  {
    hide Body, ParseOr;
    var ts := Render(f, 0, style);
    WrappedParsed(f, Pairs(f, 0, style), 0, style, []);
    AtZero(ts + []);
    assert ts + [] == ts;
  }
}
