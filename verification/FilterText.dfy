/** Filters as text: `parse_filter` inverts rendering, and produces only filters that can be rendered. */
module FilterText {
  import opened Bytes
  import opened Payloads
  import opened Filters
  import opened FilterGrammar
  import opened FilterRender

  predicate TokenOk(t: string) {
    IsPunctuation(t) || IsWord(t)
  }

  predicate AllOk(ts: Tokens) {
    forall t :: t in ts ==> TokenOk(t)
  }

  function Spaced(ts: Tokens): string {
    if ts == [] then "" else ts[0] + " " + Spaced(ts[1..])
  }

  // ---- Tokens of spaced text ----

  /** A word is kept together. */
  lemma {:induction false} WordRead(t: string, cur: string, post: string)
    requires forall i :: 0 <= i < |t| ==> !IsDelimiter(t[i]) && !IsAngle(t[i]) && !IsSpace(t[i])
    ensures Tokenize(t + " " + post, cur) == Flush(cur + t) + Tokenize(post, "")
    decreases |t|
  {
    hide Flush;
    var s := t + " " + post;
    if t == "" {
      assert s[0] == ' ' && s[1..] == post;
      assert cur + t == cur;
    } else {
      assert s[0] == t[0] && s[1..] == t[1..] + " " + post;
      WordRead(t[1..], cur + [t[0]], post);
      assert cur + [t[0]] + t[1..] == cur + t;
    }
  }

  lemma TokenRead(t: string, post: string)
    requires TokenOk(t)
    ensures Tokenize(t + " " + post, "") == [t] + Tokenize(post, "")
  {
    if IsWord(t) {
      hide Tokenize;
      WordRead(t, "", post);
      assert "" + t == t;
    } else {
      PunctuationRead(t, post);
    }
  }

  lemma SpaceRead(post: string)
    ensures Tokenize(" " + post, "") == Tokenize(post, "")
  {
    assert (" " + post)[1..] == post;
  }

  lemma PunctuationRead(t: string, post: string)
    requires IsPunctuation(t)
    ensures Tokenize(t + " " + post, "") == [t] + Tokenize(post, "")
  {
    var s := t + " " + post;
    SpaceRead(post);
    if |t| == 1 {
      assert s[1..] == " " + post && s[1] == ' ';
      assert t == [s[0]];
      assert [] + [t] + Tokenize(post, "") == [t] + Tokenize(post, "");
    } else {
      assert s[2..] == " " + post;
      assert t == [s[0], '='];
      assert [] + [t] + Tokenize(post, "") == [t] + Tokenize(post, "");
    }
  }

  lemma {:induction false} SpacedRead(ts: Tokens)
    requires AllOk(ts)
    ensures Tokenize(Spaced(ts), "") == ts
  {
    if ts != [] {
      hide Tokenize, TokenOk;
      TokenRead(ts[0], Spaced(ts[1..]));
      SpacedRead(ts[1..]);
      assert ts == [ts[0]] + ts[1..];
    }
  }

  // ---- Rendered tokens are tokens ----

  lemma KeywordsOk()
    ensures TokenOk("AND") && TokenOk("OR") && TokenOk("NOT") && TokenOk("IN") && TokenOk("BETWEEN") && TokenOk("EXISTS")
    ensures TokenOk("(") && TokenOk(")") && TokenOk(",") && TokenOk("=")
    ensures TokenOk("<") && TokenOk(">") && TokenOk("<=") && TokenOk(">=")
  {
  }

  lemma ValueTokenOk(v: Value)
    requires ValueOk(v)
    ensures TokenOk(ValueToken(v))
  {
    if v.Int? {
      IntToken(v.n);
    }
  }

  lemma {:induction false} ListTokensOk(vs: seq<Value>)
    requires vs != [] && forall v :: v in vs ==> ValueOk(v)
    ensures AllOk(ListTokens(vs))
    decreases |vs|
  {
    hide TokenOk, ValueOk, ValueToken;
    KeywordsOk();
    ValueTokenOk(vs[0]);
    if |vs| > 1 {
      ListTokensOk(vs[1..]);
    }
  }

  lemma RangeTokensOk(field: string, lo: Limit, hi: Limit)
    requires FieldOk(field) && LimitsOk(lo, hi)
    ensures AllOk(RangeTokens(field, lo, hi))
  {
    hide TokenOk, ValueOk, ValueToken;
    KeywordsOk();
    assert TokenOk(field) by { FieldTokenOk(field); }
    if !lo.Unbounded? {
      ValueTokenOk(lo.value);
    }
    if !hi.Unbounded? {
      ValueTokenOk(hi.value);
    }
  }

  lemma FieldTokenOk(field: string)
    requires FieldOk(field)
    ensures TokenOk(field)
  {
  }

  lemma {:induction false} WrappedOk(n: nat, ts: Tokens)
    requires AllOk(ts)
    ensures AllOk(Wrapped(n, ts))
  {
    hide TokenOk;
    KeywordsOk();
    if n > 0 {
      WrappedOk(n - 1, ts);
    }
  }

  lemma {:induction false} RenderOk(f: Filter, level: nat, style: Style)
    requires Writable(f)
    ensures AllOk(Render(f, level, style))
    decreases f, 1
  {
    hide Body, AllOk;
    BodyOk(f, style);
    WrappedOk(Pairs(f, level, style), Body(f, style));
  }

  lemma {:induction false} BodyOk(f: Filter, style: Style)
    requires Writable(f)
    ensures AllOk(Body(f, style))
    decreases f, 0
  {
    hide TokenOk, ValueOk, ValueToken, Render, ListTokens, RangeTokens, FieldOk;
    KeywordsOk();
    match f
    case Eq(field, v) =>
      FieldTokenOk(field);
      ValueTokenOk(v);
    case In(field, vs) =>
      FieldTokenOk(field);
      ListTokensOk(vs);
    case Range(field, lo, hi) => RangeTokensOk(field, lo, hi);
    case Exists(field) => FieldTokenOk(field);
    case And(parts) =>
      RenderOk(parts[0], 2, style);
      JoinedOk(parts[1..], "AND", 2, style);
    case Or(parts) =>
      RenderOk(parts[0], 1, style);
      JoinedOk(parts[1..], "OR", 1, style);
    case Not(inner) => RenderOk(inner, 2, style);
  }

  lemma {:induction false} JoinedOk(parts: seq<Filter>, kw: string, level: nat, style: Style)
    requires (forall p :: p in parts ==> Writable(p)) && TokenOk(kw)
    ensures AllOk(JoinedRest(parts, kw, level, style))
    decreases parts, 2
  {
    hide TokenOk, Writable, Render;
    if parts != [] {
      RenderOk(parts[0], level, style);
      JoinedOk(parts[1..], kw, level, style);
    }
  }

  /** `parse_filter` returns the filter from any of its renderings, minimal, fully parenthesised or
      between. */
  lemma ParseInvertsRender(f: Filter, style: Style)
    requires Writable(f)
    ensures ParseFilter(Spaced(Render(f, 0, style))) == Some(f)
  {
    hide Render, Tokenize, ParseTokens;
    RenderOk(f, 0, style);
    SpacedRead(Render(f, 0, style));
    RenderParsed(f, style);
  }

  // ---- What the parser produces ----

  lemma {:induction false} TokensOk(s: string, cur: string)
    requires cur == "" || IsWord(cur)
    ensures AllOk(Tokenize(s, cur))
    decreases |s|
  {
    if s != "" {
      if IsDelimiter(s[0]) {
        TokensOk(s[1..], "");
      } else if IsAngle(s[0]) {
        if |s| > 1 && s[1] == '=' {
          TokensOk(s[2..], "");
          assert [s[0], '='] == "<=" || [s[0], '='] == ">=";
        } else {
          TokensOk(s[1..], "");
        }
      } else if IsSpace(s[0]) {
        TokensOk(s[1..], "");
      } else {
        TokensOk(s[1..], cur + [s[0]]);
      }
    }
  }

  lemma SuffixOk(rest: Tokens, ts: Tokens)
    requires Suffix(rest, ts) && AllOk(ts)
    ensures AllOk(rest)
  {
  }

  lemma TakenOk(ts: Tokens)
    requires AllOk(ts) && TakeValue(ts).Got?
    ensures ValueOk(TakeValue(ts).value) && AllOk(TakeValue(ts).rest)
  {
    assert TokenOk(ts[0]);
    SuffixOk(TakeValue(ts).rest, ts);
  }

  lemma {:induction false} ListOk(ts: Tokens, values: seq<Value>)
    requires AllOk(ts) && ParseList(ts, values).Items? && forall v :: v in values ==> ValueOk(v)
    ensures var r := ParseList(ts, values); r.values != [] && forall v :: v in r.values ==> ValueOk(v)
    decreases |ts|
  {
    hide TakeValue, ValueOk, TokenOk;
    TakenOk(ts);
    var v := TakeValue(ts);
    if v.rest[0] == "," {
      ListOk(v.rest[1..], values + [v.value]);
    }
  }

  lemma PredicateOk(field: string, op: string, ts: Tokens)
    requires FieldOk(field) && AllOk(ts) && Predicate(field, op, ts).Ok?
    ensures Writable(Predicate(field, op, ts).filter)
  {
    hide TakeValue, ValueOk, TokenOk, FieldOk, IsKeyword, ParseIn, ParseBetween;
    if TakeValue(ts).Got? {
      TakenOk(ts);
    }
    if ParseIn(field, ts).Ok? {
      InOk(field, ts);
    }
    if ParseBetween(field, ts).Ok? {
      BetweenOk(field, ts);
    }
  }

  lemma InOk(field: string, ts: Tokens)
    requires FieldOk(field) && AllOk(ts) && ParseIn(field, ts).Ok?
    ensures Writable(ParseIn(field, ts).filter)
  {
    hide ValueOk, TokenOk, FieldOk, ParseList;
    ListOk(ts[1..], []);
  }

  lemma BetweenOk(field: string, ts: Tokens)
    requires FieldOk(field) && AllOk(ts) && ParseBetween(field, ts).Ok?
    ensures Writable(ParseBetween(field, ts).filter)
  {
    hide TakeValue, ValueOk, TokenOk, FieldOk, IsKeyword;
    TakenOk(ts);
    TakenOk(TakeValue(ts).rest[1..]);
  }

  lemma FieldIsOk(t: string)
    requires TokenOk(t) && !IsReserved(t)
    ensures FieldOk(t)
  {
  }

  lemma {:induction false} ParsedOk(ts: Tokens, level: nat)
    requires level <= 2 && AllOk(ts) && ParseAt(level, ts).Ok?
    ensures Writable(ParseAt(level, ts).filter)
    decreases |ts|, 2 - level, 1
  {
    hide Writable, TokenOk, AllOk, IsKeyword;
    if level == 2 {
      NotOk(ts);
    } else if level == 1 {
      var first := ParseNot(ts);
      NotOk(ts);
      SuffixOk(first.rest, ts);
      AndOk(first.rest, [first.filter]);
    } else {
      var first := ParseAnd(ts);
      ParsedOk(ts, 1);
      SuffixOk(first.rest, ts);
      OrOk(first.rest, [first.filter]);
    }
  }

  lemma {:induction false} NotOk(ts: Tokens)
    requires AllOk(ts) && ParseNot(ts).Ok?
    ensures Writable(ParseNot(ts).filter)
    decreases |ts|, 0, 0
  {
    hide TokenOk, AllOk, IsKeyword, Predicate;
    if Starts(ts, "NOT") {
      SuffixOk(ts[1..], ts);
      NotOk(ts[1..]);
    } else if ts[0] == "(" {
      SuffixOk(ts[1..], ts);
      AtZero(ts[1..]);
      ParsedOk(ts[1..], 0);
    } else {
      assert TokenOk(ts[0]) && AllOk(ts[2..]) by { TokensLeft(ts); }
      FieldIsOk(ts[0]);
      PredicateOk(ts[0], ts[1], ts[2..]);
    }
  }

  lemma TokensLeft(ts: Tokens)
    requires AllOk(ts) && |ts| >= 2
    ensures TokenOk(ts[0]) && AllOk(ts[2..])
  {
  }

  lemma {:induction false} AndOk(ts: Tokens, parts: seq<Filter>)
    requires parts != [] && AllOk(ts) && AndRest(ts, parts).Ok? && forall p :: p in parts ==> Writable(p)
    ensures Writable(AndRest(ts, parts).filter)
    decreases |ts|, 1, 0
  {
    hide TokenOk, AllOk, IsKeyword;
    if Starts(ts, "AND") {
      SuffixOk(ts[1..], ts);
      NotOk(ts[1..]);
      var next := ParseNot(ts[1..]);
      SuffixOk(next.rest, ts[1..]);
      AndOk(next.rest, parts + [next.filter]);
    }
  }

  lemma {:induction false} OrOk(ts: Tokens, parts: seq<Filter>)
    requires parts != [] && AllOk(ts) && OrRest(ts, parts).Ok? && forall p :: p in parts ==> Writable(p)
    ensures Writable(OrRest(ts, parts).filter)
    decreases |ts|, 2, 0
  {
    hide TokenOk, AllOk, IsKeyword, ParseAnd;
    if Starts(ts, "OR") {
      SuffixOk(ts[1..], ts);
      AtOne(ts[1..]);
      ParsedOk(ts[1..], 1);
      var next := ParseAnd(ts[1..]);
      SuffixOk(next.rest, ts[1..]);
      OrOk(next.rest, parts + [next.filter]);
    }
  }

  /** Whatever parses can be rendered, and parses again to the same filter. */
  lemma ParseStable(s: string, style: Style)
    requires ParseFilter(s).Some?
    ensures Writable(ParseFilter(s).value)
    ensures ParseFilter(Spaced(Render(ParseFilter(s).value, 0, style))) == ParseFilter(s)
  {
    hide Writable, Render, ParseOr, Tokenize;
    TokensOk(s, "");
    AtZero(Tokenize(s, ""));
    ParsedOk(Tokenize(s, ""), 0);
    ParseInvertsRender(ParseFilter(s).value, style);
  }

  /** `BETWEEN` with its bounds reversed parses, and evaluating it panics exactly when the field is
      indexed. */
  lemma ReversedBetween(idx: Index, field: string, lo: Value, hi: Value, style: Style)
    requires FieldOk(field) && ValueOk(lo) && ValueOk(hi) && Less(hi, lo)
    ensures var f := Range(field, Included(lo), Included(hi));
            Writable(f) && ParseFilter(Spaced(Render(f, 0, style))) == Some(f) && (Panics(idx, f) <==> field in idx.byField)
  {
    ParseInvertsRender(Range(field, Included(lo), Included(hi)), style);
  }
}
