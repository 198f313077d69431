/** The recursive-descent parser with its cursor, and the tokenizer loop: the last part of
    `payload.rs`. `i` is the cursor, which never leaves the token list. */
module FilterParser {
  import opened Bytes
  import opened Payloads
  import opened Filters
  import G = FilterGrammar

  type Tokens = G.Tokens

  /** The outcome of a parser method, as the grammar states it. */
  function Outcome(toks: Tokens, r: Option<Filter>, i: nat): G.Parsed
    requires i <= |toks|
  {
    if r.Some? then G.Ok(r.value, toks[i..]) else G.Err
  }

  lemma Advance(toks: Tokens, i: nat)
    requires i < |toks|
    ensures toks[i..] != [] && toks[i..][0] == toks[i] && toks[i..][1..] == toks[i + 1..]
  {
  }

  method Tokenize(s: string) returns (toks: Tokens)
    ensures toks == G.Tokenize(s, "")
  {
    hide G.IsDelimiter, G.IsAngle, G.IsSpace, G.Flush;
    toks := [];
    var cur, i := "", 0;
    assert s[0..] == s;
    assert [] + G.Tokenize(s, "") == G.Tokenize(s, "");
    while i < |s|
      invariant i <= |s| && toks + G.Tokenize(s[i..], cur) == G.Tokenize(s, "")
      decreases |s| - i
    {
      var c := s[i];
      ghost var left := s[i..];
      assert left[0] == c && left[1..] == s[i + 1..];
      i := i + 1;
      if G.IsDelimiter(c) {
        toks := toks + G.Flush(cur) + [[c]];
        cur := "";
      } else if G.IsAngle(c) {
        toks := toks + G.Flush(cur);
        cur := "";
        if i < |s| && s[i] == '=' {
          assert left[2..] == s[i + 1..];
          i := i + 1;
          toks := toks + [[c, '=']];
        } else {
          toks := toks + [[c]];
        }
      } else if G.IsSpace(c) {
        toks := toks + G.Flush(cur);
        cur := "";
      } else {
        cur := cur + [c];
      }
    }
    toks := toks + G.Flush(cur);
  }

  method ParseFilter(s: string) returns (r: Option<Filter>)
    ensures r == G.ParseFilter(s)
  {
    var toks := Tokenize(s);
    if toks == [] {
      return None;
    }
    var i;
    assert toks[0..] == toks;
    r, i := ParseOr(toks, 0);
    if i != |toks| {
      return None;
    }
  }

  // ---- One turn of the two loops ----

  lemma {:induction false} OrStart(ts: Tokens)
    ensures G.ParseOr(ts) == if G.ParseAnd(ts).Ok? then G.OrRest(G.ParseAnd(ts).rest, [G.ParseAnd(ts).filter]) else G.Err
  {
    hide G.ParseAnd, G.OrRest;
  }

  lemma {:induction false} OrStep(ts: Tokens, parts: seq<Filter>)
    requires parts != [] && G.Starts(ts, "OR")
    ensures var next := G.ParseAnd(ts[1..]);
            G.OrRest(ts, parts) == if next.Ok? then G.OrRest(next.rest, parts + [next.filter]) else G.Err
  {
    hide G.ParseAnd, G.IsKeyword;
  }

  lemma {:induction false} OrEnd(ts: Tokens, parts: seq<Filter>)
    requires parts != [] && !G.Starts(ts, "OR")
    ensures G.OrRest(ts, parts) == G.Ok(if |parts| == 1 then parts[0] else Or(parts), ts)
  {
    hide G.ParseAnd, G.IsKeyword;
  }

  lemma {:induction false} AndStart(ts: Tokens)
    ensures G.ParseAnd(ts) == if G.ParseNot(ts).Ok? then G.AndRest(G.ParseNot(ts).rest, [G.ParseNot(ts).filter]) else G.Err
  {
    hide G.ParseNot, G.AndRest;
  }

  lemma {:induction false} AndStep(ts: Tokens, parts: seq<Filter>)
    requires parts != [] && G.Starts(ts, "AND")
    ensures var next := G.ParseNot(ts[1..]);
            G.AndRest(ts, parts) == if next.Ok? then G.AndRest(next.rest, parts + [next.filter]) else G.Err
  {
    hide G.ParseNot, G.IsKeyword;
  }

  lemma {:induction false} AndEnd(ts: Tokens, parts: seq<Filter>)
    requires parts != [] && !G.Starts(ts, "AND")
    ensures G.AndRest(ts, parts) == G.Ok(if |parts| == 1 then parts[0] else And(parts), ts)
  {
    hide G.ParseNot, G.IsKeyword;
  }

  method ParseOr(toks: Tokens, i0: nat) returns (r: Option<Filter>, i: nat)
    requires i0 <= |toks|
    ensures i <= |toks| && G.ParseOr(toks[i0..]) == Outcome(toks, r, i) && (r.Some? ==> i0 < i)
    decreases |toks| - i0, 4
  {
    hide G.ParseAnd, G.IsKeyword, G.OrRest, G.ParseOr;
    OrStart(toks[i0..]);
    r, i := ParseAnd(toks, i0);
    if r.None? {
      return;
    }
    var parts := [r.value];
    while i < |toks| && G.IsKeyword(toks[i], "OR")
      invariant i0 < i <= |toks| && parts != [] && G.OrRest(toks[i..], parts) == G.ParseOr(toks[i0..])
      decreases |toks| - i
    {
      Advance(toks, i);
      OrStep(toks[i..], parts);
      r, i := ParseAnd(toks, i + 1);
      if r.None? {
        return;
      }
      parts := parts + [r.value];
    }
    OrEnd(toks[i..], parts);
    r := Some(if |parts| == 1 then parts[0] else Or(parts));
  }

  method ParseAnd(toks: Tokens, i0: nat) returns (r: Option<Filter>, i: nat)
    requires i0 <= |toks|
    ensures i <= |toks| && G.ParseAnd(toks[i0..]) == Outcome(toks, r, i) && (r.Some? ==> i0 < i)
    decreases |toks| - i0, 3
  {
    hide G.ParseNot, G.IsKeyword, G.AndRest, G.ParseAnd;
    AndStart(toks[i0..]);
    r, i := ParseNot(toks, i0);
    if r.None? {
      return;
    }
    var parts := [r.value];
    while i < |toks| && G.IsKeyword(toks[i], "AND")
      invariant i0 < i <= |toks| && parts != [] && G.AndRest(toks[i..], parts) == G.ParseAnd(toks[i0..])
      decreases |toks| - i
    {
      Advance(toks, i);
      AndStep(toks[i..], parts);
      r, i := ParseNot(toks, i + 1);
      if r.None? {
        return;
      }
      parts := parts + [r.value];
    }
    AndEnd(toks[i..], parts);
    r := Some(if |parts| == 1 then parts[0] else And(parts));
  }

  method ParseNot(toks: Tokens, i0: nat) returns (r: Option<Filter>, i: nat)
    requires i0 <= |toks|
    ensures i <= |toks| && G.ParseNot(toks[i0..]) == Outcome(toks, r, i) && (r.Some? ==> i0 < i)
    decreases |toks| - i0, 2
  {
    hide G.ParseAtom, G.IsKeyword, G.Shorter;
    i := i0;
    if i < |toks| && G.IsKeyword(toks[i], "NOT") {
      Advance(toks, i);
      r, i := ParseNot(toks, i + 1);
      if r.Some? {
        r := Some(Not(r.value));
      }
      return;
    }
    r, i := ParseAtom(toks, i);
  }

  method ParseAtom(toks: Tokens, i0: nat) returns (r: Option<Filter>, i: nat)
    requires i0 <= |toks|
    ensures i <= |toks| && G.ParseAtom(toks[i0..]) == Outcome(toks, r, i) && (r.Some? ==> i0 < i)
    decreases |toks| - i0, 1
  {
    hide G.ParseOr, G.ParsePredicate, G.Shorter;
    i := i0;
    if i < |toks| && toks[i] == "(" {
      Advance(toks, i);
      r, i := ParseOr(toks, i + 1);
      if r.None? {
        return;
      }
      if i >= |toks| || toks[i] != ")" {
        return None, i;
      }
      Advance(toks, i);
      i := i + 1;
      return;
    }
    r, i := ParsePredicate(toks, i);
  }

  method TakeValue(toks: Tokens, i0: nat) returns (v: Option<Value>, i: nat)
    requires i0 <= |toks|
    ensures i0 <= i <= |toks| && (v.Some? ==> i == i0 + 1)
    ensures G.TakeValue(toks[i0..]) == if v.Some? then G.Got(v.value, toks[i..]) else G.Missing
  {
    i := i0;
    if i >= |toks| || G.IsReserved(toks[i]) {
      return None, i;
    }
    Advance(toks, i);
    return Some(G.ParseValue(toks[i])), i + 1;
  }

  method ParsePredicate(toks: Tokens, i0: nat) returns (r: Option<Filter>, i: nat)
    requires i0 <= |toks|
    ensures i <= |toks| && G.ParsePredicate(toks[i0..]) == Outcome(toks, r, i) && (r.Some? ==> i0 < i)
    decreases |toks| - i0, 0
  {
    hide G.IsReserved, G.IsKeyword, G.Shorter, G.TakeValue, G.ParseIn, G.ParseBetween;
    i := i0;
    if i >= |toks| || G.IsReserved(toks[i]) {
      return None, i;
    }
    var field := toks[i];
    i := i + 1;
    if i >= |toks| {
      return None, i;
    }
    var op := toks[i];
    i := i + 1;
    assert toks[i0..][0] == field && toks[i0..][1] == op && toks[i0..][2..] == toks[i..];
    if op == "=" || op == ">=" || op == ">" || op == "<=" || op == "<" {
      var v;
      v, i := TakeValue(toks, i);
      if v.None? {
        return None, i;
      }
      var x := v.value;
      r := Some(if op == "=" then Eq(field, x)
                else if op == ">=" then Range(field, Included(x), Unbounded)
                else if op == ">" then Range(field, Excluded(x), Unbounded)
                else if op == "<=" then Range(field, Unbounded, Included(x))
                else Range(field, Unbounded, Excluded(x)));
    } else if G.IsKeyword(op, "EXISTS") {
      r := Some(Exists(field));
    } else if G.IsKeyword(op, "IN") {
      r, i := ParseIn(field, toks, i);
    } else if G.IsKeyword(op, "BETWEEN") {
      r, i := ParseBetween(field, toks, i);
    } else {
      r := None;
    }
  }

  method ParseBetween(field: string, toks: Tokens, i0: nat) returns (r: Option<Filter>, i: nat)
    requires i0 <= |toks|
    ensures i0 <= i <= |toks| && G.ParseBetween(field, toks[i0..]) == Outcome(toks, r, i)
  {
    hide G.IsKeyword, G.TakeValue, G.Shorter;
    var lo, hi;
    lo, i := TakeValue(toks, i0);
    if lo.None? {
      return None, i;
    }
    if i >= |toks| || !G.IsKeyword(toks[i], "AND") {
      return None, i;
    }
    Advance(toks, i);
    i := i + 1;
    hi, i := TakeValue(toks, i);
    if hi.None? {
      return None, i;
    }
    r := Some(Range(field, Included(lo.value), Included(hi.value)));
  }

  method ParseIn(field: string, toks: Tokens, i0: nat) returns (r: Option<Filter>, i: nat)
    requires i0 <= |toks|
    ensures i0 <= i <= |toks| && G.ParseIn(field, toks[i0..]) == Outcome(toks, r, i)
  {
    hide G.TakeValue, G.Shorter;
    i := i0;
    if i >= |toks| || toks[i] != "(" {
      return None, i;
    }
    Advance(toks, i);
    i := i + 1;
    var vals: seq<Value> := [];
    while true
      invariant i0 < i <= |toks| && G.ParseList(toks[i..], vals) == G.ParseList(toks[i0 + 1..], [])
      decreases |toks| - i
    {
      var v;
      ghost var was := i;
      v, i := TakeValue(toks, i);
      if v.None? || i >= |toks| {
        return None, i;
      }
      Advance(toks, i);
      vals := vals + [v.value];
      if toks[i] == "," {
        i := i + 1;
      } else if toks[i] == ")" {
        i := i + 1;
        break;
      } else {
        return None, i;
      }
    }
    r := Some(In(field, vals));
  }
}
