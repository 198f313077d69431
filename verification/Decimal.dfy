/** Decimal integers as `str::parse::<i64>` reads them and `to_string` writes them, over character codes. */
module Decimal {
  import opened Bytes

  const I64_MIN: int := -0x8000_0000_0000_0000
  const I64_MAX: int := 0x7FFF_FFFF_FFFF_FFFF

  predicate IsI64(n: int) {
    I64_MIN <= n <= I64_MAX
  }

  predicate IsDigit(c: int) {
    48 <= c <= 57
  }

  predicate AllDigits(s: seq<int>) {
    forall i :: 0 <= i < |s| ==> IsDigit(s[i])
  }

  function Digits(n: nat): (s: seq<int>)
    ensures |s| > 0 && AllDigits(s)
  {
    if n < 10 then [48 + n] else Digits(n / 10) + [48 + n % 10]
  }

  /** The number a string of digits denotes. */
  function Number(s: seq<int>): nat
    requires AllDigits(s)
  {
    if s == [] then 0 else Number(s[..|s| - 1]) * 10 + (s[|s| - 1] - 48)
  }

  lemma {:induction false} DigitsNumber(n: nat)
    ensures Number(Digits(n)) == n
  {
    if n >= 10 {
      DigitsNumber(n / 10);
      assert Digits(n)[..|Digits(n)| - 1] == Digits(n / 10);
    }
  }

  function Print(n: int): (s: seq<int>)
    ensures |s| > 0
  {
    if n < 0 then [45] + Digits(-n) else Digits(n)
  }

  /** An optional sign, then at least one digit and nothing else, in range. */
  function ParseI64(s: seq<int>): (r: Option<int>)
    ensures r.Some? ==> IsI64(r.value)
  {
    if s == [] then None
    else
      var signed := s[0] == 45 || s[0] == 43;
      var digits := if signed then s[1..] else s;
      if digits == [] || !AllDigits(digits) then None
      else
        var n: int := if s[0] == 45 then 0 - Number(digits) else Number(digits);
        if IsI64(n) then Some(n) else None
  }

  lemma ParsePrint(n: int)
    requires IsI64(n)
    ensures ParseI64(Print(n)) == Some(n)
  {
    if n < 0 {
      DigitsNumber(-n);
      assert Print(n)[1..] == Digits(-n);
    } else {
      DigitsNumber(n);
      assert IsDigit(Digits(n)[0]);
    }
  }

  /** A printed number is made of digits and at most a leading minus. */
  lemma PrintCodes(n: int)
    ensures forall i :: 0 <= i < |Print(n)| ==> IsDigit(Print(n)[i]) || Print(n)[i] == 45
  {
  }
}
