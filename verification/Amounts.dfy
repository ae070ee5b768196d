/** Token amounts as text: the two parsers and the two fixed-point printers (internal/util/amount.go). */
module Amounts {
  import opened Digits
  import opened Int64
  import opened Wrappers

  datatype AmountError = Empty | Malformed | Negative | TooManyDecimals | Overflow

  // ----- Splitting at dots -----

  /** The parts of `s[start..]`, of which `s[start..k]` is known to hold no dot. */
  function SplitFrom(s: string, start: nat, k: nat): (parts: seq<string>)
    requires start <= k <= |s|
    ensures |parts| >= 1
    decreases |s| - k
  {
    if k == |s| then [s[start..]]
    else if s[k] == '.' then [s[start..k]] + SplitFrom(s, k + 1, k + 1)
    else SplitFrom(s, start, k + 1)
  }

  /** `strings.Split(s, ".")`. */
  function SplitDots(s: string): (parts: seq<string>)
    ensures |parts| >= 1
  {
    SplitFrom(s, 0, 0)
  }

  lemma {:induction false} SplitRest(s: string, start: nat, k: nat)
    requires start <= k <= |s| && '.' !in s[k..]
    ensures SplitFrom(s, start, k) == [s[start..]]
    decreases |s| - k
  {
    if k < |s| {
      SplitRest(s, start, k + 1);
    }
  }

  lemma {:induction false} SplitUpTo(s: string, start: nat, k: nat, dot: nat)
    requires start <= k <= dot < |s| && '.' !in s[k..dot] && s[dot] == '.'
    ensures SplitFrom(s, start, k) == [s[start..dot]] + SplitFrom(s, dot + 1, dot + 1)
    decreases dot - k
  {
    if k < dot {
      SplitUpTo(s, start, k + 1, dot);
    }
  }

  lemma SplitNoDot(s: string)
    requires '.' !in s
    ensures SplitDots(s) == [s]
  {
    SplitRest(s, 0, 0);
  }

  lemma SplitOneDot(w: string, f: string)
    requires '.' !in w && '.' !in f
    ensures SplitDots(w + "." + f) == [w, f]
  {
    var s := w + "." + f;
    assert s[0..|w|] == w && s[|w| + 1..] == f;
    SplitUpTo(s, 0, 0, |w|);
    SplitRest(s, |w| + 1, |w| + 1);
  }

  // ----- Parsers and printers -----

  /** 10^decimals; a negative exponent gives 1. */
  function Unit(decimals: int): (u: nat)
    ensures u >= 1
  {
    if decimals <= 0 then 1 else Pow10(decimals)
  }

  /** The quotient by 10^decimals, dropping one digit at a time. */
  function Whole(val: nat, decimals: int): nat
    decreases decimals
  {
    if decimals <= 0 then val else Whole(val / 10, decimals - 1)
  }

  /** The remainder by 10^decimals, keeping one digit at a time. */
  function Frac(val: nat, decimals: int): nat
    decreases decimals
  {
    if decimals <= 0 then 0 else 10 * Frac(val / 10, decimals - 1) + val % 10
  }

  lemma {:induction false} WholeAndFrac(val: nat, decimals: nat)
    ensures Whole(val, decimals) == val / Pow10(decimals)
    ensures Frac(val, decimals) == val % Pow10(decimals)
    decreases decimals
  {
    if decimals > 0 {
      WholeAndFrac(val / 10, decimals - 1);
      DivModShift(val, Pow10(decimals - 1));
    }
  }

  lemma {:induction false} PartsOf(val: nat, decimals: nat)
    ensures Shift(Whole(val, decimals), decimals) + Frac(val, decimals) == val
    ensures Frac(val, decimals) < Pow10(decimals)
    decreases decimals
  {
    if decimals > 0 {
      PartsOf(val / 10, decimals - 1);
    }
  }

  /** A whole amount in on-chain units. */
  function InUnits(whole: int, decimals: int): int {
    if decimals <= 0 then whole else Shift(whole, decimals)
  }

  function ParseWhole(s: string): Result<int, AmountError> {
    match ParseInt(s)
    case None => Err(Malformed)
    case Some(n) => if n < 0 then Err(Negative) else Ok(n)
  }

  /** A fraction padded to `decimals` places, as an integer. */
  function ParseFrac(s: string, decimals: int): Result<int, AmountError> {
    if |s| > decimals then Err(TooManyDecimals)
    else
      match ParseInt(s + Zeros(decimals - |s|))
      case None => Err(Malformed)
      case Some(n) => Ok(n)
  }

  function ParseParts(parts: seq<string>, decimals: int): Result<int, AmountError>
    requires |parts| > 0
  {
    if |parts| > 2 then Err(Malformed)
    else
      var whole := ParseWhole(parts[0]);
      if whole.Err? then whole
      else if |parts| == 1 then Ok(InUnits(whole.value, decimals))
      else
        var frac := ParseFrac(parts[1], decimals);
        if frac.Err? then frac else Ok(InUnits(whole.value, decimals) + frac.value)
  }

  function ParseTRC20Amount(amount: string, decimals: int): Result<int, AmountError> {
    if amount == "" then Err(Empty) else ParseParts(SplitDots(amount), decimals)
  }

  function SunOfParts(parts: seq<string>): Result<Int64, AmountError>
    requires |parts| > 0
  {
    if |parts| > 2 then Err(Malformed)
    else
      var whole := ParseWhole(parts[0]);
      if whole.Err? then Err(whole.error)
      else
        var frac := if |parts| == 2 then ParseFrac(parts[1], 6) else Ok(0);
        if frac.Err? then Err(frac.error)
        else if !InRange(whole.value * 1_000_000 + frac.value) then Err(Overflow)
        else Ok(whole.value * 1_000_000 + frac.value)
  }

  function TRXToSun(trx: string): Result<Int64, AmountError> {
    if trx == "" then Err(Empty) else SunOfParts(SplitDots(trx))
  }

  function FormatTRC20Amount(raw: int, decimals: int): string {
    if decimals <= 0 then IntString(raw)
    else
      var val: nat := if raw < 0 then -raw else raw;
      var sign := if raw < 0 then "-" else "";
      sign + Decimal(Whole(val, decimals)) + "." + PadLeft(Decimal(Frac(val, decimals)), decimals)
  }

  function SunToTRX(sun: Int64): string {
    if sun == MIN then "-9223372036854.775808"
    else
      var sign := if sun < 0 then "-" else "";
      var val: nat := if sun < 0 then -(sun as int) else sun;
      sign + Decimal(val / 1_000_000) + "." + PadLeft(Decimal(val % 1_000_000), 6)
  }

  lemma Million()
    ensures Unit(6) == 1_000_000
  {
  }

  function Fitted(n: int): Result<Int64, AmountError> {
    if InRange(n) then Ok(n) else Err(Overflow)
  }

  lemma SixPlaces(n: int)
    ensures Shift(n, 6) == n * 1_000_000
  {
  }

  lemma PartsAgree(parts: seq<string>)
    requires |parts| > 0
    ensures ParseParts(parts, 6).Err? ==> SunOfParts(parts) == Err(ParseParts(parts, 6).error)
    ensures ParseParts(parts, 6).Ok? ==> SunOfParts(parts) == Fitted(ParseParts(parts, 6).value)
  {
    if ParseWhole(parts[0]).Ok? {
      SixPlaces(ParseWhole(parts[0]).value);
    }
  }

  /** The two parsers agree wherever the amount fits an `int64`. */
  lemma ParsersAgree(s: string)
    ensures ParseTRC20Amount(s, 6).Err? ==> TRXToSun(s) == Err(ParseTRC20Amount(s, 6).error)
    ensures ParseTRC20Amount(s, 6).Ok? ==> TRXToSun(s) == Fitted(ParseTRC20Amount(s, 6).value)
  {
    PartsAgree(SplitDots(s));
  }

  lemma AppendDigit(n: nat, d: nat)
    requires n > 0 && d < 10
    ensures Decimal(10 * n + d) == Decimal(n) + [Digit(d)]
  {
  }

  lemma AppendThree(n: nat, s: string, a: nat, b: nat, c: nat)
    requires n > 0 && a < 10 && b < 10 && c < 10 && Decimal(n) == s
    ensures Decimal(1000 * n + 100 * a + 10 * b + c) == s + [Digit(a), Digit(b), Digit(c)]
  {
    AppendDigit(n, a);
    AppendDigit(10 * n + a, b);
    AppendDigit(100 * n + 10 * a + b, c);
  }

  /** The digits of -MIN, three at a time. */
  lemma SmallestPrinted(whole: nat, frac: nat)
    requires whole == 9223372036854 && frac == 775808
    ensures Decimal(whole) == "9223372036854" && Decimal(frac) == "775808"
  {
    AppendThree(9, "9", 2, 2, 3);
    AppendThree(9223, "9223", 3, 7, 2);
    AppendThree(9223372, "9223372", 0, 3, 6);
    AppendThree(9223372036, "9223372036", 8, 5, 4);
    AppendThree(7, "7", 7, 5, 8);
    AppendDigit(7758, 0);
    AppendDigit(77580, 8);
  }

  /** The special-cased minimum is what the general formula would print. */
  lemma PrintersAgree(sun: Int64)
    ensures SunToTRX(sun) == FormatTRC20Amount(sun, 6)
  {
    Million();
    WholeAndFrac(if sun < 0 then 0 - sun as int else sun, 6);
    if sun == MIN {
      var whole, frac := Whole(TWO_63, 6), Frac(TWO_63, 6);
      assert whole == 9223372036854 && frac == 775808;
      SmallestPrinted(whole, frac);
      assert "-" + "9223372036854" + "." + "775808" == "-9223372036854.775808";
    }
  }
}
