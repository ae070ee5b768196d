/** What the amount parsers accept, and their round trips with the printers. */
module AmountLaws {
  import opened Amounts
  import opened Digits
  import opened Int64
  import opened Wrappers

  // ----- The unsigned grammar -----

  lemma DigitsHaveNoDot(s: string)
    requires AllDigits(s)
    ensures '.' !in s
  {
  }

  lemma ParseIntDigits(s: string)
    requires AllDigits(s) && s != ""
    ensures ParseInt(s) == Some(Value(s))
  {
  }

  lemma ParsePadded(f: string, k: nat)
    requires AllDigits(f) && |f| + k > 0
    ensures ParseInt(f + Zeros(k)) == Some(Shift(Value(f), k))
  {
    ValueTrailingZeros(f, k);
    ParseIntDigits(f + Zeros(k));
  }

  lemma ParseFracOf(f: string, decimals: int, k: nat, n: int)
    requires k == decimals - |f| && ParseInt(f + Zeros(k)) == Some(n)
    ensures ParseFrac(f, decimals) == Ok(n)
  {
  }

  /** A fraction is refused in two cases and otherwise has its exact value in units. */
  lemma ParseFracUnsigned(f: string, decimals: nat)
    requires AllDigits(f)
    ensures |f| > decimals ==> ParseFrac(f, decimals) == Err(TooManyDecimals)
    ensures decimals == |f| == 0 ==> ParseFrac(f, decimals) == Err(Malformed)
    ensures |f| <= decimals && decimals > 0 ==> ParseFrac(f, decimals) == Ok(Shift(Value(f), decimals - |f|))
  {
    if 0 < decimals && |f| <= decimals {
      ParsePadded(f, decimals - |f|);
      ParseFracOf(f, decimals, decimals - |f|, Shift(Value(f), decimals - |f|));
    }
  }

  lemma ParseWholeUnsigned(w: string)
    requires AllDigits(w) && w != ""
    ensures ParseWhole(w) == Ok(Value(w))
  {
  }

  /** Dot-free texts are split where they were joined. */
  lemma ParseJoined(w: string, f: string, decimals: int)
    requires '.' !in w && '.' !in f && w != ""
    ensures ParseTRC20Amount(w, decimals) == ParseParts([w], decimals) && TRXToSun(w) == SunOfParts([w])
    ensures ParseTRC20Amount(w + "." + f, decimals) == ParseParts([w, f], decimals)
    ensures TRXToSun(w + "." + f) == SunOfParts([w, f])
  {
    SplitNoDot(w);
    SplitOneDot(w, f);
  }

  lemma PartsSucceed(w: string, f: string, decimals: int, whole: int, frac: int)
    requires ParseWhole(w) == Ok(whole)
    ensures ParseParts([w], decimals) == Ok(InUnits(whole, decimals))
    ensures ParseFrac(f, decimals) == Ok(frac) ==> ParseParts([w, f], decimals) == Ok(InUnits(whole, decimals) + frac)
    ensures ParseFrac(f, decimals).Err? ==> ParseParts([w, f], decimals) == ParseFrac(f, decimals)
  {
  }

  lemma SunPartsSucceed(w: string, f: string, whole: int, frac: int)
    requires ParseWhole(w) == Ok(whole)
    ensures SunOfParts([w]) == Fitted(whole * 1_000_000)
    ensures ParseFrac(f, 6) == Ok(frac) ==> SunOfParts([w, f]) == Fitted(whole * 1_000_000 + frac)
  {
  }

  lemma ParseNumbers(w: string, f: string, decimals: int, whole: int, frac: int)
    requires '.' !in w && '.' !in f && w != "" && ParseWhole(w) == Ok(whole)
    ensures ParseTRC20Amount(w, decimals) == Ok(InUnits(whole, decimals))
    ensures ParseFrac(f, decimals) == Ok(frac) ==>
              ParseTRC20Amount(w + "." + f, decimals) == Ok(InUnits(whole, decimals) + frac)
    ensures ParseFrac(f, decimals).Err? ==> ParseTRC20Amount(w + "." + f, decimals) == ParseFrac(f, decimals)
  {
    ParseJoined(w, f, decimals);
    PartsSucceed(w, f, decimals, whole, frac);
  }

  lemma SunNumbers(w: string, f: string, whole: int, frac: int)
    requires '.' !in w && '.' !in f && w != "" && ParseWhole(w) == Ok(whole)
    ensures TRXToSun(w) == Fitted(whole * 1_000_000)
    ensures ParseFrac(f, 6) == Ok(frac) ==> TRXToSun(w + "." + f) == Fitted(whole * 1_000_000 + frac)
  {
    ParseJoined(w, f, 6);
    SunPartsSucceed(w, f, whole, frac);
  }

  /**
   * The exact value of an unsigned amount, without and with a dot, and the two
   * ways it can be refused; `whole` and `frac` are the values of its parts.
   */
  lemma ParseUnsigned(w: string, f: string, decimals: nat, whole: int, frac: int)
    requires AllDigits(w) && AllDigits(f) && w != "" && whole == Value(w)
    requires |f| <= decimals ==> frac == Shift(Value(f), decimals - |f|)
    ensures ParseTRC20Amount(w, decimals) == Ok(InUnits(whole, decimals))
    ensures ParseTRC20Amount(w + "." + f, decimals) ==
            if |f| > decimals then Err(TooManyDecimals)
            else if decimals == 0 then Err(Malformed)
            else Ok(InUnits(whole, decimals) + frac)
  {
    DigitsHaveNoDot(w);
    DigitsHaveNoDot(f);
    ParseWholeUnsigned(w);
    ParseFracUnsigned(f, decimals);
    ParseNumbers(w, f, decimals, whole, frac);
  }

  /** `TRXToSun` is exact on unsigned amounts and refuses what does not fit. */
  lemma TRXToSunUnsigned(w: string, f: string, whole: int, frac: int)
    requires AllDigits(w) && AllDigits(f) && w != "" && whole == Value(w)
    requires |f| <= 6 && frac == Shift(Value(f), 6 - |f|)
    ensures TRXToSun(w) == Fitted(whole * 1_000_000)
    ensures TRXToSun(w + "." + f) == Fitted(whole * 1_000_000 + frac)
  {
    DigitsHaveNoDot(w);
    DigitsHaveNoDot(f);
    ParseWholeUnsigned(w);
    ParseFracUnsigned(f, 6);
    SunNumbers(w, f, whole, frac);
  }

  // ----- Round trips -----

  lemma ParseWholeSigned(w: string)
    requires AllDigits(w) && w != ""
    ensures ParseWhole("-" + w) == if Value(w) > 0 then Err(Negative) else Ok(0)
  {
  }

  lemma PartsSame(v: string, w: string, f: string, decimals: int)
    ensures ParseWhole(v).Err? ==> ParseParts([v], decimals) == ParseWhole(v) == ParseParts([v, f], decimals)
    ensures ParseWhole(v) == ParseWhole(w) ==>
              && ParseParts([v], decimals) == ParseParts([w], decimals)
              && ParseParts([v, f], decimals) == ParseParts([w, f], decimals)
  {
  }

  /** Only the outcome of the whole part matters to the rest of the parse. */
  lemma SameWhole(v: string, w: string, f: string, decimals: int)
    requires '.' !in v && '.' !in w && '.' !in f && v != "" && w != ""
    ensures ParseWhole(v).Err? ==>
              ParseTRC20Amount(v, decimals) == ParseWhole(v) && ParseTRC20Amount(v + "." + f, decimals) == ParseWhole(v)
    ensures ParseWhole(v) == ParseWhole(w) ==>
              && ParseTRC20Amount(v, decimals) == ParseTRC20Amount(w, decimals)
              && ParseTRC20Amount(v + "." + f, decimals) == ParseTRC20Amount(w + "." + f, decimals)
  {
    ParseJoined(v, f, decimals);
    ParseJoined(w, f, decimals);
    PartsSame(v, w, f, decimals);
  }

  /** A leading minus before a whole part of zero is dropped; before any other whole part it is refused. */
  lemma ParseSigned(v: string, w: string, f: string, decimals: int)
    requires AllDigits(w) && AllDigits(f) && w != "" && v == "-" + w
    ensures ParseTRC20Amount(v, decimals) == if Value(w) > 0 then Err(Negative) else ParseTRC20Amount(w, decimals)
    ensures ParseTRC20Amount(v + "." + f, decimals) == if Value(w) > 0 then Err(Negative)
              else ParseTRC20Amount(w + "." + f, decimals)
  {
    DigitsHaveNoDot(w);
    DigitsHaveNoDot(f);
    ParseWholeUnsigned(w);
    ParseWholeSigned(w);
    SameWhole(v, w, f, decimals);
  }

  /** A printed amount: `w` and `f` are the digits of its two parts. */
  lemma Printed(val: nat, decimals: nat) returns (w: string, f: string)
    requires decimals > 0
    ensures AllDigits(w) && AllDigits(f) && w != "" && |f| == decimals
    ensures Value(w) == Whole(val, decimals) && Value(f) == Frac(val, decimals)
    ensures FormatTRC20Amount(val, decimals) == w + "." + f
    ensures val > 0 ==> FormatTRC20Amount(0 - val, decimals) == "-" + w + "." + f
  {
    w, f := Decimal(Whole(val, decimals)), PadLeft(Decimal(Frac(val, decimals)), decimals);
    PartsOf(val, decimals);
    ValueOfDecimal(Whole(val, decimals));
    ValueOfFixed(Frac(val, decimals), decimals);
    PadLeftIsFixed(Frac(val, decimals), decimals);
    assert "" + w == w;
  }

  lemma {:induction false} WholePositive(val: nat, decimals: nat)
    ensures Whole(val, decimals) > 0 <==> val >= Pow10(decimals)
    decreases decimals
  {
    if decimals > 0 {
      WholePositive(val / 10, decimals - 1);
    }
  }

  lemma DigitsParse(w: string, f: string, decimals: nat, whole: nat, frac: nat)
    requires AllDigits(w) && AllDigits(f) && w != "" && |f| == decimals > 0 && whole == Value(w) && frac == Value(f)
    ensures ParseTRC20Amount(w + "." + f, decimals) == Ok(InUnits(whole, decimals) + frac)
    ensures ParseTRC20Amount("-" + w + "." + f, decimals) == if whole > 0 then Err(Negative)
              else Ok(InUnits(whole, decimals) + frac)
  {
    ParseUnsigned(w, f, decimals, whole, frac);
    ParseSigned("-" + w, w, f, decimals);
  }

  lemma PointRoundTrip(val: nat, decimals: nat)
    requires decimals > 0
    ensures ParseTRC20Amount(FormatTRC20Amount(val, decimals), decimals) == Ok(val)
    ensures 0 < val ==>
              ParseTRC20Amount(FormatTRC20Amount(0 - val, decimals), decimals) == if val < Pow10(decimals) then Ok(val)
                  else Err(Negative)
  {
    var w, f := Printed(val, decimals);
    PartsOf(val, decimals);
    WholePositive(val, decimals);
    DigitsParse(w, f, decimals, Whole(val, decimals), Frac(val, decimals));
  }

  lemma WholeRoundTrip(val: nat, decimals: int)
    requires decimals <= 0
    ensures ParseTRC20Amount(Decimal(val), decimals) == Ok(val)
    ensures val > 0 ==> ParseTRC20Amount("-" + Decimal(val), decimals) == Err(Negative)
  {
    ValueOfDecimal(val);
    DigitsHaveNoDot(Decimal(val));
    ParseWholeUnsigned(Decimal(val));
    ParseNumbers(Decimal(val), "", decimals, val, 0);
    ParseSigned("-" + Decimal(val), Decimal(val), "", decimals);
  }

  /**
   * Printing then parsing returns every non-negative amount. A negative amount
   * is refused, unless its whole part is zero: then its sign is lost.
   */
  lemma FormatParseRoundTrip(raw: int, decimals: int)
    ensures ParseTRC20Amount(FormatTRC20Amount(raw, decimals), decimals) ==
            if raw >= 0 then Ok(raw) else if -raw < Unit(decimals) then Ok(-raw) else Err(Negative)
  {
    if decimals <= 0 {
      WholeRoundTrip(if raw < 0 then -raw else raw, decimals);
    } else if raw >= 0 {
      PointRoundTrip(raw, decimals);
    } else {
      PointRoundTrip(-raw, decimals);
    }
  }

  /** The TRX round trip over the whole `int64` range. */
  lemma SunRoundTrip(sun: Int64)
    ensures TRXToSun(SunToTRX(sun)) ==
            if sun >= 0 then Ok(sun) else if sun > -1_000_000 then Ok(0 - sun as int) else Err(Negative)
  {
    PrintersAgree(sun);
    FormatParseRoundTrip(sun, 6);
    ParsersAgree(SunToTRX(sun));
    Million();
  }

  // ----- When a parsed amount is negative -----

  /** The minus sign of a number other than zero. */
  predicate Minus(f: string) {
    f != "" && f[0] == '-' && exists k :: 1 <= k < |f| && f[k] != '0'
  }

  /** The whole part is refused when negative; the fraction is not. */
  predicate SignedFraction(s: string) {
    var parts := SplitDots(s);
    |parts| == 2 && ParseInt(parts[0]) == Some(0) && Minus(parts[1])
  }

  lemma {:induction false} ValueZero(s: string)
    requires AllDigits(s)
    ensures Value(s) == 0 <==> forall k :: 0 <= k < |s| ==> s[k] == '0'
  {
    if s != "" {
      var n := |s| - 1;
      ValueZero(s[..n]);
      assert s == s[..n] + [s[n]];
    }
  }

  lemma {:induction false} Pow10Grows(a: nat, b: nat)
    requires a <= b
    ensures Pow10(a) <= Pow10(b)
  {
    if a < b {
      Pow10Grows(a, b - 1);
    }
  }

  lemma ParseIntSign(s: string)
    requires ParseInt(s).Some?
    ensures 0 - Pow10(|s|) < ParseInt(s).value
    ensures ParseInt(s).value < 0 <==> Minus(s)
  {
    if s[0] == '-' {
      ValueZero(s[1..]);
      Pow10Grows(|s| - 1, |s|);
      if Minus(s) {
        var k :| 1 <= k < |s| && s[k] != '0';
        assert s[1..][k - 1] != '0';
      }
    }
  }

  lemma ParseFracSign(f: string, decimals: int)
    requires ParseFrac(f, decimals).Ok?
    ensures 0 - Unit(decimals) < ParseFrac(f, decimals).value
    ensures ParseFrac(f, decimals).value < 0 <==> Minus(f)
  {
    var padded := f + Zeros(decimals - |f|);
    ParseIntSign(padded);
    assert Minus(padded) <==> Minus(f) by {
      if Minus(padded) {
        var k :| 1 <= k < |padded| && padded[k] != '0';
        assert k < |f| && f[k] != '0';
      }
      if Minus(f) {
        var k :| 1 <= k < |f| && f[k] != '0';
        assert padded[k] != '0';
      }
    }
  }

  lemma ShiftGrows(n: int, k: nat)
    requires n >= 1
    ensures Shift(n, k) >= Pow10(k)
  {
    ShiftIsProduct(n, k);
    MultipleBounds(n, Pow10(k));
  }

  lemma {:induction false} ShiftZero(k: nat)
    ensures Shift(0, k) == 0
  {
    if k > 0 {
      ShiftZero(k - 1);
    }
  }

  lemma UnitsBounds(whole: nat, decimals: int)
    ensures whole == 0 ==> InUnits(whole, decimals) == 0
    ensures whole > 0 ==> InUnits(whole, decimals) >= Unit(decimals)
  {
    if decimals > 0 {
      ShiftZero(decimals);
      if whole > 0 {
        ShiftGrows(whole, decimals);
      }
    }
  }

  /**
   * Both parsers refuse "-1" but can return a negative amount: exactly when
   * a zero whole part is followed by a fraction with a minus sign.
   */
  lemma ParsedNegativeIff(s: string, decimals: int)
    ensures ParseTRC20Amount(s, decimals).Ok? ==> (ParseTRC20Amount(s, decimals).value < 0 <==> SignedFraction(s))
    ensures TRXToSun(s).Ok? ==> (TRXToSun(s).value < 0 <==> SignedFraction(s))
  {
    if ParseTRC20Amount(s, decimals).Ok? {
      PartsNegativeIff(SplitDots(s), decimals);
    }
    if TRXToSun(s).Ok? {
      PartsNegativeIff(SplitDots(s), 6);
    }
    PartsAgree(SplitDots(s));
  }

  lemma PartsNegativeIff(parts: seq<string>, decimals: int)
    requires |parts| > 0 && ParseParts(parts, decimals).Ok?
    ensures ParseParts(parts, decimals).value < 0 <==> |parts| == 2 && ParseInt(parts[0]) == Some(0) && Minus(parts[1])
  {
    UnitsBounds(ParseWhole(parts[0]).value, decimals);
    if |parts| == 2 {
      ParseFracSign(parts[1], decimals);
    }
  }

  lemma NegativeAmount()
    ensures TRXToSun("0.-5") == Ok(-50000)
  {
    assert "0.-5" == "0" + "." + "-5";
    ParseWholeUnsigned("0");
    ValueTrailingZeros("5", 4);
    assert "-5" + Zeros(4) == "-" + ("5" + Zeros(4));
    assert ("-" + ("5" + Zeros(4)))[1..] == "5" + Zeros(4);
    assert ParseFrac("-5", 6) == Ok(-50000);
    SunNumbers("0", "-5", 0, -50000);
  }
}
