/**
 * The two amount formatters used in prompts and reports: `formatTokenAmount`
 * (internal/tools/sign.go) and `formatBigIntWithDecimals`
 * (internal/tools/approval.go), against `FormatTRC20Amount`.
 */
module Display {
  import opened AmountLaws
  import opened Amounts
  import opened Digits
  import opened Wrappers

  function TrimZeros(s: string): string {
    if s != "" && s[|s| - 1] == '0' then TrimZeros(s[..|s| - 1]) else s
  }

  function DropDot(s: string): string {
    if s != "" && s[|s| - 1] == '.' then s[..|s| - 1] else s
  }

  /** The fixed-point form without trailing zeros, and without a bare dot. */
  function Short(raw: int, decimals: int): string {
    if decimals <= 0 then IntString(raw) else DropDot(TrimZeros(FormatTRC20Amount(raw, decimals)))
  }

  // ----- Trimming -----

  lemma {:induction false} TrimAfterDot(prefix: string, f: string)
    requires prefix != "" && prefix[|prefix| - 1] != '0'
    ensures TrimZeros(prefix + f) == prefix + TrimZeros(f)
  {
    if f == "" {
      assert prefix + f == prefix;
    } else if f[|f| - 1] == '0' {
      TrimAfterDot(prefix, f[..|f| - 1]);
      assert (prefix + f)[..|prefix + f| - 1] == prefix + f[..|f| - 1];
    }
  }

  lemma {:induction false} TrimRestores(s: string)
    ensures |TrimZeros(s)| <= |s|
    ensures s == TrimZeros(s) + Zeros(|s| - |TrimZeros(s)|)
    ensures TrimZeros(s) != "" ==> TrimZeros(s)[|TrimZeros(s)| - 1] != '0'
  {
    if s != "" && s[|s| - 1] == '0' {
      var rest := s[..|s| - 1];
      TrimRestores(rest);
      assert s == rest + "0";
    }
  }

  lemma TrimValue(f: string)
    requires AllDigits(f)
    ensures var t := TrimZeros(f); AllDigits(t) && |t| <= |f| && Shift(Value(t), |f| - |t|) == Value(f)
    ensures TrimZeros(f) == "" <==> Value(f) == 0
  {
  }

  lemma ShortJoined(printed: string, w: string, f: string)
    requires printed == w + "." + f && AllDigits(f) && w != ""
    ensures DropDot(TrimZeros(printed)) == if Value(f) == 0 then w else w + "." + TrimZeros(f)
  {
    var dotted := w + ".";
    TrimAfterDot(dotted, f);
    TrimRestores(f);
    TrimValue(f);
    assert printed == dotted + f;
    assert (dotted + TrimZeros(f)) == w + "." + TrimZeros(f);
  }

  /** The digits before and after the point. */
  lemma PartDigits(raw: nat, decimals: nat)
    requires decimals > 0
    ensures Value(Decimal(Whole(raw, decimals))) == Whole(raw, decimals)
    ensures Value(Fixed(Frac(raw, decimals), decimals)) == Frac(raw, decimals)
    ensures PadLeft(Decimal(Frac(raw, decimals)), decimals) == Fixed(Frac(raw, decimals), decimals)
  {
    PartsOf(raw, decimals);
    ValueOfDecimal(Whole(raw, decimals));
    ValueOfFixed(Frac(raw, decimals), decimals);
    PadLeftIsFixed(Frac(raw, decimals), decimals);
  }

  lemma ShortParts(raw: nat, decimals: nat, w: string, f: string)
    requires decimals > 0 && w == Decimal(Whole(raw, decimals)) && f == Fixed(Frac(raw, decimals), decimals)
    ensures Value(f) == Frac(raw, decimals)
    ensures Short(raw, decimals) == if Value(f) == 0 then w else w + "." + TrimZeros(f)
  {
    PartDigits(raw, decimals);
    assert FormatTRC20Amount(raw, decimals) == w + "." + f by { assert "" + w == w; }
    ShortJoined(FormatTRC20Amount(raw, decimals), w, f);
  }

  lemma TrimmedParses(w: string, f: string, decimals: nat, whole: nat, frac: nat)
    requires AllDigits(w) && AllDigits(f) && w != "" && |f| == decimals > 0 && whole == Value(w) && frac == Value(f)
    ensures ParseTRC20Amount(if frac == 0 then w else w + "." + TrimZeros(f), decimals)
              == Ok(InUnits(whole, decimals) + frac)
  {
    TrimValue(f);
    ParseUnsigned(w, TrimZeros(f), decimals, whole, frac);
  }

  /** The short form loses nothing. */
  lemma ShortParses(raw: nat, decimals: int)
    ensures ParseTRC20Amount(Short(raw, decimals), decimals) == Ok(raw)
  {
    if decimals <= 0 {
      FormatParseRoundTrip(raw, decimals);
    } else {
      var w, f := Printed(raw, decimals);
      ShortJoined(FormatTRC20Amount(raw, decimals), w, f);
      PartsOf(raw, decimals);
      TrimmedParses(w, f, decimals, Whole(raw, decimals), Frac(raw, decimals));
    }
  }

  // ----- Padding the whole number -----

  /** All digits of an amount, with at least one before the point. */
  lemma PaddedSplits(raw: nat, decimals: nat)
    ensures PadLeft(Decimal(raw), decimals + 1) == Decimal(Whole(raw, decimals)) + Fixed(Frac(raw, decimals), decimals)
  {
    WholeAndFrac(raw, decimals);
    if raw >= Pow10(decimals) {
      DecimalSplits(raw, decimals);
    } else {
      DivModUnique(raw, Pow10(decimals), 0, raw);
      PadLeftIsFixed(raw, decimals + 1);
      ValueOfFixed(raw, decimals);
      ValueOfFixed(raw, decimals + 1);
      ValueLeadingZeros(1, Fixed(raw, decimals));
      assert Zeros(1) == "0" == Decimal(0);
      ValueInjective(Fixed(raw, decimals + 1), Zeros(1) + Fixed(raw, decimals));
    }
  }

  lemma Cut(s: string, w: string, f: string)
    requires s == w + f
    ensures s[..|s| - |f|] == w && s[|s| - |f|..] == f
  {
  }

  // ----- Negative amounts -----

  lemma SignedJoined(short: string, signed: string, w: string, f: string)
    requires AllDigits(f) && w != ""
    requires short == DropDot(TrimZeros(w + "." + f)) && signed == DropDot(TrimZeros("-" + w + "." + f))
    ensures signed == "-" + short
  {
    ShortJoined(w + "." + f, w, f);
    ShortJoined("-" + w + "." + f, "-" + w, f);
    assert ("-" + w) + "." + TrimZeros(f) == "-" + (w + "." + TrimZeros(f));
  }

  lemma ShortSign(val: nat, decimals: nat)
    requires val > 0 && decimals > 0
    ensures Short(0 - val, decimals) == "-" + Short(val, decimals)
  {
    var w, f := Printed(val, decimals);
    SignedJoined(Short(val, decimals), Short(0 - val, decimals), w, f);
  }

  /** An amount below one whole starts with a zero. */
  lemma ShortStarts(val: nat, decimals: nat)
    requires decimals > 0 && val < Pow10(decimals)
    ensures Short(val, decimals) != "" && Short(val, decimals)[0] == '0'
  {
    WholePositive(val, decimals);
    ShortParts(val, decimals, Decimal(0), Fixed(Frac(val, decimals), decimals));
    assert Decimal(0) == "0";
  }

  /** A whole part and a trimmed fraction. */
  function Joined(intPart: string, fracPart: string): string {
    if TrimZeros(fracPart) == "" then intPart else intPart + "." + TrimZeros(fracPart)
  }

  lemma CutJoined(s: string, head: string, f: string)
    requires s == head + f
    ensures Joined(s[..|s| - |f|], s[|s| - |f|..]) == Joined(head, f)
  {
    Cut(s, head, f);
  }

  lemma JoinedSigned(w: string, f: string, short: string)
    requires AllDigits(f) && short == if Value(f) == 0 then w else w + "." + TrimZeros(f)
    ensures Joined("-" + w, f) == "-" + short
  {
    TrimValue(f);
    assert ("-" + w) + "." + TrimZeros(f) == "-" + (w + "." + TrimZeros(f));
  }

  /** With a whole part, the sign stays in front of it. */
  lemma SignedSplitLarge(val: nat, decimals: nat, s: string)
    requires decimals > 0 && val >= Pow10(decimals) && s == "-" + Decimal(val)
    ensures |s| > decimals && Joined(s[..|s| - decimals], s[|s| - decimals..]) == "-" + Short(val, decimals)
  {
    var w, f := Decimal(Whole(val, decimals)), Fixed(Frac(val, decimals), decimals);
    WholeAndFrac(val, decimals);
    DecimalSplits(val, decimals);
    ShortParts(val, decimals, w, f);
    assert s == ("-" + w) + f;
    CutJoined(s, "-" + w, f);
    JoinedSigned(w, f, Short(val, decimals));
  }

  /** Without one, the sign or the padding takes the place of the zero. */
  lemma SignedSplitSmall(digits: string, decimals: nat, s: string, short: string)
    requires 0 < |digits| <= decimals && s == PadLeft("-" + digits, decimals + 1)
    requires short != "" && short[0] == '0'
    ensures |s| == decimals + 1 && Joined(s[..1], s[1..]) != "-" + short
  {
    assert s[..1] == "-" || s[..1] == "0";
    assert ("-" + short)[0] == '-' && ("-" + short)[1] == '0';
  }

  /** Splitting the signed digits is right exactly when the amount has a whole part. */
  lemma SignedSplitIff(val: nat, decimals: nat, s: string)
    requires val > 0 && decimals > 0 && s == PadLeft("-" + Decimal(val), decimals + 1)
    ensures |s| > decimals
    ensures Joined(s[..|s| - decimals], s[|s| - decimals..]) == Short(0 - val, decimals) <==> val >= Pow10(decimals)
  {
    ShortSign(val, decimals);
    if val >= Pow10(decimals) {
      LongDigits(val, decimals);
      SignedSplitLarge(val, decimals, s);
    } else {
      DecimalFits(val, decimals);
      ShortStarts(val, decimals);
      SignedSplitSmall(Decimal(val), decimals, s, Short(val, decimals));
    }
  }

  lemma LongDigits(val: nat, decimals: nat)
    requires val >= Pow10(decimals)
    ensures |Decimal(val)| > decimals
  {
    DecimalSplits(val, decimals);
  }

  /** Euclidean division of a negative number. */
  lemma DivideNegative(val: nat, m: nat)
    requires m > 0
    ensures val % m == 0 ==> (0 - val) / m == 0 - val / m && (0 - val) % m == 0
    ensures val % m > 0 ==> (0 - val) / m == 0 - val / m - 1 && (0 - val) % m == m - val % m
  {
    var q, r := val / m, val % m;
    assert val == q * m + r;
    if r == 0 {
      assert 0 - val == (0 - q) * m + 0;
      DivModUnique(0 - val, m, 0 - q, 0);
    } else {
      assert 0 - val == (0 - q - 1) * m + (m - r);
      DivModUnique(0 - val, m, 0 - q - 1, m - r);
    }
  }

  lemma WholesDiffer(a: nat, b: nat, x: string, y: string)
    requires a != b && AllDigits(x) && AllDigits(y)
    ensures Decimal(a) + "." + x != Decimal(b) && Decimal(a) + "." + x != Decimal(b) + "." + y
  {
    ValueOfDecimal(a);
    ValueOfDecimal(b);
    DigitsHaveNoDot(Decimal(a));
    DigitsHaveNoDot(Decimal(b));
    DigitsHaveNoDot(x);
    DigitsHaveNoDot(y);
    SplitOneDot(Decimal(a), x);
    SplitOneDot(Decimal(b), y);
    SplitNoDot(Decimal(b));
  }

  lemma FractionDigits(frac: nat, decimals: nat)
    requires decimals > 0 && frac < Pow10(decimals)
    ensures AllDigits(TrimZeros(PadLeft(Decimal(frac), decimals)))
  {
    PadLeftIsFixed(frac, decimals);
    TrimValue(Fixed(frac, decimals));
  }

  lemma SignedDiffer(n: nat, x: string, short: string)
    requires n > 0 && Decimal(n) + "." + x != short
    ensures IntString(0 - n) + "." + x != "-" + short
  {
    var unsigned := Decimal(n) + "." + x;
    assert IntString(0 - n) + "." + x == "-" + unsigned;
    assert ("-" + unsigned)[1..] == unsigned && ("-" + short)[1..] == short;
  }

  lemma ShortDiffers(a: nat, b: nat, x: string, f: string, short: string)
    requires a != b && AllDigits(x) && AllDigits(f)
    requires short == if Value(f) == 0 then Decimal(b) else Decimal(b) + "." + TrimZeros(f)
    ensures Decimal(a) + "." + x != short
  {
    TrimValue(f);
    WholesDiffer(a, b, x, TrimZeros(f));
  }

  /** Counting up to the next whole is never the amount. */
  lemma NextWholeDiffers(val: nat, decimals: nat, x: string)
    requires decimals > 0 && AllDigits(x)
    ensures Decimal(Whole(val, decimals) + 1) + "." + x != Short(val, decimals)
  {
    var w, f := Decimal(Whole(val, decimals)), Fixed(Frac(val, decimals), decimals);
    ShortParts(val, decimals, w, f);
    ShortDiffers(Whole(val, decimals) + 1, Whole(val, decimals), x, f, Short(val, decimals));
  }

  lemma WholeOnly(val: nat, decimals: nat)
    requires val > 0 && decimals > 0 && Frac(val, decimals) == 0
    ensures Whole(val, decimals) > 0 && Short(val, decimals) == Decimal(Whole(val, decimals))
  {
    ShortParts(val, decimals, Decimal(Whole(val, decimals)), Fixed(Frac(val, decimals), decimals));
    PartsOf(val, decimals);
    ShiftZero(decimals);
  }

  /** What the division formatter joins for a negative amount is right exactly for whole multiples. */
  lemma SignedDivisionIff(val: nat, decimals: nat, whole: int, frac: nat)
    requires val > 0 && decimals > 0
    requires whole == (0 - val) / Pow10(decimals) && frac == (0 - val) % Pow10(decimals)
    ensures frac == 0 ==> IntString(whole) == Short(0 - val, decimals)
    ensures frac > 0 ==>
              IntString(whole) + "." + TrimZeros(PadLeft(Decimal(frac), decimals)) != Short(0 - val, decimals)
  {
    DivideNegative(val, Pow10(decimals));
    WholeAndFrac(val, decimals);
    ShortSign(val, decimals);
    if frac == 0 {
      WholeOnly(val, decimals);
    } else {
      var x := TrimZeros(PadLeft(Decimal(frac), decimals));
      FractionDigits(frac, decimals);
      NextWholeDiffers(val, decimals, x);
      SignedDiffer(Whole(val, decimals) + 1, x, Short(val, decimals));
    }
  }

  /** The loop that pads a number in front. */
  method PadLoop(digits: string, decimals: nat) returns (s: string)
    ensures s == PadLeft(digits, decimals + 1)
  {
    s := digits;
    while |s| <= decimals
      invariant |s| >= |digits| && s == Zeros(|s| - |digits|) + digits
      invariant |s| > |digits| ==> |s| <= decimals + 1
      decreases decimals - |s|
    {
      assert Zeros(|s| + 1 - |digits|) == "0" + Zeros(|s| - |digits|);
      s := "0" + s;
    }
  }

  /** `raw` is missing where the source has nil. */
  method FormatTokenAmount(raw: Option<int>, decimals: int) returns (r: string)
    ensures raw.None? ==> r == "0"
    ensures raw.Some? ==> (r == Short(raw.value, decimals) <==> raw.value >= 0 || -raw.value >= Unit(decimals))
  {
    if raw.None? {
      return "0";
    }
    var digits := IntString(raw.value);
    if decimals <= 0 {
      return digits;
    }
    var s := PadLoop(digits, decimals);
    assert |s| >= decimals + 1;
    var intPart, fracPart := s[..|s| - decimals], s[|s| - decimals..];
    if raw.value >= 0 {
      PaddedSplits(raw.value, decimals);
      Cut(s, Decimal(Whole(raw.value, decimals)), Fixed(Frac(raw.value, decimals), decimals));
      ShortParts(raw.value, decimals, intPart, fracPart);
      TrimValue(fracPart);
    } else {
      SignedSplitIff(-raw.value, decimals, s);
    }
    fracPart := TrimZeros(fracPart);
    if fracPart == "" {
      return intPart;
    }
    return intPart + "." + fracPart;
  }

  /** The loop that trims a fraction in place. */
  method TrimLoop(fraction: string) returns (fracStr: string)
    ensures fracStr == TrimZeros(fraction)
  {
    fracStr := fraction;
    while |fracStr| > 0 && fracStr[|fracStr| - 1] == '0'
      invariant TrimZeros(fracStr) == TrimZeros(fraction)
    {
      fracStr := fracStr[..|fracStr| - 1];
    }
  }

  method FormatBigIntWithDecimals(amount: int, decimals: int) returns (r: string)
    ensures r == Short(amount, decimals) <==> amount >= 0 || amount % Unit(decimals) == 0
  {
    if decimals == 0 {
      return IntString(amount);
    }
    var divisor := Unit(decimals);
    var whole, frac := amount / divisor, amount % divisor;
    if amount >= 0 && decimals > 0 {
      WholeAndFrac(amount, decimals);
      PartDigits(amount, decimals);
      ShortParts(amount, decimals, Decimal(whole), Fixed(frac, decimals));
    }
    if amount < 0 && decimals > 0 {
      SignedDivisionIff(-amount, decimals, whole, frac);
    }
    if frac == 0 {
      return IntString(whole);
    }
    var fracStr := TrimLoop(PadLeft(IntString(frac), decimals));
    return IntString(whole) + "." + fracStr;
  }
}
