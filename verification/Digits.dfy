/** Decimal digit strings: what `big.Int` prints and parses. */
module Digits {
  import opened Wrappers

  function Pow10(n: nat): (p: nat)
    ensures p >= 1
  {
    if n == 0 then 1 else 10 * Pow10(n - 1)
  }

  predicate IsDigit(c: char) {
    '0' <= c <= '9'
  }

  predicate AllDigits(s: string) {
    forall k :: 0 <= k < |s| ==> IsDigit(s[k])
  }

  function DigitValue(c: char): (n: nat)
    requires IsDigit(c)
    ensures n < 10
  {
    c as int - '0' as int
  }

  function Digit(n: nat): (c: char)
    requires n < 10
    ensures IsDigit(c) && DigitValue(c) == n
  {
    '0' + n as char
  }

  function Value(s: string): (n: nat)
    requires AllDigits(s)
    ensures n < Pow10(|s|)
  {
    if s == [] then 0 else 10 * Value(s[..|s| - 1]) + DigitValue(s[|s| - 1])
  }

  /** The decimal notation of `n`, without leading zeros. */
  function Decimal(n: nat): (s: string)
    ensures AllDigits(s) && |s| > 0
  {
    if n < 10 then [Digit(n)] else Decimal(n / 10) + [Digit(n % 10)]
  }

  /** Exactly `d` digits of `n`. */
  function Fixed(n: nat, d: nat): (s: string)
    ensures AllDigits(s) && |s| == d
  {
    if d == 0 then [] else Fixed(n / 10, d - 1) + [Digit(n % 10)]
  }

  function Zeros(k: nat): (s: string)
    ensures AllDigits(s) && |s| == k
  {
    seq(k, _ => '0')
  }

  function PadLeft(s: string, width: nat): string {
    if |s| >= width then s else Zeros(width - |s|) + s
  }

  lemma {:induction false} ValueOfDecimal(n: nat)
    ensures Value(Decimal(n)) == n
  {
    if n >= 10 {
      ValueOfDecimal(n / 10);
      assert Decimal(n)[..|Decimal(n)| - 1] == Decimal(n / 10);
    }
  }

  lemma {:induction false} ValueOfFixed(n: nat, d: nat)
    requires n < Pow10(d)
    ensures Value(Fixed(n, d)) == n
  {
    if d > 0 {
      ValueOfFixed(n / 10, d - 1);
      assert Fixed(n, d)[..d - 1] == Fixed(n / 10, d - 1);
    }
  }

  lemma SameDigits(a: nat, b: nat, c: nat, d: nat)
    requires 10 * a + c == 10 * b + d && c < 10 && d < 10
    ensures a == b && c == d
  {
  }

  /** Digit strings of one length are equal when their values are. */
  lemma {:induction false} ValueInjective(s: string, t: string)
    requires AllDigits(s) && AllDigits(t) && |s| == |t| && Value(s) == Value(t)
    ensures s == t
  {
    if s != [] {
      var n := |s| - 1;
      var u, v, c, d := s[..n], t[..n], s[n], t[n];
      SameDigits(Value(u), Value(v), DigitValue(c), DigitValue(d));
      ValueInjective(u, v);
      assert c == d;
      assert s == u + [c] && t == v + [d];
    }
  }

  lemma {:induction false} ValueLeadingZeros(k: nat, s: string)
    requires AllDigits(s)
    ensures AllDigits(Zeros(k) + s) && Value(Zeros(k) + s) == Value(s)
  {
    if s == [] {
      if k > 0 {
        ValueLeadingZeros(k - 1, s);
        assert Zeros(k) + s == Zeros(k);
        assert Zeros(k - 1) + s == Zeros(k - 1) == Zeros(k)[..k - 1];
      }
    } else {
      var n := |s| - 1;
      ValueLeadingZeros(k, s[..n]);
      assert (Zeros(k) + s)[..k + n] == Zeros(k) + s[..n];
    }
  }

  /** `n` times ten to the `k`. */
  function Shift(n: int, k: nat): int
    decreases k
  {
    if k == 0 then n else 10 * Shift(n, k - 1)
  }

  lemma {:induction false} ShiftIsProduct(n: int, k: nat)
    ensures Shift(n, k) == n * Pow10(k)
  {
    if k > 0 {
      ShiftIsProduct(n, k - 1);
    }
  }

  lemma {:induction false} ValueTrailingZeros(s: string, k: nat)
    requires AllDigits(s)
    ensures AllDigits(s + Zeros(k)) && Value(s + Zeros(k)) == Shift(Value(s), k)
  {
    if k == 0 {
      assert s + Zeros(0) == s;
    } else {
      ValueTrailingZeros(s, k - 1);
      var longer := s + Zeros(k);
      assert longer[..|longer| - 1] == s + Zeros(k - 1) && longer[|longer| - 1] == '0';
    }
  }

  lemma {:induction false} DecimalFits(n: nat, d: nat)
    requires d > 0 && n < Pow10(d)
    ensures |Decimal(n)| <= d
  {
    if n >= 10 {
      assert Pow10(1) == 10;
      DecimalFits(n / 10, d - 1);
    }
  }

  lemma PadLeftIsFixed(n: nat, d: nat)
    requires d > 0 && n < Pow10(d)
    ensures PadLeft(Decimal(n), d) == Fixed(n, d)
  {
    var digits := Decimal(n);
    DecimalFits(n, d);
    ValueOfDecimal(n);
    ValueOfFixed(n, d);
    ValueLeadingZeros(d - |digits|, digits);
    if |digits| == d {
      ValueInjective(digits, Fixed(n, d));
    } else {
      ValueInjective(Zeros(d - |digits|) + digits, Fixed(n, d));
    }
  }

  lemma DivModUnique(n: int, m: nat, q: int, r: nat)
    requires m > 0 && n == q * m + r && r < m
    ensures n / m == q && n % m == r
  {
    var difference := q - n / m;
    assert difference * m == n % m - r by {
      assert n == n / m * m + n % m;
      assert difference * m == q * m - n / m * m;
    }
    MultipleBounds(difference, m);
  }

  lemma MultipleBounds(k: int, m: int)
    requires m > 0
    ensures k >= 1 ==> k * m >= m
    ensures k <= -1 ==> k * m <= -m
  {
  }

  lemma DivModShift(n: nat, m: nat)
    requires m > 0
    ensures n / (10 * m) == n / 10 / m
    ensures n % (10 * m) / 10 == n / 10 % m && n % (10 * m) % 10 == n % 10
  {
    var tens := n / 10;
    var q, r := tens / m, tens % m;
    assert tens == q * m + r;
    assert n == 10 * tens + n % 10 == q * (10 * m) + (10 * r + n % 10);
    DivModUnique(n, 10 * m, q, 10 * r + n % 10);
  }

  /** Cutting `d` digits off the right divides by a power of ten. */
  lemma {:induction false} DecimalSplits(n: nat, d: nat)
    requires n >= Pow10(d)
    ensures Decimal(n) == Decimal(n / Pow10(d)) + Fixed(n % Pow10(d), d)
  {
    if d > 0 {
      var m := Pow10(d - 1);
      DivModShift(n, m);
      DecimalSplits(n / 10, d - 1);
    }
  }

  /** `big.Int.SetString(s, 10)`: an optional sign and at least one digit. */
  function ParseInt(s: string): Option<int> {
    if s == "" then None
    else
      var signed := s[0] == '+' || s[0] == '-';
      var digits := if signed then s[1..] else s;
      if digits == "" || !AllDigits(digits) then None
      else if s[0] == '-' then Some(0 - Value(digits))
      else Some(Value(digits))
  }

  /** `big.Int.String`. */
  function IntString(n: int): string {
    if n < 0 then "-" + Decimal(-n) else Decimal(n)
  }

  lemma ParseIntString(n: int)
    ensures ParseInt(IntString(n)) == Some(n)
  {
    ValueOfDecimal(if n < 0 then -n else n);
    if n < 0 {
      assert IntString(n)[1..] == Decimal(-n);
    }
  }
}
