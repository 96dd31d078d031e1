/** Text rendering of numbers as the converter uses it: `std::to_string` for
    unsigned integers, padded lower-case hexadecimal as produced by `toHex`,
    `u256` parsing of a hexadecimal literal, and the bitwise AND used to mask
    a hash value. */
module Text {

  /** Powers of two and sixteen. */
  function Pow2(k: nat): (p: nat)
    ensures p >= 1
  {
    if k == 0 then 1 else 2 * Pow2(k - 1)
  }

  function Pow16(n: nat): (p: nat)
    ensures p >= 1
  {
    if n == 0 then 1 else 16 * Pow16(n - 1)
  }

  lemma {:induction false} Pow16IsPow2(n: nat)
    ensures Pow16(n) == Pow2(4 * n)
  {
    if n > 0 {
      Pow16IsPow2(n - 1);
      var m := 4 * (n - 1);
      assert Pow2(m + 4) == 2 * Pow2(m + 3) == 4 * Pow2(m + 2) == 8 * Pow2(m + 1) == 16 * Pow2(m);
    }
  }

  lemma {:induction false} Pow16Monotone(m: nat, n: nat)
    requires m <= n
    ensures Pow16(m) <= Pow16(n)
  {
    if m < n {
      Pow16Monotone(m, n - 1);
    }
  }

  /** If v == k*a + b with 0 <= b < k, then a and b are v's quotient and remainder. */
  lemma DivModUnique(v: int, k: int, a: int, b: int)
    requires k > 0 && 0 <= b < k && v == k * a + b
    ensures v / k == a && v % k == b
  {
    var q, r := v / k, v % k;
    assert v == k * q + r;
    var d := a - q;
    assert k * d == r - b;
    assert d >= 1 ==> k * d >= k;
    assert d <= -1 ==> k * d <= -k;
  }

  lemma Regroup(b: int, p: int, s: int, t: int, r: int)
    ensures b * (p * s + t) + r == (b * p) * s + (t * b + r)
  {
  }

  lemma LowPartBound(b: int, p: int, t: int, r: int)
    requires b > 0 && 0 <= t < p && 0 <= r < b
    ensures t * b + r < b * p
  {
    assert t * b <= (p - 1) * b;
    assert (p - 1) * b + b == b * p;
  }

  /** Peeling one digit of base `b` off the bottom of a remainder. */
  lemma ModStep(v: nat, b: nat, p: nat)
    requires b > 0 && p > 0
    ensures ((v / b) % p) * b + v % b == v % (b * p)
  {
    var q, r := v / b, v % b;
    var s, t := q / p, q % p;
    Regroup(b, p, s, t, r);
    LowPartBound(b, p, t, r);
    DivModUnique(v, b * p, s, t * b + r);
  }

  // ---------------------------------------------------------------------
  // Digits

  predicate IsDecimalDigit(c: char) { '0' <= c <= '9' }

  predicate IsHexDigit(c: char) { '0' <= c <= '9' || 'a' <= c <= 'f' }

  predicate AllDecimal(s: string) { forall i :: 0 <= i < |s| ==> IsDecimalDigit(s[i]) }

  predicate AllHex(s: string) { forall i :: 0 <= i < |s| ==> IsHexDigit(s[i]) }

  /** The lower-case digit character of a value below sixteen. */
  function DigitChar(d: nat): (c: char)
    requires d < 16
    ensures IsHexDigit(c) && (d < 10 ==> IsDecimalDigit(c))
  {
    if d < 10 then (48 + d) as char else (87 + d) as char
  }

  function DigitValue(c: char): (d: nat)
    requires IsHexDigit(c)
    ensures d < 16 && (IsDecimalDigit(c) ==> d < 10)
  {
    if IsDecimalDigit(c) then c as int - 48 else c as int - 87
  }

  lemma DigitRoundTrip(d: nat)
    requires d < 16
    ensures DigitValue(DigitChar(d)) == d
  {
  }

  // ---------------------------------------------------------------------
  // Decimal: std::to_string and its inverse

  /** `std::to_string` of an unsigned value: the shortest decimal rendering. */
  function DecimalString(n: nat): (s: string)
    ensures |s| >= 1 && AllDecimal(s)
    decreases n
  {
    if n < 10 then [DigitChar(n)] else DecimalString(n / 10) + [DigitChar(n % 10)]
  }

  /** The value of a string of decimal digits (the parse done by `stoi`). */
  function DecimalValue(s: string): nat
    requires AllDecimal(s)
  {
    if s == [] then 0 else 10 * DecimalValue(s[..|s| - 1]) + DigitValue(s[|s| - 1])
  }

  lemma {:induction false} DecimalRoundTrip(n: nat)
    ensures DecimalValue(DecimalString(n)) == n
  {
    var s := DecimalString(n);
    if n < 10 {
      assert s[..0] == [];
      DigitRoundTrip(n);
    } else {
      var p := DecimalString(n / 10);
      assert s[..|s| - 1] == p;
      DecimalRoundTrip(n / 10);
      DigitRoundTrip(n % 10);
    }
  }

  /** Different values are printed differently. */
  lemma DecimalStringInjective(m: nat, n: nat)
    requires m != n
    ensures DecimalString(m) != DecimalString(n)
  {
    DecimalRoundTrip(m);
    DecimalRoundTrip(n);
  }

  // ---------------------------------------------------------------------
  // Hexadecimal: the padded digits of toHex and the parse of u256("0x...")

  /** The lowest `n` hexadecimal digits of `v`, most significant first, zero padded. */
  function HexDigits(v: nat, n: nat): (s: string)
    ensures |s| == n && AllHex(s)
  {
    if n == 0 then [] else HexDigits(v / 16, n - 1) + [DigitChar(v % 16)]
  }

  /** The value of a string of hexadecimal digits. */
  function HexValue(s: string): nat
    requires AllHex(s)
  {
    if s == [] then 0 else 16 * HexValue(s[..|s| - 1]) + DigitValue(s[|s| - 1])
  }

  lemma {:induction false} HexRoundTrip(v: nat, n: nat)
    ensures HexValue(HexDigits(v, n)) == v % Pow16(n)
  {
    if n > 0 {
      var s := HexDigits(v, n);
      assert s[..n - 1] == HexDigits(v / 16, n - 1);
      HexRoundTrip(v / 16, n - 1);
      DigitRoundTrip(v % 16);
      ModStep(v, 16, Pow16(n - 1));
    }
  }

  /** The last `k` of `n` padded digits are the `k` padded digits. */
  lemma {:induction false} HexDigitsSuffix(v: nat, n: nat, k: nat)
    requires k <= n
    ensures HexDigits(v, n)[n - k..] == HexDigits(v, k)
  {
    if k > 0 {
      HexDigitsSuffix(v / 16, n - 1, k - 1);
      assert HexDigits(v, n)[n - k..] == HexDigits(v / 16, n - 1)[n - k..] + [DigitChar(v % 16)];
    }
  }

  /** A value below 16^n is rendered exactly by n padded digits. */
  lemma HexRoundTripExact(v: nat, n: nat)
    requires v < Pow16(n)
    ensures HexValue(HexDigits(v, n)) == v
  {
    HexRoundTrip(v, n);
  }

  /** `n` copies of the digit `f`, the mask text `std::string(n, 'f')`. */
  function AllF(n: nat): (s: string)
    ensures |s| == n && AllHex(s)
  {
    if n == 0 then [] else AllF(n - 1) + ['f']
  }

  lemma {:induction false} AllFValue(n: nat)
    ensures HexValue(AllF(n)) == Pow16(n) - 1
  {
    if n > 0 {
      assert AllF(n)[..n - 1] == AllF(n - 1);
      AllFValue(n - 1);
    }
  }

  // ---------------------------------------------------------------------
  // Bitwise AND on unbounded naturals (the `&` of u256 on values below 2^256)

  function BitAnd(a: nat, b: nat): nat
    decreases a
  {
    if a == 0 || b == 0 then 0
    else 2 * BitAnd(a / 2, b / 2) + (if a % 2 == 1 && b % 2 == 1 then 1 else 0)
  }

  /** AND with k low one-bits keeps the value modulo 2^k. */
  lemma {:induction false} BitAndLowOnes(a: nat, k: nat)
    ensures BitAnd(a, Pow2(k) - 1) == a % Pow2(k)
  {
    if k == 0 {
      assert Pow2(k) - 1 == 0;
    } else if a == 0 {
    } else {
      var p := Pow2(k - 1);
      var b := Pow2(k) - 1;
      assert b == 2 * (p - 1) + 1;
      DivModUnique(b, 2, p - 1, 1);
      var rest := BitAnd(a / 2, p - 1);
      assert BitAnd(a, b) == 2 * rest + a % 2;
      BitAndLowOnes(a / 2, k - 1);
      assert rest == (a / 2) % p;
      ModStep(a, 2, p);
      assert 2 * p == Pow2(k);
    }
  }

  /** AND with the n-nibble all-f mask is reduction modulo 16^n. */
  lemma MaskIsMod(a: nat, n: nat)
    ensures BitAnd(a, HexValue(AllF(n))) == a % Pow16(n)
  {
    AllFValue(n);
    Pow16IsPow2(n);
    BitAndLowOnes(a, 4 * n);
  }
}
