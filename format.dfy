/** Python's `%d` and `%06d` formatting of numbers, the decimal reading that
    undoes it, and `int()`'s truncation of a float toward zero. */
module Format {

  predicate IsDigit(c: char)
  {
    '0' <= c <= '9'
  }

  predicate AllDigits(s: string)
  {
    forall k :: 0 <= k < |s| ==> IsDigit(s[k])
  }

  function Digit(d: nat): (c: char)
    requires d < 10
    ensures IsDigit(c) && DigitValue(c) == d
  {
    ('0' as int + d) as char
  }

  function DigitValue(c: char): nat
    requires IsDigit(c)
  {
    c as int - '0' as int
  }

  /** `'%d' % n` for a non-negative integer: digits, no leading zero. */
  function Decimal(n: nat): (s: string)
    ensures |s| >= 1 && AllDigits(s)
    ensures |s| > 1 ==> s[0] != '0'
  {
    if n < 10 then [Digit(n)] else Decimal(n / 10) + [Digit(n % 10)]
  }

  /** The number a string of decimal digits denotes. */
  function DecimalValue(s: string): nat
    requires AllDigits(s)
  {
    if s == [] then 0 else DecimalValue(s[..|s| - 1]) * 10 + DigitValue(s[|s| - 1])
  }

  /** `'%d' % i` for any integer: a minus sign before the digits of |i|. */
  function IntDecimal(i: int): (s: string)
    ensures |s| >= 1 && forall k :: 0 <= k < |s| ==> IsDigit(s[k]) || s[k] == '-'
  {
    if i < 0 then "-" + Decimal(-i) else Decimal(i)
  }

  /** Reads back what `IntDecimal` writes. */
  function IntValue(s: string): int
    requires |s| >= 1
    requires if s[0] == '-' then AllDigits(s[1..]) else AllDigits(s)
  {
    if s[0] == '-' then 0 - DecimalValue(s[1..]) as int else DecimalValue(s)
  }

  function Zeros(k: nat): (z: string)
    ensures |z| == k && AllDigits(z)
  {
    seq(k, _ => '0')
  }

  /** `'%06d' % n`: zero-filled to at least six digits, never truncated. */
  function ZeroPad6(n: nat): (s: string)
    ensures |s| >= 6 && AllDigits(s)
  {
    var d := Decimal(n);
    if |d| < 6 then Zeros(6 - |d|) + d else d
  }

  function Pow10(k: nat): (p: nat)
    ensures p >= 1
  {
    if k == 0 then 1 else 10 * Pow10(k - 1)
  }

  /** Python's `int(r)` (and hence `'%d' % r`) on a float: truncation toward zero. */
  function Trunc(r: real): (i: int)
    ensures r >= 0.0 ==> i as real <= r < i as real + 1.0
    ensures r < 0.0 ==> i as real - 1.0 < r <= i as real
  {
    if r >= 0.0 then r.Floor else -((-r).Floor)
  }

  /** Reading the decimal digits back gives the number. */
  lemma {:induction false} DecimalRoundTrip(n: nat)
    ensures DecimalValue(Decimal(n)) == n
  {
    if n >= 10 {
      DecimalRoundTrip(n / 10);
      var s := Decimal(n);
      assert s[..|s| - 1] == Decimal(n / 10);
    }
  }

  /** A run of zeros denotes zero. */
  lemma {:induction false} ZerosValue(k: nat)
    ensures DecimalValue(Zeros(k)) == 0
  {
    if k > 0 {
      assert Zeros(k)[..k - 1] == Zeros(k - 1);
      ZerosValue(k - 1);
    }
  }

  /** Leading zeros do not change the value. */
  lemma {:induction false} LeadingZerosValue(k: nat, s: string)
    requires AllDigits(s)
    ensures AllDigits(Zeros(k) + s) && DecimalValue(Zeros(k) + s) == DecimalValue(s)
  {
    var t := Zeros(k) + s;
    assert AllDigits(t);
    if s == [] {
      assert t == Zeros(k);
      ZerosValue(k);
    } else {
      assert t[..|t| - 1] == Zeros(k) + s[..|s| - 1];
      LeadingZerosValue(k, s[..|s| - 1]);
    }
  }

  /** `%06d` is read back to the number it formats. */
  lemma ZeroPad6RoundTrip(n: nat)
    ensures DecimalValue(ZeroPad6(n)) == n
  {
    var d := Decimal(n);
    DecimalRoundTrip(n);
    if |d| < 6 {
      LeadingZerosValue(6 - |d|, d);
    }
  }

  /** Distinct numbers get distinct `%06d` names. */
  lemma ZeroPad6Injective(a: nat, b: nat)
    requires ZeroPad6(a) == ZeroPad6(b)
    ensures a == b
  {
    ZeroPad6RoundTrip(a);
    ZeroPad6RoundTrip(b);
  }

  /** A number below 10^k has at most k digits. */
  lemma {:induction false} DecimalLengthBound(n: nat, k: nat)
    requires k >= 1 && n < Pow10(k)
    ensures |Decimal(n)| <= k
  {
    if n >= 10 {
      assert Pow10(1) == 10;
      DecimalLengthBound(n / 10, k - 1);
    }
  }

  /** Frame numbers below one million get exactly six digits. */
  lemma ZeroPad6Width(n: nat)
    requires n < 1000000
    ensures |ZeroPad6(n)| == 6
  {
    assert Pow10(6) == 1000000;
    DecimalLengthBound(n, 6);
  }

  /** `%d` on an integer is read back to that integer. */
  lemma IntRoundTrip(i: int)
    ensures IntDecimal(i) != [] && IntValue(IntDecimal(i)) == i
  {
    if i < 0 {
      DecimalRoundTrip(-i);
      assert IntDecimal(i)[1..] == Decimal(-i);
    } else {
      DecimalRoundTrip(i);
    }
  }

  /** Truncating a value that lies between two integer bounds stays between them. */
  lemma TruncWithin(r: real, lo: int, hi: int)
    requires lo as real <= r <= hi as real
    ensures lo <= Trunc(r) <= hi
  {
  }

  /** `'%06d.png' % n`: the file name of image `n`. */
  function ImageName(n: nat): (name: string)
    ensures |name| >= 10
  {
    ZeroPad6(n) + ".png"
  }

  /** An image name is at least six digits and `.png`, and the digits read
      back as the image number. */
  lemma ImageNameParts(n: nat)
    ensures var name := ImageName(n);
      && name[|name| - 4..] == ".png"
      && AllDigits(name[..|name| - 4]) && DecimalValue(name[..|name| - 4]) == n
  {
    ZeroPad6RoundTrip(n);
    assert ImageName(n)[..|ImageName(n)| - 4] == ZeroPad6(n);
  }

  /** Distinct image numbers get distinct file names. */
  lemma ImageNameInjective(a: nat, b: nat)
    requires ImageName(a) == ImageName(b)
    ensures a == b
  {
    var na, nb := ImageName(a), ImageName(b);
    assert ZeroPad6(a) == na[..|na| - 4];
    assert ZeroPad6(b) == nb[..|nb| - 4];
    ZeroPad6Injective(a, b);
  }

  lemma ShiftDigit(d: int, p: int, b: int, e: int)
    ensures (d * p + b) * 10 + e == d * (10 * p) + (b * 10 + e)
  {
  }

  /** The value of a digit string, read from its first digit on. */
  lemma {:induction false} DecimalValueFront(s: string)
    requires |s| >= 1 && AllDigits(s)
    ensures DecimalValue(s) == DigitValue(s[0]) * Pow10(|s| - 1) + DecimalValue(s[1..])
  {
    if |s| > 1 {
      var n := |s| - 1;
      var init, t := s[..n], s[1..];
      DecimalValueFront(init);
      assert init[1..] == t[..n - 1];
      assert init[0] == s[0] && t[n - 1] == s[n];
      var d, p, b, e := DigitValue(s[0]), Pow10(n - 1), DecimalValue(t[..n - 1]), DigitValue(s[n]);
      assert DecimalValue(init) == d * p + b;
      assert DecimalValue(s) == DecimalValue(init) * 10 + e;
      assert DecimalValue(t) == b * 10 + e;
      ShiftDigit(d, p, b, e);
    } else {
      assert s[1..] == [];
    }
  }

  /** A k-digit string denotes a number below 10^k. */
  lemma {:induction false} DecimalValueBound(s: string)
    requires AllDigits(s)
    ensures DecimalValue(s) < Pow10(|s|)
  {
    if s != [] {
      DecimalValueBound(s[..|s| - 1]);
    }
  }
}
