/** Decimal text: minimal and zero-padded numbers, and byte order on strings. */
module Decimal {

  function Digit(n: nat): (c: char)
    requires n < 10
  {
    "0123456789"[n]
  }

  predicate IsDigit(c: char) {
    '0' <= c <= '9'
  }

  function DigitValue(c: char): (n: nat)
    requires IsDigit(c)
    ensures n < 10
  {
    (c - '0') as nat
  }

  lemma DigitRoundTrip(n: nat)
    requires n < 10
    ensures IsDigit(Digit(n)) && DigitValue(Digit(n)) == n
  {
    var m: nat := n;
    assert m == 0 || m == 1 || m == 2 || m == 3 || m == 4 || m == 5 || m == 6 || m == 7 || m == 8 || m == 9;
  }

  /** `n` without leading zeros. */
  function Digits(n: nat): (s: string)
    ensures |s| >= 1
  {
    if n < 10 then [Digit(n)] else Digits(n / 10) + [Digit(n % 10)]
  }

  /** The last `width` decimal digits of `n`, zeros included. */
  function Fixed(n: nat, width: nat): (s: string)
    ensures |s| == width
  {
    if width == 0 then "" else Fixed(n / 10, width - 1) + [Digit(n % 10)]
  }

  function Zeros(k: nat): (s: string)
    ensures |s| == k
  {
    seq(k, _ => '0')
  }

  /** `{n:0width}`: padded with zeros up to the width, never cut. */
  function Padded(n: nat, width: nat): (s: string) {
    var s := Digits(n);
    if |s| >= width then s else Zeros(width - |s|) + s
  }

  function Power10(k: nat): (p: nat)
    ensures p >= 1
  {
    if k == 0 then 1 else 10 * Power10(k - 1)
  }

  /** Value of a digit string, most significant first. */
  function Value(s: string): nat
    requires forall c :: c in s ==> IsDigit(c)
  {
    if s == "" then 0 else 10 * Value(s[..|s| - 1]) + DigitValue(s[|s| - 1])
  }

  lemma {:induction false} DigitsAreDigits(n: nat)
    ensures forall c :: c in Digits(n) ==> IsDigit(c)
  {
    DigitRoundTrip(n % 10);
    if n >= 10 {
      DigitsAreDigits(n / 10);
    }
  }

  lemma {:induction false} DigitsRoundTrip(n: nat)
    ensures (forall c :: c in Digits(n) ==> IsDigit(c)) && Value(Digits(n)) == n
  {
    DigitsAreDigits(n);
    DigitRoundTrip(n % 10);
    if n >= 10 {
      DigitsRoundTrip(n / 10);
      var s := Digits(n);
      assert s[..|s| - 1] == Digits(n / 10);
    } else {
      assert Digits(n)[..0] == "";
    }
  }

  lemma DigitsInjective(a: nat, b: nat)
    requires Digits(a) == Digits(b)
    ensures a == b
  {
    DigitsRoundTrip(a);
    DigitsRoundTrip(b);
  }

  lemma {:induction false} ShortDigits(n: nat, width: nat)
    requires n < Power10(width) && width >= 1
    ensures |Digits(n)| <= width
    ensures Fixed(n, width) == Zeros(width - |Digits(n)|) + Digits(n)
  {
    hide Digit;
    if width == 1 {
      assert Power10(1) == 10 * Power10(0);
      assert Fixed(n, 1) == Fixed(n / 10, 0) + [Digit(n)];
    } else if n < 10 {
      ZeroFixed(width - 1);
      assert Zeros(width - 1) + [Digit(n)] == Fixed(n, width);
    } else {
      var q := n / 10;
      ShortDigits(q, width - 1);
      assert Fixed(n, width) == Fixed(q, width - 1) + [Digit(n % 10)];
    }
  }

  lemma {:induction false} ZeroFixed(width: nat)
    ensures Fixed(0, width) == Zeros(width)
  {
    if width > 0 {
      ZeroFixed(width - 1);
    }
  }

  /** Padding a number that fits its width is writing exactly that many digits. */
  lemma PaddedIsFixed(n: nat, width: nat)
    requires n < Power10(width) && width >= 1
    ensures Padded(n, width) == Fixed(n, width)
  {
    ShortDigits(n, width);
  }

  lemma {:induction false} LongDigits(n: nat, width: nat)
    requires n >= Power10(width)
    ensures |Digits(n)| > width
  {
    if width > 0 {
      LongDigits(n / 10, width - 1);
    }
  }

  lemma {:induction false} FixedInjective(a: nat, b: nat, width: nat)
    requires a < Power10(width) && b < Power10(width)
    requires Fixed(a, width) == Fixed(b, width)
    ensures a == b
  {
    if width > 0 {
      var s, t := Fixed(a, width), Fixed(b, width);
      assert s[..width - 1] == Fixed(a / 10, width - 1) && t[..width - 1] == Fixed(b / 10, width - 1);
      assert s[width - 1] == t[width - 1];
      DigitRoundTrip(a % 10);
      DigitRoundTrip(b % 10);
      FixedInjective(a / 10, b / 10, width - 1);
    }
  }

  // ---------------------------------------------------------------------------
  // Byte order
  // ---------------------------------------------------------------------------

  predicate Before(a: string, b: string)
    decreases |a|
  {
    |b| > 0 && (|a| == 0 || a[0] < b[0] || (a[0] == b[0] && Before(a[1..], b[1..])))
  }

  lemma {:induction false} SharedPrefix(p: string, a: string, b: string)
    ensures Before(p + a, p + b) <==> Before(a, b)
  {
    if p == "" {
      assert p + a == a && p + b == b;
    } else {
      SharedPrefix(p[1..], a, b);
      assert (p + a)[1..] == p[1..] + a && (p + b)[1..] == p[1..] + b;
    }
  }

  lemma {:induction false} EarlierPrefix(p: string, q: string, a: string, b: string)
    requires |p| == |q| && Before(p, q)
    ensures Before(p + a, q + b)
    decreases |p|
  {
    if p[0] == q[0] {
      EarlierPrefix(p[1..], q[1..], a, b);
      assert (p + a)[1..] == p[1..] + a && (q + b)[1..] == q[1..] + b;
    }
  }

  lemma DigitOrder(a: nat, b: nat)
    requires a < b < 10
    ensures Digit(a) < Digit(b)
  {
    DigitRoundTrip(a);
    DigitRoundTrip(b);
  }

  /** Fixed-width numbers sort as they count. */
  lemma {:induction false} FixedOrder(a: nat, b: nat, width: nat)
    requires a < b < Power10(width)
    ensures Before(Fixed(a, width), Fixed(b, width))
  {
    var p, q := Fixed(a / 10, width - 1), Fixed(b / 10, width - 1);
    if a / 10 < b / 10 {
      FixedOrder(a / 10, b / 10, width - 1);
      EarlierPrefix(p, q, [Digit(a % 10)], [Digit(b % 10)]);
    } else {
      DigitOrder(a % 10, b % 10);
      SharedPrefix(p, [Digit(a % 10)], [Digit(b % 10)]);
    }
  }
}
