/** Fixed-width machine words: powers of two, wrapping arithmetic on a 64-bit
    `usize`, and the bitwise AND the ring and the buses mask their indices with. */
module MachineWords {

  // One more than the largest value a 64-bit `usize` holds.
  const USIZE: nat := 0x1_0000_0000_0000_0000

  function Min(a: nat, b: nat): nat {
    if a <= b then a else b
  }

  function Pow2(k: nat): (r: nat)
    ensures r >= 1
  {
    if k == 0 then 1 else 2 * Pow2(k - 1)
  }

  function WrappingAdd(a: nat, b: nat): (r: nat)
  {
    (a + b) % USIZE
  }

  function WrappingSub(a: nat, b: nat): (r: nat)
  {
    (a - b) % USIZE
  }

  /** Bitwise AND, bit by bit from the least significant end. */
  function And(a: nat, b: nat): nat
    decreases a
  {
    if a == 0 || b == 0 then 0
    else 2 * And(a / 2, b / 2) + (if a % 2 == 1 && b % 2 == 1 then 1 else 0)
  }

  // Bit `k`, the least significant one being bit zero.
  ghost predicate Bit(x: nat, k: nat)
    decreases k
  {
    if k == 0 then x % 2 == 1 else Bit(x / 2, k - 1)
  }

  /** Each bit of the result is set exactly when it is set in both. */
  lemma {:induction false} AndIsBitwise(a: nat, b: nat, k: nat)
    ensures Bit(And(a, b), k) <==> Bit(a, k) && Bit(b, k)
    decreases k
  {
    if a == 0 || b == 0 {
      ZeroHasNoBits(k);
    } else if k > 0 {
      AndIsBitwise(a / 2, b / 2, k - 1);
      assert And(a, b) / 2 == And(a / 2, b / 2);
    }
  }

  lemma {:induction false} ZeroHasNoBits(k: nat)
    ensures !Bit(0, k)
  {
    if k > 0 {
      ZeroHasNoBits(k - 1);
    }
  }

  // A mask of all ones keeps the lowest bit and masks the rest.
  lemma AndOnes(x: nat, p: nat)
    requires p >= 1
    ensures And(x, 2 * p - 1) == 2 * And(x / 2, p - 1) + x % 2
  {
    var m := 2 * p - 1;
    assert m / 2 == p - 1 && m % 2 == 1;
  }

  /** Masking with a power of two minus one is the remainder. */
  lemma {:induction false} MaskIsRemainder(x: nat, k: nat)
    ensures And(x, Pow2(k) - 1) == x % Pow2(k)
    decreases k
  {
    if k > 0 {
      MaskIsRemainder(x / 2, k - 1);
      MaskDoubles(x, Pow2(k - 1));
    }
  }

  lemma MaskDoubles(x: nat, p: nat)
    requires p >= 1 && And(x / 2, p - 1) == x / 2 % p
    ensures And(x, 2 * p - 1) == x % (2 * p)
  {
    hide And;
    HalfRemainder(x, p);
    AndOnes(x, p);
  }

  lemma HalfRemainder(x: nat, p: nat)
    requires p >= 1
    ensures x % (2 * p) == 2 * (x / 2 % p) + x % 2
  {
    var q := x / 2 / p;
    var r := x / 2 % p;
    assert x / 2 == q * p + r;
    assert x == (2 * p) * q + (2 * r + x % 2) by {
      assert x == 2 * (q * p + r) + x % 2;
      assert 2 * (q * p) == (2 * p) * q;
    }
    RemainderUnique(x, 2 * p, q, 2 * r + x % 2);
  }

  lemma MultipleGap(m: int, p: int, q: int)
    requires m > 0 && p > q
    ensures m * p >= m * q + m
  {
    assert m * p == m * q + m + m * (p - q - 1);
    assert m * (p - q - 1) >= 0;
  }

  lemma RemainderUnique(x: int, m: int, q: int, r: int)
    requires m > 0 && x == m * q + r && 0 <= r < m
    ensures x % m == r && x / m == q
  {
    var q', r' := x / m, x % m;
    assert x == m * q' + r';
    if q > q' {
      MultipleGap(m, q, q');
    } else if q < q' {
      MultipleGap(m, q', q);
    }
  }

  lemma Pow2Doubles(n: nat)
    requires n > 0
    ensures Pow2(n) == 2 * Pow2(n - 1)
  {
  }

  lemma DoubledProduct(x: nat, y: nat)
    ensures 2 * (x * y) == (2 * x) * y
  {
  }

  lemma {:induction false} Pow2Sum(a: nat, b: nat)
    ensures Pow2(a + b) == Pow2(a) * Pow2(b)
  {
    if a == 0 {
      assert Pow2(0) == 1;
    } else {
      hide Pow2;
      Pow2Sum(a - 1, b);
      Pow2Doubles(a);
      Pow2Doubles(a + b);
      DoubledProduct(Pow2(a - 1), Pow2(b));
    }
  }

  lemma Pow2Monotone(a: nat, b: nat)
    requires a <= b
    ensures Pow2(a) <= Pow2(b)
  {
    Pow2Sum(a, b - a);
    assert Pow2(a) * Pow2(b - a) >= Pow2(a) * 1;
  }

  lemma UsizeIsPow2()
    ensures USIZE == Pow2(64) && Pow2(63) == USIZE / 2
  {
    assert Pow2(8) == 0x100;
    Pow2Sum(8, 8);
    Pow2Sum(16, 16);
    Pow2Sum(32, 32);
    assert Pow2(64) == 2 * Pow2(63);
  }

  /** Reducing first by a multiple of the modulus changes nothing. */
  lemma RemainderOfRemainder(x: int, c: nat, d: nat)
    requires c > 0 && d > 0
    ensures c * d > 0 && x % (c * d) % c == x % c
  {
    var m := c * d;
    var q := x / m;
    var r := x % m;
    assert x == m * q + r;
    assert m * q == c * (d * q);
    assert x == c * (d * q + r / c) + r % c by {
      assert r == c * (r / c) + r % c;
      assert c * (d * q) + c * (r / c) == c * (d * q + r / c);
    }
    RemainderUnique(x, c, d * q + r / c, r % c);
  }

  /** Two numbers less than a modulus apart with one remainder are one number. */
  lemma CongruentWithin(a: int, b: int, m: int)
    requires m > 0 && a % m == b % m && -m < a - b < m
    ensures a == b
  {
    var p, q := a / m, b / m;
    assert a == m * p + a % m && b == m * q + b % m;
    if p > q {
      MultipleGap(m, p, q);
    } else if p < q {
      MultipleGap(m, q, p);
    }
  }

  /** The smallest power of two not below `n`, with its exponent. */
  function NextPowerOfTwo(n: nat): (r: nat)
    ensures n <= r
  {
    Pow2(CeilLog2(n))
  }

  function CeilLog2(n: nat): (k: nat)
    ensures n <= Pow2(k)
    ensures k > 0 ==> Pow2(k - 1) < n
  {
    if n <= 1 then 0
    else
      var k := CeilLog2((n + 1) / 2);
      assert k > 0 ==> 2 * Pow2(k - 1) < n + 1;
      k + 1
  }
}
