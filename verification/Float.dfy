/**
 Integers through a binary64 value: roundTiesToEven to 53 bits (section 4.3.1 of
 IEEE 754-2019), which is what a JSON number goes through (section 6 of RFC 8259).
 */
module Float {

  const TWO_53: nat := 0x20_0000_0000_0000
  const TWO_52: nat := 0x10_0000_0000_0000
  const TWO_63: int := 0x8000_0000_0000_0000

  function Pow2(k: nat): (r: nat)
    ensures r >= 1
  {
    if k == 0 then 1 else 2 * Pow2(k - 1)
  }

  function Abs(n: int): nat {
    if n >= 0 then n else -n
  }

  /** The exponent e such that n has its 53 leading bits above 2^e. */
  function Exponent(n: nat): nat {
    if n < TWO_53 then 0 else 1 + Exponent(n / 2)
  }

  /** The distance between neighbouring binary64 values at n. */
  function Ulp(n: nat): nat {
    Pow2(Exponent(n))
  }

  function RoundNat(n: nat): int {
    var u := Ulp(n);
    var q, r := n / u, n % u;
    if 2 * r < u || (2 * r == u && q % 2 == 0) then q * u else (q + 1) * u
  }

  function Round(n: int): int {
    if n >= 0 then RoundNat(n) else -RoundNat(-n)
  }

  predicate IsFloat(n: int, mantissa: nat, exponent: nat) {
    mantissa < TWO_53 && Abs(n) == mantissa * Pow2(exponent)
  }

  /** A value with a mantissa of at most 53 bits. */
  ghost predicate Representable(n: int) {
    exists a: nat, e: nat :: IsFloat(n, a, e)
  }

  // The unit in the last place

  /** From 2^53 on, n has exactly 53 bits above its exponent. */
  lemma {:induction false} ExponentBounds(n: nat)
    ensures n < TWO_53 * Ulp(n)
    ensures n >= TWO_53 ==> TWO_52 * Ulp(n) <= n && Ulp(n) % 2 == 0
  {
    if n >= TWO_53 {
      ExponentBounds(n / 2);
      assert Ulp(n) == 2 * Ulp(n / 2);
      assert n / 2 >= TWO_52;
    }
  }

  lemma {:induction false} Pow2Grows(a: nat, b: nat)
    requires a <= b
    ensures Pow2(a) <= Pow2(b)
    ensures a < b ==> 2 * Pow2(a) <= Pow2(b)
  {
    if a < b {
      Pow2Grows(a, b - 1);
    }
  }

  lemma {:induction false} Pow2Sum(a: nat, b: nat)
    ensures Pow2(a + b) == Pow2(a) * Pow2(b)
  {
    if b > 0 {
      Pow2Sum(a, b - 1);
      assert a + (b - 1) == a + b - 1;
      assert Pow2(a) * (2 * Pow2(b - 1)) == 2 * (Pow2(a) * Pow2(b - 1));
    }
  }

  /** The exponent, from the position of the leading bit. */
  lemma {:induction false} ExponentOf(n: nat, k: nat)
    requires Pow2(k) <= n < Pow2(k + 1)
    ensures Exponent(n) == if k >= 53 then k - 52 else 0
    decreases k
  {
    TwoTo53();
    if k >= 53 {
      Pow2Grows(53, k);
      assert Pow2(k) == 2 * Pow2(k - 1) && Pow2(k + 1) == 2 * Pow2(k);
      ExponentOf(n / 2, k - 1);
    } else {
      Pow2Grows(k + 1, 53);
    }
  }

  lemma TwoTo53()
    ensures Pow2(52) == TWO_52 && Pow2(53) == TWO_53 && Pow2(63) == TWO_63
  {
    assert Pow2(10) == 1024;
    Pow2Sum(10, 10);
    Pow2Sum(20, 20);
    Pow2Sum(40, 10);
    assert Pow2(50) == 0x4_0000_0000_0000;
    assert Pow2(52) == 4 * Pow2(50);
    assert Pow2(53) == 2 * Pow2(52);
    Pow2Sum(53, 10);
  }

  // Rounding

  lemma DivMod(n: nat, u: nat)
    requires u >= 1
    ensures n == (n / u) * u + n % u && n % u < u
    ensures (n / u + 1) * u == (n / u) * u + u
  {
  }

  /** The error is at most half a unit. */
  lemma NatError(n: nat)
    ensures 2 * Abs(RoundNat(n) - n) <= Ulp(n)
  {
    DivMod(n, Ulp(n));
  }

  lemma SmallExact(n: nat)
    requires n <= TWO_53
    ensures RoundNat(n) == n
  {
    if n < TWO_53 {
      assert Ulp(n) == 1;
      DivMod(n, 1);
    } else {
      assert Exponent(TWO_52) == 0 && n / 2 == TWO_52;
      assert Exponent(n) == 1 && Pow2(1) == 2;
    }
  }

  /** Up to 2^53 in magnitude nothing is lost. */
  lemma ExactUpTo53Bits(n: int)
    requires Abs(n) <= TWO_53
    ensures Round(n) == n
  {
    SmallExact(Abs(n));
  }

  /** With the leading bit at 2^k the error is at most 2^(k - 53). */
  lemma ErrorBound(n: int, k: nat)
    requires k >= 53 && Pow2(k) <= Abs(n) < Pow2(k + 1)
    ensures Abs(Round(n) - n) <= Pow2(k - 53)
  {
    ExponentOf(Abs(n), k);
    NatError(Abs(n));
    assert Pow2(k - 52) == 2 * Pow2(k - 53);
  }

  /** At nanosecond timestamps from 2006 to 2043 that is 128 ns. */
  lemma TodaysError(n: int)
    requires 0x1000_0000_0000_0000 <= n < 0x2000_0000_0000_0000
    ensures Abs(Round(n) - n) <= 128
  {
    TwoTo53();
    assert Pow2(7) == 128;
    Pow2Sum(53, 7);
    assert Pow2(61) == 2 * Pow2(60);
    ErrorBound(n, 60);
  }

  // Independent characterization: the nearest representable value, ties to even

  lemma RoundRepresentable(n: int)
    ensures Representable(Round(n))
  {
    var m := Abs(n);
    var u := Ulp(m);
    var q := m / u;
    DivMod(m, u);
    ExponentBounds(m);
    QuotientBound(m, u, q);
    if RoundNat(m) == q * u {
      assert IsFloat(Round(n), q, Exponent(m));
    } else if q + 1 < TWO_53 {
      assert IsFloat(Round(n), q + 1, Exponent(m));
    } else {
      assert TWO_53 * u == TWO_52 * (2 * u);
      assert Pow2(Exponent(m) + 1) == 2 * u;
      assert IsFloat(Round(n), TWO_52, Exponent(m) + 1);
    }
  }

  lemma QuotientBound(n: nat, u: nat, q: nat)
    requires u >= 1 && q == n / u && n < TWO_53 * u
    ensures q < TWO_53
    ensures TWO_52 * u <= n ==> TWO_52 <= q
  {
    DivMod(n, u);
    CancelScale(q, TWO_53, u);
    if TWO_52 * u <= n {
      CancelScale(TWO_52, q + 1, u);
    }
  }

  lemma CancelScale(a: nat, b: nat, u: nat)
    requires a * u < b * u
    ensures a < b
  {
    if a >= b {
      Scaled(b, a, u);
    }
  }

  /** No representable value lies strictly between two neighbours. */
  lemma NoneBetween(m: nat, a: nat, e: nat, q: nat, j: nat)
    requires IsFloat(m, a, e) && q >= TWO_52
    ensures m <= q * Pow2(j) || m >= (q + 1) * Pow2(j)
  {
    if e >= j {
      Pow2Sum(j, e - j);
      var c := a * Pow2(e - j);
      Regroup(a, Pow2(j), Pow2(e - j));
      assert m == c * Pow2(j);
      if c <= q {
        Scaled(c, q, Pow2(j));
      } else {
        Scaled(q + 1, c, Pow2(j));
      }
    } else {
      Pow2Grows(e, j);
      Scaled(a, TWO_53, Pow2(e));
      Scaled(TWO_52, q, Pow2(j));
      assert TWO_53 * Pow2(e) <= TWO_52 * Pow2(j);
    }
  }

  lemma Scaled(a: nat, b: nat, u: nat)
    requires a <= b
    ensures a * u <= b * u
  {
  }

  lemma Regroup(a: nat, b: nat, c: nat)
    ensures a * (b * c) == (a * c) * b
  {
  }

  lemma NearestNat(n: nat, m: nat)
    requires Representable(m)
    ensures Abs(RoundNat(n) - n) <= Abs(m - n)
    ensures m != RoundNat(n) && Abs(RoundNat(n) - n) == Abs(m - n) ==> (RoundNat(n) / Ulp(n)) % 2 == 0
  {
    if n < TWO_53 {
      SmallExact(n);
    } else {
      var a: nat, e: nat :| IsFloat(m, a, e);
      var u := Ulp(n);
      var q := n / u;
      DivMod(n, u);
      ExponentBounds(n);
      QuotientBound(n, u, q);
      NoneBetween(m, a, e, q, Exponent(n));
      Quotients(q, u);
      Nearer(n, m, u, q, q * u, n % u);
    }
  }

  lemma Nearer(n: nat, m: nat, u: nat, q: nat, lo: nat, r: nat)
    requires n == lo + r && r < u && (m <= lo || m >= lo + u)
    ensures var up := !(2 * r < u || (2 * r == u && q % 2 == 0));
      var rounded := if up then lo + u else lo;
      && Abs(rounded - n) <= Abs(m - n)
      && (m != rounded && Abs(rounded - n) == Abs(m - n) ==> (if up then q + 1 else q) % 2 == 0)
  {
  }

  lemma Quotients(q: nat, u: nat)
    requires u >= 1
    ensures (q * u) / u == q && ((q + 1) * u) / u == q + 1
  {
    Divided(q, u);
    Divided(q + 1, u);
  }

  lemma Divided(q: nat, u: nat)
    requires u >= 1
    ensures (q * u) / u == q
  {
    var d := (q * u) / u;
    DivMod(q * u, u);
    CancelScale(q, d + 1, u);
    CancelScale(d, q + 1, u);
  }

  /** Round picks a nearest representable value, and of two equally near ones the even one. */
  lemma NearestTiesToEven(n: int, m: int)
    requires Representable(m)
    ensures Representable(Round(n)) && Abs(Round(n) - n) <= Abs(m - n)
    ensures m != Round(n) && Abs(Round(n) - n) == Abs(m - n) ==> (Abs(Round(n)) / Ulp(Abs(n))) % 2 == 0
  {
    RoundRepresentable(n);
    var a: nat, e: nat :| IsFloat(m, a, e);
    assert IsFloat(Abs(m), a, e);
    NearestNat(Abs(n), Abs(m));
    NonNegative(Abs(n));
  }

  lemma NonNegative(n: nat)
    ensures RoundNat(n) >= 0
  {
    Scaled(0, n / Ulp(n), Ulp(n));
    Scaled(0, n / Ulp(n) + 1, Ulp(n));
  }

  /** Rounding keeps order. */
  lemma Monotone(m: int, n: int)
    requires m <= n
    ensures Round(m) <= Round(n)
  {
    RoundRepresentable(m);
    RoundRepresentable(n);
    NearestTiesToEven(m, Round(n));
    NearestTiesToEven(n, Round(m));
  }

  /** A representable value is kept, and nothing else is. */
  lemma FixedIffRepresentable(n: int)
    ensures Round(n) == n <==> Representable(n)
  {
    RoundRepresentable(n);
    if Representable(n) {
      NearestTiesToEven(n, n);
    }
  }

  /** The first hop loses all that is ever lost. */
  lemma Idempotent(n: int)
    ensures Round(Round(n)) == Round(n)
  {
    RoundRepresentable(n);
    FixedIffRepresentable(Round(n));
  }

  // 64-bit integers

  lemma TopOfRange()
    ensures Round(TWO_63 - 512) == TWO_63 && Round(TWO_63 - 513) == TWO_63 - 1024
  {
    TopExponent(TWO_63 - 512);
    TopExponent(TWO_63 - 513);
    assert (TWO_63 - 512) / 1024 == TWO_53 - 1 && (TWO_63 - 512) % 1024 == 512;
    assert (TWO_63 - 513) / 1024 == TWO_53 - 1 && (TWO_63 - 513) % 1024 == 511;
  }

  lemma TopExponent(n: nat)
    requires TWO_63 - 1024 <= n < TWO_63
    ensures Ulp(n) == 1024
  {
    TwoTo53();
    assert Pow2(10) == 1024;
    assert Pow2(63) == 2 * Pow2(62);
    ExponentOf(n, 62);
  }

  lemma BottomOfRange()
    ensures Round(-TWO_63) == -TWO_63
  {
    TwoTo53();
    assert IsFloat(-TWO_63, 1, 63);
    FixedIffRepresentable(-TWO_63);
  }

  lemma PastTheTop()
    ensures Round(TWO_63) == TWO_63
  {
    TwoTo53();
    assert IsFloat(TWO_63, 1, 63);
    FixedIffRepresentable(TWO_63);
  }

  /** Of the 64-bit integers, exactly the topmost 512 round out of range. */
  lemma FitsIff(n: int)
    requires -TWO_63 <= n < TWO_63
    ensures -TWO_63 <= Round(n)
    ensures Round(n) < TWO_63 <==> n < TWO_63 - 512
  {
    TopOfRange();
    BottomOfRange();
    Monotone(-TWO_63, n);
    if n < TWO_63 - 512 {
      Monotone(n, TWO_63 - 513);
    } else {
      Monotone(TWO_63 - 512, n);
    }
  }
}
