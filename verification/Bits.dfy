/** Powers of two, shifts and bits of natural numbers. */
module Bits {
  import opened Arith

  function Pow2(n: nat): (p: nat)
    ensures p > 0
  {
    if n == 0 then 1 else 2 * Pow2(n - 1)
  }

  /** A right shift of a non-negative integer. */
  function ShiftRight(x: nat, n: nat): nat {
    if n == 0 then x else ShiftRight(x, n - 1) / 2
  }

  function BitAt(x: nat, i: nat): (bit: nat)
    ensures bit < 2
  {
    ShiftRight(x, i) % 2
  }

  /** The number of significant bits. */
  function BitLength(x: nat): nat {
    if x == 0 then 0 else 1 + BitLength(x / 2)
  }

  lemma {:induction false} PowNext(n: nat)
    ensures Pow2(n + 1) == 2 * Pow2(n)
  {
  }

  lemma {:induction false} PowZero()
    ensures Pow2(0) == 1
  {
  }

  lemma {:induction false} ShiftNone(x: nat)
    ensures ShiftRight(x, 0) == x
  {
  }

  lemma {:induction false} PowAdd(a: nat, b: nat)
    ensures Pow2(a + b) == Pow2(a) * Pow2(b)
  {
    if a > 0 {
      PowAdd(a - 1, b);
      MulAssoc(2, Pow2(a - 1), Pow2(b));
    }
  }

  lemma {:induction false} PowMonotone(a: nat, b: nat)
    requires a <= b
    ensures Pow2(a) <= Pow2(b)
  {
    if a < b {
      PowMonotone(a, b - 1);
    }
  }

  /** A shift is the quotient by a power of two. */
  lemma {:induction false} ShiftBounds(x: nat, n: nat)
    ensures ShiftRight(x, n) * Pow2(n) <= x < (ShiftRight(x, n) + 1) * Pow2(n)
  {
    if n > 0 {
      ShiftBounds(x, n - 1);
      HalfBounds(x, ShiftRight(x, n - 1), Pow2(n - 1));
    }
  }

  lemma {:induction false} HalfBounds(x: nat, s: nat, p: nat)
    requires s * p <= x < (s + 1) * p
    ensures s / 2 * (2 * p) <= x < (s / 2 + 1) * (2 * p)
  {
    var t := s / 2;
    MulAssoc(t, 2, p);
    MulAssoc(t + 1, 2, p);
    MulMonotone(t * 2, s, p);
    MulMonotone(s + 1, (t + 1) * 2, p);
  }

  lemma {:induction false} MulAssoc(a: int, b: int, c: int)
    ensures a * (b * c) == (a * b) * c
  {
  }

  lemma {:induction false} ShiftZero(x: nat, n: nat)
    requires x < Pow2(n)
    ensures ShiftRight(x, n) == 0
  {
    hide Pow2, ShiftRight;
    ShiftBounds(x, n);
    MulMonotone(1, ShiftRight(x, n), Pow2(n));
  }

  lemma {:induction false} ShiftTwice(x: nat, a: nat, b: nat)
    ensures ShiftRight(ShiftRight(x, a), b) == ShiftRight(x, a + b)
  {
    if b > 0 {
      ShiftTwice(x, a, b - 1);
    }
  }

  /** Shifting within the low part of a number leaves its high part whole. */
  lemma {:induction false} ShiftLow(a: nat, b: nat, n: nat, i: nat)
    requires i <= n
    ensures ShiftRight(a + Pow2(n) * b, i) == ShiftRight(a, i) + Pow2(n - i) * b
  {
    if i > 0 {
      ShiftLow(a, b, n, i - 1);
      PowTwice(n - i, b);
    }
  }

  lemma {:induction false} PowTwice(n: nat, b: nat)
    ensures Pow2(n + 1) * b == 2 * (Pow2(n) * b)
  {
    MulAssoc(b, 2, Pow2(n));
    MulAssoc(2, b, Pow2(n));
  }

  /** Shifting past the low part gives a shift of the high part. */
  lemma {:induction false} ShiftHigh(a: nat, b: nat, n: nat, i: nat)
    requires a < Pow2(n) && i >= n
    ensures ShiftRight(a + Pow2(n) * b, i) == ShiftRight(b, i - n)
  {
    ShiftLow(a, b, n, n);
    ShiftZero(a, n);
    ShiftTwice(a + Pow2(n) * b, n, i - n);
  }

  lemma {:induction false} AddEven(x: nat, k: nat)
    ensures (x + 2 * k) % 2 == x % 2
  {
  }

  /** A bit of a number of two parts is a bit of one of them. */
  lemma {:induction false} BitOfParts(a: nat, b: nat, n: nat, i: nat)
    requires a < Pow2(n)
    ensures BitAt(a + Pow2(n) * b, i) == if i < n then BitAt(a, i) else BitAt(b, i - n)
  {
    hide Pow2, ShiftRight;
    if i < n {
      ShiftLow(a, b, n, i);
      PowTwice(n - i - 1, b);
      AddEven(ShiftRight(a, i), Pow2(n - i - 1) * b);
    } else {
      ShiftHigh(a, b, n, i);
    }
  }

  lemma {:induction false} LengthBounds(x: nat)
    ensures x < Pow2(BitLength(x))
    ensures x > 0 ==> Pow2(BitLength(x) - 1) <= x
  {
    if x > 0 {
      LengthBounds(x / 2);
    }
  }

  lemma {:induction false} LengthUnique(x: nat, n: nat)
    requires n > 0 && Pow2(n - 1) <= x < Pow2(n)
    ensures BitLength(x) == n
  {
    if n > 1 {
      LengthUnique(x / 2, n - 1);
    } else {
      assert x == 1;
    }
  }

  /** A shift is twice the next one and the bit between them. */
  lemma {:induction false} ShiftStep(x: nat, i: nat)
    ensures ShiftRight(x, i) == 2 * ShiftRight(x, i + 1) + BitAt(x, i)
  {
  }

  /** Dividing one bit further: the step of long division. */
  lemma {:induction false} LongDivision(p: nat, bit: nat, d: nat)
    requires d > 0 && bit < 2
    ensures var r := 2 * (p % d) + bit;
      && (2 * p + bit) / d == 2 * (p / d) + (if r >= d then 1 else 0)
      && (2 * p + bit) % d == if r >= d then r - d else r
  {
    DivModLaw(p, d);
    var q, r := p / d, 2 * (p % d) + bit;
    DoubleParts(p, bit, d, q, p % d);
    if r >= d {
      DivModUnique(2 * p + bit, d, 2 * q + 1, r - d);
    } else {
      DivModUnique(2 * p + bit, d, 2 * q, r);
    }
  }

  lemma {:induction false} DoubleParts(p: nat, bit: nat, d: nat, q: nat, m: nat)
    requires p == q * d + m
    ensures 2 * p + bit == (2 * q) * d + (2 * m + bit)
    ensures 2 * p + bit == (2 * q + 1) * d + (2 * m + bit - d)
  {
    MulAssoc(2, q, d);
  }

  lemma {:induction false} DivModLaw(x: nat, d: nat)
    requires d > 0
    ensures x == x / d * d + x % d && 0 <= x % d < d && x / d >= 0
  {
  }

  lemma {:induction false} DivModUnique(x: nat, d: nat, q: nat, r: nat)
    requires d > 0 && r < d && x == q * d + r
    ensures x / d == q && x % d == r
  {
    DivUnique(x, d, q);
  }
}
