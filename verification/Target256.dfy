/**
 * 256-bit arithmetic on four 64-bit words (Sources/Consensus/Target256.swift). Every operation is
 * tied to the natural number the words stand for.
 */
module Target256 {
  import opened Arith
  import opened Bits

  const WORD := 0x1_0000_0000_0000_0000
  const LIMIT := 0x1_0000000000000000_0000000000000000_0000000000000000_0000000000000000
  const TOP_BIT := 0x8000_0000_0000_0000

  type Word = x: nat | x < WORD

  datatype Target256 = Target256(w3: Word, w2: Word, w1: Word, w0: Word) {
    function Value(): (v: nat)
      ensures v < LIMIT
    {
      w0 + WORD * (w1 + WORD * (w2 + WORD * w3))
    }

    predicate IsZero() {
      w0 == 0 && w1 == 0 && w2 == 0 && w3 == 0
    }

    /** Word by word from the top. */
    predicate Less(rhs: Target256) {
      if w3 != rhs.w3 then w3 < rhs.w3
      else if w2 != rhs.w2 then w2 < rhs.w2
      else if w1 != rhs.w1 then w1 < rhs.w1
      else w0 < rhs.w0
    }

    function Bit(i: nat): bool {
      if i < 64 then BitAt(w0, i) != 0
      else if i < 128 then BitAt(w1, i - 64) != 0
      else if i < 192 then BitAt(w2, i - 128) != 0
      else if i < 256 then BitAt(w3, i - 192) != 0
      else false
    }

    function Length(): nat {
      if w3 != 0 then 192 + BitLength(w3)
      else if w2 != 0 then 128 + BitLength(w2)
      else if w1 != 0 then 64 + BitLength(w1)
      else BitLength(w0)
    }
  }

  const ZERO := Target256(0, 0, 0, 0)
  const ONE := Target256(0, 0, 0, 1)

  // ---- Words and value ----

  lemma {:induction false} PowWord()
    ensures Pow2(64) == WORD
  {
    assert Pow2(8) == 256;
    hide Pow2;
    PowAdd(8, 8);
    PowAdd(16, 16);
    PowAdd(32, 32);
  }

  lemma {:induction false} PowLimit()
    ensures Pow2(128) == WORD * WORD && Pow2(192) == WORD * WORD * WORD && Pow2(256) == LIMIT
  {
    hide Pow2;
    PowWord();
    PowAdd(64, 64);
    PowAdd(128, 64);
    PowAdd(128, 128);
  }

  lemma {:induction false} PartsUnique(a: Word, b: nat, c: Word, d: nat)
    requires a + WORD * b == c + WORD * d
    ensures a == c && b == d
  {
  }

  lemma {:induction false} ValueInjective(a: Target256, b: Target256)
    requires a.Value() == b.Value()
    ensures a == b
  {
    PartsUnique(a.w0, a.w1 + WORD * (a.w2 + WORD * a.w3), b.w0, b.w1 + WORD * (b.w2 + WORD * b.w3));
    PartsUnique(a.w1, a.w2 + WORD * a.w3, b.w1, b.w2 + WORD * b.w3);
    PartsUnique(a.w2, a.w3, b.w2, b.w3);
  }

  lemma {:induction false} ZeroMeaning(a: Target256)
    ensures a.IsZero() <==> a.Value() == 0
  {
  }

  /** Comparing words compares values. */
  lemma {:induction false} LessMeaning(a: Target256, b: Target256)
    ensures a.Less(b) <==> a.Value() < b.Value()
  {
  }

  /** A bit of the words is a bit of the value. */
  lemma {:induction false} BitMeaning(a: Target256, i: nat)
    requires i < 256
    ensures a.Bit(i) <==> BitAt(a.Value(), i) != 0
  {
    hide Pow2, ShiftRight, BitAt;
    PowWord();
    var r2, r1 := a.w2 + WORD * a.w3, a.w1 + WORD * (a.w2 + WORD * a.w3);
    BitOfParts(a.w0, r1, 64, i);
    if i >= 64 {
      BitOfParts(a.w1, r2, 64, i - 64);
      if i >= 128 {
        BitOfParts(a.w2, a.w3, 64, i - 128);
      }
    }
  }

  lemma {:induction false} LengthOfParts(a: Word, b: nat)
    requires b > 0
    ensures BitLength(a + WORD * b) == 64 + BitLength(b)
  {
    hide Pow2, BitLength;
    PowWord();
    LengthBounds(b);
    var n := BitLength(b);
    LengthPositive(b);
    PowAdd(64, n);
    PowAdd(64, n - 1);
    MulMonotone(Pow2(n - 1), b, WORD);
    MulMonotone(b + 1, Pow2(n), WORD);
    LengthUnique(a + WORD * b, 64 + n);
  }

  lemma {:induction false} LengthPositive(b: nat)
    requires b > 0
    ensures BitLength(b) > 0
  {
  }

  lemma {:induction false} LengthMeaning(a: Target256)
    ensures a.Length() == BitLength(a.Value())
  {
    hide BitLength;
    if a.w3 != 0 {
      LengthOfParts(a.w2, a.w3);
      LengthOfParts(a.w1, a.w2 + WORD * a.w3);
      LengthOfParts(a.w0, a.w1 + WORD * (a.w2 + WORD * a.w3));
    } else if a.w2 != 0 {
      LengthOfParts(a.w1, a.w2);
      LengthOfParts(a.w0, a.w1 + WORD * a.w2);
    } else if a.w1 != 0 {
      LengthOfParts(a.w0, a.w1);
    }
  }

  // ---- Addition and subtraction ----

  /** Word addition with its overflow bit. */
  function AddReporting(x: Word, y: Word): (r: (Word, nat))
    ensures r.0 + WORD * r.1 == x + y && r.1 <= 1
  {
    if x + y >= WORD then (x + y - WORD, 1) else (x + y, 0)
  }

  /** Word subtraction with its borrow bit. */
  function SubtractReporting(x: Word, y: Word): (r: (Word, nat))
    ensures r.0 + y == x + WORD * r.1 && r.1 <= 1
  {
    if x < y then (x + WORD - y, 1) else (x - y, 0)
  }

  method AddWords(x: Word, y: Word, carry: nat) returns (s: Word, c: nat)
    requires carry <= 1
    ensures s + WORD * c == x + y + carry && c <= 1
  {
    var first := AddReporting(x, y);
    var second := AddReporting(first.0, carry);
    s, c := second.0, first.1 + second.1;
  }

  method SubtractWords(x: Word, y: Word, borrow: nat) returns (s: Word, b: nat)
    requires borrow <= 1
    ensures s + y + borrow == x + WORD * b && b <= 1
  {
    var first := SubtractReporting(x, y);
    var second := SubtractReporting(first.0, borrow);
    s, b := second.0, first.1 + second.1;
  }

  lemma {:induction false} ModUnique(x: nat, q: nat, r: nat)
    requires r < LIMIT && x == q * LIMIT + r
    ensures x % LIMIT == r
  {
    DivModUnique(x, LIMIT, q, r);
  }

  method Add(lhs: Target256, rhs: Target256) returns (r: Target256)
    ensures r.Value() == (lhs.Value() + rhs.Value()) % LIMIT
  {
    var w0, c0 := AddWords(lhs.w0, rhs.w0, 0);
    var w1, c1 := AddWords(lhs.w1, rhs.w1, c0);
    var w2, c2 := AddWords(lhs.w2, rhs.w2, c1);
    var w3, c3 := AddWords(lhs.w3, rhs.w3, c2);
    r := Target256(w3, w2, w1, w0);
    ModUnique(lhs.Value() + rhs.Value(), c3, r.Value());
  }

  method Subtract(lhs: Target256, rhs: Target256) returns (r: Target256)
    ensures r.Value() == (lhs.Value() + LIMIT - rhs.Value()) % LIMIT
  {
    var w0, b0 := SubtractWords(lhs.w0, rhs.w0, 0);
    var w1, b1 := SubtractWords(lhs.w1, rhs.w1, b0);
    var w2, b2 := SubtractWords(lhs.w2, rhs.w2, b1);
    var w3, b3 := SubtractWords(lhs.w3, rhs.w3, b2);
    r := Target256(w3, w2, w1, w0);
    ModUnique(lhs.Value() + LIMIT - rhs.Value(), 1 - b3, r.Value());
  }

  // ---- Multiplication by a word ----

  /** One word times a scalar plus a carry: the high part fits a word again. */
  method MultiplyWord(w: Word, scalar: Word, carry: Word) returns (low: Word, high: Word)
    ensures low + WORD * high == w * scalar + carry
  {
    MulMonotone(w, WORD - 1, scalar);
    low, high := SplitProduct(w * scalar, carry, scalar);
  }

  method SplitProduct(p: nat, carry: Word, scalar: Word) returns (low: Word, high: Word)
    requires p <= (WORD - 1) * scalar
    ensures low + WORD * high == p + carry
  {
    hide Halves;
    HalvesFit(p, scalar);
    var product := Halves(p);
    var sum := AddReporting(product.1, carry);
    low, high := sum.0, product.0 + sum.1;
  }

  /** The high and low word of a product. */
  function Halves(p: nat): (hl: (nat, Word))
    ensures hl.1 + WORD * hl.0 == p
  {
    (p / WORD, p % WORD)
  }

  lemma {:induction false} HalvesFit(p: nat, b: Word)
    requires p <= (WORD - 1) * b
    ensures Halves(p).0 < WORD - 1
  {
    hide Halves;
  }

  method Multiplied(x: Target256, scalar: Word) returns (r: Target256)
    ensures r.Value() == x.Value() * scalar % LIMIT
  {
    var w0, c0 := MultiplyWord(x.w0, scalar, 0);
    var w1, c1 := MultiplyWord(x.w1, scalar, c0);
    var w2, c2 := MultiplyWord(x.w2, scalar, c1);
    var w3, c3 := MultiplyWord(x.w3, scalar, c2);
    r := Target256(w3, w2, w1, w0);
    ProductOfParts(x.w0, x.w1, x.w2, x.w3, scalar);
    ModUnique(x.Value() * scalar, c3, r.Value());
  }

  lemma {:induction false} ProductOfParts(a: nat, b: nat, c: nat, d: nat, s: nat)
    ensures (a + WORD * (b + WORD * (c + WORD * d))) * s == a * s + WORD * (b * s + WORD * (c * s + WORD * (d * s)))
  {
    Distribute(c, d, s);
    Distribute(b, c + WORD * d, s);
    Distribute(a, b + WORD * (c + WORD * d), s);
  }

  lemma {:induction false} Distribute(a: nat, b: nat, s: nat)
    ensures (a + WORD * b) * s == a * s + WORD * (b * s)
  {
  }

  // ---- Division by a word ----

  /** `(r << 1) | bit` on a 64-bit word: the top bit is lost. */
  function ShiftIn(r: Word, bit: nat): Word
    requires bit < 2
  {
    (if r >= TOP_BIT then 2 * r - WORD else 2 * r) + bit
  }

  /** The remainder after the bits of `hi` from 63 down to `i`. */
  function HighRemainder(hi: Word, d: Word, i: nat): Word
    requires d > 0 && i <= 64
    decreases 64 - i
  {
    if i == 64 then 0
    else
      var r := ShiftIn(HighRemainder(hi, d, i + 1), BitAt(hi, i));
      if r >= d then r - d else r
  }

  /** Quotient and remainder after the bits of `lo` from 63 down to `i`. */
  function LowDivision(start: Word, lo: Word, d: Word, i: nat): (qr: (nat, Word))
    requires d > 0 && i <= 64
    ensures qr.0 + Pow2(i) <= Pow2(64)
    decreases 64 - i
  {
    if i == 64 then (0, start)
    else
      var (q, rem) := LowDivision(start, lo, d, i + 1);
      var r := ShiftIn(rem, BitAt(lo, i));
      if r >= d then (q + Pow2(i), r - d) else (q, r)
  }

  lemma {:induction false} LowStart(start: Word, lo: Word, d: Word)
    requires d > 0
    ensures LowDivision(start, lo, d, 64) == (0, start)
  {
  }

  lemma {:induction false} LowStep(start: Word, lo: Word, d: Word, i: nat)
    requires d > 0 && i < 64
    ensures var (q, rem) := LowDivision(start, lo, d, i + 1);
      var r := ShiftIn(rem, BitAt(lo, i));
      LowDivision(start, lo, d, i) == if r >= d then (q + Pow2(i), r - d) else (q, r)
  {
    hide BitAt, ShiftIn, Pow2;
  }

  /** What dividing two words by one computes, right or not. */
  function Div128Result(hi: Word, lo: Word, d: Word): (qr: (Word, Word))
    requires d > 0
  {
    if hi == 0 then (lo / d, lo % d)
    else
      PowWord();
      LowDivision(HighRemainder(hi, d, 0), lo, d, 0)
  }

  method ReduceHigh(hi: Word, d: Word) returns (remainder: Word)
    requires d > 0
    ensures remainder == HighRemainder(hi, d, 0)
  {
    hide BitAt;
    remainder := 0;
    var i := 64;
    while i > 0
      invariant 0 <= i <= 64 && remainder == HighRemainder(hi, d, i)
    {
      i := i - 1;
      remainder := ShiftIn(remainder, BitAt(hi, i));
      if remainder >= d {
        remainder := remainder - d;
      }
    }
  }

  method Div128(hi: Word, lo: Word, d: Word) returns (quotient: Word, remainder: Word)
    requires d > 0
    ensures (quotient, remainder) == Div128Result(hi, lo, d)
  {
    hide BitAt, HighRemainder, LowDivision, Pow2, ShiftIn, Div128Result;
    if hi == 0 {
      Div128Small(lo, d);
      return lo / d, lo % d;
    }
    PowWord();
    Div128Large(hi, lo, d);
    LowStart(HighRemainder(hi, d, 0), lo, d);
    remainder := ReduceHigh(hi, d);
    quotient := 0;
    ghost var start := remainder;
    var i := 64;
    while i > 0
      invariant 0 <= i <= 64 && (quotient, remainder) == LowDivision(start, lo, d, i)
    {
      i := i - 1;
      LowStep(start, lo, d, i);
      var next := ShiftIn(remainder, BitAt(lo, i));
      if next >= d {
        remainder := next - d;
        quotient := quotient + Pow2(i);
      } else {
        remainder := next;
      }
    }
  }

  function DividedByResult(x: Target256, s: Word): (Target256, Word)
    requires s > 0
  {
    var (q3, r3) := Div128Result(0, x.w3, s);
    var (q2, r2) := Div128Result(r3, x.w2, s);
    var (q1, r1) := Div128Result(r2, x.w1, s);
    var (q0, r0) := Div128Result(r1, x.w0, s);
    (Target256(q3, q2, q1, q0), r0)
  }

  method DividedBy(x: Target256, s: Word) returns (q: Target256, rem: Word)
    requires s > 0
    ensures (q, rem) == DividedByResult(x, s)
  {
    var q3, q2, q1, q0;
    q3, rem := Div128(0, x.w3, s);
    q2, rem := Div128(rem, x.w2, s);
    q1, rem := Div128(rem, x.w1, s);
    q0, rem := Div128(rem, x.w0, s);
    q := Target256(q3, q2, q1, q0);
  }

  /** As the dividend's high word is below the divisor, its bits come through unreduced. */
  lemma {:induction false} HighPassesThrough(hi: Word, d: Word, i: nat)
    requires hi < d && i <= 64
    ensures HighRemainder(hi, d, i) == ShiftRight(hi, i)
    decreases 64 - i
  {
    hide Pow2;
    if i == 64 {
      PowWord();
      ShiftZero(hi, 64);
    } else {
      HighPassesThrough(hi, d, i + 1);
      ShiftShrinks(hi, i);
    }
  }

  lemma {:induction false} ShiftShrinks(x: nat, i: nat)
    ensures ShiftRight(x, i) <= x
  {
    if i > 0 {
      ShiftShrinks(x, i - 1);
    }
  }

  /** The dividend's bits down to `i`. */
  function Prefix(hi: nat, lo: nat, i: nat): nat
    requires i <= 64
    decreases 64 - i
  {
    if i == 64 then hi else 2 * Prefix(hi, lo, i + 1) + BitAt(lo, i)
  }

  lemma {:induction false} PrefixMeaning(hi: nat, lo: Word, i: nat)
    requires i <= 64
    ensures Prefix(hi, lo, i) == hi * Pow2(64 - i) + ShiftRight(lo, i)
    decreases 64 - i
  {
    if i == 64 {
      PowWord();
      ShiftZero(lo, 64);
    } else {
      PrefixMeaning(hi, lo, i + 1);
      hide Prefix, Pow2;
      PrefixStep(hi, lo, i);
    }
  }

  lemma {:induction false} PrefixStep(hi: nat, lo: nat, i: nat)
    requires i < 64
    ensures Prefix(hi, lo, i) == 2 * Prefix(hi, lo, i + 1) + BitAt(lo, i)
    ensures hi * Pow2(64 - i) == 2 * (hi * Pow2(64 - i - 1))
    ensures ShiftRight(lo, i) == 2 * ShiftRight(lo, i + 1) + BitAt(lo, i)
  {
    hide Pow2, ShiftRight, BitAt;
    PowTwice(64 - i - 1, hi);
    ShiftStep(lo, i);
  }

  /** With a divisor of at most 2^63 nothing is lost in the shifts. */
  lemma {:induction false} LowDivisionExact(hi: Word, lo: Word, d: Word, i: nat)
    requires hi < d <= TOP_BIT && i <= 64
    ensures var (q, r) := LowDivision(hi, lo, d, i); DividesPrefix(Prefix(hi, lo, i), d, i, q, r)
    decreases 64 - i
  {
    hide Pow2, ShiftRight, BitAt, LowDivision, DividesPrefix, ShiftIn;
    if i == 64 {
      LowStart(hi, lo, d);
      NothingDivided(hi, d);
    } else {
      LowDivisionExact(hi, lo, d, i + 1);
      LowStep(hi, lo, d, i);
      var (q, r) := LowDivision(hi, lo, d, i + 1);
      LowStepExact(Prefix(hi, lo, i + 1), BitAt(lo, i), d, i, q, r);
    }
  }

  predicate DividesPrefix(p: nat, d: nat, i: nat, q: nat, r: nat)
    requires d > 0
  {
    q == Pow2(i) * (p / d) && r == p % d
  }

  lemma {:induction false} NothingDivided(hi: Word, d: Word)
    requires hi < d
    ensures DividesPrefix(hi, d, 64, 0, hi)
  {
    hide Pow2;
    DivModUnique(hi, d, 0, hi);
    MulZeroRight(Pow2(64));
  }

  lemma {:induction false} LowStepExact(p: nat, bit: nat, d: Word, i: nat, q: nat, rem: Word)
    requires 0 < d <= TOP_BIT && bit < 2 && DividesPrefix(p, d, i + 1, q, rem)
    ensures var r := ShiftIn(rem, bit);
      DividesPrefix(2 * p + bit, d, i, if r >= d then q + Pow2(i) else q, if r >= d then r - d else r)
  {
    hide Pow2;
    DivModLaw(p, d);
    LongDivision(p, bit, d);
    QuotientBit(i, p / d);
  }

  lemma {:induction false} MulZeroRight(x: nat)
    ensures x * 0 == 0
  {
  }

  lemma {:induction false} QuotientBit(i: nat, k: nat)
    ensures Pow2(i) * (2 * k) == Pow2(i + 1) * k && Pow2(i) * (2 * k + 1) == Pow2(i + 1) * k + Pow2(i)
  {
    MulAssoc(Pow2(i), 2, k);
  }

  lemma {:induction false} Div128Small(lo: Word, d: Word)
    requires d > 0
    ensures Div128Result(0, lo, d) == (lo / d, lo % d)
  {
    hide LowDivision, HighRemainder, Pow2;
  }

  lemma {:induction false} Div128Large(hi: Word, lo: Word, d: Word)
    requires d > 0 && hi > 0
    ensures Div128Result(hi, lo, d) == LowDivision(HighRemainder(hi, d, 0), lo, d, 0)
  {
    hide LowDivision, HighRemainder, Pow2;
  }

  lemma {:induction false} Div128Exact(hi: Word, lo: Word, d: Word)
    requires hi < d <= TOP_BIT
    ensures var (q, r) := Div128Result(hi, lo, d);
      q == (hi * WORD + lo) / d && r == (hi * WORD + lo) % d
  {
    hide Pow2, ShiftRight, HighRemainder, LowDivision, Prefix, Div128Result;
    if hi > 0 {
      Div128Large(hi, lo, d);
      LongDivisionExact(hi, lo, d);
    } else {
      Div128Small(lo, d);
    }
  }

  lemma {:induction false} LongDivisionExact(hi: Word, lo: Word, d: Word)
    requires hi < d <= TOP_BIT
    ensures var (q, r) := LowDivision(HighRemainder(hi, d, 0), lo, d, 0);
      q == (hi * WORD + lo) / d && r == (hi * WORD + lo) % d
  {
    hide Pow2, ShiftRight, HighRemainder, LowDivision, Prefix;
    PowZero();
    ShiftNone(lo);
    ShiftNone(hi);
    PowWord();
    HighPassesThrough(hi, d, 0);
    LowDivisionExact(hi, lo, d, 0);
    PrefixMeaning(hi, lo, 0);
    assert Prefix(hi, lo, 0) == hi * WORD + lo;
  }

  /** Dividing the words from the top divides the whole. */
  lemma {:induction false} SchoolDivision(high: nat, low: Word, s: Word, rest: nat)
    requires s > 0 && high % s == rest
    ensures (high * WORD + low) / s == high / s * WORD + (rest * WORD + low) / s
    ensures (high * WORD + low) % s == (rest * WORD + low) % s
  {
    var q, x := high / s, rest * WORD + low;
    DivModLaw(high, s);
    DivModLaw(x, s);
    AddParts(high, low, s, rest, q, x, x / s, x % s);
    DivModUnique(high * WORD + low, s, q * WORD + x / s, x % s);
  }

  lemma {:induction false} AddParts(high: nat, low: nat, s: nat, rest: nat, q: nat, x: nat, t: nat, r: nat)
    requires high == q * s + rest && x == rest * WORD + low && x == t * s + r
    ensures high * WORD + low == (q * WORD + t) * s + r
  {
    Distribute(t, q, s);
  }

  lemma {:induction false} ExactUpToTopBit(x: Target256, s: Word)
    requires 0 < s <= TOP_BIT
    ensures var (q, r) := DividedByResult(x, s); q.Value() == x.Value() / s && r == x.Value() % s
  {
    hide Div128Result;
    Div128Exact(0, x.w3, s);
    var (q3, r3) := Div128Result(0, x.w3, s);
    Div128Exact(r3, x.w2, s);
    SchoolDivision(x.w3, x.w2, s, r3);
    var (q2, r2) := Div128Result(r3, x.w2, s);
    var top2 := x.w3 * WORD + x.w2;
    Div128Exact(r2, x.w1, s);
    SchoolDivision(top2, x.w1, s, r2);
    var (q1, r1) := Div128Result(r2, x.w1, s);
    Div128Exact(r1, x.w0, s);
    SchoolDivision(top2 * WORD + x.w1, x.w0, s, r1);
  }

  lemma {:induction false} LowBitsOnly(start: Word, lo: Word, d: Word, i: nat)
    requires d > 0 && i <= 63 && LowDivision(start, lo, d, 63).0 == 0
    ensures LowDivision(start, lo, d, i).0 + Pow2(i) <= Pow2(63)
    decreases 64 - i
  {
    hide BitAt, ShiftIn;
    if i < 63 {
      LowBitsOnly(start, lo, d, i + 1);
    }
  }

  /** Dividing (s - 1) * 2^64 by a large s loses the top bit of the quotient. */
  lemma {:induction false} TopBitLost(s: Word)
    requires s > TOP_BIT
    ensures Div128Result(s - 1, 0, s).0 < TOP_BIT
  {
    hide Pow2, ShiftRight, HighRemainder, LowDivision, Div128Result;
    Div128Large(s - 1, 0, s);
    PowZero();
    PowNext(63);
    ShiftNone(s - 1);
    PowWord();
    HighPassesThrough(s - 1, s, 0);
    FirstBitLost(s);
    LowBitsOnly(s - 1, 0, s, 0);
  }

  lemma {:induction false} FirstBitLost(s: Word)
    requires s > TOP_BIT
    ensures LowDivision(s - 1, 0, s, 63).0 == 0
  {
    hide Pow2, LowDivision, ShiftRight;
    ShiftZero(0, 63);
    LowStart(s - 1, 0, s);
    LowStep(s - 1, 0, s, 63);
    assert ShiftIn(s - 1, BitAt(0, 63)) == 2 * (s - 1) - WORD;
  }

  /** For a larger divisor the top bit is lost: `(s - 1) * 2^192` comes out wrong. */
  lemma {:induction false} WrongAboveTopBit(s: Word)
    requires s > TOP_BIT
    ensures var x := Target256(s - 1, 0, 0, 0); DividedByResult(x, s).0.Value() != x.Value() / s
  {
    hide Div128Result;
    Div128Small(s - 1, s);
    DivModUnique(s - 1, s, 0, s - 1);
    TopBitLost(s);
    var x := Target256(s - 1, 0, 0, 0);
    var q := DividedByResult(x, s).0;
    assert q.w3 == 0 && q.w2 < TOP_BIT;
    QuotientAtLeast(x.Value(), s, TOP_BIT * WORD * WORD);
  }

  lemma {:induction false} QuotientAtLeast(x: nat, d: nat, k: nat)
    requires d > 0 && k * d <= x
    ensures x / d >= k
  {
    DivBounds(x, d);
    MulMonotone(x / d + 1, k, d);
    assert (x / d + 1) * d == x / d * d + d;
  }

  /** Division by a word is exact for every dividend if and only if the divisor is at most 2^63. */
  lemma {:induction false} DividedByExact(s: Word)
    requires s > 0
    ensures (forall x: Target256 :: var (q, r) := DividedByResult(x, s); q.Value() == x.Value() / s && r == x.Value() % s)
      <==> s <= TOP_BIT
  {
    if s <= TOP_BIT {
      forall x: Target256
        ensures var (q, r) := DividedByResult(x, s); q.Value() == x.Value() / s && r == x.Value() % s
      {
        ExactUpToTopBit(x, s);
      }
    } else {
      WrongAboveTopBit(s);
      var x := Target256(s - 1, 0, 0, 0);
      assert DividedByResult(x, s).0.Value() != x.Value() / s;
    }
  }

  // ---- Shifts and single bits ----

  /** `w << b` on a 64-bit word. */
  function ShiftWordLeft(w: Word, b: nat): Word
    requires b < 64
  {
    w * Pow2(b) % WORD
  }

  /** Shifts by whole words. */
  function ShiftWords(x: Target256, n: nat): Target256
    requires n < 4
  {
    if n == 0 then x
    else if n == 1 then Target256(x.w2, x.w1, x.w0, 0)
    else if n == 2 then Target256(x.w1, x.w0, 0, 0)
    else Target256(x.w0, 0, 0, 0)
  }

  lemma {:induction false} ShiftWordsMeaning(x: Target256, n: nat)
    requires n < 4
    ensures ShiftWords(x, n).Value() == x.Value() * Pow2(64 * n) % LIMIT
  {
    hide Pow2;
    PowZero();
    PowWord();
    PowLimit();
    if n == 0 {
      ModUnique(x.Value(), 0, x.Value());
    } else if n == 1 {
      ModUnique(x.Value() * WORD, x.w3, ShiftWords(x, 1).Value());
    } else if n == 2 {
      ModUnique(x.Value() * (WORD * WORD), x.w2 + WORD * x.w3, ShiftWords(x, 2).Value());
    } else {
      ModUnique(x.Value() * (WORD * WORD * WORD), x.w1 + WORD * (x.w2 + WORD * x.w3), ShiftWords(x, 3).Value());
    }
  }

  /** The shifted word and the bits that move up into the next one. */
  lemma {:induction false} ShiftWordParts(w: Word, b: nat)
    requires 0 < b < 64
    ensures ShiftWordLeft(w, b) + WORD * ShiftRight(w, 64 - b) == w * Pow2(b)
    ensures ShiftRight(w, 64 - b) < Pow2(b)
    ensures exists k: nat :: ShiftWordLeft(w, b) == k * Pow2(b)
  {
    hide Pow2, ShiftRight;
    PowWord();
    var h, p, q := ShiftRight(w, 64 - b), Pow2(b), Pow2(64 - b);
    PowAdd(64 - b, b);
    ShiftBounds(w, 64 - b);
    WordShift(w, h, p, q);
  }

  lemma {:induction false} WordShift(w: Word, h: nat, p: nat, q: nat)
    requires q * p == WORD && h * q <= w < (h + 1) * q && p > 0 && q > 0
    ensures w * p % WORD + WORD * h == w * p && h < p
    ensures w * p % WORD == (w - h * q) * p
  {
    var low := w - h * q;
    assert low < q by { assert (h + 1) * q == h * q + q; }
    ShiftedParts(w, h, p, q, low);
    DivModUnique(w * p, WORD, h, low * p);
    MulInjectiveLess(h, p, q);
  }

  lemma {:induction false} ShiftedParts(w: nat, h: nat, p: nat, q: nat, low: nat)
    requires q * p == WORD && w == h * q + low && low < q && p > 0
    ensures w * p == h * WORD + low * p && low * p < WORD
  {
    MulAssoc(h, q, p);
    assert w * p == h * q * p + low * p;
    MulMonotone(low + 1, q, p);
    assert (low + 1) * p == low * p + p;
  }

  /** Whole words first, then bits; a word's cleared low bits take what the one below moves up. */
  method ShiftedLeft(x: Target256, n: nat) returns (r: Target256)
    ensures r.Value() == x.Value() * Pow2(n) % LIMIT
  {
    hide Pow2, ShiftRight, ShiftWordLeft, ShiftWords;
    if n == 0 {
      PowZero();
      ModUnique(x.Value(), 0, x.Value());
      return x;
    }
    if n >= 256 {
      BeyondLimit(x.Value(), n);
      return ZERO;
    }
    var s, b := ShiftWords(x, n / 64), n % 64;
    ShiftWordsMeaning(x, n / 64);
    PowAdd(64 * (n / 64), b);
    if b == 0 {
      PowZero();
      return s;
    }
    JoinedWords(s, b);
    ShiftAgain(x.Value(), 64 * (n / 64), b);
    r := Target256(
      ShiftWordLeft(s.w3, b) + ShiftRight(s.w2, 64 - b),
      ShiftWordLeft(s.w2, b) + ShiftRight(s.w1, 64 - b),
      ShiftWordLeft(s.w1, b) + ShiftRight(s.w0, 64 - b),
      ShiftWordLeft(s.w0, b));
  }

  lemma {:induction false} ShiftAgain(x: nat, a: nat, b: nat)
    ensures x * Pow2(a) % LIMIT * Pow2(b) % LIMIT == x * Pow2(a + b) % LIMIT
  {
    hide Pow2;
    PowAdd(a, b);
    ModProduct(x * Pow2(a), Pow2(b));
    MulAssoc(x, Pow2(a), Pow2(b));
  }

  /** The words shifted by some bits, each with what the one below moves up. */
  lemma {:induction false} JoinedWords(s: Target256, b: nat)
    requires 0 < b < 64
    ensures ShiftWordLeft(s.w3, b) + ShiftRight(s.w2, 64 - b) < WORD
    ensures ShiftWordLeft(s.w2, b) + ShiftRight(s.w1, 64 - b) < WORD
    ensures ShiftWordLeft(s.w1, b) + ShiftRight(s.w0, 64 - b) < WORD
    ensures Target256(
        ShiftWordLeft(s.w3, b) + ShiftRight(s.w2, 64 - b),
        ShiftWordLeft(s.w2, b) + ShiftRight(s.w1, 64 - b),
        ShiftWordLeft(s.w1, b) + ShiftRight(s.w0, 64 - b),
        ShiftWordLeft(s.w0, b)).Value() == s.Value() * Pow2(b) % LIMIT
  {
    hide Pow2, ShiftRight, ShiftWordLeft;
    ShiftWordParts(s.w0, b);
    ShiftWordParts(s.w1, b);
    ShiftWordParts(s.w2, b);
    ShiftWordParts(s.w3, b);
    JoinFits(s.w1, s.w0, b);
    JoinFits(s.w2, s.w1, b);
    JoinFits(s.w3, s.w2, b);
    var r := Target256(
      ShiftWordLeft(s.w3, b) + ShiftRight(s.w2, 64 - b),
      ShiftWordLeft(s.w2, b) + ShiftRight(s.w1, 64 - b),
      ShiftWordLeft(s.w1, b) + ShiftRight(s.w0, 64 - b),
      ShiftWordLeft(s.w0, b));
    ProductOfParts(s.w0, s.w1, s.w2, s.w3, Pow2(b));
    ModUnique(s.Value() * Pow2(b), ShiftRight(s.w3, 64 - b), r.Value());
  }

  lemma {:induction false} JoinFits(high: Word, low: Word, b: nat)
    requires 0 < b < 64
    ensures ShiftWordLeft(high, b) + ShiftRight(low, 64 - b) < WORD
  {
    hide Pow2, ShiftRight, ShiftWordLeft;
    ShiftWordParts(high, b);
    ShiftWordParts(low, b);
    PowWord();
    PowAdd(64 - b, b);
    var k: nat :| ShiftWordLeft(high, b) == k * Pow2(b);
    MulInjectiveLess(k, Pow2(64 - b), Pow2(b));
    MulMonotone(k + 1, Pow2(64 - b), Pow2(b));
    assert (k + 1) * Pow2(b) == k * Pow2(b) + Pow2(b);
  }

  lemma {:induction false} MulInjectiveLess(a: nat, b: nat, c: nat)
    requires c > 0 && a * c < b * c
    ensures a < b
  {
    if a >= b {
      MulMonotone(b, a, c);
    }
  }

  lemma {:induction false} ModProduct(a: nat, p: nat)
    ensures a % LIMIT * p % LIMIT == a * p % LIMIT
  {
    var q, r := a / LIMIT, a % LIMIT;
    DivModLaw(a, LIMIT);
    DivModLaw(r * p, LIMIT);
    ModParts(a, q, r, p);
    ModUnique(a * p, q * p + r * p / LIMIT, r * p % LIMIT);
  }

  lemma {:induction false} ModParts(a: nat, q: nat, r: nat, p: nat)
    requires a == q * LIMIT + r
    ensures a * p == q * p * LIMIT + r * p
  {
  }

  lemma {:induction false} BeyondLimit(x: nat, n: nat)
    requires n >= 256
    ensures x * Pow2(n) % LIMIT == 0
  {
    hide Pow2;
    PowLimit();
    PowAdd(n - 256, 256);
    MulAssoc(x, Pow2(n - 256), LIMIT);
    ModUnique(x * Pow2(n), x * Pow2(n - 256), 0);
  }

  /** `w | (1 << pos)` on one word. */
  function SetWordBit(w: Word, pos: nat): Word
    requires pos < 64
  {
    hide Pow2, ShiftRight;
    SetBitFits(w, pos);
    if BitAt(w, pos) == 0 then w + Pow2(pos) else w
  }

  lemma {:induction false} SetBitFits(w: Word, pos: nat)
    requires pos < 64
    ensures BitAt(w, pos) == 0 ==> w + Pow2(pos) < WORD
  {
    hide Pow2, ShiftRight;
    if BitAt(w, pos) == 0 {
      var h, p := ShiftRight(w, pos), Pow2(pos);
      ShiftBounds(w, pos);
      PowWord();
      PowAdd(63 - pos, pos + 1);
      PowNext(63);
      PowNext(pos);
      PowAdd(64 - pos, pos);
      PowNext(63 - pos);
      EvenBelow(w, h, p, Pow2(63 - pos));
    }
  }

  lemma {:induction false} EvenBelow(w: nat, h: nat, p: nat, half: nat)
    requires h % 2 == 0 && h * p <= w < (h + 1) * p && w < 2 * half * p && p > 0
    ensures w + p < 2 * half * p
  {
    MulInjectiveLess(h, 2 * half, p);
    MulMonotone(h + 2, 2 * half, p);
    assert (h + 1) * p + p == (h + 2) * p;
  }

  method SetBit(x: Target256, i: nat) returns (r: Target256)
    requires i < 256
    ensures r.Value() == if BitAt(x.Value(), i) == 0 then x.Value() + Pow2(i) else x.Value()
  {
    hide Pow2, ShiftRight, BitAt;
    BitMeaning(x, i);
    PowWord();
    PowLimit();
    if i < 64 {
      r := x.(w0 := SetWordBit(x.w0, i));
    } else if i < 128 {
      PowAdd(64, i - 64);
      r := x.(w1 := SetWordBit(x.w1, i - 64));
    } else if i < 192 {
      PowAdd(128, i - 128);
      r := x.(w2 := SetWordBit(x.w2, i - 128));
    } else {
      PowAdd(192, i - 192);
      r := x.(w3 := SetWordBit(x.w3, i - 192));
    }
  }

  // ---- Division by a 256-bit number ----

  /** Below a cleared run of bits the next bit is clear too. */
  lemma {:induction false} BitOfMultiple(k: nat, i: nat)
    ensures BitAt(Pow2(i + 1) * k, i) == 0
  {
    hide Pow2, ShiftRight;
    ShiftLow(0, k, i + 1, i);
    ShiftZero(0, i);
    PowNext(0);
    PowZero();
    AddEven(0, k);
  }

  /** Long division after the bits from `i` up: both parts are those of the dividend's prefix. */
  predicate Divided(v: nat, d: nat, i: nat, q: nat, r: nat)
    requires d > 0
  {
    q == Pow2(i) * (ShiftRight(v, i) / d) && r == ShiftRight(v, i) % d
  }

  lemma {:induction false} DivideStart(v: nat, d: nat)
    requires d > 0
    ensures Divided(v, d, BitLength(v), 0, 0)
  {
    hide Pow2, ShiftRight, BitLength;
    LengthBounds(v);
    ShiftZero(v, BitLength(v));
    DivModUnique(0, d, 0, 0);
  }

  lemma {:induction false} DivideStep(v: nat, d: nat, i: nat, q: nat, r: nat)
    requires 0 < d && Divided(v, d, i + 1, q, r)
    ensures var next := 2 * r + BitAt(v, i);
      && next <= v
      && BitAt(q, i) == 0
      && Divided(v, d, i, if next >= d then q + Pow2(i) else q, if next >= d then next - d else next)
  {
    var p := ShiftRight(v, i + 1);
    assert ShiftRight(v, i) == 2 * p + BitAt(v, i);
    hide Pow2, ShiftRight, BitAt;
    LongDivision(p, BitAt(v, i), d);
    QuotientBit(i, p / d);
    BitOfMultiple(p / d, i);
    ShiftShrinks(v, i);
    DivModLaw(p, d);
    MulMonotone(0, p / d, d);
  }

  lemma {:induction false} DivideEnd(v: nat, d: nat, q: nat, r: nat)
    requires d > 0 && Divided(v, d, 0, q, r)
    ensures q == v / d && r == v % d
  {
    hide Pow2, ShiftRight;
    PowZero();
    ShiftNone(v);
  }

  /** Exact for every nonzero divisor: the shifted remainder never exceeds the dividend's prefix. */
  method DivMod(x: Target256, d: Target256) returns (quotient: Target256, remainder: Target256)
    requires !d.IsZero()
    ensures d.Value() > 0
    ensures quotient.Value() == x.Value() / d.Value() && remainder.Value() == x.Value() % d.Value()
  {
    hide *;
    ZeroMeaning(d);
    SmallValues();
    LessMeaning(x, d);
    if x.Less(d) {
      DivModUnique(x.Value(), d.Value(), 0, x.Value());
      return ZERO, x;
    }
    if x == d {
      DivModUnique(x.Value(), d.Value(), 1, 0);
      return ONE, ZERO;
    }
    quotient, remainder := ZERO, ZERO;
    var i := x.Length();
    LengthMeaning(x);
    LengthFits(x);
    DivideStart(x.Value(), d.Value());
    while i > 0
      invariant 0 <= i <= 256 && Divided(x.Value(), d.Value(), i, quotient.Value(), remainder.Value())
    {
      i := i - 1;
      quotient, remainder := DivideBit(x, d, i, quotient, remainder);
    }
    DivideEnd(x.Value(), d.Value(), quotient.Value(), remainder.Value());
  }

  /** One bit of the long division. */
  method DivideBit(x: Target256, d: Target256, i: nat, q: Target256, r: Target256)
    returns (quotient: Target256, remainder: Target256)
    requires i < 256 && d.Value() > 0 && Divided(x.Value(), d.Value(), i + 1, q.Value(), r.Value())
    ensures Divided(x.Value(), d.Value(), i, quotient.Value(), remainder.Value())
  {
    hide *;
    DivideStep(x.Value(), d.Value(), i, q.Value(), r.Value());
    remainder := ShiftOnce(r, x, i);
    quotient := q;
    LessMeaning(remainder, d);
    if !remainder.Less(d) {
      DifferenceFits(remainder.Value(), d.Value());
      remainder := Subtract(remainder, d);
      quotient := SetBit(quotient, i);
    }
  }

  lemma {:induction false} DifferenceFits(a: nat, b: nat)
    requires b <= a < LIMIT
    ensures (a + LIMIT - b) % LIMIT == a - b
  {
    ModUnique(a + LIMIT - b, 1, a - b);
  }

  lemma {:induction false} LengthFits(x: Target256)
    ensures x.Length() <= 256
  {
    hide BitLength, Pow2;
    WordLength(x.w0);
    WordLength(x.w1);
    WordLength(x.w2);
    WordLength(x.w3);
  }

  lemma {:induction false} WordLength(w: Word)
    ensures BitLength(w) <= 64
  {
    hide BitLength, Pow2;
    PowWord();
    LengthBounds(w);
    if BitLength(w) > 64 {
      PowMonotone(64, BitLength(w) - 1);
      LengthZero(w);
    }
  }

  lemma {:induction false} LengthZero(w: nat)
    ensures BitLength(w) > 0 ==> w > 0
  {
  }

  lemma {:induction false} SmallValues()
    ensures ZERO.Value() == 0 && ONE.Value() == 1
  {
  }

  /** `remainder << 1`, with bit `i` of `x` moved in at the bottom. */
  method ShiftOnce(remainder: Target256, x: Target256, i: nat) returns (r: Target256)
    requires i < 256 && 2 * remainder.Value() + BitAt(x.Value(), i) < LIMIT
    ensures r.Value() == 2 * remainder.Value() + BitAt(x.Value(), i)
  {
    hide *;
    PowZero();
    PowNext(0);
    r := ShiftedLeft(remainder, 1);
    ModUnique(2 * remainder.Value(), 0, 2 * remainder.Value());
    BitMeaning(x, i);
    if x.Bit(i) {
      EvenLow(r, remainder.Value());
      r := r.(w0 := r.w0 + 1);
    }
  }

  lemma {:induction false} EvenLow(r: Target256, half: nat)
    requires r.Value() == 2 * half
    ensures r.w0 + 1 < WORD && r.(w0 := r.w0 + 1).Value() == r.Value() + 1
  {
  }

  // ---- Inverses ----

  /** `~x + 1`. */
  method TwosComplement(x: Target256) returns (r: Target256)
    ensures r.Value() == (LIMIT - x.Value()) % LIMIT
  {
    var inverted := Target256(WORD - 1 - x.w3, WORD - 1 - x.w2, WORD - 1 - x.w1, WORD - 1 - x.w0);
    assert inverted.Value() == LIMIT - 1 - x.Value();
    r := Add(inverted, ONE);
  }

  lemma {:induction false} InverseQuotient(d: nat)
    requires 0 < d < LIMIT
    ensures (LIMIT - d) / d + 1 == LIMIT / d && LIMIT - d < LIMIT
    ensures d > 1 ==> LIMIT / d < LIMIT
  {
    var q := LIMIT / d;
    DivModLaw(LIMIT, d);
    assert (q - 1) * d == q * d - d;
    DivUnique(LIMIT - d, d, q - 1);
    if d > 1 && q >= LIMIT {
      MulMonotone(2, d, q);
    }
  }

  /** floor(2^256 / x), which wraps to zero only for x == 1. */
  method InversePow2(x: Target256) returns (r: Target256)
    requires !x.IsZero()
    ensures x.Value() > 0
    ensures r.Value() == if x.Value() == 1 then 0 else LIMIT / x.Value()
  {
    hide *;
    ZeroMeaning(x);
    SmallValues();
    InverseQuotient(x.Value());
    var negated := TwosComplement(x);
    ModUnique(LIMIT - x.Value(), 0, LIMIT - x.Value());
    var q, rem := DivMod(negated, x);
    r := Add(q, ONE);
    InverseWraps(x.Value());
  }

  lemma {:induction false} InverseWraps(d: nat)
    requires 0 < d < LIMIT
    ensures ((LIMIT - d) / d + 1) % LIMIT == if d == 1 then 0 else LIMIT / d
  {
    InverseQuotient(d);
    if d == 1 {
      DivModUnique(LIMIT, d, LIMIT, 0);
      ModUnique(LIMIT, 1, 0);
    } else {
      ModUnique(LIMIT / d, 0, LIMIT / d);
    }
  }
}
