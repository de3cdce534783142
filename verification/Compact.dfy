/**
 * Compact targets (Sources/Consensus/Target256.swift, lines 66 to 129): what encoding loses, and
 * that it loses it in the safe direction.
 */
module Compact {
  import opened Arith
  import opened Bits
  import opened Target256
  import Endian

  const SIGN := 0x80_0000
  const EXPONENT := 0x100_0000

  type Bits32 = b: nat | b < 0x1_0000_0000

  /** The target a compact value stands for: mantissa * 256^(exponent - 3), cut to 256 bits. */
  function Decoded(bits: nat): nat {
    var exp, mantissa := bits / EXPONENT, bits % SIGN;
    if bits / SIGN % 2 == 1 then 0
    else if exp <= 3 then ShiftRight(mantissa, 8 * (3 - exp))
    else mantissa * Pow2(8 * (exp - 3)) % LIMIT
  }

  /** The number of significant bytes. */
  function ByteLength(v: nat): nat {
    (BitLength(v) + 7) / 8
  }

  /** The top three bytes and the byte count, one byte coarser when the sign bit would be set. */
  function Encoded(v: nat): nat {
    if v == 0 then 0
    else
      var n := ByteLength(v);
      var m := if n <= 3 then v * Pow2(8 * (3 - n)) else ShiftRight(v, 8 * (n - 3));
      if m >= SIGN then (n + 1) * EXPONENT + m / 256 else n * EXPONENT + m
  }

  // ---- Decoding words ----

  method FromCompact(bits: Bits32) returns (target: Target256)
    ensures target.Value() == Decoded(bits)
  {
    hide Pow2, ShiftRight, ShiftWordLeft;
    var exp, mantissa := bits / EXPONENT, bits % SIGN;
    if bits / SIGN % 2 == 1 {
      return ZERO;
    }
    if exp <= 3 {
      ShiftShrinks(mantissa, 8 * (3 - exp));
      return ZERO.(w0 := ShiftRight(mantissa, 8 * (3 - exp)));
    }
    var byteOffset := exp - 3;
    var wordIndex, bitShift := byteOffset / 8, byteOffset % 8 * 8;
    var lo := ShiftWordLeft(mantissa, bitShift);
    var hi := if bitShift > 0 then ShiftRight(mantissa, 64 - bitShift) else 0;
    MovedParts(mantissa, bitShift, lo, hi);
    PlacedParts(mantissa, byteOffset);
    target := PlaceWords(lo, hi, wordIndex);
  }

  /** The two words at a word index; what lies beyond the fourth word is dropped. */
  method PlaceWords(lo: Word, hi: Word, index: nat) returns (target: Target256)
    ensures target.Value() == (lo + WORD * hi) * Pow2(64 * index) % LIMIT
  {
    hide Pow2;
    PowZero();
    PowWord();
    PowLimit();
    ghost var whole := (lo + WORD * hi) * Pow2(64 * index);
    if index == 0 {
      target := ZERO.(w0 := lo, w1 := hi);
      ModUnique(whole, 0, target.Value());
    } else if index == 1 {
      target := ZERO.(w1 := lo, w2 := hi);
      ModUnique(whole, 0, target.Value());
    } else if index == 2 {
      target := ZERO.(w2 := lo, w3 := hi);
      ModUnique(whole, 0, target.Value());
    } else if index == 3 {
      target := ZERO.(w3 := lo);
      ModUnique(whole, hi, target.Value());
    } else {
      BeyondLimit(lo + WORD * hi, 64 * index);
      target := ZERO;
    }
  }

  lemma {:induction false} PlacedParts(m: nat, byteOffset: nat)
    ensures m * Pow2(8 * byteOffset) == m * Pow2(byteOffset % 8 * 8) * Pow2(64 * (byteOffset / 8))
  {
    hide Pow2;
    var i, b := byteOffset / 8, byteOffset % 8 * 8;
    assert 8 * byteOffset == b + 64 * i;
    PowAdd(b, 64 * i);
    MulAssoc(m, Pow2(b), Pow2(64 * i));
  }

  lemma {:induction false} MovedParts(m: Word, b: nat, lo: Word, hi: nat)
    requires b < 64 && lo == ShiftWordLeft(m, b) && hi == if b > 0 then ShiftRight(m, 64 - b) else 0
    ensures lo + WORD * hi == m * Pow2(b) && hi < WORD
  {
    if b > 0 {
      hide Pow2, ShiftRight, ShiftWordLeft;
      ShiftWordParts(m, b);
      PowMonotone(b, 64);
      PowWord();
    } else {
      PowZero();
    }
  }

  // ---- Encoding words ----

  /** The eight bytes of a word, highest first, appended to those before. */
  method AppendWord(w: Word, before: seq<nat>) returns (bytes: seq<nat>)
    ensures |bytes| == |before| + 8 && bytes[..|before|] == before
    ensures forall i :: 0 <= i < 8 ==> bytes[|before| + i] == ShiftRight(w, 56 - i * 8) % 256
  {
    bytes := before;
    var i := 0;
    while i < 8
      invariant 0 <= i <= 8 && |bytes| == |before| + i && bytes[..|before|] == before
      invariant forall j :: 0 <= j < i ==> bytes[|before| + j] == ShiftRight(w, 56 - j * 8) % 256
    {
      bytes := bytes + [ShiftRight(w, 56 - i * 8) % 256];
      i := i + 1;
    }
  }

  method BigEndianBytes(x: Target256) returns (bytes: seq<nat>)
    ensures |bytes| == 32
    ensures forall k {:trigger bytes[k]} :: 0 <= k < 32 ==> bytes[k] == ShiftRight(x.Value(), 8 * (31 - k)) % 256
  {
    hide ShiftRight;
    var b8 := AppendWord(x.w3, []);
    var b16 := AppendWord(x.w2, b8);
    var b24 := AppendWord(x.w1, b16);
    bytes := AppendWord(x.w0, b24);
    forall k {:trigger bytes[k]} | 0 <= k < 32
      ensures bytes[k] == ShiftRight(x.Value(), 8 * (31 - k)) % 256
    {
      ByteMeaning(x, k);
      if k < 24 {
        assert bytes[k] == b24[k];
        if k < 16 {
          assert b24[k] == b16[k];
          if k < 8 {
            assert b16[k] == b8[k];
            assert b8[k] == b8[0 + k];
          } else {
            assert b16[k] == b16[8 + (k - 8)];
          }
        } else {
          assert b24[k] == b24[16 + (k - 16)];
        }
      } else {
        assert bytes[k] == bytes[24 + (k - 24)];
      }
    }
  }

  /** A byte of the value is a byte of one of the words. */
  lemma {:induction false} ByteMeaning(x: Target256, k: nat)
    requires k < 32
    ensures ShiftRight(x.Value(), 8 * (31 - k)) % 256
         == ShiftRight(if k < 8 then x.w3 else if k < 16 then x.w2 else if k < 24 then x.w1 else x.w0, 56 - k % 8 * 8) % 256
  {
    hide ShiftRight, Pow2;
    var s := 56 - k % 8 * 8;
    if k < 8 {
      assert 8 * (31 - k) == 192 + s;
      HighWord(x.w0, x.w1 + WORD * (x.w2 + WORD * x.w3), 192 + s);
      HighWord(x.w1, x.w2 + WORD * x.w3, 128 + s);
      HighWord(x.w2, x.w3, 64 + s);
    } else if k < 16 {
      assert 8 * (31 - k) == 128 + s;
      HighWord(x.w0, x.w1 + WORD * (x.w2 + WORD * x.w3), 128 + s);
      HighWord(x.w1, x.w2 + WORD * x.w3, 64 + s);
      LowByte(x.w2, x.w3, s);
    } else if k < 24 {
      assert 8 * (31 - k) == 64 + s;
      HighWord(x.w0, x.w1 + WORD * (x.w2 + WORD * x.w3), 64 + s);
      LowByte(x.w1, x.w2 + WORD * x.w3, s);
    } else {
      assert 8 * (31 - k) == s;
      LowByte(x.w0, x.w1 + WORD * (x.w2 + WORD * x.w3), s);
    }
  }

  lemma {:induction false} HighWord(a: Word, b: nat, i: nat)
    requires i >= 64
    ensures ShiftRight(a + WORD * b, i) == ShiftRight(b, i - 64)
  {
    hide ShiftRight, Pow2;
    PowWord();
    ShiftHigh(a, b, 64, i);
  }

  lemma {:induction false} LowByte(a: Word, b: nat, s: nat)
    requires s <= 56
    ensures ShiftRight(a + WORD * b, s) % 256 == ShiftRight(a, s) % 256
  {
    hide ShiftRight, Pow2;
    PowWord();
    ShiftLow(a, b, 64, s);
    PowAdd(8, 56 - s);
    PowByte();
    MulAssoc(256, Pow2(56 - s), b);
    AddWholeBytes(ShiftRight(a, s), Pow2(56 - s) * b);
  }

  lemma {:induction false} PowByte()
    ensures Pow2(8) == 256
  {
    PowZero();
    PowNext(0);
    PowNext(1);
    PowNext(2);
    PowNext(3);
    PowNext(4);
    PowNext(5);
    PowNext(6);
    PowNext(7);
  }

  lemma {:induction false} AddWholeBytes(x: nat, k: nat)
    ensures (x + 256 * k) % 256 == x % 256
  {
  }

  /** A shift by whole bytes. */
  lemma {:induction false} ShiftByte(v: nat, i: nat)
    ensures ShiftRight(v, i + 8) == ShiftRight(v, i) / 256
  {
    hide Pow2;
    ShiftTwice(v, i, 8);
    ShiftBounds(ShiftRight(v, i), 8);
    PowByte();
    hide ShiftRight;
    DivUnique(ShiftRight(v, i), 256, ShiftRight(v, i + 8));
  }

  lemma {:induction false} LengthOfShift(v: nat, i: nat)
    requires ShiftRight(v, i) > 0
    ensures BitLength(v) == i + BitLength(ShiftRight(v, i))
  {
    if i > 0 {
      LengthOfShift(v, i - 1);
    }
  }

  /** One byte more is one byte longer. */
  lemma {:induction false} ByteLengthStep(v: nat)
    requires v >= 256
    ensures ByteLength(v) == ByteLength(v / 256) + 1
  {
    hide BitLength, ShiftRight;
    ShiftByte(v, 0);
    ShiftNone(v);
    LengthOfShift(v, 8);
  }

  lemma {:induction false} ByteLengthOne(v: nat)
    requires 0 < v < 256
    ensures ByteLength(v) == 1
  {
    hide Pow2, BitLength;
    PowByte();
    PowZero();
    LengthBounds(v);
    LengthPositive(v);
    if BitLength(v) > 8 {
      PowMonotone(8, BitLength(v) - 1);
    }
  }

  /** How many bytes a value of this size has. */
  lemma {:induction false} ByteLengthSmall(v: nat)
    requires 0 < v < 0x1_0000_0000
    ensures ByteLength(v) == if v < 0x100 then 1 else if v < 0x1_0000 then 2 else if v < 0x100_0000 then 3 else 4
  {
    hide ByteLength;
    if v < 0x100 {
      ByteLengthOne(v);
    } else {
      ByteLengthStep(v);
      if v < 0x1_0000 {
        ByteLengthOne(v / 256);
      } else {
        ByteLengthStep(v / 256);
        if v < 0x100_0000 {
          ByteLengthOne(v / 256 / 256);
        } else {
          ByteLengthStep(v / 256 / 256);
          ByteLengthOne(v / 256 / 256 / 256);
        }
      }
    }
  }

  /** From four bytes on, one more byte moves the exponent and keeps the mantissa. */
  lemma {:induction false} EncodedStep(v: nat)
    requires v >= SIGN
    ensures v / 256 < SIGN ==> Encoded(v) == 4 * EXPONENT + v / 256
    ensures v / 256 >= SIGN ==> Encoded(v) == Encoded(v / 256) + EXPONENT
  {
    hide ByteLength, ShiftRight, Pow2;
    var u := v / 256;
    if u < SIGN {
      ByteLengthSmall(v);
      PowZero();
      ShiftByte(v, 0);
      ShiftNone(v);
    } else {
      ByteLengthStep(v);
      if u < 0x100_0000 {
        ByteLengthSmall(u);
        PowZero();
        ShiftByte(v, 0);
        ShiftNone(v);
      } else {
        ByteLengthLarge(u);
        var n := ByteLength(u);
        ShiftTwice(v, 8, 8 * (n - 3));
        ShiftByte(v, 0);
        ShiftNone(v);
      }
    }
  }

  lemma {:induction false} ByteLengthLarge(v: nat)
    requires v >= 0x100_0000
    ensures ByteLength(v) >= 4
  {
    hide ByteLength;
    ByteLengthStep(v);
    if v / 256 < 0x100_0000 {
      ByteLengthSmall(v / 256);
    } else {
      ByteLengthLarge(v / 256);
    }
  }

  // ---- What a round trip keeps ----

  /** `v` with its low bytes cleared until 23 bits are left. */
  function Rounded(v: nat): nat {
    if v < SIGN then v else 256 * Rounded(v / 256)
  }

  /** The weight of the lowest bit that survives. */
  function Grain(v: nat): nat {
    if v < SIGN then 1 else 256 * Grain(v / 256)
  }

  /** Encoding rounds down, by less than one part in 2^15. */
  lemma {:induction false} RoundedClose(v: nat)
    ensures Rounded(v) <= v < Rounded(v) + Grain(v)
    ensures v >= SIGN ==> Grain(v) * 0x8000 <= v
    ensures v > 0 ==> (v - Rounded(v)) * 0x8000 < v
  {
    if v >= SIGN {
      RoundedClose(v / 256);
      if v / 256 < SIGN {
        assert Grain(v / 256) == 1;
      }
    }
  }

  lemma {:induction false} RoundedLarge(v: nat)
    requires v >= SIGN
    ensures Rounded(v) >= SIGN
  {
    if v / 256 >= SIGN {
      RoundedLarge(v / 256);
    } else {
      assert Rounded(v / 256) == v / 256;
    }
  }

  lemma {:induction false} RoundedMonotone(v: nat, w: nat)
    requires v <= w
    ensures Rounded(v) <= Rounded(w)
  {
    if v >= SIGN {
      RoundedMonotone(v / 256, w / 256);
    } else if w >= SIGN {
      RoundedLarge(w);
    }
  }

  lemma {:induction false} RoundedTwice(v: nat)
    ensures Rounded(Rounded(v)) == Rounded(v)
    ensures Encoded(Rounded(v)) == Encoded(v)
  {
    if v >= SIGN {
      hide Encoded;
      RoundedTwice(v / 256);
      RoundedLarge(v);
      assert Rounded(v) / 256 == Rounded(v / 256);
      EncodedStep(v);
      EncodedStep(Rounded(v));
      if v / 256 >= SIGN {
        RoundedLarge(v / 256);
      }
    }
  }

  /** Exponent and mantissa of an encoded value of at least 24 bits. */
  lemma {:induction false} EncodedParts(v: nat) returns (e: nat, m: nat)
    requires v >= SIGN
    ensures e >= 4 && m < SIGN && Encoded(v) == e * EXPONENT + m && m * Pow2(8 * (e - 3)) == Rounded(v)
  {
    hide Encoded, Pow2;
    EncodedStep(v);
    if v / 256 < SIGN {
      e, m := 4, v / 256;
      PowByte();
    } else {
      e, m := EncodedParts(v / 256);
      PowAdd(8, 8 * (e - 3));
      PowByte();
      MulAssoc(m, 256, Pow2(8 * (e - 3)));
      MulAssoc(256, m, Pow2(8 * (e - 3)));
      e := e + 1;
    }
  }

  lemma {:induction false} DecodeParts(e: nat, m: nat)
    requires m < SIGN
    ensures Decoded(e * EXPONENT + m) ==
      if e <= 3 then ShiftRight(m, 8 * (3 - e)) else m * Pow2(8 * (e - 3)) % LIMIT
  {
    hide Pow2, ShiftRight;
    var bits := e * EXPONENT + m;
    DivModUnique(bits, EXPONENT, e, m);
    DivModUnique(bits, SIGN, 2 * e, m);
  }

  /** Decoding an encoded target gives it back rounded; targets below 2^23 come back exactly. */
  lemma {:induction false} RoundTrip(v: nat)
    requires v < LIMIT
    ensures Decoded(Encoded(v)) == Rounded(v)
  {
    hide Pow2, ShiftRight, Encoded, Decoded;
    if v >= SIGN {
      var e, m := EncodedParts(v);
      DecodeParts(e, m);
      hide Rounded;
      RoundedClose(v);
      ModUnique(m * Pow2(8 * (e - 3)), 0, m * Pow2(8 * (e - 3)));
    } else {
      SmallRoundTrip(v);
    }
  }

  lemma {:induction false} SmallRoundTrip(v: nat)
    requires v < SIGN
    ensures Decoded(Encoded(v)) == v
  {
    hide Pow2, ShiftRight, Decoded, ByteLength;
    PowZero();
    PowByte();
    PowAdd(8, 8);
    if v == 0 {
      DecodeParts(0, 0);
      ShiftZero(0, 24);
    } else {
      ByteLengthSmall(v);
      var n := ByteLength(v);
      var m := v * Pow2(8 * (3 - n));
      if m >= SIGN {
        assert Encoded(v) == (n + 1) * EXPONENT + m / 256;
        DecodeParts(n + 1, m / 256);
        ShiftedBack(m / 256, v, 8 * (2 - n));
      } else {
        assert Encoded(v) == n * EXPONENT + m;
        DecodeParts(n, m);
        ShiftedBack(m, v, 8 * (3 - n));
      }
    }
  }

  lemma {:induction false} ShiftedBack(m: nat, v: nat, s: nat)
    requires m == v * Pow2(s)
    ensures ShiftRight(m, s) == v
  {
    hide Pow2, ShiftRight;
    ShiftLow(0, v, s, s);
    ShiftZero(0, s);
    PowZero();
  }

  // ---- The encoder ----

  method ToCompact(x: Target256) returns (bits: nat)
    ensures bits == Encoded(x.Value())
  {
    hide Pow2, ShiftRight, BitLength, ShiftWordLeft;
    LengthMeaning(x);
    var length := x.Length();
    if length == 0 {
      ZeroLength(x.Value());
      return 0;
    }
    var byteLength := (length + 7) / 8;
    LengthFits(x);
    var mantissa: nat;
    if byteLength <= 3 {
      SmallValue(x);
      mantissa := x.w0 * Pow2((3 - byteLength) * 8);
    } else {
      var bytes := BigEndianBytes(x);
      var start := 32 - byteLength;
      mantissa := bytes[start] * 0x1_0000 + bytes[start + 1] * 0x100 + bytes[start + 2];
      TopBytes(x.Value(), byteLength);
    }
    NonZeroLength(x.Value());
    MantissaBound(x.Value());
    if mantissa >= SIGN {
      return (byteLength + 1) * EXPONENT + mantissa / 256;
    }
    return byteLength * EXPONENT + mantissa;
  }

  lemma {:induction false} ZeroLength(v: nat)
    ensures BitLength(v) == 0 ==> v == 0
  {
  }

  lemma {:induction false} NonZeroLength(v: nat)
    ensures BitLength(v) > 0 ==> v > 0
  {
  }

  lemma {:induction false} SmallValue(x: Target256)
    requires BitLength(x.Value()) <= 24
    ensures x.Value() == x.w0
  {
    hide Pow2, BitLength;
    LengthBounds(x.Value());
    PowMonotone(BitLength(x.Value()), 24);
    PowByte();
    PowAdd(8, 8);
    PowAdd(16, 8);
    SmallWord(x);
  }

  lemma {:induction false} SmallWord(x: Target256)
    requires x.Value() <= 0x100_0000
    ensures x.Value() == x.w0
  {
  }

  /** The three highest bytes read together are the value without its lower bytes. */
  lemma {:induction false} TopBytes(v: nat, n: nat)
    requires n == ByteLength(v) && n >= 4
    ensures ShiftRight(v, 8 * (n - 1)) % 256 * 0x1_0000 + ShiftRight(v, 8 * (n - 2)) % 256 * 0x100
          + ShiftRight(v, 8 * (n - 3)) % 256 == ShiftRight(v, 8 * (n - 3))
  {
    hide Pow2, ShiftRight, BitLength;
    ShiftByte(v, 8 * (n - 3));
    ShiftByte(v, 8 * (n - 2));
    ShiftByte(v, 8 * (n - 1));
    LengthBounds(v);
    PowMonotone(BitLength(v), 8 * n);
    ShiftZero(v, 8 * n);
    ThreeBytes(ShiftRight(v, 8 * (n - 3)));
  }

  lemma {:induction false} ThreeBytes(t: nat)
    requires t / 256 / 256 / 256 == 0
    ensures t / 256 / 256 % 256 * 0x1_0000 + t / 256 % 256 * 0x100 + t % 256 == t
  {
  }

  /** The mantissa has at most 24 bits, so masking it to 23 after the correction loses nothing. */
  lemma {:induction false} MantissaBound(v: nat)
    requires v > 0
    ensures (if ByteLength(v) <= 3 then v * Pow2(8 * (3 - ByteLength(v))) else ShiftRight(v, 8 * (ByteLength(v) - 3))) < EXPONENT
  {
    hide Pow2, ShiftRight, BitLength;
    var n := ByteLength(v);
    LengthBounds(v);
    PowMonotone(BitLength(v), 8 * n);
    PowByte();
    PowAdd(8, 8);
    PowAdd(16, 8);
    if n <= 3 {
      PowAdd(8 * n, 8 * (3 - n));
      MulMonotone(v + 1, Pow2(8 * n), Pow2(8 * (3 - n)));
    } else {
      PowAdd(24, 8 * (n - 3));
      ShiftBounds(v, 8 * (n - 3));
      MulInjectiveLess(ShiftRight(v, 8 * (n - 3)), Pow2(24), Pow2(8 * (n - 3)));
    }
  }

  // ---- To base 256 ----

  lemma {:induction false} PowersOf256(k: nat)
    ensures Pow2(8 * k) == Endian.Power256(k)
  {
    if k > 0 {
      PowersOf256(k - 1);
      PowAdd(8, 8 * (k - 1));
      PowByte();
      assert 8 * k == 8 + 8 * (k - 1);
    }
  }

  lemma {:induction false} PartsOf(e: nat, m: nat)
    requires m < SIGN
    ensures (e * EXPONENT + m) / EXPONENT == e && (e * EXPONENT + m) % SIGN == m && (e * EXPONENT + m) / SIGN % 2 == 0
    ensures (e * EXPONENT + SIGN + m) / SIGN % 2 == 1
  {
  }

  lemma {:induction false} ShiftIsDivision(m: nat, k: nat)
    ensures ShiftRight(m, 8 * k) == m / Endian.Power256(k)
  {
    hide *;
    PowersOf256(k);
    ShiftBounds(m, 8 * k);
    var q, p := ShiftRight(m, 8 * k), Pow2(8 * k);
    assert (q + 1) * p == q * p + p;
    DivUnique(m, p, q);
  }

  /** An exponent byte and a mantissa of 23 bits: the mantissa with its lowest byte at weight 256^(e - 3). */
  lemma {:induction false} DecodedLaw(e: nat, m: nat)
    requires m < SIGN
    ensures e > 3 ==> Decoded(e * EXPONENT + m) == m * Endian.Power256(e - 3) % LIMIT
    ensures e <= 3 ==> Decoded(e * EXPONENT + m) == m / Endian.Power256(3 - e)
    ensures Decoded(e * EXPONENT + SIGN + m) == 0
  {
    hide Pow2, ShiftRight, Endian.Power256;
    PartsOf(e, m);
    if e > 3 {
      PowersOf256(e - 3);
    } else {
      ShiftIsDivision(m, 3 - e);
    }
  }
}
