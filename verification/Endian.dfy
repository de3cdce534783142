/** Little-endian numbers: byte `k` has weight 256 to the power `k`, and bytes and numbers match. */
module Endian {
  import opened Base
  import opened Arith

  function Power256(k: nat): (p: nat)
    ensures p > 0
  {
    if k == 0 then 1 else 0x100 * Power256(k - 1)
  }

  /** Byte `k` is the `k`-th lowest digit to base 256. */
  lemma {:induction false} ByteAt(n: nat, size: nat, k: nat)
    requires k < size
    ensures LittleEndianBytes(n, size)[k] == n / Power256(k) % 0x100
  {
    if k > 0 {
      ByteAt(n / 0x100, size - 1, k - 1);
      DivTwice(n, 0x100, Power256(k - 1));
    } else {
      assert n / Power256(0) == n;
    }
  }

  lemma {:induction false} DivTwice(n: nat, a: nat, b: nat)
    requires a > 0 && b > 0
    ensures a * b > 0 && n / (a * b) == n / a / b
  {
    MulPositive(a, b);
    DivBounds(n, a);
    DivBounds(n / a, b);
    var q := n / a / b;
    assert q * (a * b) == q * b * a;
    MulMonotone(q * b, n / a, a);
    MulMonotone(n / a + 1, (q + 1) * b, a);
    assert (q + 1) * (a * b) == (q + 1) * b * a;
    DivUnique(n, a * b, q);
  }

  lemma {:induction false} MulPositive(a: nat, b: nat)
    requires a > 0 && b > 0
    ensures a * b > 0
  {
  }

  /** Reading what was written gives the number back, when it fits. */
  lemma {:induction false} RoundTrip(n: nat, size: nat)
    requires n < Power256(size)
    ensures LittleEndian(LittleEndianBytes(n, size)) == n
  {
    if size > 0 {
      RoundTrip(n / 0x100, size - 1);
      assert LittleEndianBytes(n, size)[1..] == LittleEndianBytes(n / 0x100, size - 1);
    }
  }

  lemma {:induction false} Bound(b: Bytes)
    ensures LittleEndian(b) < Power256(|b|)
  {
    if b != [] {
      Bound(b[1..]);
    }
  }

  lemma {:induction false} Widths()
    ensures Power256(1) == 0x100 && Power256(2) == 0x1_0000
    ensures Power256(4) == 0x1_0000_0000 && Power256(8) == 0x1_0000_0000_0000_0000
  {
    assert Power256(3) == 0x100_0000;
    assert Power256(5) == 0x100_0000_0000;
    assert Power256(6) == 0x1_0000_0000_0000;
    assert Power256(7) == 0x100_0000_0000_0000;
  }
}
