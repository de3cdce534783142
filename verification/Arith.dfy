/** Small facts about multiplication and division that the solver wants stated on their own. */
module Arith {

  lemma {:induction false} MulMonotone(a: int, b: int, c: nat)
    ensures a <= b ==> a * c <= b * c
  {
  }

  lemma {:induction false} DivBounds(x: int, d: nat)
    requires d > 0
    ensures x / d * d <= x < x / d * d + d
  {
  }

  /** The quotient is the only q with q*d <= x < (q+1)*d. */
  lemma {:induction false} DivUnique(x: int, d: nat, q: int)
    requires d > 0 && q * d <= x < q * d + d
    ensures x / d == q
  {
    DivBounds(x, d);
    var p := x / d;
    MulMonotone(p + 1, q, d);
    MulMonotone(q + 1, p, d);
    assert (p + 1) * d == p * d + d;
    assert (q + 1) * d == q * d + d;
  }

  lemma {:induction false} DivMonotone(a: int, b: int, d: nat)
    requires d > 0 && a <= b
    ensures a / d <= b / d
  {
    DivBounds(a, d);
    DivBounds(b, d);
    MulMonotone(b / d + 1, a / d, d);
    assert (b / d + 1) * d == b / d * d + d;
  }

  lemma {:induction false} MulInjective(a: nat, b: nat, c: nat)
    requires c > 0
    ensures a * c == b * c <==> a == b
  {
    MulMonotone(a + 1, b, c);
    MulMonotone(b + 1, a, c);
    assert (a + 1) * c == a * c + c;
    assert (b + 1) * c == b * c + c;
  }

  lemma {:induction false} MulMod(k: nat, d: nat)
    requires d > 0
    ensures k * d % d == 0 && k * d / d == k
  {
    DivUnique(k * d, d, k);
  }
}
