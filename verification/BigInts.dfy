/** Division of BigInts, which truncates toward zero. */
module BigInts {

  function Quotient(a: int, b: int): (q: int)
    requires b != 0
  {
    if (a >= 0) == (b > 0) then Abs(a) / Abs(b) else -(Abs(a) / Abs(b))
  }

  function Abs(a: int): nat { if a >= 0 then a else -a }

  /** For a non-negative dividend: the largest integer whose product with the divisor fits. */
  lemma QuotientFits(a: int, b: int, k: int)
    requires a >= 0 && b > 0
    ensures k <= Quotient(a, b) <==> k * b <= a
  {
    var q := a / b;
    assert a == q * b + a % b;
    if k <= q { Monotone(k, q, b); } else { Monotone(q + 1, k, b); assert (q + 1) * b == q * b + b; }
  }

  lemma Divides(x: nat, y: nat) returns (q: int, rest: int)
    requires y > 0
    ensures q == x / y && x == q * y + rest && 0 <= rest < y
  {
    q, rest := x / y, x % y;
  }

  lemma Signs(q: int, b: int)
    ensures (-q) * b == -(q * b) && q * (-b) == -(q * b) && (-q) * (-b) == q * b
  {
  }

  /** The quotient comes within one divisor of the dividend, from the side of zero. */
  lemma Truncates(a: int, b: int) returns (rest: int)
    requires b != 0
    ensures a == Quotient(a, b) * b + rest && Abs(rest) < Abs(b) && (if a >= 0 then rest >= 0 else rest <= 0)
  {
    var q, r := Divides(Abs(a), Abs(b));
    Signs(q, b);
    rest := if a >= 0 then r else -r;
    if b < 0 { assert q * Abs(b) == -(q * b); }
  }

  lemma Monotone(x: int, y: int, b: int)
    requires x <= y && b >= 0
    ensures x * b <= y * b
  {
    assert y * b - x * b == (y - x) * b;
  }

  /** A quotient is negative exactly when the dividend is at least one divisor below zero. */
  lemma QuotientNegative(a: int, b: int)
    requires b > 0
    ensures Quotient(a, b) < 0 <==> a <= -b
  {
    if a < 0 {
      AtLeastOne(-a, b);
      assert Quotient(a, b) == -(-a / b);
    } else {
      QuotientFits(a, b, 0);
    }
  }

  lemma AtLeastOne(a: int, b: int)
    requires a >= 0 && b > 0
    ensures a / b >= 1 <==> a >= b
  {
    var q := a / b;
    assert a == q * b + a % b;
    if q >= 1 { Monotone(1, q, b); } else { assert q * b == 0; }
  }

  /** The smallest integer whose product with the divisor reaches the dividend. */
  lemma CeilingReaches(a: int, b: int, k: int)
    requires a >= 0 && b > 0
    ensures Quotient(a + b - 1, b) <= k <==> a <= k * b
  {
    QuotientFits(a + b - 1, b, k + 1);
    assert (k + 1) * b == k * b + b;
  }
}
