/** Go's integer division, which truncates toward zero (Dafny's `/` is
    Euclidean). */
module GoArith {

  function Abs(x: int): (r: int)
    ensures 0 <= r && (r == x || r == -x)
  {
    if x < 0 then -x else x
  }

  /** `a / b` on Go integers. */
  function TruncDiv(a: int, b: int): int
    requires b != 0
  {
    if (a < 0) == (b < 0) then Abs(a) / Abs(b) else -(Abs(a) / Abs(b))
  }

  /** The quotient is truncated toward zero: the remainder has the sign of the
      dividend and is smaller than the divisor.  These two facts determine the
      quotient uniquely. */
  lemma TruncDivRemainder(a: int, b: int)
    requires b != 0
    ensures 0 <= a ==> 0 <= a - TruncDiv(a, b) * b < Abs(b)
    ensures a < 0 ==> -Abs(b) < a - TruncDiv(a, b) * b <= 0
  {
    var n: int, d: int := Abs(a), Abs(b);
    var m: int := n / d;
    if (a < 0) == (b < 0) {
      SameSignProduct(a, b, m, d);
    } else {
      OppositeSignProduct(a, b, m, d);
    }
  }

  lemma SameSignProduct(a: int, b: int, m: int, d: int)
    requires b != 0 && d == Abs(b) && m == Abs(a) / d && (a < 0) == (b < 0)
    ensures m * b == if b < 0 then -(m * d) else m * d
  {
    if b < 0 {
      assert b == -d;
    }
  }

  lemma OppositeSignProduct(a: int, b: int, m: int, d: int)
    requires b != 0 && d == Abs(b) && m == Abs(a) / d && (a < 0) != (b < 0)
    ensures -m * b == if b < 0 then m * d else -(m * d)
  {
    if b < 0 {
      assert b == -d;
    }
  }

  /** For a non-negative dividend and positive divisor Go and Dafny agree. */
  lemma TruncDivNatural(a: int, b: int)
    requires 0 <= a && 0 < b
    ensures TruncDiv(a, b) == a / b
  {
  }

  /** Every whole multiple of a positive divisor below the quotient stays below
      a non-negative dividend. */
  lemma TruncDivBelow(a: int, b: int, k: int)
    requires 0 <= a && 0 < b && 0 <= k < TruncDiv(a, b)
    ensures k * b < a
  {
    var q := TruncDiv(a, b);
    TruncDivRemainder(a, b);
    assert (k + 1) * b <= q * b by {
      MulMonotone(k + 1, q, b);
    }
  }

  lemma MulMonotone(x: int, y: int, b: int)
    requires x <= y && 0 < b
    ensures x * b <= y * b
  {
    assert y * b - x * b == (y - x) * b;
  }

  /** A negative amount divided by a positive one never gives a positive
      quotient. */
  lemma TruncDivNegative(a: int, b: int)
    requires a < 0 && 0 < b
    ensures TruncDiv(a, b) <= 0
  {
  }
}
