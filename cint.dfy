// The C semantics of `int / int`: the quotient is truncated toward zero
// (section 6.5.5 of ISO/IEC 9899:1999), unlike Dafny's Euclidean `/`.

module CInt {

  function Abs(x: int): (a: nat)
    ensures a == x || a == -x
  {
    if x < 0 then -x else x
  }

  /** C `a / b`. The contract is the standard's characterisation: the
      remainder `a - q*b` is smaller than the divisor in magnitude and never
      has the opposite sign of the dividend. */
  function CDiv(a: int, b: int): (q: int)
    requires b != 0
    ensures Abs(a - q * b) < Abs(b)
    ensures a >= 0 ==> a - q * b >= 0
    ensures a <= 0 ==> a - q * b <= 0
  {
    var q := Abs(a) / Abs(b);
    TruncatedRemainder(Abs(a), Abs(b));
    MulNegate(q, b);
    if (a < 0) == (b < 0) then q else -q
  }

  lemma TruncatedRemainder(a: nat, b: nat)
    requires b > 0
    ensures 0 <= a - (a / b) * b < b
  {
  }

  lemma MulNegate(q: int, b: int)
    ensures (-q) * b == -(q * b) == q * (-b)
  {
  }

  lemma MulAbs(q: int, b: int)
    ensures Abs(q * b) == Abs(q) * Abs(b)
  {
  }

  lemma MulAtLeast(q: nat, b: nat)
    requires q >= 1
    ensures q * b >= b
  {
  }

  /** Truncation is symmetric under negation, which Euclidean division is not. */
  lemma CDivNegate(a: int, b: int)
    requires b != 0
    ensures CDiv(-a, b) == -CDiv(a, b)
    ensures CDiv(a, -b) == -CDiv(a, b)
  {
  }

  /** The quotient is zero exactly when the dividend is smaller than the
      divisor in magnitude. */
  lemma CDivZeroIff(a: int, b: int)
    requires b != 0
    ensures CDiv(a, b) == 0 <==> Abs(a) < Abs(b)
  {
    var q := CDiv(a, b);
    if q != 0 {
      // |q*b| >= |b|, and the remainder a - q*b never has the opposite
      // sign of a, so a is at least as large as b in magnitude
      MulAbs(q, b);
      MulAtLeast(Abs(q), Abs(b));
      assert Abs(q * b) >= Abs(b);
    }
  }
}
