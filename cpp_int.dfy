/** The built-in C++ `int` operators that the capabilities forward to, on mathematical
    integers. Dafny's `/` and `%` are Euclidean, while C++ `/` truncates toward zero and
    its `%` takes the sign of the dividend, so both are written out here. */
module CppInt {

  function Abs(x: int): (r: nat)
  {
    if x < 0 then -x else x
  }

  /** How many whole copies of the divisor `d` fit into `m`: the magnitude of a quotient
      truncated toward zero. */
  function Fits(m: nat, d: nat): (k: nat)
    requires d > 0
    ensures k * d <= m < (k + 1) * d
    decreases m
  {
    if m < d then 0 else 1 + Fits(m - d, d)
  }

  /** C++ `a / b` on `int`: the quotient truncated toward zero. The divisor must not be
      zero (dividing by zero is undefined behaviour in C++). */
  function Div(a: int, b: int): (q: int)
    requires b != 0
    ensures Abs(q) * Abs(b) <= Abs(a) < (Abs(q) + 1) * Abs(b)
    ensures q == 0 || (q < 0 <==> (a < 0) != (b < 0))
  {
    var n: int := Fits(Abs(a), Abs(b));
    if (a < 0) == (b < 0) then n else -n
  }

  /** C++ `a % b` on `int`: what is left of `a` after taking `Div(a, b)` copies of `b`;
      smaller than the divisor in magnitude and never of the opposite sign to `a`. */
  function Rem(a: int, b: int): (r: int)
    requires b != 0
    ensures Div(a, b) * b + r == a
    ensures Abs(r) < Abs(b)
    ensures r == 0 || (r < 0 <==> a < 0)
  {
    a - Div(a, b) * b
  }

  /** The contract of `Div` is a full specification: only one quotient satisfies it. */
  lemma DivUnique(a: int, b: int, q: int)
    requires b != 0
    requires Abs(q) * Abs(b) <= Abs(a) < (Abs(q) + 1) * Abs(b)
    requires q == 0 || (q < 0 <==> (a < 0) != (b < 0))
    ensures q == Div(a, b)
  {
    var d := Div(a, b);
    FitsUnique(Abs(a), Abs(b), Abs(q));
    FitsUnique(Abs(a), Abs(b), Abs(d));
  }

  /** Only `Fits(m, d)` copies of `d` bracket `m`. */
  lemma {:induction false} FitsUnique(m: nat, d: nat, k: nat)
    requires d > 0
    requires k * d <= m < (k + 1) * d
    ensures k == Fits(m, d)
    decreases m
  {
    if m >= d {
      assert (k - 1) * d == k * d - d;
      FitsUnique(m - d, d, k - 1);
    }
  }

  /** Where both operands are non-negative, C++ and Dafny agree on `/` and `%`. */
  lemma DivRemAgreeWhenNonNegative(a: int, b: int)
    requires a >= 0 && b > 0
    ensures Div(a, b) == a / b && Rem(a, b) == a % b
  {
    assert a == (a / b) * b + a % b;
    assert (a / b + 1) * b == (a / b) * b + b;
    DivUnique(a, b, a / b);
  }
}
