/** C99 integer division and remainder on `int`.

    Dafny's `/` and `%` are Euclidean (the remainder is never negative);
    C's truncate the quotient toward zero, so the remainder takes the sign
    of the dividend. The sprite code divides and takes remainders of signed
    `int` values, so the model uses these two functions wherever the source
    writes `/` or `%` on values that are not known to be non-negative. */
module CArith {

  function Abs(x: int): (r: nat)
    ensures r == x || r == -x
  {
    if x < 0 then -x else x
  }

  /** `a / b` as C evaluates it: the quotient rounded toward zero. */
  function TruncDiv(a: int, b: int): (q: int)
    requires b != 0
    ensures Abs(a - q * b) < Abs(b)
    ensures a - q * b == 0 || (a - q * b < 0 <==> a < 0)
    ensures a >= 0 && b > 0 ==> q == a / b
  {
    if a >= 0 then
      if b > 0 then a / b else -(a / -b)
    else
      if b > 0 then -((-a) / b) else (-a) / (-b)
  }

  /** `a % b` as C evaluates it: `a == (a / b) * b + a % b` with C's `/`. */
  function TruncRem(a: int, b: int): (r: int)
    requires b != 0
    ensures a == TruncDiv(a, b) * b + r
    ensures Abs(r) < Abs(b)
    ensures r == 0 || (r < 0 <==> a < 0)
    ensures a >= 0 && b > 0 ==> r == a % b
  {
    a - TruncDiv(a, b) * b
  }
}
