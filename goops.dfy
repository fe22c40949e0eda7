/** The piece of Go's integer semantics the model relies on. */
module GoOps {

  function Abs(n: int): int
  {
    if n < 0 then -n else n
  }

  /**
   * Go's integer division `a / b`, which truncates toward zero (Dafny's `/`
   * is Euclidean).  Its defining property: the remainder a - q * b is
   * smaller than |b| in size and has the sign of a.
   */
  function Quo(a: int, b: int): (q: int)
    requires b != 0
    ensures a >= 0 ==> 0 <= a - q * b < Abs(b)
    ensures a < 0 ==> -Abs(b) < a - q * b <= 0
  {
    if a >= 0 then a / b
    else if b > 0 then -((-a) / b)
    else (-a) / (-b)
  }
}
