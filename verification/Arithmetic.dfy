/** Facts about products that the solver is better told than left to find. */
module Arithmetic {

  lemma Distribute(a: int, x: int, y: int)
    ensures a * (x + y) == a * x + a * y
  {
  }

  lemma MulMono(a: int, b: int, d: int)
    requires 0 <= d
    ensures a <= b ==> a * d <= b * d
  {
  }

  lemma SignTimes(y: real, t: real)
    requires t > 0.0
    ensures y > 0.0 <==> y * t > 0.0
    ensures y < 0.0 <==> y * t < 0.0
  {
  }
}
